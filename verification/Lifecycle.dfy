/**
 The life of one upstream connection (internal/gateway/drain.go and upstream.go): calls
 that enter and leave, the drain channel, `Close`, the initial `Connect` and the
 reconnecting supervisor.

 `Shared` is what `Upstream.mu` guards, and each function on it is one critical section.
 The class `Upstream` is the object those sections update in place. `State` adds the
 program counters of the goroutines, and a `Step` is one critical section or one
 unlocked action, so a run is any interleaving of calls, redials and closes.
 */
module Lifecycle {
  import opened Options

  type Tid = nat   // a transport some connect attempt built, together with its session
  type Chan = nat  // a `drained` channel
  type Call = nat  // one forwarded request

  datatype Shared = Shared(closed: bool, session: Option<Tid>, inflight: int, drained: Option<Chan>)

  datatype Entered = UpstreamClosed | NotConnected | Claimed(session: Tid)

  // ----- the critical sections

  function EnterCS(u: Shared): (Shared, Entered) {
    if u.closed then (u, UpstreamClosed)
    else if u.session.None? then (u, NotConnected)
    else (u.(inflight := u.inflight + 1), Claimed(u.session.value))
  }

  /** The second component is the channel to close, if this was the last call a drain waits for. */
  function LeaveCS(u: Shared): (Shared, Option<Chan>) {
    var v := u.(inflight := u.inflight - 1);
    if v.inflight == 0 && v.drained.Some? then (v.(drained := None), v.drained) else (v, None)
  }

  /** Arms a drain; the second component is the channel to wait on, or none when nothing is in flight. */
  function DrainCS(u: Shared, next: Chan): (Shared, Option<Chan>) {
    if u.inflight == 0 then (u, None)
    else
      var ch := if u.drained.None? then next else u.drained.value;
      (u.(drained := Some(ch)), Some(ch))
  }

  /** Installs a dialed session unless the upstream was closed meanwhile. */
  function InstallCS(u: Shared, t: Tid): (Shared, bool) {
    if u.closed then (u, false) else (u.(session := Some(t)), true)
  }

  function TakeCS(u: Shared): (Shared, Option<Tid>) {
    (u.(session := None), u.session)
  }

  function CloseCS(u: Shared): (Shared, bool) {
    (u.(closed := true), !u.closed)
  }

  class Upstream {
    var closed: bool
    var session: Option<Tid>
    var inflight: int
    var drained: Option<Chan>

    ghost function View(): Shared
      reads this
    {
      Shared(closed, session, inflight, drained)
    }

    constructor ()
      ensures View() == Shared(false, None, 0, None)
    {
      closed, session, inflight, drained := false, None, 0, None;
    }

    method Enter() returns (r: Entered)
      modifies this
      ensures (View(), r) == EnterCS(old(View()))
      ensures old(closed) ==> r == UpstreamClosed && View() == old(View())
      ensures !old(closed) && old(session).None? ==> r == NotConnected && View() == old(View())
      ensures !old(closed) && old(session).Some? ==>
                r == Claimed(old(session).value) && View() == old(View()).(inflight := old(inflight) + 1)
    {
      if closed {
        return UpstreamClosed;
      }
      if session.None? {
        return NotConnected;
      }
      inflight := inflight + 1;
      return Claimed(session.value);
    }

    method Leave() returns (wake: Option<Chan>)
      modifies this
      ensures (View(), wake) == LeaveCS(old(View()))
      ensures inflight == old(inflight) - 1 && closed == old(closed) && session == old(session)
      ensures wake == (if inflight == 0 then old(drained) else None)
      ensures drained == (if inflight == 0 then None else old(drained))
    {
      inflight := inflight - 1;
      wake := None;
      if inflight == 0 && drained.Some? {
        wake := drained;
        drained := None;
      }
    }

    method ArmDrain(next: Chan) returns (ch: Option<Chan>)
      modifies this
      ensures (View(), ch) == DrainCS(old(View()), next)
      ensures inflight == old(inflight) && closed == old(closed) && session == old(session)
      ensures inflight == 0 ==> ch.None? && drained == old(drained)
      ensures inflight != 0 ==> ch.Some? && drained == ch
      ensures inflight != 0 ==> ch == (if old(drained).Some? then old(drained) else Some(next))
    {
      if inflight == 0 {
        return None;
      }
      if drained.None? {
        drained := Some(next);
      }
      return drained;
    }

    method Install(t: Tid) returns (ok: bool)
      modifies this
      ensures (View(), ok) == InstallCS(old(View()), t)
      ensures ok == !old(closed)
      ensures View() == if ok then old(View()).(session := Some(t)) else old(View())
    {
      if closed {
        return false;
      }
      session := Some(t);
      return true;
    }

    method TakeResources() returns (t: Option<Tid>)
      modifies this
      ensures (View(), t) == TakeCS(old(View()))
      ensures t == old(session) && View() == old(View()).(session := None)
    {
      t := session;
      session := None;
    }

    method MarkClosed() returns (first: bool)
      modifies this
      ensures (View(), first) == CloseCS(old(View()))
      ensures first == !old(closed) && View() == old(View()).(closed := true)
    {
      first := !closed;
      closed := true;
    }
  }

  // ----- the goroutines

  /** One connect attempt. `Ended` keeps whether it left a session behind. */
  datatype Dial = NoDial | Start | Checked | Dialing(t: Tid) | Failing(t: Tid) | Ended(ok: bool)

  datatype Supervisor = Look | Watching | Releasing(t: Option<Tid>) | Backoff | Redial

  /** The single dialer: first the caller of Connect, then the supervisor it starts. */
  datatype Dialer = Fresh | Connecting | Supervising(pc: Supervisor) | Gone

  datatype Closer =
    | NotClosing | ToDrain | DrainWait(ch: Chan) | ToCancel | ToTake | Letting(t: Option<Tid>) | Joining | Returned

  datatype State = State(
    u: Shared,
    claims: set<Call>,
    chans: nat,
    closedChans: set<Chan>,
    built: nat,
    releasing: set<Tid>,
    cleaned: seq<Tid>,
    dial: Dial,
    dialer: Dialer,
    closer: Closer,
    canceled: bool,
    quiet: bool,          // a drain with a non-negative timeout has reported true
    builder: set<Tid>)    // pending cleanups of the build, which skips an upstream it cannot list

  datatype Step =
    | CallEnter(c: Call) | CallLeave(c: Call)
    | ConnectBegin | ConnectEnd(supervise: bool)
    | DialCheck | DialBuild | DialBuildFail | DialFail | DialInstall | DialRelease
    | SupLook | SupDropped | SupReleased | SupWake | SupRedialed | SupStop
    | CloseBegin | CloseAgain | DrainSkip | DrainArm | DrainDone | DrainTimeout
    | CancelSup | CloseTake | CloseReleased | CloseJoined
    | CallerCancel | BuilderTake | CleanUp(t: Tid)

  const INITIAL: State :=
    State(Shared(false, None, 0, None), {}, 0, {}, 0, {}, [], NoDial, Fresh, NotClosing, false, false, {})

  /** `drains` is whether the drain timeout is non-negative. */
  predicate Enabled(drains: bool, s: State, step: Step) {
    match step
    case CallEnter(c) => c !in s.claims
    case CallLeave(c) => c in s.claims
    case ConnectBegin => s.dialer.Fresh?
    case ConnectEnd(_) => s.dialer.Connecting? && s.dial.Ended?
    case DialCheck => s.dial.Start?
    case DialBuild => s.dial.Checked?
    case DialBuildFail => s.dial.Checked?
    case DialFail => s.dial.Dialing?
    case DialInstall => s.dial.Dialing?
    case DialRelease => s.dial.Failing?
    case SupLook => s.dialer == Supervising(Look)
    case SupDropped => s.dialer == Supervising(Watching)
    case SupReleased => s.dialer.Supervising? && s.dialer.pc.Releasing? && Released(s, s.dialer.pc.t)
    case SupWake => s.dialer == Supervising(Backoff)
    case SupRedialed => s.dialer == Supervising(Redial) && s.dial.Ended?
    case SupStop => s.canceled && (s.dialer == Supervising(Backoff) || s.dialer == Supervising(Watching))
    case CloseBegin => !s.u.closed
    case CloseAgain => s.u.closed
    case DrainSkip => !drains && s.closer.ToDrain?
    case DrainArm => drains && s.closer.ToDrain?
    case DrainDone => s.closer.DrainWait? && s.closer.ch in s.closedChans
    case DrainTimeout => s.closer.DrainWait?
    case CancelSup => s.closer.ToCancel?
    case CloseTake => s.closer.ToTake?
    case CloseReleased => s.closer.Letting? && Released(s, s.closer.t)
    case CloseJoined => s.closer.Joining?
    case CallerCancel => true
    case BuilderTake => true
    case CleanUp(t) => t in s.releasing
  }

  /** The cleanup of a resource taken by closeSessionResources has run. */
  predicate Released(s: State, t: Option<Tid>) {
    t.Some? ==> t.value !in s.releasing
  }

  /** closeSessionResources up to its unlock: the resource leaves the upstream, its cleanup is pending. */
  function Take(s: State): State {
    var (u, t) := TakeCS(s.u);
    s.(u := u, releasing := if t.Some? then s.releasing + {t.value} else s.releasing)
  }

  function Apply(drains: bool, s: State, step: Step): State
    requires Enabled(drains, s, step)
  {
    match step
    case CallEnter(c) =>
      var (u, r) := EnterCS(s.u);
      s.(u := u, claims := if r.Claimed? then s.claims + {c} else s.claims)
    case CallLeave(c) =>
      var (u, wake) := LeaveCS(s.u);
      s.(u := u, claims := s.claims - {c},
         closedChans := if wake.Some? then s.closedChans + {wake.value} else s.closedChans)
    case ConnectBegin => s.(dialer := Connecting, dial := Start)
    case ConnectEnd(supervise) =>
      s.(dialer := if s.u.closed || !supervise then Gone else Supervising(Look), dial := NoDial)
    case DialCheck => s.(dial := if s.u.closed then Ended(false) else if s.u.session.Some? then Ended(true)
        else Checked)
    case DialBuild => s.(dial := Dialing(s.built), built := s.built + 1)
    case DialBuildFail => s.(dial := Ended(false))
    case DialFail => s.(dial := Failing(s.dial.t))
    case DialInstall =>
      var (u, ok) := InstallCS(s.u, s.dial.t);
      s.(u := u, dial := if ok then Ended(true) else Failing(s.dial.t))
    case DialRelease => s.(cleaned := s.cleaned + [s.dial.t], dial := Ended(false))
    case SupLook => s.(dialer := Supervising(if s.u.session.None? then Backoff else Watching))
    case SupDropped => Take(s).(dialer := Supervising(Releasing(s.u.session)))
    case SupReleased => s.(dialer := Supervising(Backoff))
    case SupWake => s.(dialer := Supervising(Redial), dial := Start)
    case SupRedialed => s.(dialer := Supervising(if s.dial.ok then Look else Backoff), dial := NoDial)
    case SupStop => s.(dialer := Gone)
    case CloseBegin => s.(u := CloseCS(s.u).0, closer := ToDrain)
    case CloseAgain => s.(u := CloseCS(s.u).0)
    case DrainSkip => s.(closer := ToCancel)
    case DrainArm =>
      var (u, ch) := DrainCS(s.u, s.chans);
      if ch.None? then s.(closer := ToCancel, quiet := true)
      else s.(u := u, chans := s.chans + 1, closer := DrainWait(ch.value))
    case DrainDone => s.(closer := ToCancel, quiet := true)
    case DrainTimeout => s.(closer := ToCancel)
    case CancelSup => s.(canceled := true, closer := ToTake)
    case CloseTake => Take(s).(closer := Letting(s.u.session))
    case CloseReleased => s.(closer := Joining)
    case CloseJoined => s.(closer := Returned)
    case CallerCancel => s.(canceled := true)
    case BuilderTake => Take(s).(builder := s.builder + InHand(s.u))
    case CleanUp(t) =>
      s.(releasing := s.releasing - {t}, cleaned := s.cleaned + [t], builder := s.builder - {t})
  }

  ghost predicate Reaches(drains: bool, s: State, steps: seq<Step>, t: State)
    decreases |steps|
  {
    if steps == [] then s == t
    else Enabled(drains, s, steps[0]) && Reaches(drains, Apply(drains, s, steps[0]), steps[1..], t)
  }

  // ----- the invariant

  function InDial(d: Dial): set<Tid> {
    if d.Dialing? || d.Failing? then {d.t} else {}
  }

  function InHand(u: Shared): set<Tid> {
    if u.session.Some? then {u.session.value} else {}
  }

  /** How many times transport `t` is accounted for: cleaned up, pending cleanup, mid-dial, or held. */
  ghost function Places(s: State, t: Tid): nat {
    multiset(s.cleaned)[t] + (if t in s.releasing then 1 else 0)
    + (if t in InDial(s.dial) then 1 else 0) + (if t in InHand(s.u) then 1 else 0)
  }

  /** Every transport built so far is in exactly one place, and nothing else is anywhere. */
  ghost predicate Accounted(s: State) {
    forall t: Tid :: Places(s, t) == if t < s.built then 1 else 0
  }

  ghost predicate TransportInv(s: State) {
    Accounted(s) && DialInv(s)
  }

  ghost predicate DrainInv(drains: bool, s: State) {
    && s.u.inflight == |s.claims|
    && (s.u.drained.Some? ==> s.u.inflight > 0 && s.u.drained.value < s.chans && s.u.drained.value !in s.closedChans)
    && (forall ch :: ch in s.closedChans ==> ch < s.chans)
    && (s.chans > 0 ==> s.u.closed)
    && (s.closedChans != {} ==> s.u.closed && s.claims == {})
    && (s.closer.DrainWait? ==> drains && (s.closer.ch in s.closedChans || s.u.drained == Some(s.closer.ch)))
    && (s.quiet ==> drains && s.u.closed && s.claims == {})
  }

  ghost predicate CloseInv(s: State) {
    && (s.closer.NotClosing? <==> !s.u.closed)
    && (s.closer.Letting? || s.closer.Joining? || s.closer.Returned? ==> s.u.session.None?)
  }

  /** Every pending cleanup is somebody's: the build's, the closer's or the supervisor's. */
  ghost predicate ReleaseInv(s: State) {
    forall t :: t in s.releasing ==> t in s.builder || t in CloserHas(s.closer) || t in SupervisorHas(s.dialer)
  }

  function CloserHas(c: Closer): set<Tid> {
    if c.Letting? && c.t.Some? then {c.t.value} else {}
  }

  function SupervisorHas(d: Dialer): set<Tid> {
    if d.Supervising? && d.pc.Releasing? && d.pc.t.Some? then {d.pc.t.value} else {}
  }

  ghost predicate Inv(drains: bool, s: State) {
    TransportInv(s) && DrainInv(drains, s) && CloseInv(s) && ReleaseInv(s)
  }

  /** A step that leaves a transport's places alone: nothing is built, taken, dialed or cleaned up. */
  predicate MovesNothing(step: Step) {
    !(step.DialBuild? || step.DialInstall? || step.DialRelease? || step.SupDropped? || step.CloseTake?
      || step.BuilderTake? || step.CleanUp?)
  }

  lemma StillStep(drains: bool, s: State, step: Step, x: Tid)
    requires DialInv(s) && Enabled(drains, s, step) && MovesNothing(step)
    ensures Apply(drains, s, step).built == s.built && Places(Apply(drains, s, step), x) == Places(s, x)
  {}

  /** closeSessionResources moves a held transport to the pending cleanups. */
  lemma TakingStep(drains: bool, s: State, step: Step, x: Tid)
    requires Accounted(s) && Enabled(drains, s, step) && (step.SupDropped? || step.CloseTake? || step.BuilderTake?)
    ensures Apply(drains, s, step).built == s.built && Places(Apply(drains, s, step), x) == Places(s, x)
  {
    assert s.u.session.Some? ==> Places(s, s.u.session.value) <= 1;
  }

  /** A dial moves its transport to the upstream's hands, or its cleanup runs. */
  lemma DialingStep(drains: bool, s: State, step: Step, x: Tid)
    requires DialInv(s) && Enabled(drains, s, step) && (step.DialInstall? || step.DialRelease? || step.CleanUp?)
    ensures Apply(drains, s, step).built == s.built && Places(Apply(drains, s, step), x) == Places(s, x)
  {}

  lemma BuildingStep(drains: bool, s: State, x: Tid)
    requires Accounted(s) && Enabled(drains, s, DialBuild)
    ensures Places(Apply(drains, s, DialBuild), x) == if x < s.built + 1 then 1 else 0
  {
    assert Places(s, x) == if x < s.built then 1 else 0;
  }

  lemma StepAccounted(drains: bool, s: State, step: Step)
    requires TransportInv(s) && Enabled(drains, s, step)
    ensures Accounted(Apply(drains, s, step))
  {
    var t := Apply(drains, s, step);
    forall x: Tid ensures Places(t, x) == if x < t.built then 1 else 0 {
      assert Places(s, x) == if x < s.built then 1 else 0;
      if MovesNothing(step) {
        StillStep(drains, s, step, x);
      } else if step.DialBuild? {
        BuildingStep(drains, s, x);
      } else if step.SupDropped? || step.CloseTake? || step.BuilderTake? {
        TakingStep(drains, s, step, x);
      } else {
        DialingStep(drains, s, step, x);
      }
    }
  }

  /** No session is held while one is being dialed, and only the dialer dials. */
  ghost predicate DialInv(s: State) {
    && (s.dial.Checked? || s.dial.Dialing? ==> s.u.session.None?)
    && (s.dial.NoDial? <==> !(s.dialer.Connecting? || s.dialer == Supervising(Redial)))
  }

  lemma StepDial(drains: bool, s: State, step: Step)
    requires DialInv(s) && Enabled(drains, s, step)
    ensures DialInv(Apply(drains, s, step))
  {}

  predicate OfCalls(step: Step) { step.CallEnter? || step.CallLeave? }

  lemma CallKeepsDrain(drains: bool, s: State, step: Step)
    requires DrainInv(drains, s) && Enabled(drains, s, step) && OfCalls(step)
    ensures DrainInv(drains, Apply(drains, s, step))
  {}

  predicate OfClose(step: Step) {
    step.CloseBegin? || step.CloseAgain? || step.DrainSkip? || step.DrainArm? || step.DrainDone? || step.DrainTimeout?
    || step.CancelSup? || step.CloseTake? || step.CloseReleased? || step.CloseJoined?
  }

  lemma CloseKeepsDrain(drains: bool, s: State, step: Step)
    requires DrainInv(drains, s) && CloseInv(s) && Enabled(drains, s, step) && OfClose(step)
    ensures DrainInv(drains, Apply(drains, s, step))
  {}

  /** What the drain's invariant speaks of. */
  ghost predicate SameDrain(s: State, t: State) {
    && t.u.inflight == s.u.inflight && t.u.drained == s.u.drained && t.u.closed == s.u.closed && t.claims == s.claims
    && t.chans == s.chans && t.closedChans == s.closedChans && t.closer == s.closer && t.quiet == s.quiet
  }

  lemma RestKeepsDrain(drains: bool, s: State, step: Step)
    requires Enabled(drains, s, step) && !OfCalls(step) && !OfClose(step)
    ensures SameDrain(s, Apply(drains, s, step))
  {}

  lemma StepClose(drains: bool, s: State, step: Step)
    requires DialInv(s) && CloseInv(s) && Enabled(drains, s, step)
    ensures CloseInv(Apply(drains, s, step))
  {}

  lemma StepRelease(drains: bool, s: State, step: Step)
    requires ReleaseInv(s) && CloseInv(s) && Enabled(drains, s, step)
    ensures ReleaseInv(Apply(drains, s, step))
  {}

  lemma StepInv(drains: bool, s: State, step: Step)
    requires Inv(drains, s) && Enabled(drains, s, step)
    ensures Inv(drains, Apply(drains, s, step))
  {
    StepAccounted(drains, s, step);
    StepDial(drains, s, step);
    if OfCalls(step) {
      CallKeepsDrain(drains, s, step);
    } else if OfClose(step) {
      CloseKeepsDrain(drains, s, step);
    } else {
      RestKeepsDrain(drains, s, step);
    }
    StepClose(drains, s, step);
    StepRelease(drains, s, step);
  }

  lemma {:induction false} RunInv(drains: bool, s: State, steps: seq<Step>, t: State)
    requires Inv(drains, s) && Reaches(drains, s, steps, t)
    ensures Inv(drains, t)
    decreases |steps|
  {
    if steps != [] {
      StepInv(drains, s, steps[0]);
      RunInv(drains, Apply(drains, s, steps[0]), steps[1..], t);
    }
  }

  lemma InitialInv(drains: bool)
    ensures Inv(drains, INITIAL)
  {
  }

  // ----- calls and draining

  /** The counter is the number of outstanding claims, and an armed drain has someone to wait for. */
  lemma InflightCountsClaims(drains: bool, steps: seq<Step>, s: State)
    requires Reaches(drains, INITIAL, steps, s)
    ensures s.u.inflight == |s.claims|
    ensures s.u.drained.Some? ==> s.u.inflight > 0
  {
    InitialInv(drains);
    RunInv(drains, INITIAL, steps, s);
  }

  /** The channel a leaving call closes has not been closed before, so close never panics. */
  lemma ChannelClosedOnce(drains: bool, steps: seq<Step>, s: State)
    requires Reaches(drains, INITIAL, steps, s)
    ensures LeaveCS(s.u).1.Some? ==> LeaveCS(s.u).1.value !in s.closedChans
  {
    InitialInv(drains);
    RunInv(drains, INITIAL, steps, s);
  }

  /** No wake-up is lost: once the last call has left, the channel a drain waits on is closed. */
  lemma NoLostWakeup(drains: bool, steps: seq<Step>, s: State)
    requires Reaches(drains, INITIAL, steps, s)
    requires s.closer.DrainWait? && s.claims == {}
    ensures Enabled(drains, s, DrainDone)
  {
    InitialInv(drains);
    RunInv(drains, INITIAL, steps, s);
  }

  /** After Close has begun no call is admitted: the claims only shrink. */
  lemma {:induction false} NoClaimAfterClose(drains: bool, s: State, steps: seq<Step>, t: State)
    requires s.u.closed && Reaches(drains, s, steps, t)
    ensures t.u.closed && t.claims <= s.claims
    decreases |steps|
  {
    if steps != [] {
      NoClaimAfterClose(drains, Apply(drains, s, steps[0]), steps[1..], t);
    }
  }

  /** A drain that reports true leaves no call in flight, then and in every later state. */
  lemma DrainTrueIsQuiet(drains: bool, before: seq<Step>, s: State, after: seq<Step>, t: State)
    requires Reaches(drains, INITIAL, before, s) && s.quiet
    requires Reaches(drains, s, after, t)
    ensures s.claims == {} && t.claims == {} && t.u.inflight == 0
  {
    InitialInv(drains);
    RunInv(drains, INITIAL, before, s);
    RunInv(drains, s, after, t);
    NoClaimAfterClose(drains, s, after, t);
  }

  // ----- transports

  /** Each transport is mid-dial, held, pending cleanup, or cleaned up, and in exactly one of these places once. */
  lemma ExactlyOnePlace(drains: bool, steps: seq<Step>, s: State, t: Tid)
    requires Reaches(drains, INITIAL, steps, s) && t < s.built
    ensures multiset(s.cleaned)[t] + (if t in s.releasing then 1 else 0)
            + (if t in InDial(s.dial) then 1 else 0) + (if t in InHand(s.u) then 1 else 0) == 1
  {
    InitialInv(drains);
    RunInv(drains, INITIAL, steps, s);
    assert Places(s, t) == 1;
  }

  /** The dialer has returned for good: Connect is over and no supervisor runs. */
  ghost predicate DialerDone(s: State) { s.dialer.Gone? }

  /** Close has returned, the dialer is gone, and the build is not inside closeSessionResources. */
  ghost predicate ShutDown(s: State) {
    s.closer.Returned? && DialerDone(s) && s.builder == {}
  }

  /** What Close and the supervisor took they also cleaned up before they ended. */
  lemma NothingPending(drains: bool, s: State)
    requires Inv(drains, s) && ShutDown(s)
    ensures s.releasing == {}
  {
    assert forall t :: t in s.releasing ==> t in s.builder;
  }

  lemma {:induction false} ShutDownIsFinal(drains: bool, s: State, steps: seq<Step>, t: State)
    requires Inv(drains, s) && ShutDown(s) && Reaches(drains, s, steps, t)
    ensures ShutDown(t) && t.built == s.built && t.cleaned == s.cleaned
    decreases |steps|
  {
    NothingPending(drains, s);
    if steps != [] {
      StepInv(drains, s, steps[0]);
      ShutDownIsFinal(drains, Apply(drains, s, steps[0]), steps[1..], t);
    }
  }

  /** After shutdown no session is held, none is ever installed, and every transport was cleaned up exactly once. */
  lemma ShutDownIsClean(drains: bool, before: seq<Step>, s: State, after: seq<Step>, t: State)
    requires Reaches(drains, INITIAL, before, s) && ShutDown(s)
    requires Reaches(drains, s, after, t)
    ensures t.u.session.None? && t.u.closed && t.built == s.built
    ensures forall x: Tid :: multiset(t.cleaned)[x] == if x < s.built then 1 else 0
  {
    InitialInv(drains);
    RunInv(drains, INITIAL, before, s);
    RunInv(drains, s, after, t);
    ShutDownIsFinal(drains, s, after, t);
    NothingPending(drains, t);
    forall x: Tid ensures multiset(t.cleaned)[x] == if x < s.built then 1 else 0 {
      assert Places(t, x) == if x < s.built then 1 else 0;
    }
  }

  /** A Close that lands in the middle of a dial: the dialed session is refused and its transport cleaned up. */
  lemma CloseDuringDial(drains: bool, steps: seq<Step>, s: State)
    requires Reaches(drains, INITIAL, steps, s) && s.dial.Dialing? && s.u.closed
    ensures var refused := Apply(drains, s, DialInstall);
            && refused.u.session.None?
            && Enabled(drains, refused, DialRelease)
            && multiset(Apply(drains, refused, DialRelease).cleaned)[s.dial.t] == 1
  {
    InitialInv(drains);
    RunInv(drains, INITIAL, steps, s);
    var refused := Apply(drains, s, DialInstall);
    StepInv(drains, s, DialInstall);
    StepInv(drains, refused, DialRelease);
    var done := Apply(drains, refused, DialRelease);
    assert Places(s, s.dial.t) == 1;
    assert Places(done, s.dial.t) == 1;
    assert done.cleaned[|refused.cleaned|] == s.dial.t;
  }

  // ----- what the upstream does while it is open

  /** A call is admitted exactly while the upstream is open and holds a session, and counts. */
  lemma AdmittedIff(drains: bool, s: State, c: Call)
    requires c !in s.claims
    ensures c in Apply(drains, s, CallEnter(c)).claims <==> !s.u.closed && s.u.session.Some?
  {}

  /** A dial that nothing disturbs ends with its session installed. */
  lemma OpenDialConnects(drains: bool, s: State)
    requires s.dial.Start? && !s.u.closed && s.u.session.None?
    ensures Enabled(drains, s, DialCheck)
    ensures Enabled(drains, Apply(drains, s, DialCheck), DialBuild)
    ensures
      var built := Apply(drains, Apply(drains, s, DialCheck), DialBuild);
      && Enabled(drains, built, DialInstall)
      && Apply(drains, built, DialInstall).u.session == Some(s.built)
      && Apply(drains, built, DialInstall).dial == Ended(true)
  {}

  /** A first connect on an open upstream starts the supervisor, which watches the session it holds. */
  lemma ConnectedIsWatched(drains: bool, s: State)
    requires s.dialer.Connecting? && s.dial == Ended(true) && !s.u.closed && s.u.session.Some?
    ensures Enabled(drains, s, ConnectEnd(true)) && Enabled(drains, Apply(drains, s, ConnectEnd(true)), SupLook)
    ensures Apply(drains, Apply(drains, s, ConnectEnd(true)), SupLook).dialer == Supervising(Watching)
  {}

  /** A supervised upstream without a session is dialed again. */
  lemma LostIsRedialed(drains: bool, s: State)
    requires s.dialer == Supervising(Look) && s.u.session.None?
    ensures Enabled(drains, s, SupLook) && Enabled(drains, Apply(drains, s, SupLook), SupWake)
    ensures Apply(drains, Apply(drains, s, SupLook), SupWake).dial == Start
  {}

  /** A session that drops leaves the upstream, is cleaned up, and is dialed again. */
  lemma DroppedIsRedialed(drains: bool, s: State, t: Tid)
    requires Inv(drains, s) && s.dialer == Supervising(Watching) && s.u.session == Some(t)
    ensures Enabled(drains, s, SupDropped)
    ensures
      var dropped := Apply(drains, s, SupDropped);
      && dropped.u.session.None? && t in dropped.releasing && !Enabled(drains, dropped, SupReleased)
      && Enabled(drains, dropped, CleanUp(t)) && Enabled(drains, Apply(drains, dropped, CleanUp(t)), SupReleased)
      && Apply(drains, Apply(drains, dropped, CleanUp(t)), SupReleased).dialer == Supervising(Backoff)
  {}

  /** A dial that failed is waited out and tried again; one that succeeded is watched. */
  lemma RedialGoesOn(drains: bool, s: State)
    requires s.dialer == Supervising(Redial) && s.dial.Ended?
    ensures Enabled(drains, s, SupRedialed)
    ensures Apply(drains, s, SupRedialed).dialer == Supervising(if s.dial.ok then Look else Backoff)
  {}

  /** A dial on a closed upstream builds nothing and fails; on a connected one it builds nothing and is done. */
  lemma NothingToDial(drains: bool, s: State)
    requires s.dial.Start?
    ensures
      var t := Apply(drains, s, DialCheck);
      && t.u == s.u && t.built == s.built
      && (s.u.closed ==> t.dial == Ended(false))
      && (!s.u.closed && s.u.session.Some? ==> t.dial == Ended(true))
  {}

  /** A dial that cannot build its transport, cannot connect, or meets a closed upstream fails and leaves no session;
      the transport, if it was built, is cleaned up first. */
  lemma FailedDialEnds(drains: bool, s: State)
    ensures s.dial.Checked? ==>
      Enabled(drains, s, DialBuildFail) && Apply(drains, s, DialBuildFail) == s.(dial := Ended(false))
    ensures s.dial.Dialing? ==>
      && Enabled(drains, s, DialFail) && Apply(drains, s, DialFail) == s.(dial := Failing(s.dial.t))
      && (s.u.closed ==> Apply(drains, s, DialInstall) == s.(dial := Failing(s.dial.t)))
    ensures s.dial.Failing? ==>
      && Enabled(drains, s, DialRelease)
      && Apply(drains, s, DialRelease) == s.(dial := Ended(false), cleaned := s.cleaned + [s.dial.t])
  {}

  /** An upstream that was closed while it first connected is not supervised, nor is one without reconnects; any other
      is, connected or not. */
  lemma SupervisedIff(drains: bool, s: State, reconnects: bool)
    requires s.dialer.Connecting? && s.dial.Ended?
    ensures Apply(drains, s, ConnectEnd(reconnects)).dialer ==
      if reconnects && !s.u.closed then Supervising(Look) else Gone
  {}

  lemma {:induction false} CanceledStays(drains: bool, s: State, steps: seq<Step>, t: State)
    requires Reaches(drains, s, steps, t) && s.canceled
    ensures t.canceled
    decreases |steps|
  {
    if steps != [] {
      CanceledStays(drains, Apply(drains, s, steps[0]), steps[1..], t);
    }
  }

  /** A supervised upstream stays supervised until its context is canceled. */
  lemma {:induction false} SupervisedUntilCanceled(drains: bool, s: State, steps: seq<Step>, t: State)
    requires Reaches(drains, s, steps, t) && s.dialer.Supervising? && !t.canceled
    ensures t.dialer.Supervising?
    decreases |steps|
  {
    if s.canceled {
      CanceledStays(drains, s, steps, t);
    } else if steps != [] {
      SupervisedUntilCanceled(drains, Apply(drains, s, steps[0]), steps[1..], t);
    }
  }

  /** A drain reports true at once when no call is in flight, and otherwise exactly when the channel it waits on is
      closed; without a drain timeout it is skipped and reports nothing. */
  lemma DrainReports(drains: bool, s: State)
    ensures s.closer.ToDrain? && drains ==>
      var t := Apply(drains, s, DrainArm);
      && (s.u.inflight == 0 ==> t.quiet && t.closer.ToCancel?)
      && (s.u.inflight != 0 ==> t.quiet == s.quiet && t.closer.DrainWait? && t.u.drained == Some(t.closer.ch))
    ensures s.closer.DrainWait? ==>
      && (Enabled(drains, s, DrainDone) <==> s.closer.ch in s.closedChans)
      && (Enabled(drains, s, DrainDone) ==> Apply(drains, s, DrainDone) == s.(closer := ToCancel, quiet := true))
      && Apply(drains, s, DrainTimeout) == s.(closer := ToCancel)
    ensures s.closer.ToDrain? && !drains ==> Apply(drains, s, DrainSkip) == s.(closer := ToCancel)
  {}

  /** The caller's own context may be canceled at any moment. */
  lemma CallerMayCancel(drains: bool, s: State)
    ensures Enabled(drains, s, CallerCancel) && Apply(drains, s, CallerCancel) == s.(canceled := true)
  {}

  /** How far Close has come. */
  function Stage(c: Closer): nat {
    match c
    case NotClosing => 0
    case ToDrain => 1
    case DrainWait(_) => 2
    case ToCancel => 3
    case ToTake => 4
    case Letting(_) => 5
    case Joining => 6
    case Returned => 7
  }

  /** Close goes through its stages in order: it drains before it cancels the supervisor, takes the session only after
      that, and joins last; only the wait of a drain is left out when there is nothing to wait for. */
  lemma CloseInOrder(drains: bool, s: State, step: Step)
    requires Inv(drains, s) && Enabled(drains, s, step)
    ensures
      var t := Apply(drains, s, step);
      var a, b := Stage(s.closer), Stage(t.closer);
      && (b == a || b == a + 1 || (a == 1 && b == 3))
      && (b > a ==> match b case 1 => step == CloseBegin case 4 => t.canceled case 5 => step ==
          CloseTake case _ => true)
      && (step.CloseBegin? || step.CloseTake? || step.CloseReleased? || step.CloseJoined? || step.CancelSup? ==> b > a)
  {}

  /** Close never gets stuck: until it has returned some step takes it, or the cleanup it waits for, further. */
  lemma CloseGoesOn(drains: bool, s: State) returns (step: Step)
    requires Inv(drains, s) && !s.closer.NotClosing? && !s.closer.Returned?
    ensures Enabled(drains, s, step) && Apply(drains, s, step) != s
    ensures Stage(Apply(drains, s, step).closer) > Stage(s.closer) ||
            (s.closer.Letting? && s.closer.t.Some? && step == CleanUp(s.closer.t.value))
  {
    match s.closer
    case ToDrain => step := if drains then DrainArm else DrainSkip;
    case DrainWait(_) => step := DrainTimeout;
    case ToCancel => step := CancelSup;
    case ToTake => step := CloseTake;
    case Letting(t) => step := if Released(s, t) then CloseReleased else CleanUp(t.value);
    case Joining => step := CloseJoined;
  }

  /** Closing tells the supervisor to stop, and one that watches or waits can. */
  lemma CloseStopsSupervisor(drains: bool, s: State)
    requires s.closer.ToCancel?
    ensures Enabled(drains, s, CancelSup)
    ensures
      var t := Apply(drains, s, CancelSup);
      t.dialer == Supervising(Watching) || t.dialer == Supervising(Backoff) ==>
        Enabled(drains, t, SupStop) && Apply(drains, t, SupStop).dialer.Gone?
  {}
}
