/**
 Transfer jobs and the session pool (internal/session/job.go, pool_handlers.go and the
 transfer goroutines of scp.go).

 The pool's handlers run one at a time on the event loop, but each transfer runs on its
 own goroutine, so an abort races with the transfer's `setCloser` and `finish`. `Guarded`
 is what a job's mutex protects, and the functions on it are its critical sections; the
 class `TransferJob` is the object they update. A `Step` is one critical section, one
 context operation or one handler action, so a run is any interleaving of them.
 */
module Jobs {
  import opened Options

  type SessionId = nat
  type JobId = nat

  /** Why a context was canceled: an explicit cancel, the session going away, or plain context.Canceled. */
  datatype Cause = Explicit | SessionGone(reason: string) | PlainCanceled

  datatype Error = FromTransfer | FromContext(cause: Cause)

  datatype Status = Running | Completed | Failed | Canceled

  datatype Guarded = Guarded(aborted: bool, closer: bool, status: Status, err: Option<Error>, done: bool,
      finishedAt: int)

  // ----- the critical sections

  /** The job takes the client unless it was aborted; a refused client stays with the caller. */
  function SetCloserCS(g: Guarded): (Guarded, bool) {
    if g.aborted then (g, false) else (g.(closer := true), true)
  }

  /** The first abort takes the client out of the job; the flags say whether it was first and got the client. */
  function AbortCS(g: Guarded): (Guarded, bool, bool) {
    if g.aborted then (g, false, false) else (g.(aborted := true, closer := false), true, g.closer)
  }

  function FinishCS(g: Guarded, err: Option<Error>, now: int): Guarded {
    g.(finishedAt := now, done := true, closer := false, err := err,
       status := if err.None? then Completed else if err.value == FromContext(Explicit) then Canceled else Failed)
  }

  /** Finished, and longer ago than the retention. */
  predicate OverAge(g: Guarded, retention: int, now: int) {
    g.done && now - g.finishedAt > retention
  }

  class TransferJob {
    const session: SessionId
    var doneClosed: bool
    var aborted: bool
    var closer: bool
    var status: Status
    var err: Option<Error>
    var done: bool
    var finishedAt: int

    ghost function View(): Guarded
      reads this
    {
      Guarded(aborted, closer, status, err, done, finishedAt)
    }

    constructor (session: SessionId)
      ensures View() == NEW_JOB && this.session == session && !doneClosed
    {
      this.session, doneClosed := session, false;
      aborted, closer, status, err, done, finishedAt := false, false, Running, None, false, 0;
    }

    method SetCloser() returns (ok: bool)
      modifies this`closer
      ensures (View(), ok) == SetCloserCS(old(View()))
      ensures ok <==> !aborted
      ensures closer == if ok then true else old(closer)
    {
      if aborted {
        return false;
      }
      closer := true;
      return true;
    }

    method MarkAborted() returns (first: bool, gotClient: bool)
      modifies this`aborted, this`closer
      ensures (View(), first, gotClient) == AbortCS(old(View()))
      ensures aborted && (first <==> !old(aborted))
      ensures gotClient <==> first && old(closer)
      ensures closer == if first then false else old(closer)
    {
      if aborted {
        return false, false;
      }
      aborted := true;
      gotClient := closer;
      closer := false;
      first := true;
    }

    method Finish(err: Option<Error>, now: int)
      modifies this`closer, this`status, this`err, this`done, this`finishedAt
      ensures View() == FinishCS(old(View()), err, now)
      ensures done && !closer && this.err == err && finishedAt == now
      ensures status == Completed <==> err.None?
      ensures status == Canceled <==> err == Some(FromContext(Explicit))
      ensures status != Running
    {
      this.err := err;
      finishedAt := now;
      done := true;
      closer := false;
      if err.None? {
        status := Completed;
      } else if err.value == FromContext(Explicit) {
        status := Canceled;
      } else {
        status := Failed;
      }
    }
  }

  /** One of the pool's two job tables, keyed by job id. */
  class JobTable {
    var jobs: map<JobId, TransferJob>

    constructor ()
      ensures jobs == map[]
    {
      jobs := map[];
    }

    /** evict: drops exactly the jobs that finished more than `retention` ago. */
    method Evict(retention: int, now: int)
      modifies this
      ensures forall id :: id in jobs ==> id in old(jobs) && jobs[id] == old(jobs)[id]
      ensures forall id :: id in old(jobs) ==>
        (id !in jobs <==> old(jobs)[id].done && now - old(jobs)[id].finishedAt > retention)
    {
      var todo := jobs.Keys;
      while todo != {}
        invariant todo <= old(jobs).Keys
        invariant forall id :: id in todo ==> id in jobs
        invariant forall id :: id in jobs ==> id in old(jobs) && jobs[id] == old(jobs)[id]
        invariant forall id :: id in old(jobs) && id !in todo ==>
          (id !in jobs <==> old(jobs)[id].done && now - old(jobs)[id].finishedAt > retention)
      {
        var id :| id in todo;
        if jobs[id].done && now - jobs[id].finishedAt > retention {
          jobs := jobs - {id};
        }
        todo := todo - {id};
      }
    }

    /** jobsOf: exactly the session's jobs whose done channel is still open, each once. */
    method JobsOf(sid: SessionId) returns (out: set<JobId>)
      ensures forall id :: id in out <==> id in jobs && jobs[id].session == sid && !jobs[id].doneClosed
    {
      out := {};
      var todo := jobs.Keys;
      while todo != {}
        invariant todo <= jobs.Keys
        invariant forall id :: id in out <==>
            id in jobs && id !in todo && jobs[id].session == sid && !jobs[id].doneClosed
      {
        var id :| id in todo;
        if jobs[id].session == sid && !jobs[id].doneClosed {
          out := out + {id};
        }
        todo := todo - {id};
      }
    }
  }

  const NEW_JOB: Guarded := Guarded(false, false, Running, None, false, 0)

  // ----- jobs, the loop and the pool

  datatype Kind = Upload | Download

  /** Where a transfer goroutine is. `Refused` transfers never touched the remote file. */
  datatype Transfer =
    | Opening
    | Opened
    | Copying
    | Returned(err: Option<Error>)
    | Decided(err: Option<Error>)
    | Signaling
    | Ended

  /** Recorded when `finish` consults the context: the transfer's own error, the context's cause, whether the job was
      aborted by then, whether an explicit cancel had reached the live context or was still between its mark and its
      cancel, and whether the pool was shutting down. */
  datatype Verdict = Verdict(
    own: Option<Error>,
    seen: Option<Cause>,
    aborted: bool,
    fired: bool,
    pending: bool,
    down: bool)

  datatype Job = Job(
    kind: Kind,
    session: SessionId,
    g: Guarded,
    pc: Transfer,
    cause: Option<Cause>,   // what context.Cause reports
    first: Option<Cause>,   // the cause of the first abort
    handed: nat,            // how often an abort received the client
    accepted: bool,         // setCloser took the client
    copied: bool,           // the whole file was transferred
    short: bool,            // copyToRemote returned nil although its source had ended early
    fired: bool,            // an explicit cancel reached the context before anything else did
    window: bool,           // setCloser was refused before the abort's cancel had fired
    verdict: Option<Verdict>, // what held when finish read the context's cause
    endedAt: Option<int>,   // when finish recorded the terminal state
    doneClosed: bool)       // close(job.done) has run

  /** What the event loop is in the middle of. */
  datatype Loop = Idle | Canceling(j: JobId) | Closing(sid: SessionId, cause: Cause, todo: set<JobId>)

  datatype Pool = Pool(
    sessions: set<SessionId>,
    sessionCause: map<SessionId, Option<Cause>>,
    jobs: map<JobId, Job>,   // every job ever started
    table: set<JobId>,       // the jobs a caller can still find
    loop: Loop,
    clock: int,
    shutdown: bool)          // the pool's own context was canceled

  datatype Step =
    | OpenSession(sid: SessionId)
    | Start(kind: Kind, sid: SessionId, j: JobId)
    | CancelMark(j: JobId)
    | CancelFire
    | CloseBegin(sid: SessionId, reason: string)
    | CloseMark(j: JobId)
    | CloseEnd
    | Shutdown
    | Tick(elapsed: nat)
    | Connect(j: JobId)
    | ConnectFail(j: JobId)
    | SetCloser(j: JobId)
    | CopyDone(j: JobId)
    | CopyShort(j: JobId)
    | CopyFail(j: JobId, err: Error)
    | ReadCause(j: JobId)
    | Finish(j: JobId)
    | Signal(j: JobId)

  const INITIAL: Pool := Pool({}, map[], map[], {}, Idle, 0, false)

  /** The first cancellation of a context decides its cause. */
  function FirstWins(old_: Option<Cause>, c: Cause): Option<Cause> {
    if old_.None? then Some(c) else old_
  }

  function CancelJob(job: Job, c: Cause): Job { job.(cause := FirstWins(job.cause, c)) }

  /** Canceling a parent context cancels the contexts derived from it. */
  function CancelAll(jobs: map<JobId, Job>, sid: Option<SessionId>, c: Cause): map<JobId, Job> {
    map j | j in jobs :: if sid.None? || jobs[j].session == sid.value then CancelJob(jobs[j], c) else jobs[j]
  }

  predicate Expired(job: Job, retention: int, now: int) { OverAge(job.g, retention, now) }

  function Evict(p: Pool, kind: Kind, retention: int): set<JobId> {
    set j | j in p.table && !(j in p.jobs && p.jobs[j].kind == kind && Expired(p.jobs[j], retention, p.clock))
  }

  /** jobsOf, over both tables. */
  function JobsOf(p: Pool, sid: SessionId): set<JobId> {
    set j | j in p.table && j in p.jobs && p.jobs[j].session == sid && !p.jobs[j].doneClosed
  }

  /** abortCause up to its unlock. */
  function Mark(job: Job, c: Cause): Job {
    var (g, first, got) := AbortCS(job.g);
    job.(g := g, first := if first then Some(c) else job.first, handed := job.handed + if got then 1 else 0)
  }

  /** The error finish records: the context's cause, unless there is none or it is plain cancellation. */
  function FinalError(err: Option<Error>, cause: Option<Cause>): Option<Error> {
    if err.Some? && cause.Some? && !cause.value.PlainCanceled? then Some(FromContext(cause.value)) else err
  }

  predicate Enabled(p: Pool, step: Step) {
    match step
    case OpenSession(sid) => p.loop.Idle? && sid !in p.sessionCause
    case Start(_, sid, j) => p.loop.Idle? && sid in p.sessions && sid in p.sessionCause && j !in p.jobs
    case CancelMark(j) => p.loop.Idle? && j in p.table && j in p.jobs
    case CancelFire => p.loop.Canceling? && p.loop.j in p.jobs
    case CloseBegin(sid, _) => p.loop.Idle? && sid in p.sessions && sid in p.sessionCause
    case CloseMark(j) => p.loop.Closing? && j in p.loop.todo && j in p.jobs
    case CloseEnd => p.loop.Closing? && p.loop.todo == {}
    case Shutdown => true
    case Tick(_) => true
    case Connect(j) => j in p.jobs && p.jobs[j].pc.Opening?
    case ConnectFail(j) => j in p.jobs && p.jobs[j].pc.Opening?
    case SetCloser(j) => j in p.jobs && p.jobs[j].pc.Opened?
    case CopyDone(j) => j in p.jobs && p.jobs[j].pc.Copying?
    case CopyShort(j) => j in p.jobs && p.jobs[j].pc.Copying? && p.jobs[j].kind.Upload?
    case CopyFail(j, err) =>
      j in p.jobs && p.jobs[j].pc.Copying? && (err.FromContext? ==> p.jobs[j].cause == Some(err.cause))
    case ReadCause(j) => j in p.jobs && p.jobs[j].pc.Returned?
    case Finish(j) => j in p.jobs && p.jobs[j].pc.Decided?
    case Signal(j) => j in p.jobs && p.jobs[j].pc.Signaling?
  }

  function SetJob(p: Pool, j: JobId, job: Job): Pool { p.(jobs := p.jobs[j := job]) }

  function Apply(retention: int, p: Pool, step: Step): Pool
    requires Enabled(p, step)
  {
    match step
    case OpenSession(sid) =>
      p.(sessions := p.sessions + {sid},
         sessionCause := p.sessionCause[sid := if p.shutdown then Some(PlainCanceled) else None])
    case Start(kind, sid, j) =>
      p.(table := Evict(p, kind, retention) + {j},
         jobs := p.jobs[j := Job(kind, sid, NEW_JOB, Opening, p.sessionCause[sid], None, 0, false, false, false, false,
             false, None, None, false)])
    case CancelMark(j) =>
      SetJob(p, j, Mark(p.jobs[j], Explicit)).(loop := if p.jobs[j].g.aborted then Idle else Canceling(j))
    case CancelFire =>
      var job := p.jobs[p.loop.j];
      SetJob(p, p.loop.j, CancelJob(job, Explicit).(fired := job.fired || job.cause.None?)).(loop := Idle)
    case CloseBegin(sid, reason) =>
      p.(sessionCause := p.sessionCause[sid := FirstWins(p.sessionCause[sid], SessionGone(reason))],
         jobs := CancelAll(p.jobs, Some(sid), SessionGone(reason)),
         loop := Closing(sid, SessionGone(reason), JobsOf(p, sid)))
    case CloseMark(j) => SetJob(p, j, Mark(p.jobs[j], p.loop.cause)).(loop := p.loop.(todo := p.loop.todo - {j}))
    case CloseEnd => p.(sessions := p.sessions - {p.loop.sid}, loop := Idle)
    case Shutdown =>
      p.(shutdown := true, jobs := CancelAll(p.jobs, None, PlainCanceled),
         sessionCause := map sid | sid in p.sessionCause :: FirstWins(p.sessionCause[sid], PlainCanceled))
    case Tick(elapsed) => p.(clock := p.clock + elapsed)
    case Connect(j) => SetJob(p, j, p.jobs[j].(pc := Opened))
    case ConnectFail(j) => SetJob(p, j, p.jobs[j].(pc := Returned(Some(FromTransfer))))
    case SetCloser(j) =>
      var (g, ok) := SetCloserCS(p.jobs[j].g);
      SetJob(p, j, p.jobs[j].(
        g := g, accepted := ok, window := !ok && p.jobs[j].cause.None?,
        pc := if ok then Copying else Returned(if p.jobs[j].cause.Some? then Some(FromContext(p.jobs[j].cause.value))
            else None)))
    case CopyDone(j) => SetJob(p, j, p.jobs[j].(pc := Returned(None), copied := true))
    case CopyShort(j) => SetJob(p, j, p.jobs[j].(pc := Returned(None), short := true))
    case CopyFail(j, err) => SetJob(p, j, p.jobs[j].(pc := Returned(Some(err))))
    case ReadCause(j) =>
      SetJob(p, j, p.jobs[j].(
        pc := Decided(FinalError(p.jobs[j].pc.err, p.jobs[j].cause)),
        verdict := Some(Verdict(p.jobs[j].pc.err, p.jobs[j].cause, p.jobs[j].g.aborted, p.jobs[j].fired,
            p.loop == Canceling(j),
            p.shutdown))))
    case Finish(j) => SetJob(p, j, p.jobs[j].(g := FinishCS(p.jobs[j].g, p.jobs[j].pc.err, p.clock), pc := Signaling,
                                                endedAt := Some(p.clock)))
    case Signal(j) => SetJob(p, j, CancelJob(p.jobs[j], PlainCanceled).(pc := Ended, doneClosed := true))
  }

  ghost predicate Reaches(retention: int, p: Pool, steps: seq<Step>, q: Pool)
    decreases |steps|
  {
    if steps == [] then p == q
    else Enabled(p, steps[0]) && Reaches(retention, Apply(retention, p, steps[0]), steps[1..], q)
  }

  // ----- the invariant

  predicate Finishing(pc: Transfer) { pc.Signaling? || pc.Ended? }

  /** The client is in exactly one place: with the job, handed to one abort, or with the transfer alone. */
  ghost predicate ClientInv(job: Job) {
    && (job.g.closer <==> job.accepted && !job.g.aborted && !job.g.done)
    && job.handed <= 1
    && (job.handed == 1 ==> job.accepted && job.g.aborted)
    && (job.accepted && job.g.aborted && !job.g.done ==> job.handed == 1)
    && (job.accepted ==> !job.pc.Opening? && !job.pc.Opened?)
    && (job.pc.Copying? ==> job.accepted)
  }

  /** How a job's first abort cause and its context's cause relate. */
  ghost predicate CauseInv(p: Pool, j: JobId, job: Job) {
    && (job.g.aborted <==> job.first.Some?)
    && job.first != Some(PlainCanceled)
    && (job.g.aborted && job.cause.None? ==> p.loop == Canceling(j))
    && (p.loop == Canceling(j) ==> job.first == Some(Explicit))
    && (p.loop == Canceling(j) && job.cause.Some? ==> job.g.done || p.shutdown)
    && (job.cause == Some(Explicit) <==> job.fired)
    && (job.fired ==> job.first == Some(Explicit) && p.loop != Canceling(j))
    && (job.first == Some(Explicit) && !job.g.done ==> job.fired || p.loop == Canceling(j) || p.shutdown)
    && (job.g.aborted && !job.g.done && job.cause.Some? && job.cause != job.first ==> p.shutdown)
    && (job.cause == Some(PlainCanceled) ==> p.shutdown || job.g.done)
    && (job.cause.Some? && job.cause.value.SessionGone? ==>
          job.session !in p.sessions || (p.loop.Closing? && p.loop.sid == job.session &&
              job.cause.value == p.loop.cause))
    && (p.loop.Closing? && p.loop.sid == job.session ==> job.cause.Some?)
    && (p.loop.Closing? && p.loop.sid == job.session ==> p.loop.sid in p.sessions)
  }

  /** How a job ends. */
  ghost predicate OutcomeInv(p: Pool, job: Job) {
    && (job.g.done <==> Finishing(job.pc))
    && (job.doneClosed <==> job.pc.Ended?)
    && (job.g.status == Running <==> !job.g.done)
    && (job.g.done ==> (job.g.status == Completed <==> job.g.err.None?))
    && (job.g.done ==> job.g.finishedAt <= p.clock && job.endedAt == Some(job.g.finishedAt))
    && (job.pc.Opening? || job.pc.Opened? || job.pc.Copying? ==> !job.copied && !job.short && !job.window)
    && (job.short ==> job.kind.Upload? && job.accepted && !job.copied)
    && (job.window ==> !job.accepted && job.first == Some(Explicit))
    && (job.pc.Returned? || job.pc.Decided? ==> (job.pc.err.None? <==> job.copied || job.short || job.window))
    && (job.g.done ==> (job.g.status == Completed <==> job.copied || job.short || job.window))
    && (job.pc.Returned? && job.pc.err.Some? && job.pc.err.value.FromContext? ==>
        job.cause == Some(job.pc.err.value.cause))
  }

  /** What the recorded verdict says about the status. */
  ghost predicate VerdictInv(job: Job) {
    && (job.verdict.Some? <==> job.pc.Decided? || job.g.done)
    && (job.pc.Decided? ==> VerdictHolds(job, job.pc.err == Some(FromContext(Explicit))) && Explained(job, job.pc.err))
    && (job.g.done ==> VerdictHolds(job, job.g.status == Canceled) && Explained(job, job.g.err))
  }

  ghost predicate VerdictHolds(job: Job, canceled: bool)
    requires job.verdict.Some?
  {
    var v := job.verdict.value;
    && (canceled <==> v.own.Some? && v.fired)
    && (v.fired ==> v.aborted && !v.pending && job.first == Some(Explicit))
    && (v.aborted && job.first == Some(Explicit) ==> v.fired || v.pending || v.down)
    && (v.aborted ==> job.g.aborted)
  }

  /** The recorded error is the context's cause, unless the transfer did not fail or the cause says nothing. */
  ghost predicate Explained(job: Job, err: Option<Error>)
    requires job.verdict.Some?
  {
    var v := job.verdict.value;
    && (err.None? <==> v.own.None?)
    && (v.own.Some? && v.seen.Some? && v.seen != Some(PlainCanceled) ==> err == Some(FromContext(v.seen.value)))
    && (v.seen.None? || v.seen == Some(PlainCanceled) ==> err == v.own)
    && (v.aborted && !v.pending && !v.down ==> v.seen == job.first)
  }

  ghost predicate JobInv(p: Pool, j: JobId, job: Job) {
    ClientInv(job) && CauseInv(p, j, job) && OutcomeInv(p, job) && VerdictInv(job)
  }

  ghost predicate JobsInv(p: Pool) {
    forall j :: j in p.jobs ==> JobInv(p, j, p.jobs[j])
  }

  ghost predicate LoopInv(p: Pool) {
    && p.table <= p.jobs.Keys && p.sessions <= p.sessionCause.Keys
    && (p.loop.Canceling? ==> p.loop.j in p.jobs)
    && (p.loop.Closing? ==> p.loop.sid in p.sessions && p.loop.cause.SessionGone? && ToMark(p, p.loop.sid, p.loop.todo))
    && (forall sid :: sid in p.sessions && p.sessionCause[sid].Some? ==>
          (p.sessionCause[sid] == Some(PlainCanceled) && p.shutdown) || (p.loop.Closing? && p.loop.sid == sid))
    && (forall j :: j in p.jobs ==> p.jobs[j].session in p.sessionCause)
  }

  /** handleClose still has to abort every live job of its session. */
  ghost predicate ToMark(p: Pool, sid: SessionId, todo: set<JobId>)
    requires p.table <= p.jobs.Keys
  {
    && (forall j :: j in todo ==> j in p.jobs && p.jobs[j].session == sid)
    && (forall j :: j in p.table && p.jobs[j].session == sid ==>
        j in todo || p.jobs[j].g.aborted || p.jobs[j].doneClosed)
  }

  /** Every job in the table that is neither aborted nor terminal belongs to an open session. */
  ghost predicate SessionInv(p: Pool) {
    forall j :: j in p.table && j in p.jobs && !p.jobs[j].g.aborted && !p.jobs[j].doneClosed ==>
        p.jobs[j].session in p.sessions
  }

  /** Only jobs that finished longer ago than the retention have left the table. */
  ghost predicate RetentionInv(retention: int, p: Pool) {
    forall j :: j in p.jobs && j !in p.table ==> Expired(p.jobs[j], retention, p.clock)
  }

  ghost predicate Inv(retention: int, p: Pool) {
    LoopInv(p) && JobsInv(p) && SessionInv(p) && RetentionInv(retention, p)
  }

  // ----- every step keeps it

  /** The job a step of a transfer goroutine belongs to. */
  function Owner(step: Step): Option<JobId> {
    match step
    case Connect(j) => Some(j)
    case ConnectFail(j) => Some(j)
    case SetCloser(j) => Some(j)
    case CopyDone(j) => Some(j)
    case CopyShort(j) => Some(j)
    case CopyFail(j, _) => Some(j)
    case ReadCause(j) => Some(j)
    case Finish(j) => Some(j)
    case Signal(j) => Some(j)
    case _ => None
  }

  /** What a job's invariant reads of the rest of the pool. */
  ghost predicate SameAround(p: Pool, q: Pool) {
    q.loop == p.loop && q.clock == p.clock && q.shutdown == p.shutdown && q.sessions == p.sessions
  }

  lemma OtherJobsStay(retention: int, p: Pool, step: Step, j: JobId)
    requires Enabled(p, step) && Owner(step).Some? && Owner(step).value != j
    ensures var q := Apply(retention, p, step);
            SameAround(p, q) && (j in q.jobs <==> j in p.jobs) && (j in p.jobs ==> q.jobs[j] == p.jobs[j])
  {}

  lemma SameAroundKeeps(p: Pool, q: Pool, j: JobId, job: Job)
    requires SameAround(p, q) && JobInv(p, j, job)
    ensures JobInv(q, j, job)
  {}

  /** Sessions come and go, and time passes, without touching a job. */
  lemma QuietKeepsJob(retention: int, p: Pool, step: Step, j: JobId)
    requires LoopInv(p) && j in p.jobs && JobInv(p, j, p.jobs[j]) && Enabled(p, step)
    requires step.Tick? || step.CloseEnd? || step.OpenSession?
    ensures var q := Apply(retention, p, step);
            q.jobs == p.jobs && JobInv(q, j, p.jobs[j])
  {}

  lemma TransferKeepsClient(retention: int, p: Pool, step: Step, j: JobId)
    requires j in p.jobs && JobInv(p, j, p.jobs[j]) && Enabled(p, step) && Owner(step) == Some(j)
    ensures var q := Apply(retention, p, step);
            j in q.jobs ==> ClientInv(q.jobs[j]) && VerdictInv(q.jobs[j])
  {}

  lemma TransferKeepsCause(retention: int, p: Pool, step: Step, j: JobId)
    requires j in p.jobs && JobInv(p, j, p.jobs[j]) && Enabled(p, step) && Owner(step) == Some(j)
    ensures var q := Apply(retention, p, step);
            j in q.jobs ==> CauseInv(q, j, q.jobs[j])
  {}

  lemma TransferKeepsOutcome(retention: int, p: Pool, step: Step, j: JobId)
    requires j in p.jobs && JobInv(p, j, p.jobs[j]) && Enabled(p, step) && Owner(step) == Some(j)
    ensures var q := Apply(retention, p, step);
            j in q.jobs ==> OutcomeInv(q, q.jobs[j])
  {}

  lemma StartKeepsClient(retention: int, p: Pool, step: Step, j: JobId)
    requires (j in p.jobs ==> JobInv(p, j, p.jobs[j])) && Enabled(p, step) && step.Start?
    ensures var q := Apply(retention, p, step);
            j in q.jobs ==> ClientInv(q.jobs[j]) && VerdictInv(q.jobs[j])
  {}

  lemma StartKeepsCause(retention: int, p: Pool, step: Step, j: JobId)
    requires LoopInv(p) && (j in p.jobs ==> JobInv(p, j, p.jobs[j])) && Enabled(p, step) && step.Start?
    ensures var q := Apply(retention, p, step);
            j in q.jobs ==> CauseInv(q, j, q.jobs[j])
  {}

  lemma StartKeepsOutcome(retention: int, p: Pool, step: Step, j: JobId)
    requires (j in p.jobs ==> JobInv(p, j, p.jobs[j])) && Enabled(p, step) && step.Start?
    ensures var q := Apply(retention, p, step);
            j in q.jobs ==> OutcomeInv(q, q.jobs[j])
  {}

  lemma MarkKeepsClient(retention: int, p: Pool, step: Step, j: JobId)
    requires j in p.jobs && JobInv(p, j, p.jobs[j]) && Enabled(p, step)
    requires step.CancelMark? || step.CancelFire? || step.CloseMark?
    ensures var q := Apply(retention, p, step);
            j in q.jobs ==> ClientInv(q.jobs[j])
  {}

  lemma MarkKeepsVerdict(retention: int, p: Pool, step: Step, j: JobId)
    requires j in p.jobs && JobInv(p, j, p.jobs[j]) && Enabled(p, step)
    requires step.CancelMark? || step.CancelFire? || step.CloseMark?
    ensures var q := Apply(retention, p, step);
            j in q.jobs ==> VerdictInv(q.jobs[j])
  {}

  lemma MarkKeepsCause(retention: int, p: Pool, step: Step, j: JobId)
    requires LoopInv(p) && SessionInv(p) && j in p.jobs && JobInv(p, j, p.jobs[j]) && Enabled(p, step)
    requires step.CancelMark? || step.CancelFire? || step.CloseMark?
    ensures var q := Apply(retention, p, step);
            j in q.jobs ==> CauseInv(q, j, q.jobs[j])
  {}

  lemma MarkKeepsOutcome(retention: int, p: Pool, step: Step, j: JobId)
    requires j in p.jobs && JobInv(p, j, p.jobs[j]) && Enabled(p, step)
    requires step.CancelMark? || step.CancelFire? || step.CloseMark?
    ensures var q := Apply(retention, p, step);
            j in q.jobs ==> OutcomeInv(q, q.jobs[j])
  {}

  lemma BulkKeepsClient(retention: int, p: Pool, step: Step, j: JobId)
    requires j in p.jobs && JobInv(p, j, p.jobs[j]) && Enabled(p, step) && (step.CloseBegin? || step.Shutdown?)
    ensures var q := Apply(retention, p, step);
            j in q.jobs ==> ClientInv(q.jobs[j]) && VerdictInv(q.jobs[j])
  {}

  lemma BulkKeepsCause(retention: int, p: Pool, step: Step, j: JobId)
    requires LoopInv(p) && j in p.jobs && JobInv(p, j, p.jobs[j]) && Enabled(p, step)
    requires step.CloseBegin? || step.Shutdown?
    ensures var q := Apply(retention, p, step);
            j in q.jobs ==> CauseInv(q, j, q.jobs[j])
  {}

  lemma BulkKeepsOutcome(retention: int, p: Pool, step: Step, j: JobId)
    requires j in p.jobs && JobInv(p, j, p.jobs[j]) && Enabled(p, step) && (step.CloseBegin? || step.Shutdown?)
    ensures var q := Apply(retention, p, step);
            j in q.jobs ==> OutcomeInv(q, q.jobs[j])
  {}

  lemma StepJob(retention: int, p: Pool, step: Step, j: JobId)
    requires LoopInv(p) && SessionInv(p) && (j in p.jobs ==> JobInv(p, j, p.jobs[j])) && Enabled(p, step)
    requires j in Apply(retention, p, step).jobs
    ensures JobInv(Apply(retention, p, step), j, Apply(retention, p, step).jobs[j])
  {
    if Owner(step) == Some(j) {
      TransferKeepsClient(retention, p, step, j);
      TransferKeepsCause(retention, p, step, j);
      TransferKeepsOutcome(retention, p, step, j);
    } else if Owner(step).Some? {
      OtherJobsStay(retention, p, step, j);
      SameAroundKeeps(p, Apply(retention, p, step), j, p.jobs[j]);
    } else if step.Start? {
      StartKeepsClient(retention, p, step, j);
      StartKeepsCause(retention, p, step, j);
      StartKeepsOutcome(retention, p, step, j);
    } else if step.CloseBegin? || step.Shutdown? {
      BulkKeepsClient(retention, p, step, j);
      BulkKeepsCause(retention, p, step, j);
      BulkKeepsOutcome(retention, p, step, j);
    } else if step.CancelMark? || step.CancelFire? || step.CloseMark? {
      MarkKeepsClient(retention, p, step, j);
      MarkKeepsVerdict(retention, p, step, j);
      MarkKeepsCause(retention, p, step, j);
      MarkKeepsOutcome(retention, p, step, j);
    } else {
      QuietKeepsJob(retention, p, step, j);
    }
  }

  lemma TransferKeepsLoop(retention: int, p: Pool, step: Step)
    requires LoopInv(p) && Enabled(p, step) && Owner(step).Some?
    ensures LoopInv(Apply(retention, p, step))
  {}

  lemma PoolKeepsLoop(retention: int, p: Pool, step: Step)
    requires LoopInv(p) && Enabled(p, step) && Owner(step).None?
    ensures LoopInv(Apply(retention, p, step))
  {}

  lemma TransferKeepsSession(retention: int, p: Pool, step: Step)
    requires LoopInv(p) && SessionInv(p) && Enabled(p, step) && Owner(step).Some?
    ensures SessionInv(Apply(retention, p, step))
  {}

  lemma PoolKeepsSession(retention: int, p: Pool, step: Step)
    requires LoopInv(p) && SessionInv(p) && Enabled(p, step) && Owner(step).None?
    ensures SessionInv(Apply(retention, p, step))
  {}

  lemma TransferKeepsRetention(retention: int, p: Pool, step: Step)
    requires JobsInv(p) && RetentionInv(retention, p) && Enabled(p, step) && Owner(step).Some?
    ensures RetentionInv(retention, Apply(retention, p, step))
  {}

  lemma PoolKeepsRetention(retention: int, p: Pool, step: Step)
    requires JobsInv(p) && RetentionInv(retention, p) && Enabled(p, step) && Owner(step).None?
    ensures RetentionInv(retention, Apply(retention, p, step))
  {}

  /** One step keeps the whole invariant. */
  lemma StepInv(retention: int, p: Pool, step: Step)
    requires Inv(retention, p) && Enabled(p, step)
    ensures Inv(retention, Apply(retention, p, step))
  {
    var q := Apply(retention, p, step);
    if Owner(step).Some? {
      TransferKeepsLoop(retention, p, step);
      TransferKeepsSession(retention, p, step);
      TransferKeepsRetention(retention, p, step);
    } else {
      PoolKeepsLoop(retention, p, step);
      PoolKeepsSession(retention, p, step);
      PoolKeepsRetention(retention, p, step);
    }
    forall j | j in q.jobs ensures JobInv(q, j, q.jobs[j]) {
      StepJob(retention, p, step, j);
    }
  }

  // ----- whole runs

  lemma {:induction false} RunInv(retention: int, p: Pool, steps: seq<Step>, q: Pool)
    requires Inv(retention, p) && Reaches(retention, p, steps, q)
    ensures Inv(retention, q)
    decreases |steps|
  {
    if steps != [] {
      StepInv(retention, p, steps[0]);
      RunInv(retention, Apply(retention, p, steps[0]), steps[1..], q);
    }
  }

  ghost predicate Reachable(retention: int, p: Pool) {
    exists steps :: Reaches(retention, INITIAL, steps, p)
  }

  lemma ReachableInv(retention: int, p: Pool)
    requires Reachable(retention, p)
    ensures Inv(retention, p)
  {
    var steps :| Reaches(retention, INITIAL, steps, p);
    RunInv(retention, INITIAL, steps, p);
  }

  /** The client of a transfer goes to one closing path: the job keeps it until its first abort takes
      it, an abort that comes before the end never misses it, and a refused client was never the job's. */
  lemma ClientHandedOnce(retention: int, p: Pool, j: JobId)
    requires Reachable(retention, p) && j in p.jobs
    ensures
      var job := p.jobs[j];
      && job.handed + (if job.g.closer then 1 else 0) <= 1
      && (job.accepted && !job.g.done ==> job.handed + (if job.g.closer then 1 else 0) == 1)
      && (job.accepted && job.g.aborted && !job.g.done ==> job.handed == 1)
      && (!job.accepted ==> job.handed == 0 && !job.g.closer)
  {
    ReachableInv(retention, p);
    assert JobInv(p, j, p.jobs[j]);
  }

  /** One step never relabels an abort and never forgets a job, an outcome or a verdict. */
  lemma StepKeepsFirst(retention: int, p: Pool, step: Step, j: JobId)
    requires j in p.jobs && JobInv(p, j, p.jobs[j]) && Enabled(p, step)
    ensures
      var q := Apply(retention, p, step);
      && j in q.jobs
      && (p.jobs[j].first.Some? ==> q.jobs[j].first == p.jobs[j].first)
      && (p.jobs[j].handed <= q.jobs[j].handed)
      && (p.jobs[j].g.done ==>
            q.jobs[j].g.done && q.jobs[j].g.status == p.jobs[j].g.status &&
                q.jobs[j].g.finishedAt == p.jobs[j].g.finishedAt)
  {}

  /** The first cause wins: no later abort changes it, and a terminal status stays as it is. */
  lemma {:induction false} FirstCauseWins(retention: int, p: Pool, steps: seq<Step>, q: Pool, j: JobId)
    requires Inv(retention, p) && Reaches(retention, p, steps, q) && j in p.jobs
    ensures j in q.jobs
    ensures p.jobs[j].first.Some? ==> q.jobs[j].first == p.jobs[j].first
    ensures p.jobs[j].handed <= q.jobs[j].handed
    ensures p.jobs[j].g.done ==> q.jobs[j].g.done && q.jobs[j].g.status == p.jobs[j].g.status
    ensures p.jobs[j].g.done ==> q.jobs[j].g.finishedAt == p.jobs[j].g.finishedAt
    decreases |steps|
  {
    if steps != [] {
      StepInv(retention, p, steps[0]);
      StepKeepsFirst(retention, p, steps[0], j);
      FirstCauseWins(retention, Apply(retention, p, steps[0]), steps[1..], q, j);
    }
  }

  /** A failed transfer ends canceled exactly when an explicit cancel was the first thing to reach its context, and
      had by the time `finish` looked. That cancel was then the job's first abort; and an explicit first abort
      always does reach the context first, unless `finish` looked between its mark and its cancel or the pool was
      going down. */
  lemma ErrorAfterAbort(retention: int, p: Pool, j: JobId)
    requires Reachable(retention, p) && j in p.jobs && p.jobs[j].g.done
    ensures p.jobs[j].verdict.Some?
    ensures
      var job, v := p.jobs[j], p.jobs[j].verdict.value;
      && (job.g.status == Canceled <==> v.own.Some? && v.fired)
      && (v.fired ==> v.aborted && job.first == Some(Explicit))
      && (v.aborted && !v.pending && !v.down ==> (v.fired <==> job.first == Some(Explicit)))
  {
    ReachableInv(retention, p);
    assert JobInv(p, j, p.jobs[j]);
  }

  /** A failed transfer does not report what broke inside it but why it was stopped: the first abort's cause, its reason
      included, whenever that had reached the context and the pool was not going down; otherwise its own error. */
  lemma FailureIsExplained(retention: int, p: Pool, j: JobId)
    requires Reachable(retention, p) && j in p.jobs && p.jobs[j].g.done && p.jobs[j].verdict.Some?
    ensures
      var job, v := p.jobs[j], p.jobs[j].verdict.value;
      && (job.g.err.None? <==> job.g.status == Completed)
      && (job.g.err.None? <==> v.own.None?)
      && (v.aborted ==> job.first.Some?)
      && (v.own.Some? && v.aborted && !v.pending && !v.down ==> job.g.err == Some(FromContext(job.first.value)))
      && (v.seen.None? || v.seen == Some(PlainCanceled) ==> job.g.err == v.own)
  {
    ReachableInv(retention, p);
    assert JobInv(p, j, p.jobs[j]);
  }

  /** A job reports completion exactly when the whole file was transferred, an upload's source ended early, or its
      client was refused between an explicit abort and that abort's cancel; session-level aborts leave no such
      window. */
  lemma CompletedExactly(retention: int, p: Pool, j: JobId)
    requires Reachable(retention, p) && j in p.jobs && p.jobs[j].g.done
    ensures p.jobs[j].g.status == Completed <==> p.jobs[j].copied || p.jobs[j].short || p.jobs[j].window
    ensures p.jobs[j].short ==> p.jobs[j].kind.Upload? && !p.jobs[j].copied
    ensures p.jobs[j].window ==> p.jobs[j].first == Some(Explicit) && !p.jobs[j].accepted
  {
    ReachableInv(retention, p);
    assert JobInv(p, j, p.jobs[j]);
  }

  /** A job that can be found and is neither aborted nor terminal has its session open; so once a
      session is gone, all its jobs are aborted or terminal. */
  lemma LiveJobsHaveSessions(retention: int, p: Pool, j: JobId)
    requires Reachable(retention, p) && j in p.table
    ensures j in p.jobs
    ensures p.jobs[j].session in p.sessions || p.jobs[j].g.aborted || p.jobs[j].doneClosed
  {
    ReachableInv(retention, p);
  }

  /** Between two moments of a run a job leaves the table only if, at the later one, it is terminal
      and finished longer ago than the retention. */
  lemma LeavesOnlyWhenOld(retention: int, p: Pool, steps: seq<Step>, q: Pool, j: JobId)
    requires Reachable(retention, p) && Reaches(retention, p, steps, q)
    requires j in p.table && j !in q.table
    ensures j in q.jobs && q.jobs[j].g.done && q.jobs[j].g.status != Running
    ensures q.jobs[j].endedAt.Some? && q.clock - q.jobs[j].endedAt.value > retention
  {
    ReachableInv(retention, p);
    RunInv(retention, p, steps, q);
    FirstCauseWins(retention, p, steps, q, j);
    assert JobInv(q, j, q.jobs[j]);
  }

  // ----- what the pool lets happen

  /** A transfer that has not ended can always take its next step, whatever the loop is in the middle of. */
  lemma TransferGoesOn(p: Pool, j: JobId) returns (step: Step)
    requires j in p.jobs && !p.jobs[j].pc.Ended?
    ensures Enabled(p, step) && Owner(step) == Some(j)
  {
    match p.jobs[j].pc
    case Opening => step := Connect(j);
    case Opened => step := SetCloser(j);
    case Copying => step := CopyDone(j);
    case Returned(_) => step := ReadCause(j);
    case Decided(_) => step := Finish(j);
    case Signaling => step := Signal(j);
  }

  /** It may also fail to open its client, or to transfer, with an error of its own or with what its context says. */
  lemma TransferMayFail(retention: int, p: Pool, j: JobId, err: Error)
    requires j in p.jobs && (err == FromTransfer || (err.FromContext? && p.jobs[j].cause == Some(err.cause)))
    ensures p.jobs[j].pc.Opening? ==>
      Enabled(p, ConnectFail(j)) &&
      Apply(retention, p, ConnectFail(j)).jobs == p.jobs[j := p.jobs[j].(pc := Returned(Some(FromTransfer)))]
    ensures p.jobs[j].pc.Copying? ==>
      Enabled(p, CopyFail(j, err)) &&
      Apply(retention, p, CopyFail(j, err)).jobs == p.jobs[j := p.jobs[j].(pc := Returned(Some(err)))]
  {}

  /** The pool may shut down and time may pass at any moment. */
  lemma AnyMoment(retention: int, p: Pool, elapsed: nat)
    ensures Enabled(p, Shutdown) && Apply(retention, p, Shutdown).shutdown
    ensures Enabled(p, Tick(elapsed)) && Apply(retention, p, Tick(elapsed)) == p.(clock := p.clock + elapsed)
  {}

  /** Contexts derive from one another: a shutdown cancels every session's, a close its session's, and with a
      session's go those of all its jobs, whenever they were started. */
  ghost predicate Derived(p: Pool) {
    && (forall sid :: sid in p.sessionCause && (p.shutdown || sid !in p.sessions) ==> p.sessionCause[sid].Some?)
    && (p.loop.Closing? ==> p.loop.sid in p.sessionCause && p.sessionCause[p.loop.sid].Some?)
    && (forall j :: j in p.jobs && p.jobs[j].session in p.sessionCause && p.sessionCause[p.jobs[j].session].Some? ==>
        p.jobs[j].cause.Some?)
  }

  lemma DerivedTransfer(retention: int, p: Pool, step: Step)
    requires Derived(p) && Enabled(p, step) && Owner(step).Some?
    ensures Derived(Apply(retention, p, step))
  {}

  lemma DerivedBulk(retention: int, p: Pool, step: Step)
    requires LoopInv(p) && Derived(p) && Enabled(p, step) && (step.CloseBegin? || step.CloseEnd? || step.Shutdown?)
    ensures Derived(Apply(retention, p, step))
  {}

  lemma DerivedOther(retention: int, p: Pool, step: Step)
    requires LoopInv(p) && Derived(p) && Enabled(p, step) && Owner(step).None?
    requires !step.CloseBegin? && !step.CloseEnd? && !step.Shutdown?
    ensures Derived(Apply(retention, p, step))
  {}

  lemma DerivedStep(retention: int, p: Pool, step: Step)
    requires LoopInv(p) && Derived(p) && Enabled(p, step)
    ensures Derived(Apply(retention, p, step))
  {
    if Owner(step).Some? {
      DerivedTransfer(retention, p, step);
    } else if step.CloseBegin? || step.CloseEnd? || step.Shutdown? {
      DerivedBulk(retention, p, step);
    } else {
      DerivedOther(retention, p, step);
    }
  }

  lemma {:induction false} DerivedRun(retention: int, p: Pool, steps: seq<Step>, q: Pool)
    requires Inv(retention, p) && Derived(p) && Reaches(retention, p, steps, q)
    ensures Derived(q)
    decreases |steps|
  {
    if steps != [] {
      StepInv(retention, p, steps[0]);
      DerivedStep(retention, p, steps[0]);
      DerivedRun(retention, Apply(retention, p, steps[0]), steps[1..], q);
    }
  }

  /** So no job outlives its pool or its session with a live context. */
  lemma NoLiveContextLeft(retention: int, p: Pool, j: JobId)
    requires Reachable(retention, p) && j in p.jobs
    ensures p.shutdown || p.jobs[j].session !in p.sessions ==> p.jobs[j].cause.Some?
  {
    var steps :| Reaches(retention, INITIAL, steps, p);
    RunInv(retention, INITIAL, steps, p);
    DerivedRun(retention, INITIAL, steps, p);
  }

  /** What holds of a job whose steps never failed and that nobody has aborted. */
  ghost predicate Unharmed(job: Job) {
    || job.g.aborted
    || (&& (job.pc.Returned? || job.pc.Decided? ==> job.pc.err.None? && job.copied)
        && (Finishing(job.pc) ==> job.g.status == Completed && job.copied))
  }

  predicate Harms(step: Step, j: JobId) {
    step == ConnectFail(j) || step == CopyShort(j) || (step.CopyFail? && step.j == j)
  }

  lemma UnharmedStep(retention: int, p: Pool, step: Step, j: JobId)
    requires Enabled(p, step) && (j in p.jobs ==> Unharmed(p.jobs[j])) && !Harms(step, j)
    ensures j in Apply(retention, p, step).jobs ==> Unharmed(Apply(retention, p, step).jobs[j])
  {}

  lemma {:induction false} UnharmedRun(retention: int, p: Pool, steps: seq<Step>, q: Pool, j: JobId)
    requires Reaches(retention, p, steps, q) && (j in p.jobs ==> Unharmed(p.jobs[j]))
    requires forall i :: 0 <= i < |steps| ==> !Harms(steps[i], j)
    ensures j in q.jobs ==> Unharmed(q.jobs[j])
    decreases |steps|
  {
    if steps != [] {
      UnharmedStep(retention, p, steps[0], j);
      UnharmedRun(retention, Apply(retention, p, steps[0]), steps[1..], q, j);
    }
  }

  /** Whatever happens around it, a job that nobody aborts and none of whose operations fails or is cut short ends
      completed, with its whole file transferred. */
  lemma UntouchedCompletes(retention: int, steps: seq<Step>, q: Pool, j: JobId)
    requires Reaches(retention, INITIAL, steps, q) && j in q.jobs && q.jobs[j].pc.Ended?
    requires q.jobs[j].first.None? && forall i :: 0 <= i < |steps| ==> !Harms(steps[i], j)
    ensures q.jobs[j].g.status == Completed && q.jobs[j].copied && q.jobs[j].doneClosed
  {
    UnharmedRun(retention, INITIAL, steps, q, j);
    RunInv(retention, INITIAL, steps, q);
    assert JobInv(q, j, q.jobs[j]);
  }

  /** Starting a job on an open session is always possible between handlers; it lists the job, and drops from the
      table the jobs of its kind that finished longer ago than the retention, and those alone. */
  lemma StartEvicts(retention: int, p: Pool, kind: Kind, sid: SessionId, j: JobId, other: JobId)
    requires Reachable(retention, p) && p.loop.Idle? && sid in p.sessions && j !in p.jobs
    ensures Enabled(p, Start(kind, sid, j))
    ensures
      var q := Apply(retention, p, Start(kind, sid, j));
      && j in q.table && j in q.jobs && q.jobs[j].pc.Opening? && q.jobs[j].session == sid && q.jobs[j].kind == kind
      && (other in p.jobs ==> other in q.jobs && q.jobs[other] == p.jobs[other])
    ensures other in p.table ==> other in p.jobs
    ensures other in p.table ==>
      var g, q := p.jobs[other].g, Apply(retention, p, Start(kind, sid, j));
      (other !in q.table <==> p.jobs[other].kind == kind && g.done && p.clock - g.finishedAt > retention)
  {
    ReachableInv(retention, p);
  }

  /** A session is opened once, under an id that was never used. */
  lemma OpensOnce(retention: int, p: Pool, sid: SessionId)
    requires p.loop.Idle?
    ensures Enabled(p, OpenSession(sid)) <==> sid !in p.sessionCause
    ensures Enabled(p, OpenSession(sid)) ==>
      Apply(retention, p, OpenSession(sid)).sessions == p.sessions + {sid} &&
      sid in Apply(retention, p, OpenSession(sid)).sessionCause
  {}

  /** Canceling a listed job that was not aborted takes its client at once, and then reaches its context unless that
      was canceled before; canceling it again changes nothing. */
  lemma CancelReaches(retention: int, p: Pool, j: JobId)
    requires Reachable(retention, p) && p.loop.Idle? && j in p.table
    ensures j in p.jobs && Enabled(p, CancelMark(j))
    ensures p.jobs[j].g.aborted ==> Apply(retention, p, CancelMark(j)) == p
    ensures !p.jobs[j].g.aborted ==>
      var m := Apply(retention, p, CancelMark(j));
      Enabled(m, CancelFire) &&
      var q := Apply(retention, m, CancelFire);
      && q.loop.Idle? && j in q.jobs && q.jobs[j].g.aborted && q.jobs[j].first == Some(Explicit)
      && !q.jobs[j].g.closer && q.jobs[j].handed == p.jobs[j].handed + (if p.jobs[j].g.closer then 1 else 0)
      && q.jobs[j].cause == (if p.jobs[j].cause.None? then Some(Explicit) else p.jobs[j].cause)
  {
    ReachableInv(retention, p);
    if p.jobs[j].g.aborted {
      assert p.jobs[j := p.jobs[j]] == p.jobs;
    }
  }

  /** Closing a session begins by canceling the contexts of all its jobs, in or out of the table, and sets out to
      abort the listed ones that have not signaled their end. */
  lemma CloseCancels(retention: int, p: Pool, sid: SessionId, reason: string, j: JobId)
    requires Reachable(retention, p) && p.loop.Idle? && sid in p.sessions && j in p.jobs
    ensures Enabled(p, CloseBegin(sid, reason))
    ensures
      var q, job := Apply(retention, p, CloseBegin(sid, reason)), p.jobs[j];
      && q.loop.Closing? && q.loop.sid == sid && j in q.jobs
      && (j in q.loop.todo <==> j in p.table && job.session == sid && !job.doneClosed)
      && (job.session == sid && job.cause.None? ==> q.jobs[j].cause == Some(SessionGone(reason)))
      && (job.session != sid || job.cause.Some? ==> q.jobs[j].cause == job.cause)
      && q.jobs[j].g == job.g
  {
    ReachableInv(retention, p);
  }

  /** From then on the handler always comes to an end; then the session is gone, and every job of it that can still be
      found is aborted or has ended. */
  lemma {:induction false} CloseEnds(retention: int, p: Pool) returns (q: Pool)
    requires Reachable(retention, p) && p.loop.Closing?
    ensures Reachable(retention, q) && q.loop.Idle? && q.sessions == p.sessions - {p.loop.sid}
    ensures q.table == p.table && p.jobs.Keys == q.jobs.Keys
    ensures forall j :: j in q.table && j in q.jobs && q.jobs[j].session == p.loop.sid ==>
      q.jobs[j].g.aborted || q.jobs[j].doneClosed
    decreases |p.loop.todo|
  {
    ReachableInv(retention, p);
    if p.loop.todo == {} {
      Onward(retention, p, CloseEnd);
      q := Apply(retention, p, CloseEnd);
      ReachableInv(retention, q);
    } else {
      var j :| j in p.loop.todo;
      assert j in p.jobs;
      Onward(retention, p, CloseMark(j));
      q := CloseEnds(retention, Apply(retention, p, CloseMark(j)));
    }
  }

  // ----- two runs that the window between an abort's unlock and its cancel makes possible

  lemma {:induction false} Extend(retention: int, p: Pool, steps: seq<Step>, q: Pool, step: Step)
    requires Reaches(retention, p, steps, q) && Enabled(q, step)
    ensures Reaches(retention, p, steps + [step], Apply(retention, q, step))
    decreases |steps|
  {
    if steps == [] {
      assert ([step])[1..] == [];
      assert Reaches(retention, Apply(retention, p, step), [], Apply(retention, q, step));
      assert steps + [step] == [step];
    } else {
      Extend(retention, Apply(retention, p, steps[0]), steps[1..], q, step);
      assert (steps + [step])[1..] == steps[1..] + [step];
    }
  }

  lemma Onward(retention: int, p: Pool, step: Step)
    requires Reachable(retention, p) && Enabled(p, step)
    ensures Reachable(retention, Apply(retention, p, step))
  {
    var steps :| Reaches(retention, INITIAL, steps, p);
    Extend(retention, INITIAL, steps, p, step);
  }

  /** An upload has opened its client; it may have handed it to its job. */
  lemma UploadUnderWay(retention: int, copying: bool) returns (p: Pool)
    ensures Reachable(retention, p) && p.loop == Idle && 0 in p.jobs && 0 in p.table && !p.shutdown
    ensures p.jobs[0] == Job(Upload, 0, NEW_JOB.(closer := copying), if copying then Copying else Opened, None, None, 0,
                             copying, false, false, false, false, None, None, false)
  {
    p := INITIAL;
    assert Reaches(retention, INITIAL, [], p);
    Onward(retention, p, OpenSession(0));
    p := Apply(retention, p, OpenSession(0));
    Onward(retention, p, Start(Upload, 0, 0));
    p := Apply(retention, p, Start(Upload, 0, 0));
    Onward(retention, p, Connect(0));
    p := Apply(retention, p, Connect(0));
    if copying {
      Onward(retention, p, SetCloser(0));
      p := Apply(retention, p, SetCloser(0));
    }
  }

  /** Then an explicit cancel marked it; the cancel has not fired yet. */
  lemma MarkedNotFired(retention: int, copying: bool) returns (p: Pool)
    ensures Reachable(retention, p) && p.loop == Canceling(0) && 0 in p.jobs && !p.shutdown
    ensures p.jobs[0].g.aborted && p.jobs[0].first == Some(Explicit) && p.jobs[0].cause.None? && !p.jobs[0].copied
    ensures p.jobs[0].pc == if copying then Copying else Opened
  {
    p := UploadUnderWay(retention, copying);
    Onward(retention, p, CancelMark(0));
    p := Apply(retention, p, CancelMark(0));
  }

  /** An upload nobody aborted that reports completion although its source ended early. */
  lemma CompletedShort(retention: int) returns (p: Pool)
    ensures Reachable(retention, p) && 0 in p.jobs && !p.shutdown
    ensures p.jobs[0].g.status == Completed && !p.jobs[0].copied && p.jobs[0].first.None?
  {
    p := UploadUnderWay(retention, true);
    Onward(retention, p, CopyShort(0));
    p := Apply(retention, p, CopyShort(0));
    Onward(retention, p, ReadCause(0));
    p := Apply(retention, p, ReadCause(0));
    Onward(retention, p, Finish(0));
    p := Apply(retention, p, Finish(0));
  }

  /** A canceled upload that reports completion although nothing was sent. */
  lemma CompletedWithoutCopying(retention: int) returns (p: Pool)
    ensures Reachable(retention, p) && 0 in p.jobs && !p.shutdown
    ensures p.jobs[0].g.status == Completed && !p.jobs[0].copied && p.jobs[0].first == Some(Explicit)
  {
    p := MarkedNotFired(retention, false);
    Onward(retention, p, SetCloser(0));
    p := Apply(retention, p, SetCloser(0));
    Onward(retention, p, ReadCause(0));
    p := Apply(retention, p, ReadCause(0));
    Onward(retention, p, Finish(0));
    p := Apply(retention, p, Finish(0));
  }

  /** An explicitly canceled upload that fails on its own in the window reports failure, not cancellation. */
  lemma CanceledReportedFailed(retention: int) returns (p: Pool)
    ensures Reachable(retention, p) && 0 in p.jobs && !p.shutdown
    ensures p.jobs[0].g.status == Failed && p.jobs[0].first == Some(Explicit)
    ensures p.jobs[0].verdict.Some? && p.jobs[0].verdict.value.aborted
  {
    p := MarkedNotFired(retention, true);
    Onward(retention, p, CopyFail(0, FromTransfer));
    p := Apply(retention, p, CopyFail(0, FromTransfer));
    Onward(retention, p, ReadCause(0));
    p := Apply(retention, p, ReadCause(0));
    Onward(retention, p, Finish(0));
    p := Apply(retention, p, Finish(0));
  }
}
