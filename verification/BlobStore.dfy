/**
 The HTTP blob store (blob/http.go): an in-memory index and the files behind it.

 The mutex guards only the index; files are created, copied, opened and removed outside it.
 `Store` is the index with its critical sections as methods. The step machine below
 interleaves those sections with the file operations around them, a moving clock and the
 owners of attached files, and a history records what was stored and what was dropped, so
 that the claims can be made about the history instead of about the index itself.
 */
module BlobStore {
  import opened Options

  type Id = string
  type Bytes = seq<bv8>

  /** Where bytes are: the store's own objects/<id>, or a file of somebody else's mount. */
  datatype Place = Own(id: Id) | Mount(fs: nat, path: string)

  datatype Object = Object(place: Place, attached: bool, size: nat, expires: int)

  type Index = map<Id, Object>

  // ----- the index

  predicate Live(o: Object, now: int) { now < o.expires }

  /** What a sweep at `now` keeps in the index, and what it takes out. */
  function Kept(index: Index, now: int): Index { map id | id in index && Live(index[id], now) :: index[id] }

  function Taken(index: Index, now: int): Index { map id | id in index && !Live(index[id], now) :: index[id] }

  class Store {
    var objects: Index

    constructor ()
      ensures objects == map[]
    {
      objects := map[];
    }

    /** Put, run without interruption: an object is stored, whole, exactly when neither its declared size nor its
        payload exceeds the limit; otherwise nothing is left behind. The copy proceeds by chunks of any size. */
    method Put(l: Limits, id: Id, payload: Bytes, declared: int, chunk: nat, at: int, ttl: int,
               files: map<Place, Bytes>)
      returns (left: map<Place, Bytes>, ok: bool)
      requires chunk > 0 && Own(id) !in files
      modifies this
      ensures ok <==> declared <= l.max && |payload| <= l.max
      ensures left == if ok then files[Own(id) := payload] else files
      ensures objects == if ok then old(objects)[id := Object(Own(id), false, |payload|, Expiry(l, at, ttl))]
              else old(objects)
    {
      if declared > 0 && declared > l.max {
        return files, false;
      }
      left := files[Own(id) := []];
      var n := 0;
      var limit := if |payload| <= l.max + 1 then |payload| else l.max + 1;
      while n < limit
        invariant 0 <= n <= limit && left == files[Own(id) := payload[..n]]
      {
        n := if n + chunk <= limit then n + chunk else limit;
        left := left[Own(id) := payload[..n]];
      }
      if n > l.max {
        left := left - {Own(id)};
        assert left == files;
        return left, false;
      }
      assert payload[..n] == payload;
      objects := objects[id := Object(Own(id), false, n, Expiry(l, at, ttl))];
      return left, true;
    }

    /** The critical section of lookup: an expired object leaves the index on the way. */
    method Lookup(id: Id, now: int) returns (found: Option<Object>, expired: Option<Object>)
      modifies this
      ensures found.Some? <==> id in old(objects) && Live(old(objects)[id], now)
      ensures found.Some? ==> found.value == old(objects)[id]
      ensures expired.Some? <==> id in old(objects) && found.None?
      ensures expired.Some? ==> expired.value == old(objects)[id]
      ensures objects == if expired.Some? then old(objects) - {id} else old(objects)
    {
      found, expired := None, None;
      if id in objects {
        if now < objects[id].expires {
          found := Some(objects[id]);
        } else {
          expired := Some(objects[id]);
          objects := objects - {id};
        }
      }
    }

    method Take(id: Id) returns (o: Option<Object>)
      modifies this
      ensures objects == old(objects) - {id}
      ensures o == if id in old(objects) then Some(old(objects)[id]) else None
    {
      o := if id in objects then Some(objects[id]) else None;
      objects := objects - {id};
    }

    /** The critical section of sweep. */
    method TakeExpired(now: int) returns (expired: Index)
      modifies this
      ensures objects == Kept(old(objects), now)
      ensures expired == Taken(old(objects), now)
    {
      expired := map[];
      var todo := objects.Keys;
      while todo != {}
        invariant todo <= old(objects).Keys
        invariant expired.Keys == set id | id in old(objects) && id !in todo && !Live(old(objects)[id], now)
        invariant objects.Keys == set id | id in old(objects) && (id in todo || Live(old(objects)[id], now))
        invariant forall id :: id in objects ==> objects[id] == old(objects)[id]
        invariant forall id :: id in expired ==> expired[id] == old(objects)[id]
      {
        var id :| id in todo;
        if !(now < objects[id].expires) {
          expired := expired[id := objects[id]];
          objects := objects - {id};
        }
        todo := todo - {id};
      }
    }

    /** The critical section of purge. */
    method TakeAll() returns (held: Index)
      modifies this
      ensures objects == map[] && held == old(objects)
    {
      held := objects;
      objects := map[];
    }
  }

  /** remove: the files behind a batch of objects go, except those the store does not own. */
  method RemoveAll(objects: seq<Object>, files: map<Place, Bytes>) returns (left: map<Place, Bytes>)
    ensures left == files - Owned(objects)
    ensures forall at :: at in left <==>
              at in files && forall i :: 0 <= i < |objects| && objects[i].place == at ==> objects[i].attached
  {
    left := files;
    for i := 0 to |objects|
      invariant left == files - Owned(objects[..i])
    {
      if !objects[i].attached {
        left := left - {objects[i].place};
      }
      assert objects[..i + 1] == objects[..i] + [objects[i]];
    }
    assert objects[..|objects|] == objects;
  }

  function Owned(objects: seq<Object>): set<Place> {
    set i | 0 <= i < |objects| && !objects[i].attached :: objects[i].place
  }

  // ----- the machine

  /** A Put that has created its file: `n` bytes of the payload are in it. */
  datatype Write = Write(payload: Bytes, n: nat)

  /** An Open that found its object: `got` is what opening the file gave, None inside for a missing file. */
  datatype Reader = Reader(id: Id, held: Object, got: Option<Option<Bytes>>)

  /** What was stored: where, what, when it was described and with which lifetime. */
  datatype Record = Record(place: Place, payload: Bytes, at: int, ttl: int, expires: int)

  datatype State = State(
    index: Index,
    files: map<Place, Bytes>,
    writing: map<Id, Write>,
    pending: map<Id, Object>,   // taken out of the index, not yet discarded
    readers: map<nat, Reader>,
    clock: int,
    minted: set<Id>,            // history: every id handed out
    stored: map<Id, Record>,    // history: every object stored or attached
    dropped: set<Id>)           // history: deleted or purged after it was stored

  datatype Step =
    | Tick(elapsed: nat)
    | Create(id: Id, payload: Bytes, declared: int)
    | Copy(id: Id, k: nat)
    | CopyFails(id: Id)
    | CopyEnds(id: Id, at: int, ttl: int)
    | Attach(id: Id, fs: nat, path: string, at: int, ttl: int)
    | Delete(id: Id)
    | Lookup(r: nat, id: Id)
    | OpenFile(r: nat)
    | Sweep(at: int)
    | Purge
    | Discard(id: Id)
    | OwnerWrites(fs: nat, path: string, content: Bytes)
    | OwnerRemoves(fs: nat, path: string)

  datatype Limits = Limits(ttl: int, max: nat)

  const INITIAL: State := State(map[], map[], map[], map[], map[], 0, {}, map[], {})

  function Min(a: int, b: int): int { if a <= b then a else b }

  /** How much of the payload the limit reader lets through: one byte over the limit at most. */
  function Through(l: Limits, payload: Bytes): nat { Min(|payload|, l.max + 1) }

  /** A lifetime that is not positive means the store's own. */
  function Lifetime(l: Limits, ttl: int): int { if ttl > 0 then ttl else l.ttl }

  function Expiry(l: Limits, at: int, ttl: int): int { at + Lifetime(l, ttl) }

  predicate Enabled(l: Limits, s: State, step: Step) {
    match step
    case Tick(_) => true
    case Create(id, _, declared) => id !in s.minted && !(declared > 0 && declared > l.max)
    case Copy(id, k) => id in s.writing && s.writing[id].n + k <= Through(l, s.writing[id].payload)
    case CopyFails(id) => id in s.writing
    case CopyEnds(id, at, _) => id in s.writing && s.writing[id].n == Through(l, s.writing[id].payload) && at <= s.clock
    case Attach(id, fs, path, at, _) =>
      id !in s.minted && Mount(fs, path) in s.files && |s.files[Mount(fs, path)]| <= l.max && at <= s.clock
    case Delete(_) => true
    case Lookup(r, _) => r !in s.readers
    case OpenFile(r) => r in s.readers && s.readers[r].got.None?
    case Sweep(at) => at <= s.clock
    case Purge => true
    case Discard(id) => id in s.pending
    case OwnerWrites(_, _, _) => true
    case OwnerRemoves(_, _) => true
  }

  function PartialObject(id: Id, n: nat): Object { Object(Own(id), false, n, 0) }

  /** The bytes of a finished copy are kept only if the limit reader was not cut off. */
  function EndCopy(l: Limits, s: State, id: Id, at: int, ttl: int): State
    requires id in s.writing
  {
    var w := s.writing[id];
    if w.n > l.max then
      s.(writing := s.writing - {id}, pending := s.pending[id := PartialObject(id, w.n)])
    else
      s.(writing := s.writing - {id},
         index := s.index[id := Object(Own(id), false, w.n, Expiry(l, at, ttl))],
         stored := s.stored[id := Record(Own(id), w.payload, at, ttl, Expiry(l, at, ttl))])
  }

  function Take(s: State, id: Id): State {
    if id in s.index then s.(index := s.index - {id}, pending := s.pending[id := s.index[id]]) else s
  }

  /** discard: attached bytes stay where they are. */
  function Discarded(s: State, id: Id): State
    requires id in s.pending
  {
    s.(pending := s.pending - {id},
       files := if s.pending[id].attached then s.files else s.files - {s.pending[id].place})
  }

  function Apply(l: Limits, s: State, step: Step): State
    requires Enabled(l, s, step)
  {
    match step
    case Tick(elapsed) => s.(clock := s.clock + elapsed)
    case Create(id, payload, _) =>
      s.(minted := s.minted + {id}, files := s.files[Own(id) := []], writing := s.writing[id := Write(payload, 0)])
    case Copy(id, k) =>
      var w := s.writing[id];
      s.(files := s.files[Own(id) := w.payload[..w.n + k]], writing := s.writing[id := w.(n := w.n + k)])
    case CopyFails(id) =>
      s.(writing := s.writing - {id}, pending := s.pending[id := PartialObject(id, s.writing[id].n)])
    case CopyEnds(id, at, ttl) => EndCopy(l, s, id, at, ttl)
    case Attach(id, fs, path, at, ttl) =>
      s.(minted := s.minted + {id},
         index := s.index[id := Object(Mount(fs, path), true, |s.files[Mount(fs, path)]|, Expiry(l, at, ttl))],
         stored := s.stored[id := Record(Mount(fs, path), s.files[Mount(fs, path)], at, ttl, Expiry(l, at, ttl))])
    case Delete(id) => Take(s, id).(dropped := s.dropped + (if id in s.stored then {id} else {}))
    case Lookup(r, id) =>
      if id in s.index && Live(s.index[id], s.clock) then
        s.(readers := s.readers[r := Reader(id, s.index[id], None)])
      else Take(s, id)
    case OpenFile(r) =>
      var reader := s.readers[r];
      var place := reader.held.place;
      s.(readers := s.readers[r := reader.(got := Some(if place in s.files then Some(s.files[place]) else None))])
    case Sweep(at) => s.(index := Kept(s.index, at), pending := s.pending + Taken(s.index, at))
    case Purge => s.(index := map[], pending := s.pending + s.index, dropped := s.dropped + s.stored.Keys)
    case Discard(id) => Discarded(s, id)
    case OwnerWrites(fs, path, content) => s.(files := s.files[Mount(fs, path) := content])
    case OwnerRemoves(fs, path) => s.(files := s.files - {Mount(fs, path)})
  }

  ghost predicate Reaches(l: Limits, s: State, steps: seq<Step>, t: State)
    decreases |steps|
  {
    if steps == [] then s == t
    else Enabled(l, s, steps[0]) && Reaches(l, Apply(l, s, steps[0]), steps[1..], t)
  }

  ghost predicate Reachable(l: Limits, s: State) {
    exists steps :: Reaches(l, INITIAL, steps, s)
  }

  // ----- the invariant

  /** An id is being written, indexed, waiting to be discarded, or gone; never two of these. */
  ghost predicate PlacesInv(s: State, id: Id) {
    && !(id in s.writing && id in s.index)
    && !(id in s.writing && id in s.pending)
    && !(id in s.index && id in s.pending)
    && !(id in s.writing && id in s.stored)
    && (id in s.writing || id in s.index || id in s.pending || id in s.stored || Own(id) in s.files ==> id in s.minted)
    && (id in s.index ==> id in s.stored)
    && (id in s.dropped ==> id in s.stored)
  }

  /** The index and the history of stored objects agree. */
  ghost predicate IndexInv(l: Limits, s: State, id: Id) {
    && (id in s.index && id in s.stored ==>
          s.index[id].expires == s.stored[id].expires && s.index[id].place == s.stored[id].place && id !in s.dropped)
    && (id in s.stored && id !in s.index && id !in s.dropped ==> s.stored[id].expires <= s.clock)
    && (id in s.stored ==> |s.stored[id].payload| <= l.max)
    && (id in s.stored ==> s.stored[id].expires == Expiry(l, s.stored[id].at, s.stored[id].ttl))
    && (id in s.stored && s.stored[id].place.Own? ==> s.stored[id].place == Own(id))
  }

  ghost predicate Describes(o: Object, id: Id) { if o.attached then o.place.Mount? else o.place == Own(id) }

  /** Every file of the store's own is accounted for and holds what was sent. */
  ghost predicate FilesInv(s: State, id: Id) {
    && (Own(id) in s.files ==>
          id in s.writing || (id in s.index && !s.index[id].attached) || (id in s.pending && !s.pending[id].attached))
    && (id in s.index ==> Describes(s.index[id], id))
    && (id in s.pending ==> Describes(s.pending[id], id))
    && (id in s.writing ==>
          s.writing[id].n <= |s.writing[id].payload| && Own(id) in s.files &&
          s.files[Own(id)] == s.writing[id].payload[..s.writing[id].n])
    && (id in s.pending && !s.pending[id].attached ==> Own(id) in s.files)
    && (id in s.index && !s.index[id].attached ==> Own(id) in s.files)
    && (id in s.index && !s.index[id].attached && id in s.stored ==> s.index[id].size == |s.stored[id].payload|)
    && (Own(id) in s.files && id in s.stored ==> s.files[Own(id)] == s.stored[id].payload)
  }

  ghost predicate ReaderInv(s: State, reader: Reader) {
    && reader.id in s.stored
    && reader.held.place == s.stored[reader.id].place
    && (reader.held.place.Own? && reader.got.Some? ==>
          if reader.got.value.Some? then reader.got.value.value == s.stored[reader.id].payload
          else reader.id in s.dropped || s.stored[reader.id].expires <= s.clock)
  }

  ghost predicate Inv(l: Limits, s: State) {
    && (forall id :: PlacesInv(s, id))
    && (forall id :: IndexInv(l, s, id))
    && (forall id :: FilesInv(s, id))
    && (forall r :: r in s.readers ==> ReaderInv(s, s.readers[r]))
  }

  ghost predicate IdInv(l: Limits, s: State, id: Id) {
    PlacesInv(s, id) && IndexInv(l, s, id) && FilesInv(s, id)
  }

  predicate IsPut(step: Step) {
    step.Create? || step.Copy? || step.CopyFails? || step.CopyEnds? || step.Attach?
  }

  predicate IsTake(step: Step) { step.Delete? || step.Lookup? || step.Sweep? || step.Purge? }

  predicate ByOwner(step: Step) { step.OwnerWrites? || step.OwnerRemoves? }

  lemma PutKeepsPlaces(l: Limits, s: State, step: Step, id: Id)
    requires IdInv(l, s, id) && Enabled(l, s, step) && IsPut(step)
    ensures PlacesInv(Apply(l, s, step), id)
  {}

  lemma PutKeepsIndex(l: Limits, s: State, step: Step, id: Id)
    requires IdInv(l, s, id) && Enabled(l, s, step) && IsPut(step)
    ensures IndexInv(l, Apply(l, s, step), id)
  {}

  lemma PutKeepsFiles(l: Limits, s: State, step: Step, id: Id)
    requires IdInv(l, s, id) && Enabled(l, s, step) && IsPut(step)
    ensures FilesInv(Apply(l, s, step), id)
  {}

  lemma TakeKeepsPlaces(l: Limits, s: State, step: Step, id: Id)
    requires IdInv(l, s, id) && Enabled(l, s, step) && IsTake(step)
    ensures PlacesInv(Apply(l, s, step), id)
  {}

  lemma TakeKeepsIndex(l: Limits, s: State, step: Step, id: Id)
    requires IdInv(l, s, id) && Enabled(l, s, step) && IsTake(step)
    ensures IndexInv(l, Apply(l, s, step), id)
  {}

  /** From `s` to `t` the object of `id` stayed where it was or went from the index to the pending ones. */
  ghost predicate Moved(s: State, t: State, id: Id) {
    && t.files == s.files && t.writing == s.writing && t.stored == s.stored
    && (id in t.index ==> id in s.index && t.index[id] == s.index[id])
    && (id in t.pending ==>
          (id in s.pending && t.pending[id] == s.pending[id]) || (id in s.index && t.pending[id] == s.index[id]))
    && (id in s.index ==> id in t.index || (id in t.pending && t.pending[id] == s.index[id]))
    && (id in s.pending && id !in s.index ==> id in t.pending && t.pending[id] == s.pending[id])
  }

  lemma TakeMoves(l: Limits, s: State, step: Step, id: Id)
    requires Enabled(l, s, step) && IsTake(step)
    ensures Moved(s, Apply(l, s, step), id)
  {
    if step.Delete? || step.Lookup? {
      OneMoves(s, step.id, id);
    } else {
      SweepMoves(l, s, step, id);
    }
  }

  lemma OneMoves(s: State, taken: Id, id: Id)
    ensures Moved(s, Take(s, taken), id)
  {}

  lemma SweepMoves(l: Limits, s: State, step: Step, id: Id)
    requires Enabled(l, s, step) && (step.Sweep? || step.Purge?)
    ensures Moved(s, Apply(l, s, step), id)
  {}

  lemma MovedKeepsFiles(l: Limits, s: State, t: State, id: Id)
    requires IdInv(l, s, id) && Moved(s, t, id)
    ensures FilesInv(t, id)
  {}

  lemma RestKeepsPlaces(l: Limits, s: State, step: Step, id: Id)
    requires IdInv(l, s, id) && Enabled(l, s, step) && !IsPut(step) && !IsTake(step)
    requires step.Discard? ==> IdInv(l, s, step.id)
    ensures PlacesInv(Apply(l, s, step), id)
  {}

  lemma RestKeepsIndex(l: Limits, s: State, step: Step, id: Id)
    requires IdInv(l, s, id) && Enabled(l, s, step) && !IsPut(step) && !IsTake(step)
    requires step.Discard? ==> IdInv(l, s, step.id)
    ensures IndexInv(l, Apply(l, s, step), id)
  {}

  lemma RestKeepsFiles(l: Limits, s: State, step: Step, id: Id)
    requires IdInv(l, s, id) && Enabled(l, s, step) && !IsPut(step) && !IsTake(step)
    requires step.Discard? ==> IdInv(l, s, step.id)
    ensures FilesInv(Apply(l, s, step), id)
  {}

  lemma StepId(l: Limits, s: State, step: Step, id: Id)
    requires IdInv(l, s, id) && Enabled(l, s, step) && (step.Discard? ==> IdInv(l, s, step.id))
    ensures IdInv(l, Apply(l, s, step), id)
  {
    if IsPut(step) {
      PutKeepsPlaces(l, s, step, id);
      PutKeepsIndex(l, s, step, id);
      PutKeepsFiles(l, s, step, id);
    } else if IsTake(step) {
      TakeKeepsPlaces(l, s, step, id);
      TakeKeepsIndex(l, s, step, id);
      TakeMoves(l, s, step, id);
      MovedKeepsFiles(l, s, Apply(l, s, step), id);
    } else {
      RestKeepsPlaces(l, s, step, id);
      RestKeepsIndex(l, s, step, id);
      RestKeepsFiles(l, s, step, id);
    }
  }

  /** What was stored under an id never changes, and what was dropped stays dropped. */
  lemma StepHistory(l: Limits, s: State, step: Step, id: Id)
    requires PlacesInv(s, id) && Enabled(l, s, step)
    ensures
      var t := Apply(l, s, step);
      && s.clock <= t.clock
      && (id in s.stored ==> id in t.stored && t.stored[id] == s.stored[id])
      && (id in s.dropped ==> id in t.dropped)
  {}

  lemma StepReaders(l: Limits, s: State, step: Step, r: nat)
    requires Inv(l, s) && Enabled(l, s, step) && r in Apply(l, s, step).readers
    ensures ReaderInv(Apply(l, s, step), Apply(l, s, step).readers[r])
  {
    var t := Apply(l, s, step);
    var id := t.readers[r].id;
    assert PlacesInv(s, id) && IndexInv(l, s, id) && FilesInv(s, id);
    StepHistory(l, s, step, id);
    if r in s.readers {
      assert ReaderInv(s, s.readers[r]);
    }
  }

  lemma StepInv(l: Limits, s: State, step: Step)
    requires Inv(l, s) && Enabled(l, s, step)
    ensures Inv(l, Apply(l, s, step))
  {
    var t := Apply(l, s, step);
    forall id ensures PlacesInv(t, id) && IndexInv(l, t, id) && FilesInv(t, id) {
      assert IdInv(l, s, id);
      assert step.Discard? ==> IdInv(l, s, step.id);
      StepId(l, s, step, id);
      assert IdInv(l, t, id);
    }
    forall r | r in t.readers ensures ReaderInv(t, t.readers[r]) {
      StepReaders(l, s, step, r);
    }
  }

  lemma {:induction false} RunInv(l: Limits, s: State, steps: seq<Step>, t: State)
    requires Inv(l, s) && Reaches(l, s, steps, t)
    ensures Inv(l, t)
    decreases |steps|
  {
    if steps != [] {
      StepInv(l, s, steps[0]);
      RunInv(l, Apply(l, s, steps[0]), steps[1..], t);
    }
  }

  lemma ReachableInv(l: Limits, s: State)
    requires Reachable(l, s)
    ensures Inv(l, s)
  {
    var steps :| Reaches(l, INITIAL, steps, s);
    RunInv(l, INITIAL, steps, s);
  }

  // ----- what every run guarantees

  /** Whether a lookup hits depends on the history and the clock alone, not on which sweeps have run. */
  lemma OpensExactly(l: Limits, s: State, r: nat, id: Id)
    requires Reachable(l, s) && r !in s.readers
    ensures r in Apply(l, s, Lookup(r, id)).readers <==>
            && id in s.stored && id !in s.dropped
            && s.clock < s.stored[id].at + (if s.stored[id].ttl > 0 then s.stored[id].ttl else l.ttl)
  {
    ReachableInv(l, s);
    assert PlacesInv(s, id) && IndexInv(l, s, id);
  }

  /** The outcome of opening a stored object's file: its exact payload, within the size limit, or a
      miss, and a miss only once the object was dropped or has expired. */
  lemma ReadsPayload(l: Limits, s: State, r: nat)
    requires Reachable(l, s) && r in s.readers && s.readers[r].got.Some? && s.readers[r].held.place.Own?
    ensures s.readers[r].id in s.stored
    ensures match s.readers[r].got.value
            case Some(content) => content == s.stored[s.readers[r].id].payload && |content| <= l.max
            case None => s.readers[r].id in s.dropped || s.stored[s.readers[r].id].expires <= s.clock
  {
    ReachableInv(l, s);
    assert ReaderInv(s, s.readers[r]);
    assert IndexInv(l, s, s.readers[r].id);
  }

  /** A file of the store's own is indexed, mid-write or about to be removed, exactly one of the three;
      and each of those has its file, so a removal always finds something to remove. */
  lemma FilesAccounted(l: Limits, s: State, id: Id)
    requires Reachable(l, s)
    ensures
      var indexed := id in s.index && !s.index[id].attached;
      var removing := id in s.pending && !s.pending[id].attached;
      && (Own(id) in s.files <==> indexed || id in s.writing || removing)
      && !(indexed && id in s.writing) && !(indexed && removing) && !(id in s.writing && removing)
  {
    ReachableInv(l, s);
    assert PlacesInv(s, id) && FilesInv(s, id);
  }

  /** Once no write or removal is under way the store's files are exactly the indexed objects, byte for byte. */
  lemma QuietDiskIsIndex(l: Limits, s: State, id: Id)
    requires Reachable(l, s) && s.writing == map[] && s.pending == map[]
    ensures Own(id) in s.files <==> id in s.index && s.index[id].place == Own(id)
    ensures Own(id) in s.files ==>
      id in s.stored && s.files[Own(id)] == s.stored[id].payload && s.index[id].size == |s.stored[id].payload|
  {
    ReachableInv(l, s);
    assert PlacesInv(s, id) && FilesInv(s, id) && IndexInv(l, s, id);
  }

  lemma StepSparesMounts(l: Limits, s: State, step: Step, m: Place)
    requires Inv(l, s) && Enabled(l, s, step) && !ByOwner(step) && m.Mount?
    ensures m in Apply(l, s, step).files <==> m in s.files
    ensures m in s.files ==> Apply(l, s, step).files[m] == s.files[m]
  {
    if step.Discard? {
      assert FilesInv(s, step.id);
    }
  }

  /** Attached files are never removed or changed: over any run in which their owner does nothing, every
      file outside the store stays as it was. */
  lemma {:induction false} MountsUntouched(l: Limits, s: State, steps: seq<Step>, t: State, m: Place)
    requires Inv(l, s) && Reaches(l, s, steps, t) && m.Mount?
    requires forall i :: 0 <= i < |steps| ==> !ByOwner(steps[i])
    ensures m in t.files <==> m in s.files
    ensures m in s.files ==> t.files[m] == s.files[m]
    decreases |steps|
  {
    if steps != [] {
      StepInv(l, s, steps[0]);
      StepSparesMounts(l, s, steps[0], m);
      MountsUntouched(l, Apply(l, s, steps[0]), steps[1..], t, m);
    }
  }

  /** A copy that reaches its end is stored exactly when the whole payload fits the limit; otherwise
      its file is queued for removal. */
  lemma StoredIffFits(l: Limits, s: State, id: Id, at: int, ttl: int)
    requires Reachable(l, s) && Enabled(l, s, CopyEnds(id, at, ttl))
    ensures
      var t, payload := Apply(l, s, CopyEnds(id, at, ttl)), s.writing[id].payload;
      && (id in t.stored <==> |payload| <= l.max)
      && (id in t.stored ==> t.stored[id].payload == payload && Own(id) in t.files && t.files[Own(id)] == payload)
      && (id !in t.stored ==> id in t.pending && t.pending[id].place == Own(id) && !t.pending[id].attached)
  {
    ReachableInv(l, s);
    assert PlacesInv(s, id) && FilesInv(s, id);
  }

  /** What is recorded under an id is final. */
  lemma {:induction false} HistoryIsFinal(l: Limits, s: State, steps: seq<Step>, t: State, id: Id)
    requires Inv(l, s) && Reaches(l, s, steps, t)
    ensures s.clock <= t.clock
    ensures id in s.stored ==> id in t.stored && t.stored[id] == s.stored[id]
    ensures id in s.dropped ==> id in t.dropped
    decreases |steps|
  {
    if steps != [] {
      StepInv(l, s, steps[0]);
      assert PlacesInv(s, id);
      StepHistory(l, s, steps[0], id);
      HistoryIsFinal(l, Apply(l, s, steps[0]), steps[1..], t, id);
    }
  }

  // ----- request paths

  function TrimPrefix(p: string, prefix: string): string {
    if prefix <= p then p[|prefix|..] else p
  }

  function FirstSegment(p: string): (r: string)
    ensures r <= p && '/' !in r
    ensures r == p || p[|r|] == '/'
  {
    if p == "" || p[0] == '/' then "" else [p[0]] + FirstSegment(p[1..])
  }

  /** requestID: the handler may be mounted at the base URL's path or at the root. */
  function RequestId(prefix: string, path: string): string {
    FirstSegment(TrimPrefix(if prefix != "" then TrimPrefix(path, prefix) else path, "/"))
  }

  function MintedPath(id: Id, name: string): string { "/" + id + "/" + name }

  lemma {:induction false} FirstSegmentOf(a: string, rest: string)
    requires '/' !in a
    ensures FirstSegment(a + "/" + rest) == a
  {
    if a != "" {
      FirstSegmentOf(a[1..], rest);
      assert (a + "/" + rest)[1..] == a[1..] + "/" + rest;
    }
  }

  /** The path of a minted URL parses back to its id, whatever the base path and the name are. */
  lemma MintedPathParses(prefix: string, id: Id, name: string)
    requires '/' !in id
    ensures RequestId(prefix, prefix + MintedPath(id, name)) == id
  {
    var path := prefix + MintedPath(id, name);
    assert path[|prefix|..] == MintedPath(id, name);
    assert prefix == "" ==> path == MintedPath(id, name);
    assert MintedPath(id, name)[1..] == id + "/" + name;
    FirstSegmentOf(id, name);
  }

  /** What follows the base path is the id again, with or without a slash before it, as a whole segment. */
  predicate Repeats(prefix: string, id: Id, path: string) {
    || prefix + id == path || prefix + "/" + id == path
    || prefix + id + "/" <= path || prefix + "/" + id + "/" <= path
  }

  /** Served from the root of its own listener, a minted path parses back exactly when the base path is empty or a lone
      slash, does not start the path, or is followed in it by the id once more. Of a name without a slash only the end
      can be that repetition. */
  lemma RootMountedPathParses(prefix: string, id: Id, name: string)
    requires id != "" && '/' !in id
    ensures
      var path := MintedPath(id, name);
      && (RequestId(prefix, path) == id <==>
            prefix == "" || prefix == "/" || !(prefix <= path) || Repeats(prefix, id, path))
      && ('/' !in name && 2 <= |prefix| ==>
            (Repeats(prefix, id, path) <==> prefix + id == path || prefix + "/" + id == path))
  {
    if '/' !in name && 2 <= |prefix| {
      RepeatsAtEnd(prefix, id, name);
    }
    if prefix == "" || prefix == "/" || !(prefix <= MintedPath(id, name)) {
      UnrelatedPrefix(prefix, id, name);
    } else if |prefix| <= |id| {
      InsideId(prefix, id, name);
    } else {
      RestRepeats(prefix, id, MintedPath(id, name));
    }
  }

  lemma UnrelatedPrefix(prefix: string, id: Id, name: string)
    requires id != "" && '/' !in id && (prefix == "" || prefix == "/" || !(prefix <= MintedPath(id, name)))
    ensures RequestId(prefix, MintedPath(id, name)) == id
  {
    var path := MintedPath(id, name);
    assert path == "/" + (id + "/" + name);
    assert path[1..] == id + "/" + name;
    FirstSegmentOf(id, name);
    if prefix == "/" {
      NoSlashFirst(id, name);
    }
  }

  lemma NoSlashFirst(id: Id, name: string)
    requires id != "" && '/' !in id
    ensures FirstSegment(TrimPrefix(id + "/" + name, "/")) == id
  {
    FirstSegmentOf(id, name);
    assert (id + "/" + name)[0] == id[0];
  }

  lemma InsideId(prefix: string, id: Id, name: string)
    requires '/' !in id && 2 <= |prefix| <= |id| && prefix <= MintedPath(id, name)
    ensures RequestId(prefix, MintedPath(id, name)) != id && !Repeats(prefix, id, MintedPath(id, name))
  {
    CutId(prefix, id, name);
    NoRepeatInside(prefix, id, name);
  }

  /** The first segment of a text, past one slash, is the id exactly when the text begins with it as a whole segment. */
  lemma SegmentIs(rest: string, id: Id)
    requires id != "" && '/' !in id
    ensures FirstSegment(rest) == id <==> rest == id || id + "/" <= rest
  {
    var seg := FirstSegment(rest);
    if seg == id && rest != id {
      assert rest[..|id|] == id && rest[|id|] == '/';
      assert rest[..|id| + 1] == id + "/";
    }
    if id + "/" <= rest {
      assert rest == id + "/" + rest[|id| + 1..];
      FirstSegmentOf(id, rest[|id| + 1..]);
    }
  }

  lemma RestRepeats(prefix: string, id: Id, path: string)
    requires id != "" && '/' !in id && prefix <= path && prefix != ""
    ensures RequestId(prefix, path) == id <==> Repeats(prefix, id, path)
  {
    var rest := path[|prefix|..];
    assert path == prefix + rest;
    SegmentIs(TrimPrefix(rest, "/"), id);
    Slashed(rest, id);
    RepeatsIs(prefix, id, rest);
  }

  lemma RepeatsIs(prefix: string, id: Id, rest: string)
    ensures Repeats(prefix, id, prefix + rest) <==>
            rest == id || rest == "/" + id || id + "/" <= rest || "/" + id + "/" <= rest
  {
    Continues(prefix, id, rest);
    Continues(prefix, "/" + id, rest);
    Continues(prefix, id + "/", rest);
    Continues(prefix, "/" + id + "/", rest);
    assert prefix + "/" + id == prefix + ("/" + id) && prefix + id + "/" == prefix + (id + "/");
    assert prefix + "/" + id + "/" == prefix + ("/" + id + "/");
  }

  lemma Continues(prefix: string, part: string, rest: string)
    ensures prefix + part == prefix + rest <==> part == rest
    ensures prefix + part <= prefix + rest <==> part <= rest
  {
    assert (prefix + rest)[|prefix|..] == rest && (prefix + part)[|prefix|..] == part;
    if part <= rest {
      assert rest == part + rest[|part|..];
      assert prefix + rest == (prefix + part) + rest[|part|..];
    }
    if prefix + part <= prefix + rest {
      assert forall i :: 0 <= i < |part| ==> part[i] == (prefix + part)[|prefix| + i] == (prefix + rest)[|prefix| + i];
    }
  }

  lemma Slashed(rest: string, id: Id)
    requires id != "" && '/' !in id
    ensures
      var t := TrimPrefix(rest, "/");
      (t == id || id + "/" <= t) <==> (rest == id || rest == "/" + id || id + "/" <= rest || "/" + id + "/" <= rest)
  {
    if "/" <= rest {
      assert rest == "/" + rest[1..];
      Continues("/", id, rest[1..]);
      Continues("/", id + "/", rest[1..]);
      assert "/" + id + "/" == "/" + (id + "/");
      assert rest[0] == '/' && id[0] != '/' && (id + "/")[0] == id[0];
    } else {
      assert "/" <= "/" + id && "/" <= "/" + id + "/";
    }
  }

  lemma NoRepeatInside(prefix: string, id: Id, name: string)
    requires '/' !in id && 2 <= |prefix| <= |id| && prefix <= MintedPath(id, name)
    ensures !Repeats(prefix, id, MintedPath(id, name))
  {
    var path, k := MintedPath(id, name), |prefix| - 1;
    assert path[1 + |id|] == '/' && path[1 + k] == id[k];
    assert (prefix + id)[1 + |id|] == id[|id| - k] && (prefix + "/" + id)[1 + k] == '/';
    assert (prefix + id + "/")[1 + |id|] == id[|id| - k] && (prefix + "/" + id + "/")[1 + k] == '/';
  }

  /** With no slash in the name there is none for a repetition to end in. */
  lemma RepeatsAtEnd(prefix: string, id: Id, name: string)
    requires id != "" && '/' !in id && '/' !in name && 2 <= |prefix|
    ensures !(prefix + id + "/" <= MintedPath(id, name)) && !(prefix + "/" + id + "/" <= MintedPath(id, name))
  {
    var path := MintedPath(id, name);
    assert forall i :: 0 <= i < |path| && path[i] == '/' ==> i <= 1 + |id| by {
      forall i | 1 + |id| < i < |path| ensures path[i] != '/' {
        assert path[i] == name[i - 2 - |id|];
      }
    }
    assert (prefix + id + "/")[|prefix| + |id|] == '/';
    assert (prefix + "/" + id + "/")[|prefix| + 1 + |id|] == '/';
  }

  /** A base path that ends inside the id leaves only the id's tail. */
  lemma CutId(prefix: string, id: Id, name: string)
    requires '/' !in id && 2 <= |prefix| <= |id| && prefix <= MintedPath(id, name)
    ensures RequestId(prefix, MintedPath(id, name)) == id[|prefix| - 1..]
  {
    var k := |prefix| - 1;
    var tail := MintedPath(id, name)[|prefix|..];
    assert tail == id[k..] + "/" + name;
    assert tail[0] == id[k];
    FirstSegmentOf(id[k..], name);
  }

  /** A base path that begins like an id does make the root-mounted handler miss it. */
  lemma RootMountMisses()
    ensures RequestId("/a", MintedPath("abc", "x")) != "abc"
  {
    RootMountedPathParses("/a", "abc", "x");
    assert MintedPath("abc", "x")[..2] == "/a";
  }

  // ----- what the store does when nothing is wrong

  /** A removal takes out of the files exactly what `remove` would for that object alone. */
  lemma DiscardIsRemove(s: State, id: Id)
    requires id in s.pending
    ensures Discarded(s, id).files == s.files - Owned([s.pending[id]])
    ensures s.pending[id].attached ==> Discarded(s, id).files == s.files
    ensures !s.pending[id].attached ==> Discarded(s, id).files == s.files - {s.pending[id].place}
  {
    assert [s.pending[id]][0] == s.pending[id];
    if !s.pending[id].attached {
      assert Owned([s.pending[id]]) == {s.pending[id].place};
    } else {
      assert Owned([s.pending[id]]) == {};
    }
  }

  /** No file of the store, finished or not, is more than one byte over the limit. */
  ghost predicate Bounded(l: Limits, s: State) {
    && (forall id :: Own(id) in s.files ==> |s.files[Own(id)]| <= l.max + 1)
    && (forall id :: id in s.writing ==> s.writing[id].n <= l.max + 1 && s.writing[id].n <= |s.writing[id].payload|)
  }

  lemma BoundedStep(l: Limits, s: State, step: Step)
    requires Bounded(l, s) && Enabled(l, s, step)
    ensures Bounded(l, Apply(l, s, step))
  {}

  lemma {:induction false} BoundedRun(l: Limits, s: State, steps: seq<Step>, t: State)
    requires Bounded(l, s) && Reaches(l, s, steps, t)
    ensures Bounded(l, t)
    decreases |steps|
  {
    if steps != [] {
      BoundedStep(l, s, steps[0]);
      BoundedRun(l, Apply(l, s, steps[0]), steps[1..], t);
    }
  }

  /** However long a payload is, the disk never takes more than one byte beyond the limit for it. */
  lemma DiskIsBounded(l: Limits, s: State)
    requires Reachable(l, s)
    ensures Bounded(l, s)
  {
    var steps :| Reaches(l, INITIAL, steps, s);
    BoundedRun(l, INITIAL, steps, s);
  }

  /** A Put begins unless its declared size is over the limit, and can always go on to its end: the end of the payload,
      or one byte over the limit. */
  lemma PutGoesOn(l: Limits, s: State, id: Id, payload: Bytes, declared: int)
    requires Reachable(l, s)
    ensures id !in s.minted ==> (Enabled(l, s, Create(id, payload, declared)) <==> declared <= l.max)
    ensures id in s.writing ==>
      var w := s.writing[id];
      var k := (if |w.payload| <= l.max then |w.payload| else l.max + 1) - w.n;
      && k >= 0 && Enabled(l, s, Copy(id, k))
      && Enabled(l, Apply(l, s, Copy(id, k)), CopyEnds(id, s.clock, 0))
  {
    DiskIsBounded(l, s);
  }

  /** Time passes, mounts change under their owners' hands, and objects are deleted, swept and purged at any moment. */
  lemma AnyMoment(l: Limits, s: State, step: Step)
    ensures step.Tick? || step.OwnerWrites? || step.OwnerRemoves? || step.Delete? || step.Purge? ||
            step == Sweep(s.clock)
            ==> Enabled(l, s, step)
    ensures step.Tick? ==> Apply(l, s, step) == s.(clock := s.clock + step.elapsed)
    ensures step.OwnerWrites? ==>
      Apply(l, s, step) == s.(files := s.files[Mount(step.fs, step.path) := step.content])
    ensures step.OwnerRemoves? ==> Apply(l, s, step) == s.(files := s.files - {Mount(step.fs, step.path)})
  {}

  /** An attached file is found and read as it is in its mount, while its owner leaves it alone. */
  lemma AttachedIsServed(l: Limits, s: State, id: Id, fs: nat, path: string, ttl: int, r: nat)
    requires Enabled(l, s, Attach(id, fs, path, s.clock, ttl)) && r !in s.readers && (ttl > 0 || l.ttl > 0)
    ensures
      var found := Apply(l, Apply(l, s, Attach(id, fs, path, s.clock, ttl)), Lookup(r, id));
      && Enabled(l, found, OpenFile(r))
      && Apply(l, found, OpenFile(r)).readers[r].got == Some(Some(s.files[Mount(fs, path)]))
  {}

  /** A file can be attached exactly when it is there, fits the limit and its id is fresh. */
  lemma AttachIff(l: Limits, s: State, id: Id, fs: nat, path: string, ttl: int)
    ensures Enabled(l, s, Attach(id, fs, path, s.clock, ttl)) <==>
            id !in s.minted && Mount(fs, path) in s.files && |s.files[Mount(fs, path)]| <= l.max
  {}
}
