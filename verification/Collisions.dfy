/**
 The name-collision check of a gateway build (internal/gateway/ns.go and the check phase of
 Build in gateway.go). Upstreams contribute raw names; two contributions collide when their
 prefixed names are the same. A collision between equal definitions is tolerated.
 */
module Collisions {
  import opened Options
  import R = Registry

  /** One upstream contributing one raw name. */
  datatype Entry = Entry(upstream: string, raw: string)

  function Get<K, V>(m: map<K, seq<V>>, k: K): seq<V> { if k in m then m[k] else [] }

  function Final(prefixes: map<string, string>, e: Entry): string {
    R.NamespaceName(if e.upstream in prefixes then prefixes[e.upstream] else "", e.raw)
  }

  predicate Contributes(sets: map<string, seq<string>>, e: Entry) { e.raw in Get(sets, e.upstream) }

  // ----- the owners of a name

  /** Which of an upstream's raw names end up as `res`, in listed order. */
  function OwnersIn(prefixes: map<string, string>, up: string, tools: seq<string>, res: string): seq<Entry> {
    if tools == [] then []
    else
      var e := Entry(up, tools[|tools| - 1]);
      OwnersIn(prefixes, up, tools[..|tools| - 1], res) + if Final(prefixes, e) == res then [e] else []
  }

  function OwnersOf(prefixes: map<string, string>, sets: map<string, seq<string>>, ups: seq<string>,
                    res: string): seq<Entry> {
    if ups == [] then []
    else
      var up := ups[|ups| - 1];
      OwnersOf(prefixes, sets, ups[..|ups| - 1], res) + OwnersIn(prefixes, up, Get(sets, up), res)
  }

  /** One more raw name adds one owner, to the name it ends up under. */
  lemma OwnersInNext(prefixes: map<string, string>, up: string, tools: seq<string>, i: nat,
                     was: map<string, seq<Entry>>,
                     owners: map<string, seq<Entry>>, res: string)
    requires i < |tools| && Get(owners, res) == Get(was, res) + OwnersIn(prefixes, up, tools[..i], res)
    ensures
      var e := Entry(up, tools[i]);
      var next := owners[Final(prefixes, e) := Get(owners, Final(prefixes, e)) + [e]];
      Get(next, res) == Get(was, res) + OwnersIn(prefixes, up, tools[..i + 1], res)
  {
    assert tools[..i + 1][..i] == tools[..i];
  }

  lemma {:induction false} OwnersInAre(prefixes: map<string, string>, up: string, tools: seq<string>, res: string,
                                       e: Entry)
    ensures e in OwnersIn(prefixes, up, tools, res) <==> e.upstream == up && e.raw in tools && Final(prefixes, e) == res
    decreases |tools|
  {
    if tools != [] {
      OwnersInAre(prefixes, up, tools[..|tools| - 1], res, e);
      assert tools == tools[..|tools| - 1] + [tools[|tools| - 1]];
    }
  }

  /** The owners of a name are exactly the contributions that end up under it. */
  lemma {:induction false} OwnersAre(prefixes: map<string, string>, sets: map<string, seq<string>>, ups: seq<string>,
                                     res: string, e: Entry)
    ensures e in OwnersOf(prefixes, sets, ups, res)
       <==> e.upstream in ups && Contributes(sets, e) && Final(prefixes, e) == res
    decreases |ups|
  {
    if ups != [] {
      var up := ups[|ups| - 1];
      OwnersAre(prefixes, sets, ups[..|ups| - 1], res, e);
      OwnersInAre(prefixes, up, Get(sets, up), res, e);
      assert ups == ups[..|ups| - 1] + [up];
    }
  }

  // ----- conflict lists

  ghost predicate Enumerates(s: seq<string>, names: set<string>) {
    (forall n :: n in s <==> n in names) && forall i, j :: 0 <= i < j < |s| ==> s[i] != s[j]
  }

  /** Equal names stand together. */
  ghost predicate Grouped(cs: seq<R.Collision>) {
    forall i, k :: 0 <= i < k < |cs| && cs[i].resultName == cs[k].resultName ==>
      forall j :: i <= j <= k ==> cs[j].resultName == cs[i].resultName
  }

  function Group(res: string, owners: seq<Entry>): (r: seq<R.Collision>)
    ensures |r| == |owners|
    ensures forall k :: 0 <= k < |r| ==> r[k] == R.Collision(owners[k].upstream, owners[k].raw, res)
  {
    seq(|owners|, k requires 0 <= k < |owners| => R.Collision(owners[k].upstream, owners[k].raw, res))
  }

  /** The conflict list: for each colliding name, in order, its owners. */
  function Conflicts(owners: map<string, seq<Entry>>, colliding: seq<string>): seq<R.Collision> {
    if colliding == [] then []
    else
      var res := colliding[|colliding| - 1];
      Conflicts(owners, colliding[..|colliding| - 1]) + Group(res, Get(owners, res))
  }

  lemma {:induction false} ConflictsAre(owners: map<string, seq<Entry>>, colliding: seq<string>, c: R.Collision)
    ensures c in Conflicts(owners, colliding)
       <==> c.resultName in colliding && Entry(c.upstream, c.tool) in Get(owners, c.resultName)
    decreases |colliding|
  {
    if colliding != [] {
      var res := colliding[|colliding| - 1];
      ConflictsAre(owners, colliding[..|colliding| - 1], c);
      assert colliding == colliding[..|colliding| - 1] + [res];
      GroupAre(res, Get(owners, res), c);
    }
  }

  lemma GroupAre(res: string, owners: seq<Entry>, c: R.Collision)
    ensures c in Group(res, owners) <==> c.resultName == res && Entry(c.upstream, c.tool) in owners
  {
    if c.resultName == res && Entry(c.upstream, c.tool) in owners {
      var k: nat :| k < |owners| && owners[k] == Entry(c.upstream, c.tool);
      assert Group(res, owners)[k] == c;
    }
  }

  lemma {:induction false} ConflictsGrouped(owners: map<string, seq<Entry>>, colliding: seq<string>)
    requires forall i, j :: 0 <= i < j < |colliding| ==> colliding[i] != colliding[j]
    ensures Grouped(Conflicts(owners, colliding))
    decreases |colliding|
  {
    if colliding != [] {
      var n := |colliding| - 1;
      var before, last := Conflicts(owners, colliding[..n]), Group(colliding[n], Get(owners, colliding[n]));
      ConflictsGrouped(owners, colliding[..n]);
      forall c | c in before ensures c.resultName != colliding[n] {
        ConflictsAre(owners, colliding[..n], c);
      }
      GroupAppended(before, last, colliding[n]);
    }
  }

  lemma GroupAppended(before: seq<R.Collision>, last: seq<R.Collision>, res: string)
    requires Grouped(before) && forall c :: c in last ==> c.resultName == res
    requires forall c :: c in before ==> c.resultName != res
    ensures Grouped(before + last)
  {
    var cs := before + last;
    forall i, k, j | 0 <= i < k < |cs| && cs[i].resultName == cs[k].resultName && i <= j <= k
      ensures cs[j].resultName == cs[i].resultName
    {
      if k < |before| {
        assert cs[i] == before[i] && cs[k] == before[k] && cs[j] == before[j];
      } else {
        assert cs[k] in last;
        assert cs[j] in last;
      }
    }
  }

  // ----- equal definitions

  /** What the check knows about a conflict: the last definition its upstream listed under that raw name. */
  function Def<T>(byUpstream: map<string, map<string, T>>, e: Entry): Option<T> {
    if e.upstream in byUpstream && e.raw in byUpstream[e.upstream] then Some(byUpstream[e.upstream][e.raw]) else None
  }

  predicate Same<T>(equal: (T, T) -> bool, a: Option<T>, b: Option<T>) {
    a.Some? && b.Some? && equal(a.value, b.value)
  }

  ghost predicate Equivalence<T(!new)>(equal: (T, T) -> bool) {
    && (forall a :: equal(a, a))
    && (forall a, b :: equal(a, b) ==> equal(b, a))
    && (forall a, b, c :: equal(a, b) && equal(b, c) ==> equal(a, c))
  }

  function EntryOf(c: R.Collision): Entry { Entry(c.upstream, c.tool) }

  /** Every two conflicts of the list that share the name `res` have equal definitions. */
  ghost predicate Identical<T>(equal: (T, T) -> bool, byUpstream: map<string, map<string, T>>, cs: seq<R.Collision>,
                               res: string) {
    forall i, j :: 0 <= i < |cs| && 0 <= j < |cs| && cs[i].resultName == res && cs[j].resultName == res ==>
      Same(equal, Def(byUpstream, EntryOf(cs[i])), Def(byUpstream, EntryOf(cs[j])))
  }

  /** The names of the list whose owners all agree. */
  ghost function Harmless<T>(equal: (T, T) -> bool, byUpstream: map<string, map<string, T>>,
                             cs: seq<R.Collision>): set<string> {
    set c | c in cs && Identical(equal, byUpstream, cs, c.resultName) :: c.resultName
  }

  /** The conflicts of the list whose name is not harmless, in order. */
  ghost function Hard(harmless: set<string>, cs: seq<R.Collision>): seq<R.Collision> {
    if cs == [] then []
    else Hard(harmless, cs[..|cs| - 1]) + if cs[|cs| - 1].resultName in harmless then [] else [cs[|cs| - 1]]
  }

  lemma {:induction false} HardAre(harmless: set<string>, cs: seq<R.Collision>, c: R.Collision)
    ensures c in Hard(harmless, cs) <==> c in cs && c.resultName !in harmless
    decreases |cs|
  {
    if cs != [] {
      HardAre(harmless, cs[..|cs| - 1], c);
      assert cs == cs[..|cs| - 1] + [cs[|cs| - 1]];
    }
  }

  lemma HardSnoc(harmless: set<string>, cs: seq<R.Collision>, c: R.Collision)
    ensures Hard(harmless, cs + [c]) == Hard(harmless, cs) + if c.resultName in harmless then [] else [c]
  {
    assert (cs + [c])[..|cs|] == cs;
  }

  /** A run of one name is kept or dropped as a whole. */
  lemma {:induction false} HardRun(harmless: set<string>, cs: seq<R.Collision>, i: nat, j: nat, res: string)
    requires i <= j <= |cs| && forall k :: i <= k < j ==> cs[k].resultName == res
    ensures Hard(harmless, cs[..j]) == Hard(harmless, cs[..i]) + if res in harmless then [] else cs[i..j]
    decreases j
  {
    if i == j {
      assert cs[i..j] == [];
    } else {
      HardRun(harmless, cs, i, j - 1, res);
      SliceSnoc(cs, 0, j);
      SliceSnoc(cs, i, j);
      HardSnoc(harmless, cs[..j - 1], cs[j - 1]);
      Assoc(Hard(harmless, cs[..i]), cs[i..j - 1], [cs[j - 1]]);
    }
  }

  lemma SliceSnoc(cs: seq<R.Collision>, i: nat, j: nat)
    requires i < j <= |cs|
    ensures cs[i..j] == cs[i..j - 1] + [cs[j - 1]]
    ensures i == 0 ==> cs[..j] == cs[..j - 1] + [cs[j - 1]]
  {}

  lemma Assoc(a: seq<R.Collision>, b: seq<R.Collision>, c: seq<R.Collision>)
    ensures (a + b) + c == a + (b + c)
  {}

  /** In a grouped list a maximal run holds every occurrence of its name. */
  ghost predicate MaximalRun(cs: seq<R.Collision>, i: nat, j: nat) {
    && i < j <= |cs|
    && (i > 0 ==> cs[i - 1].resultName != cs[i].resultName)
    && (j < |cs| ==> cs[j].resultName != cs[i].resultName)
    && forall k :: i <= k < j ==> cs[k].resultName == cs[i].resultName
  }

  lemma RunHoldsName(cs: seq<R.Collision>, i: nat, j: nat, k: nat)
    requires Grouped(cs) && MaximalRun(cs, i, j) && k < |cs| && cs[k].resultName == cs[i].resultName
    ensures i <= k < j
  {
  }

  ghost predicate GroupIdentical<T>(equal: (T, T) -> bool, byUpstream: map<string, map<string, T>>,
                                    group: seq<R.Collision>) {
    group != [] ==> forall k :: 0 <= k < |group| ==>
      Same(equal, Def(byUpstream, EntryOf(group[0])), Def(byUpstream, EntryOf(group[k])))
  }

  /** Comparing a maximal run with its first member decides whether the name is harmless. */
  lemma RunDecides<T(!new)>(equal: (T, T) -> bool, byUpstream: map<string, map<string, T>>, cs: seq<R.Collision>,
                            i: nat, j: nat)
    requires Equivalence(equal) && Grouped(cs) && MaximalRun(cs, i, j)
    ensures GroupIdentical(equal, byUpstream, cs[i..j]) <==> cs[i].resultName in Harmless(equal, byUpstream, cs)
  {
    assert cs[i] in cs;
    var group := cs[i..j];
    if GroupIdentical(equal, byUpstream, group) {
      forall a, b | 0 <= a < |cs| && 0 <= b < |cs| && cs[a].resultName == cs[i].resultName &&
          cs[b].resultName == cs[i].resultName
        ensures Same(equal, Def(byUpstream, EntryOf(cs[a])), Def(byUpstream, EntryOf(cs[b])))
      {
        RunHoldsName(cs, i, j, a);
        RunHoldsName(cs, i, j, b);
        assert group[a - i] == cs[a] && group[b - i] == cs[b];
      }
    }
    if Identical(equal, byUpstream, cs, cs[i].resultName) {
      forall k | 0 <= k < |group| ensures Same(equal, Def(byUpstream, EntryOf(group[0])),
          Def(byUpstream, EntryOf(group[k]))) {
        assert group[k] == cs[i + k];
      }
    }
  }

  // ----- the collision set

  /** The names an `add` contributes, and the last definition it saw for each. */
  function KeptNames<T>(items: seq<R.RawItem<T>>, keep: string -> bool): seq<string> {
    if items == [] then []
    else KeptNames(items[..|items| - 1], keep) + if keep(items[|items| - 1].name) then [items[|items| - 1].name] else []
  }

  function LastDefs<T>(items: seq<R.RawItem<T>>, keep: string -> bool): map<string, T> {
    if items == [] then map[]
    else
      var it := items[|items| - 1];
      var before := LastDefs(items[..|items| - 1], keep);
      if keep(it.name) then before[it.name := it.def] else before
  }

  lemma KeptNext<T>(items: seq<R.RawItem<T>>, keep: string -> bool, i: nat)
    requires i < |items|
    ensures KeptNames(items[..i + 1], keep) == KeptNames(items[..i], keep) + if keep(items[i].name) then [items[i].name]
            else []
    ensures LastDefs(items[..i + 1], keep) ==
            if keep(items[i].name) then LastDefs(items[..i], keep)[items[i].name := items[i].def]
                else LastDefs(items[..i], keep)
  {
    assert items[..i + 1][..i] == items[..i];
  }

  /** A raw name contributed by an `add` always has a definition: the last one listed and kept. */
  lemma {:induction false} KeptHaveDefs<T>(items: seq<R.RawItem<T>>, keep: string -> bool, n: string)
    ensures n in KeptNames(items, keep) <==> n in LastDefs(items, keep)
    decreases |items|
  {
    if items != [] {
      KeptHaveDefs(items[..|items| - 1], keep, n);
    }
  }

  class CollisionSet<T(!new)> {
    const equal: (T, T) -> bool
    const sort: set<string> -> seq<string>
    var sets: map<string, seq<string>>
    var byUpstream: map<string, map<string, T>>

    constructor (equal: (T, T) -> bool, sort: set<string> -> seq<string>)
      ensures this.equal == equal && this.sort == sort && sets == map[] && byUpstream == map[]
    {
      this.equal, this.sort, sets, byUpstream := equal, sort, map[], map[];
    }

    ghost predicate Known()
      reads this
    {
      AllKnown(sets, byUpstream)
    }

    method Add(up: string, items: seq<R.RawItem<T>>, keep: string -> bool)
      modifies this
      ensures byUpstream == old(byUpstream)[up := LastDefs(items, keep)]
      ensures forall u :: Get(sets, u) == Get(old(sets), u) + if u == up then KeptNames(items, keep) else []
      ensures old(Known()) && Get(old(sets), up) == [] ==> Known()
    {
      var byName: map<string, T> := map[];
      for i := 0 to |items|
        invariant byName == LastDefs(items[..i], keep) && byUpstream == old(byUpstream)
        invariant forall u :: Get(sets, u) == Get(old(sets), u) + if u == up then KeptNames(items[..i], keep) else []
      {
        KeptNext(items, keep, i);
        if keep(items[i].name) {
          sets := sets[up := Get(sets, up) + [items[i].name]];
          byName := byName[items[i].name := items[i].def];
        }
      }
      assert items[..|items|] == items;
      byUpstream := byUpstream[up := byName];
      KnownAfter(old(sets), old(byUpstream), up, items, keep, sets);
    }

    /** Adds one upstream's raw names to the owners of their final names. */
    method AddOwners(prefixes: map<string, string>, up: string, was: map<string, seq<Entry>>)
      returns (owners: map<string, seq<Entry>>)
      ensures forall res :: Get(owners, res) == Get(was, res) + OwnersIn(prefixes, up, Get(sets, up), res)
    {
      var tools := Get(sets, up);
      owners := was;
      for i := 0 to |tools|
        invariant forall res :: Get(owners, res) == Get(was, res) + OwnersIn(prefixes, up, tools[..i], res)
      {
        forall res {
          OwnersInNext(prefixes, up, tools, i, was, owners, res);
        }
        var e := Entry(up, tools[i]);
        var res := Final(prefixes, e);
        owners := owners[res := Get(owners, res) + [e]];
      }
      assert tools[..|tools|] == tools;
    }

    method Owners(prefixes: map<string, string>, ups: seq<string>) returns (owners: map<string, seq<Entry>>)
      ensures forall res :: Get(owners, res) == OwnersOf(prefixes, sets, ups, res)
    {
      owners := map[];
      for i := 0 to |ups|
        invariant forall res :: Get(owners, res) == OwnersOf(prefixes, sets, ups[..i], res)
      {
        assert ups[..i + 1][..i] == ups[..i];
        owners := AddOwners(prefixes, ups[i], owners);
      }
      assert ups[..|ups|] == ups;
    }

    /** DetectCollisions: the owners of every name that more than one contribution ends up under. */
    method DetectCollisions(prefixes: map<string, string>) returns (conflicts: seq<R.Collision>)
      requires forall s :: Enumerates(sort(s), s)
      ensures Grouped(conflicts)
      ensures AreConflicts(sets, prefixes, sort(sets.Keys), conflicts)
    {
      var ups := sort(sets.Keys);
      var owners := Owners(prefixes, ups);
      var colliding := sort(set res | res in owners && |owners[res]| > 1);
      conflicts := ListConflicts(owners, colliding);
      ConflictsGrouped(owners, colliding);
      ConflictsSpec(sets, prefixes, ups, owners, colliding);
    }

    method ListConflicts(owners: map<string, seq<Entry>>, colliding: seq<string>) returns (conflicts: seq<R.Collision>)
      ensures conflicts == Conflicts(owners, colliding)
    {
      conflicts := [];
      for i := 0 to |colliding|
        invariant conflicts == Conflicts(owners, colliding[..i])
      {
        assert colliding[..i + 1][..i] == colliding[..i];
        conflicts := conflicts + Group(colliding[i], Get(owners, colliding[i]));
      }
      assert colliding[..|colliding|] == colliding;
    }

    method IdenticalGroup(group: seq<R.Collision>) returns (yes: bool)
      requires Equivalence(equal)
      ensures yes == GroupIdentical(equal, byUpstream, group)
    {
      var first: Option<T> := None;
      for k := 0 to |group|
        invariant first == if k == 0 then None else Def(byUpstream, EntryOf(group[0]))
        invariant k > 0 ==> first.Some?
        invariant forall l :: 0 <= l < k ==>
            Same(equal, Def(byUpstream, EntryOf(group[0])), Def(byUpstream, EntryOf(group[l])))
      {
        var item := Def(byUpstream, EntryOf(group[k]));
        if item.None? {
          return false;
        }
        if first.None? {
          first := item;
        } else if !equal(first.value, item.value) {
          return false;
        }
      }
      return true;
    }

    /** dropIdentical: what remains is every conflict of a name whose owners disagree, in order; each name whose
        owners agree is reported as ignored once. */
    method DropIdentical(cs: seq<R.Collision>) returns (hard: seq<R.Collision>, ignored: seq<string>)
      requires Equivalence(equal) && Grouped(cs)
      ensures hard == Hard(Harmless(equal, byUpstream, cs), cs)
      ensures Ignored(Harmless(equal, byUpstream, cs), cs, ignored)
    {
      ghost var harmless := Harmless(equal, byUpstream, cs);
      hard, ignored := [], [];
      var i := 0;
      while i < |cs|
        invariant 0 <= i <= |cs| && (0 < i < |cs| ==> cs[i - 1].resultName != cs[i].resultName)
        invariant hard == Hard(harmless, cs[..i]) && Ignored(harmless, cs[..i], ignored)
      {
        var j := RunEnd(cs, i);
        var same := IdenticalGroup(cs[i..j]);
        RunDecides(equal, byUpstream, cs, i, j);
        HardRun(harmless, cs, i, j, cs[i].resultName);
        IgnoredRun(harmless, cs, i, j, ignored);
        if same {
          ignored := ignored + [cs[i].resultName];
        } else {
          hard := hard + cs[i..j];
        }
        i := j;
      }
      assert cs[..|cs|] == cs;
    }

    /** The check passes exactly when, under every final name, all contributions are pairwise equal; otherwise it
        reports all and only the contributions under names where they are not. */
    method Check(prefixes: map<string, string>) returns (hard: seq<R.Collision>)
      requires Equivalence(equal) && Known() && forall s :: Enumerates(sort(s), s)
      ensures hard == [] <==> forall res :: Agree(equal, sets, byUpstream, prefixes, res)
      ensures forall c :: c in hard <==>
        Under(sets, prefixes, c) && !Agree(equal, sets, byUpstream, prefixes, c.resultName)
    {
      var conflicts := DetectCollisions(prefixes);
      var ignored: seq<string>;
      hard, ignored := DropIdentical(conflicts);
      CheckOutcome(equal, sets, byUpstream, prefixes, sort(sets.Keys), conflicts);
    }
  }

  /** The conflicts are the contributions under names with more than one of them. */
  ghost predicate AreConflicts(sets: map<string, seq<string>>, prefixes: map<string, string>, ups: seq<string>,
                               conflicts: seq<R.Collision>) {
    forall c :: c in conflicts <==> Under(sets, prefixes, c) && |OwnersOf(prefixes, sets, ups, c.resultName)| > 1
  }

  lemma ConflictsSpec(sets: map<string, seq<string>>, prefixes: map<string, string>, ups: seq<string>,
                      owners: map<string, seq<Entry>>, colliding: seq<string>)
    requires Enumerates(ups, sets.Keys) && forall res :: Get(owners, res) == OwnersOf(prefixes, sets, ups, res)
    requires Enumerates(colliding, set res | res in owners && |owners[res]| > 1)
    ensures AreConflicts(sets, prefixes, ups, Conflicts(owners, colliding))
  {
    var conflicts := Conflicts(owners, colliding);
    forall c ensures c in conflicts <==> Under(sets, prefixes, c) && |OwnersOf(prefixes, sets, ups, c.resultName)| > 1 {
      assert Get(owners, c.resultName) == OwnersOf(prefixes, sets, ups, c.resultName);
      ConflictsAre(owners, colliding, c);
      OwnersAre(prefixes, sets, ups, c.resultName, EntryOf(c));
    }
  }

  predicate Under(sets: map<string, seq<string>>, prefixes: map<string, string>, c: R.Collision) {
    Contributes(sets, EntryOf(c)) && Final(prefixes, EntryOf(c)) == c.resultName
  }

  lemma CheckOutcome<T(!new)>(equal: (T, T) -> bool, sets: map<string, seq<string>>,
                              byUpstream: map<string, map<string, T>>,
                              prefixes: map<string, string>, ups: seq<string>, conflicts: seq<R.Collision>)
    requires Equivalence(equal) && Enumerates(ups, sets.Keys) && AreConflicts(sets, prefixes, ups, conflicts)
    requires AllKnown(sets, byUpstream)
    ensures
      var hard := Hard(Harmless(equal, byUpstream, conflicts), conflicts);
      && (hard == [] <==> forall res :: Agree(equal, sets, byUpstream, prefixes, res))
      && (forall c :: c in hard <==>
          Under(sets, prefixes, c) && !Agree(equal, sets, byUpstream, prefixes, c.resultName))
  {
    var harmless := Harmless(equal, byUpstream, conflicts);
    var hard := Hard(harmless, conflicts);
    forall c ensures c in hard <==>
        Under(sets, prefixes, c) && !Agree(equal, sets, byUpstream, prefixes, c.resultName) {
      HardAre(harmless, conflicts, c);
      if Under(sets, prefixes, c) {
        HarmlessIsAgree(equal, sets, byUpstream, prefixes, ups, conflicts, c);
      }
    }
    forall res | !Agree(equal, sets, byUpstream, prefixes, res) ensures hard != [] {
      var a, b :| Contributes(sets, a) && Contributes(sets, b) && Final(prefixes, a) == res && Final(prefixes, b) == res
        && !Same(equal, Def(byUpstream, a), Def(byUpstream, b));
      assert Under(sets, prefixes, R.Collision(a.upstream, a.raw, res));
    }
    assert hard != [] ==> hard[0] in hard;
  }

  /** All contributions under the name `res` have equal definitions. */
  ghost predicate Agree<T>(equal: (T, T) -> bool, sets: map<string, seq<string>>,
                           byUpstream: map<string, map<string, T>>,
                           prefixes: map<string, string>, res: string) {
    forall a, b ::
      Contributes(sets, a) && Contributes(sets, b) && Final(prefixes, a) == res && Final(prefixes, b) == res ==>
        Same(equal, Def(byUpstream, a), Def(byUpstream, b))
  }

  /** A contribution is left out of the report exactly when its name's contributions agree. */
  lemma HarmlessIsAgree<T(!new)>(equal: (T, T) -> bool, sets: map<string, seq<string>>,
                                 byUpstream: map<string, map<string, T>>,
                                 prefixes: map<string, string>, ups: seq<string>, conflicts: seq<R.Collision>,
                                 c: R.Collision)
    requires Equivalence(equal) && Enumerates(ups, sets.Keys) && AreConflicts(sets, prefixes, ups, conflicts)
    requires AllKnown(sets, byUpstream)
    requires Under(sets, prefixes, c)
    ensures c in conflicts && c.resultName !in Harmless(equal, byUpstream, conflicts)
       <==> !Agree(equal, sets, byUpstream, prefixes, c.resultName)
  {
    if |OwnersOf(prefixes, sets, ups, c.resultName)| > 1 {
      assert c in conflicts;
      IdenticalIsAgree(equal, sets, byUpstream, prefixes, ups, conflicts, c.resultName);
    } else {
      AloneAgrees(equal, sets, byUpstream, prefixes, ups, c.resultName);
    }
  }

  lemma IdenticalIsAgree<T(!new)>(equal: (T, T) -> bool, sets: map<string, seq<string>>,
                                  byUpstream: map<string, map<string, T>>,
                                  prefixes: map<string, string>, ups: seq<string>, conflicts: seq<R.Collision>,
                                  res: string)
    requires AreConflicts(sets, prefixes, ups, conflicts) && |OwnersOf(prefixes, sets, ups, res)| > 1
    ensures Identical(equal, byUpstream, conflicts, res) <==> Agree(equal, sets, byUpstream, prefixes, res)
  {
    if Identical(equal, byUpstream, conflicts, res) {
      forall a, b | Contributes(sets, a) && Contributes(sets, b) && Final(prefixes, a) == res &&
          Final(prefixes, b) == res
        ensures Same(equal, Def(byUpstream, a), Def(byUpstream, b))
      {
        var c, d := R.Collision(a.upstream, a.raw, res), R.Collision(b.upstream, b.raw, res);
        assert Under(sets, prefixes, c) && Under(sets, prefixes, d);
        var i: nat :| i < |conflicts| && conflicts[i] == c;
        var j: nat :| j < |conflicts| && conflicts[j] == d;
      }
    }
    if Agree(equal, sets, byUpstream, prefixes, res) {
      forall i, j | 0 <= i < |conflicts| && 0 <= j < |conflicts| && conflicts[i].resultName == res &&
          conflicts[j].resultName == res
        ensures Same(equal, Def(byUpstream, EntryOf(conflicts[i])), Def(byUpstream, EntryOf(conflicts[j])))
      {
        assert conflicts[i] in conflicts && conflicts[j] in conflicts;
      }
    }
  }

  /** A name with at most one owner has nothing to disagree with. */
  lemma AloneAgrees<T(!new)>(equal: (T, T) -> bool, sets: map<string, seq<string>>,
                             byUpstream: map<string, map<string, T>>,
                             prefixes: map<string, string>, ups: seq<string>, res: string)
    requires (forall x :: equal(x, x)) && Enumerates(ups, sets.Keys) && AllKnown(sets, byUpstream)
    requires |OwnersOf(prefixes, sets, ups, res)| <= 1
    ensures Agree(equal, sets, byUpstream, prefixes, res)
  {
    forall a, b | Contributes(sets, a) && Contributes(sets, b) && Final(prefixes, a) == res && Final(prefixes, b) == res
      ensures Same(equal, Def(byUpstream, a), Def(byUpstream, b))
    {
      OneOwner(sets, prefixes, ups, res, a, b);
      assert Def(byUpstream, a).Some?;
    }
  }

  lemma OneOwner(sets: map<string, seq<string>>, prefixes: map<string, string>, ups: seq<string>, res: string, a: Entry,
                 b: Entry)
    requires a.upstream in ups && b.upstream in ups && |OwnersOf(prefixes, sets, ups, res)| <= 1
    requires Contributes(sets, a) && Contributes(sets, b) && Final(prefixes, a) == res && Final(prefixes, b) == res
    ensures a == b
  {
    OwnersAre(prefixes, sets, ups, res, a);
    OwnersAre(prefixes, sets, ups, res, b);
    OnlyElement(OwnersOf(prefixes, sets, ups, res), a, b);
  }

  lemma OnlyElement(es: seq<Entry>, a: Entry, b: Entry)
    requires |es| <= 1 && a in es && b in es
    ensures a == b
  {}

  /** Every contribution has a definition. */
  ghost predicate AllKnown<T>(sets: map<string, seq<string>>, byUpstream: map<string, map<string, T>>) {
    forall e :: Contributes(sets, e) ==> Def(byUpstream, e).Some?
  }

  lemma KnownAfter<T>(was: map<string, seq<string>>, byUpstream: map<string, map<string, T>>, up: string,
                      items: seq<R.RawItem<T>>, keep: string -> bool, sets: map<string, seq<string>>)
    requires forall u :: Get(sets, u) == Get(was, u) + if u == up then KeptNames(items, keep) else []
    ensures AllKnown(was, byUpstream) && Get(was, up) == [] ==> AllKnown(sets, byUpstream[up := LastDefs(items, keep)])
  {
    if AllKnown(was, byUpstream) && Get(was, up) == [] {
      forall e | Contributes(sets, e) ensures Def(byUpstream[up := LastDefs(items, keep)], e).Some? {
        KeptHaveDefs(items, keep, e.raw);
        assert e.upstream != up ==> Contributes(was, e);
      }
    }
  }

  method RunEnd(cs: seq<R.Collision>, i: nat) returns (j: nat)
    requires i < |cs| && (i > 0 ==> cs[i - 1].resultName != cs[i].resultName)
    ensures MaximalRun(cs, i, j)
  {
    j := i;
    while j < |cs| && cs[j].resultName == cs[i].resultName
      invariant i <= j <= |cs| && forall k :: i <= k < j ==> cs[k].resultName == cs[i].resultName
    {
      j := j + 1;
    }
  }

  /** Each harmless name of the list, once. */
  ghost predicate Ignored(harmless: set<string>, cs: seq<R.Collision>, ignored: seq<string>) {
    && (forall n :: n in ignored <==> n in harmless && exists k :: 0 <= k < |cs| && cs[k].resultName == n)
    && (forall a, b :: 0 <= a < b < |ignored| ==> ignored[a] != ignored[b])
  }

  lemma IgnoredRun(harmless: set<string>, cs: seq<R.Collision>, i: nat, j: nat, ignored: seq<string>)
    requires Grouped(cs) && MaximalRun(cs, i, j) && Ignored(harmless, cs[..i], ignored)
    ensures Ignored(harmless, cs[..j], if cs[i].resultName in harmless then ignored + [cs[i].resultName] else ignored)
  {
    var res := cs[i].resultName;
    if res in ignored {
      var k :| 0 <= k < |cs[..i]| && cs[..i][k].resultName == res;
      RunHoldsName(cs, i, j, k);
    }
    var next := if res in harmless then ignored + [res] else ignored;
    forall n ensures n in next <==> n in harmless && exists k :: 0 <= k < |cs[..j]| && cs[..j][k].resultName == n {
      if n in ignored {
        var k :| 0 <= k < |cs[..i]| && cs[..i][k].resultName == n;
        assert cs[..j][k] == cs[..i][k];
      }
      assert cs[..j][i].resultName == res;
      if k :| 0 <= k < |cs[..j]| && cs[..j][k].resultName == n && n != res {
        assert k < i && cs[..i][k] == cs[..j][k];
      }
    }
  }

  // ----- a build: the check over all upstreams, then their registration in order

  /** What one upstream listed. */
  datatype Listed<T> = Listed(cfg: R.UpstreamCfg, items: seq<R.RawItem<T>>)

  function Keep(glob: (string, string) -> bool, cfg: R.UpstreamCfg): string -> bool {
    n => R.Allowed(glob, cfg, n)
  }

  function Defs<T>(glob: (string, string) -> bool, l: Listed<T>): map<string, T> {
    LastDefs(l.items, Keep(glob, l.cfg))
  }

  ghost predicate DistinctNames<T>(us: seq<Listed<T>>) {
    forall i, j :: 0 <= i < j < |us| ==> us[i].cfg.name != us[j].cfg.name
  }

  /** Two raw names, of the same upstream or of two, that end up equal have equal last-listed definitions. */
  ghost predicate AllAgree<T>(equal: (T, T) -> bool, glob: (string, string) -> bool, us: seq<Listed<T>>) {
    forall i, j, a, b ::
      0 <= i < |us| && 0 <= j < |us| && a in Defs(glob, us[i]) && b in Defs(glob, us[j])
      && R.NamespaceName(us[i].cfg.prefix, a) == R.NamespaceName(us[j].cfg.prefix, b)
      ==> equal(Defs(glob, us[i])[a], Defs(glob, us[j])[b])
  }

  /** The collision set holds exactly what the first `n` upstreams listed. */
  ghost predicate Holds<T>(glob: (string, string) -> bool, us: seq<Listed<T>>, n: nat, sets: map<string, seq<string>>,
                           byUpstream: map<string, map<string, T>>, prefixes: map<string, string>)
    requires n <= |us|
  {
    && (forall k :: 0 <= k < n ==> HoldsOne(glob, us[k], sets, byUpstream, prefixes))
    && (forall u :: Get(sets, u) != [] ==> exists k :: 0 <= k < n && us[k].cfg.name == u)
  }

  ghost predicate HoldsOne<T>(glob: (string, string) -> bool, l: Listed<T>, sets: map<string, seq<string>>,
                              byUpstream: map<string, map<string, T>>, prefixes: map<string, string>) {
    && Get(sets, l.cfg.name) == KeptNames(l.items, Keep(glob, l.cfg))
    && l.cfg.name in byUpstream && byUpstream[l.cfg.name] == Defs(glob, l)
    && l.cfg.name in prefixes && prefixes[l.cfg.name] == l.cfg.prefix
  }

  /** The contributions are the raw names with a last-listed definition. */
  lemma ContributionsAre<T>(glob: (string, string) -> bool, us: seq<Listed<T>>, sets: map<string, seq<string>>,
                            byUpstream: map<string, map<string, T>>, prefixes: map<string, string>, k: nat, raw: string)
    requires k < |us| && HoldsOne(glob, us[k], sets, byUpstream, prefixes)
    ensures
      var e := Entry(us[k].cfg.name, raw);
      && (Contributes(sets, e) <==> raw in Defs(glob, us[k]))
      && (raw in Defs(glob, us[k]) ==>
            Def(byUpstream, e) == Some(Defs(glob, us[k])[raw]) &&
                Final(prefixes, e) == R.NamespaceName(us[k].cfg.prefix, raw))
  {
    KeptHaveDefs(us[k].items, Keep(glob, us[k].cfg), raw);
  }

  lemma AgreeIsAllAgree<T>(equal: (T, T) -> bool, glob: (string, string) -> bool, us: seq<Listed<T>>,
                           sets: map<string, seq<string>>,
                           byUpstream: map<string, map<string, T>>, prefixes: map<string, string>)
    requires Holds(glob, us, |us|, sets, byUpstream, prefixes)
    ensures (forall res :: Agree(equal, sets, byUpstream, prefixes, res)) <==> AllAgree(equal, glob, us)
  {
    if forall res :: Agree(equal, sets, byUpstream, prefixes, res) {
      forall i, j, a, b | 0 <= i < |us| && 0 <= j < |us| && a in Defs(glob, us[i]) && b in Defs(glob, us[j])
          && R.NamespaceName(us[i].cfg.prefix, a) == R.NamespaceName(us[j].cfg.prefix, b)
        ensures equal(Defs(glob, us[i])[a], Defs(glob, us[j])[b])
      {
        assert Agree(equal, sets, byUpstream, prefixes, R.NamespaceName(us[i].cfg.prefix, a));
        AgreeGives(equal, glob, us, sets, byUpstream, prefixes, i, j, a, b);
      }
    }
    if AllAgree(equal, glob, us) {
      forall x, y | Contributes(sets, x) && Contributes(sets, y) && Final(prefixes, x) == Final(prefixes, y)
        ensures Same(equal, Def(byUpstream, x), Def(byUpstream, y))
      {
        AllAgreeGives(equal, glob, us, sets, byUpstream, prefixes, x, y);
      }
    }
  }

  lemma AgreeGives<T>(equal: (T, T) -> bool, glob: (string, string) -> bool, us: seq<Listed<T>>,
                      sets: map<string, seq<string>>,
                      byUpstream: map<string, map<string, T>>, prefixes: map<string, string>, i: nat, j: nat, a: string,
                      b: string)
    requires i < |us| && HoldsOne(glob, us[i], sets, byUpstream, prefixes) && a in Defs(glob, us[i])
    requires j < |us| && HoldsOne(glob, us[j], sets, byUpstream, prefixes) && b in Defs(glob, us[j])
    requires R.NamespaceName(us[i].cfg.prefix, a) == R.NamespaceName(us[j].cfg.prefix, b)
    requires Agree(equal, sets, byUpstream, prefixes, R.NamespaceName(us[i].cfg.prefix, a))
    ensures equal(Defs(glob, us[i])[a], Defs(glob, us[j])[b])
  {
    ContributionsAre(glob, us, sets, byUpstream, prefixes, i, a);
    ContributionsAre(glob, us, sets, byUpstream, prefixes, j, b);
    assert Same(equal, Def(byUpstream, Entry(us[i].cfg.name, a)), Def(byUpstream, Entry(us[j].cfg.name, b)));
  }

  lemma AllAgreeGives<T>(equal: (T, T) -> bool, glob: (string, string) -> bool, us: seq<Listed<T>>,
                         sets: map<string, seq<string>>,
                         byUpstream: map<string, map<string, T>>, prefixes: map<string, string>, x: Entry, y: Entry)
    requires Holds(glob, us, |us|, sets, byUpstream, prefixes) && AllAgree(equal, glob, us)
    requires Contributes(sets, x) && Contributes(sets, y) && Final(prefixes, x) == Final(prefixes, y)
    ensures Same(equal, Def(byUpstream, x), Def(byUpstream, y))
  {
    var i :| 0 <= i < |us| && us[i].cfg.name == x.upstream;
    var j :| 0 <= j < |us| && us[j].cfg.name == y.upstream;
    ContributionsAre(glob, us, sets, byUpstream, prefixes, i, x.raw);
    ContributionsAre(glob, us, sets, byUpstream, prefixes, j, y.raw);
  }

  /** The check phase of Build for one kind of item. */
  method CheckListings<T(!new)>(equal: (T, T) -> bool, sort: set<string> -> seq<string>, glob: (string, string) -> bool,
                                us: seq<Listed<T>>)
    returns (hard: seq<R.Collision>)
    requires Equivalence(equal) && (forall s :: Enumerates(sort(s), s)) && DistinctNames(us)
    ensures hard == [] <==> AllAgree(equal, glob, us)
  {
    var c := new CollisionSet<T>(equal, sort);
    var prefixes: map<string, string> := map[];
    for k := 0 to |us|
      invariant fresh(c) && c.equal == equal && c.sort == sort && c.Known()
      invariant Holds(glob, us, k, c.sets, c.byUpstream, prefixes)
    {
      ghost var sets, byUpstream, was := c.sets, c.byUpstream, prefixes;
      var u := us[k].cfg;
      c.Add(u.name, us[k].items, Keep(glob, u));
      prefixes := prefixes[u.name := u.prefix];
      HoldsNext(glob, us, k, sets, byUpstream, was, c.sets);
    }
    hard := c.Check(prefixes);
    AgreeIsAllAgree(equal, glob, us, c.sets, c.byUpstream, prefixes);
  }

  lemma HoldsNext<T>(glob: (string, string) -> bool, us: seq<Listed<T>>, k: nat, sets: map<string, seq<string>>,
                     byUpstream: map<string, map<string, T>>, prefixes: map<string, string>,
                     sets': map<string, seq<string>>)
    requires k < |us| && DistinctNames(us) && Holds(glob, us, k, sets, byUpstream, prefixes)
    requires forall u :: Get(sets', u) == Get(sets, u) + if u == us[k].cfg.name
            then KeptNames(us[k].items, Keep(glob, us[k].cfg)) else []
    ensures Get(sets, us[k].cfg.name) == []
    ensures Holds(glob, us, k + 1, sets', byUpstream[us[k].cfg.name := Defs(glob, us[k])],
            prefixes[us[k].cfg.name := us[k].cfg.prefix])
  {
    var name, l := us[k].cfg.name, us[k];
    NotYetHeld(glob, us, k, sets, byUpstream, prefixes);
    forall i | 0 <= i < k
      ensures HoldsOne(glob, us[i], sets', byUpstream[name := Defs(glob, l)], prefixes[name := l.cfg.prefix])
    {
      assert us[i].cfg.name != us[k].cfg.name;
      HoldsOneStill(glob, us[i], sets, byUpstream, prefixes, l, sets');
    }
    forall u | Get(sets', u) != [] ensures exists i :: 0 <= i < k + 1 && us[i].cfg.name == u {
      if u != name {
        assert Get(sets', u) == Get(sets, u) + [] == Get(sets, u);
      }
    }
    assert HoldsOne(glob, l, sets', byUpstream[name := Defs(glob, l)], prefixes[name := l.cfg.prefix]);
  }

  lemma NotYetHeld<T>(glob: (string, string) -> bool, us: seq<Listed<T>>, k: nat, sets: map<string, seq<string>>,
                      byUpstream: map<string, map<string, T>>, prefixes: map<string, string>)
    requires k < |us| && DistinctNames(us) && Holds(glob, us, k, sets, byUpstream, prefixes)
    ensures Get(sets, us[k].cfg.name) == []
  {
    assert forall i :: 0 <= i < k ==> us[i].cfg.name != us[k].cfg.name;
  }

  lemma HoldsOneStill<T>(glob: (string, string) -> bool, one: Listed<T>, sets: map<string, seq<string>>,
                         byUpstream: map<string, map<string, T>>, prefixes: map<string, string>, l: Listed<T>,
                         sets': map<string, seq<string>>)
    requires HoldsOne(glob, one, sets, byUpstream, prefixes) && one.cfg.name != l.cfg.name
    requires Get(sets', one.cfg.name) == Get(sets, one.cfg.name) + []
    ensures HoldsOne(glob, one, sets', byUpstream[l.cfg.name := Defs(glob, l)], prefixes[l.cfg.name := l.cfg.prefix])
  {}

  /** A name in a registered listing comes from a raw name with a last-listed definition. */
  lemma {:induction false} ListingHasDef<Q, T>(env: R.Env<Q, T>, cfg: R.UpstreamCfg, items: seq<R.RawItem<Q>>,
                                          n: string)
    requires n in R.Listing(env, cfg, items)
    ensures
      var raw := R.Listing(env, cfg, items)[n].raw;
      raw in LastDefs(items, Keep(env.glob, cfg)) && R.NamespaceName(cfg.prefix, raw) == n
    decreases |items|
  {
    var before, it := items[..|items| - 1], items[|items| - 1];
    if !(R.Eligible(env, cfg, it) && R.NamespaceName(cfg.prefix, it.name) == n) {
      ListingHasDef(env, cfg, before, n);
    }
  }

  /** The registries of a build: from an empty one, each upstream is synced in turn. */
  ghost predicate Registered<Q, T(!new)>(env: R.Env<Q, T>, us: seq<Listed<Q>>, rs: seq<R.Registry<T>>) {
    && |rs| == |us| + 1 && rs[0].owner == map[]
    && forall k :: 0 <= k < |us| ==>
         R.Synced(env.equal, rs[k], us[k].cfg.name, R.Listing(env, us[k].cfg, us[k].items), rs[k + 1])
  }

  /** During a build a name's owner is an upstream registered before, which lists that name. */
  lemma {:induction false} OwnerListed<Q, T(!new)>(env: R.Env<Q, T>, us: seq<Listed<Q>>, rs: seq<R.Registry<T>>, k: nat,
                                          n: string)
    requires Registered(env, us, rs) && k <= |us| && n in rs[k].owner
    ensures exists j :: 0 <= j < k && us[j].cfg.name == rs[k].owner[n] && n in R.Listing(env, us[j].cfg, us[j].items)
    decreases k
  {
    if k > 0 {
      var l := R.Listing(env, us[k - 1].cfg, us[k - 1].items);
      assert R.Synced(env.equal, rs[k - 1], us[k - 1].cfg.name, l, rs[k]);
      assert Look(rs[k].owner, n) == R.OwnerAt(rs[k - 1], us[k - 1].cfg.name, l, n);
      if R.Foreign(rs[k - 1], us[k - 1].cfg.name, n) {
        OwnerListed(env, us, rs, k - 1, n);
      } else {
        assert us[k - 1].cfg.name == rs[k].owner[n];
      }
    }
  }

  /** After a passing check, a collision that registration reports is between equal raw definitions. */
  lemma CollisionsAreHarmless<Q, T(!new)>(env: R.Env<Q, T>, rawEqual: (Q, Q) -> bool, us: seq<Listed<Q>>,
                                          rs: seq<R.Registry<T>>,
                                          k: nat, c: R.Collision)
    returns (j: nat, raw: string)
    requires AllAgree(rawEqual, env.glob, us) && Registered(env, us, rs) && k < |us|
    requires R.Collides(rs[k], us[k].cfg.name, R.Listing(env, us[k].cfg, us[k].items), c)
    ensures j < k && us[j].cfg.name == c.upstream && R.NamespaceName(us[j].cfg.prefix, raw) == c.resultName
    ensures raw in Defs(env.glob, us[j]) && c.tool in Defs(env.glob, us[k])
    ensures rawEqual(Defs(env.glob, us[j])[raw], Defs(env.glob, us[k])[c.tool])
  {
    OwnerListed(env, us, rs, k, c.resultName);
    j :| j < k && us[j].cfg.name == c.upstream && c.resultName in R.Listing(env, us[j].cfg, us[j].items);
    raw := R.Listing(env, us[j].cfg, us[j].items)[c.resultName].raw;
    ListingHasDef(env, us[j].cfg, us[j].items, c.resultName);
    ListingHasDef(env, us[k].cfg, us[k].items, c.resultName);
  }

  // ----- which builds the check refuses although registration would be harmless

  /** The raw definitions behind a collision that upstream `k` is told of are equal. */
  ghost predicate EqualBehind<Q>(rawEqual: (Q, Q) -> bool, glob: (string, string) -> bool, us: seq<Listed<Q>>, k: nat,
                                 c: R.Collision)
    requires k < |us|
  {
    c.tool in Defs(glob, us[k])
    && forall j, raw :: Gives(glob, us, j, raw, c.resultName) && us[j].cfg.name == c.upstream ==>
         rawEqual(Defs(glob, us[j])[raw], Defs(glob, us[k])[c.tool])
  }

  /** Every collision that registration reports is between equal raw definitions. */
  ghost predicate Harmlessly<Q, T(!new)>(env: R.Env<Q, T>, rawEqual: (Q, Q) -> bool, us: seq<Listed<Q>>,
                                         rs: seq<R.Registry<T>>)
    requires |rs| == |us| + 1
  {
    forall k, c :: 0 <= k < |us| && R.Collides(rs[k], us[k].cfg.name, R.Listing(env, us[k].cfg, us[k].items), c) ==>
      EqualBehind(rawEqual, env.glob, us, k, c)
  }

  /** Contribution `a` of upstream `i` ends up as `n`. */
  ghost predicate Gives<Q>(glob: (string, string) -> bool, us: seq<Listed<Q>>, i: int, a: string, n: string) {
    0 <= i < |us| && a in Defs(glob, us[i]) && R.NamespaceName(us[i].cfg.prefix, a) == n
  }

  /** All contributions under `n` agree. */
  ghost predicate AgreeOn<Q>(rawEqual: (Q, Q) -> bool, glob: (string, string) -> bool, us: seq<Listed<Q>>, n: string) {
    forall i, j, a, b :: Gives(glob, us, i, a, n) && Gives(glob, us, j, b, n) ==>
      rawEqual(Defs(glob, us[i])[a], Defs(glob, us[j])[b])
  }

  lemma AllAgreeIsAgreeOn<Q>(rawEqual: (Q, Q) -> bool, glob: (string, string) -> bool, us: seq<Listed<Q>>)
    ensures AllAgree(rawEqual, glob, us) <==> forall n :: AgreeOn(rawEqual, glob, us, n)
  {
    if forall n :: AgreeOn(rawEqual, glob, us, n) {
      forall i, j, a, b |
        0 <= i < |us| && 0 <= j < |us| && a in Defs(glob, us[i]) && b in Defs(glob, us[j])
        && R.NamespaceName(us[i].cfg.prefix, a) == R.NamespaceName(us[j].cfg.prefix, b)
        ensures rawEqual(Defs(glob, us[i])[a], Defs(glob, us[j])[b])
      {
        var n := R.NamespaceName(us[i].cfg.prefix, a);
        assert AgreeOn(rawEqual, glob, us, n) && Gives(glob, us, i, a, n) && Gives(glob, us, j, b, n);
      }
    }
  }

  /** A contribution under a name that is not reserved is listed under it. */
  lemma {:induction false} DefIsListed<Q, T>(env: R.Env<Q, T>, cfg: R.UpstreamCfg, items: seq<R.RawItem<Q>>,
                                          raw: string)
    requires raw in LastDefs(items, Keep(env.glob, cfg)) && !env.reserved(R.NamespaceName(cfg.prefix, raw))
    ensures
      var l, n := R.Listing(env, cfg, items), R.NamespaceName(cfg.prefix, raw);
      n in l && l[n].raw == raw
    decreases |items|
  {
    var before, it := items[..|items| - 1], items[|items| - 1];
    SamePrefix(cfg.prefix, it.name, raw);
    if it.name != raw || !R.Allowed(env.glob, cfg, it.name) {
      DefIsListed(env, cfg, before, raw);
    }
  }

  lemma SamePrefix(prefix: string, a: string, b: string)
    ensures R.NamespaceName(prefix, a) == R.NamespaceName(prefix, b) ==> a == b
  {
    assert (prefix + a)[|prefix|..] == a && (prefix + b)[|prefix|..] == b;
  }

  lemma SyncedOwner<Q, T(!new)>(env: R.Env<Q, T>, us: seq<Listed<Q>>, rs: seq<R.Registry<T>>, k: nat, n: string)
    requires Registered(env, us, rs) && k < |us|
    ensures Look(rs[k + 1].owner, n) ==
            R.OwnerAt(rs[k], us[k].cfg.name, R.Listing(env, us[k].cfg, us[k].items), n)
  {
    var l := R.Listing(env, us[k].cfg, us[k].items);
    assert R.Synced(env.equal, rs[k], us[k].cfg.name, l, rs[k + 1]);
  }

  /** During a build an owned name keeps its owner. */
  lemma {:induction false} OwnerKept<Q, T(!new)>(env: R.Env<Q, T>, us: seq<Listed<Q>>, rs: seq<R.Registry<T>>, k: nat,
                                                 m: nat, n: string)
    requires Registered(env, us, rs) && DistinctNames(us) && k <= m <= |us| && n in rs[k].owner
    ensures n in rs[m].owner && rs[m].owner[n] == rs[k].owner[n]
    decreases m
  {
    if k < m {
      OwnerKept(env, us, rs, k, m - 1, n);
      OwnerListed(env, us, rs, m - 1, n);
      var j :| 0 <= j < m - 1 && us[j].cfg.name == rs[m - 1].owner[n];
      assert us[j].cfg.name != us[m - 1].cfg.name;
      SyncedOwner(env, us, rs, m - 1, n);
    }
  }

  /** Whoever lists a name during a build owns it in the end, or is told that the final owner does. */
  lemma OwnsOrCollides<Q, T(!new)>(env: R.Env<Q, T>, us: seq<Listed<Q>>, rs: seq<R.Registry<T>>, i: nat, n: string)
    requires Registered(env, us, rs) && DistinctNames(us) && i < |us| && n in R.Listing(env, us[i].cfg, us[i].items)
    ensures n in rs[|us|].owner
    ensures
      var l, owner := R.Listing(env, us[i].cfg, us[i].items), rs[|us|].owner[n];
      owner == us[i].cfg.name || R.Collides(rs[i], us[i].cfg.name, l, R.Collision(owner, l[n].raw, n))
  {
    SyncedOwner(env, us, rs, i, n);
    OwnerKept(env, us, rs, i + 1, |us|, n);
  }

  /** Under a name with only harmless collisions every contribution agrees with the owner's. */
  lemma AgreesWithOwner<Q(!new), T(!new)>(env: R.Env<Q, T>, rawEqual: (Q, Q) -> bool, us: seq<Listed<Q>>,
                                    rs: seq<R.Registry<T>>, n: string, f: nat, raw: string, i: nat, a: string)
    requires (forall x :: rawEqual(x, x)) && DistinctNames(us) && Registered(env, us, rs) && !env.reserved(n)
    requires Harmlessly(env, rawEqual, us, rs) && Gives(env.glob, us, i, a, n) && Gives(env.glob, us, f, raw, n)
    requires n in rs[|us|].owner && rs[|us|].owner[n] == us[f].cfg.name
    ensures rawEqual(Defs(env.glob, us[f])[raw], Defs(env.glob, us[i])[a])
  {
    DefIsListed(env, us[i].cfg, us[i].items, a);
    OwnsOrCollides(env, us, rs, i, n);
    if i == f {
      SamePrefix(us[i].cfg.prefix, a, raw);
    } else {
      assert us[i].cfg.name != us[f].cfg.name;
      assert EqualBehind(rawEqual, env.glob, us, i, R.Collision(us[f].cfg.name, a, n));
    }
  }

  lemma HarmlessAgrees<Q(!new), T(!new)>(env: R.Env<Q, T>, rawEqual: (Q, Q) -> bool, us: seq<Listed<Q>>,
                                   rs: seq<R.Registry<T>>, n: string)
    requires Equivalence(rawEqual) && DistinctNames(us) && Registered(env, us, rs) && Harmlessly(env, rawEqual, us, rs)
    requires !env.reserved(n)
    ensures AgreeOn(rawEqual, env.glob, us, n)
  {
    forall i, j, a, b | Gives(env.glob, us, i, a, n) && Gives(env.glob, us, j, b, n)
      ensures rawEqual(Defs(env.glob, us[i])[a], Defs(env.glob, us[j])[b])
    {
      DefIsListed(env, us[i].cfg, us[i].items, a);
      OwnsOrCollides(env, us, rs, i, n);
      OwnerListed(env, us, rs, |us|, n);
      var f :| 0 <= f < |us| && us[f].cfg.name == rs[|us|].owner[n] && n in R.Listing(env, us[f].cfg, us[f].items);
      var raw := R.Listing(env, us[f].cfg, us[f].items)[n].raw;
      ListingHasDef(env, us[f].cfg, us[f].items, n);
      AgreesWithOwner(env, rawEqual, us, rs, n, f, raw, i, a);
      AgreesWithOwner(env, rawEqual, us, rs, n, f, raw, j, b);
      Join(rawEqual, Defs(env.glob, us[f])[raw], Defs(env.glob, us[i])[a], Defs(env.glob, us[j])[b]);
    }
  }

  lemma Join<Q(!new)>(equal: (Q, Q) -> bool, x: Q, y: Q, z: Q)
    requires Equivalence(equal) && equal(x, y) && equal(x, z)
    ensures equal(y, z)
  {
    assert equal(y, x);
  }

  /** The check passes exactly when registration reports only harmless collisions and contributions under reserved
      names, which registration drops, agree as well. */
  lemma CheckIsStricter<Q(!new), T(!new)>(env: R.Env<Q, T>, rawEqual: (Q, Q) -> bool, us: seq<Listed<Q>>,
                                          rs: seq<R.Registry<T>>)
    requires Equivalence(rawEqual) && DistinctNames(us) && Registered(env, us, rs)
    ensures AllAgree(rawEqual, env.glob, us) <==>
            Harmlessly(env, rawEqual, us, rs) && forall n :: env.reserved(n) ==> AgreeOn(rawEqual, env.glob, us, n)
  {
    AllAgreeIsAgreeOn(rawEqual, env.glob, us);
    if Harmlessly(env, rawEqual, us, rs) && forall n :: env.reserved(n) ==> AgreeOn(rawEqual, env.glob, us, n) {
      forall n ensures AgreeOn(rawEqual, env.glob, us, n) {
        if !env.reserved(n) {
          HarmlessAgrees(env, rawEqual, us, rs, n);
        }
      }
    }
    if AllAgree(rawEqual, env.glob, us) {
      forall k, c | 0 <= k < |us| && R.Collides(rs[k], us[k].cfg.name, R.Listing(env, us[k].cfg, us[k].items), c)
        ensures EqualBehind(rawEqual, env.glob, us, k, c)
      {
        AgreedIsHarmless(env, rawEqual, us, rs, k, c);
      }
    }
  }

  lemma AgreedIsHarmless<Q, T(!new)>(env: R.Env<Q, T>, rawEqual: (Q, Q) -> bool, us: seq<Listed<Q>>,
                                     rs: seq<R.Registry<T>>, k: nat, c: R.Collision)
    requires k < |us| && k < |rs| && AgreeOn(rawEqual, env.glob, us, c.resultName)
    requires R.Collides(rs[k], us[k].cfg.name, R.Listing(env, us[k].cfg, us[k].items), c)
    ensures EqualBehind(rawEqual, env.glob, us, k, c)
  {
    ListingHasDef(env, us[k].cfg, us[k].items, c.resultName);
    assert Gives(env.glob, us, k, c.tool, c.resultName);
  }

  /** Two upstreams that list a reserved name with different definitions fail the check, although neither would get the
      name. */
  lemma ReservedNameRefused<Q, T>(env: R.Env<Q, T>, rawEqual: (Q, Q) -> bool, x: Q, y: Q) returns (us: seq<Listed<Q>>)
    requires env.reserved("search_tools") && !rawEqual(x, y)
    ensures DistinctNames(us) && !AllAgree(rawEqual, env.glob, us)
    ensures forall k :: 0 <= k < |us| ==> R.Listing(env, us[k].cfg, us[k].items) == map[]
  {
    var a, b := R.UpstreamCfg("a", "", [], []), R.UpstreamCfg("b", "", [], []);
    us := [Listed(a, [R.RawItem("search_tools", x)]), Listed(b, [R.RawItem("search_tools", y)])];
    OneReserved(env, a, x);
    OneReserved(env, b, y);
    assert Defs(env.glob, us[0])["search_tools"] == x && Defs(env.glob, us[1])["search_tools"] == y;
  }

  lemma OneReserved<Q, T>(env: R.Env<Q, T>, cfg: R.UpstreamCfg, x: Q)
    requires env.reserved("search_tools") && cfg.prefix == "" && cfg.allow == [] && cfg.deny == []
    ensures R.Listing(env, cfg, [R.RawItem("search_tools", x)]) == map[]
    ensures LastDefs([R.RawItem("search_tools", x)], Keep(env.glob, cfg)) == map["search_tools" := x]
  {
    assert [R.RawItem("search_tools", x)][..0] == [];
    assert R.Listing(env, cfg, []) == map[] && LastDefs<Q>([], Keep(env.glob, cfg)) == map[];
  }

  /** Definitions that one upstream lists under the same raw name are not compared: the check passes whatever they
      are. */
  lemma RepeatedNameIgnored<T(!new)>(equal: (T, T) -> bool, glob: (string, string) -> bool, cfg: R.UpstreamCfg,
                                     raw: string, a: T, b: T)
    requires Equivalence(equal)
    ensures AllAgree(equal, glob, [Listed(cfg, [R.RawItem(raw, a), R.RawItem(raw, b)])])
  {
    var items := [R.RawItem(raw, a), R.RawItem(raw, b)];
    var keep := Keep(glob, cfg);
    assert items[..1] == [R.RawItem(raw, a)] && [R.RawItem(raw, a)][..0] == [];
    assert LastDefs(items[..1], keep).Keys <= {raw};
    assert LastDefs(items, keep).Keys <= {raw};
  }

  // ----- contributions, item by item

  /** What an upstream contributes under a raw name: nothing if no item kept has it, else the definition of the last. */
  lemma {:induction false} LastDefsAre<T>(items: seq<R.RawItem<T>>, keep: string -> bool, n: string, i: nat)
    requires i < |items| && items[i].name == n && forall j :: i < j < |items| ==> items[j].name != n
    ensures Look(LastDefs(items, keep), n) == if keep(n) then Some(items[i].def) else None
    decreases |items|
  {
    if i < |items| - 1 {
      LastDefsAre(items[..|items| - 1], keep, n, i);
    } else if !keep(n) {
      NotKept(items, keep, n);
    }
  }

  lemma {:induction false} NotKept<T>(items: seq<R.RawItem<T>>, keep: string -> bool, n: string)
    requires !keep(n) || forall j :: 0 <= j < |items| ==> items[j].name != n
    ensures n !in LastDefs(items, keep)
    decreases |items|
  {
    if items != [] {
      NotKept(items[..|items| - 1], keep, n);
    }
  }
}
