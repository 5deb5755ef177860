/**
 The host and path router (internal/gateway/router/router.go) and the routed-server table
 that rebuilds it (setRouteServer and removeRoute).

 The trie is a pointer structure grown in place, one node per path byte. Its validity is a
 flat condition on a set of nodes, each of which knows, in ghost state, the table and the
 path it stands for. Lookup is proved to return what a linear scan over all Add calls returns.
 */
module Router {
  import opened Options

  /** Which table a node belongs to: the any-host one, or that of a lower-cased host. */
  datatype Key = AnyHost | Host(name: string)

  /** A place in the tables: the table and the path spelled by the bytes down to it. */
  datatype Pos = Pos(key: Key, path: string) {
    function Last(): char requires path != "" { path[|path| - 1] }
    function Up(): Pos requires path != "" { Pos(key, path[..|path| - 1]) }
    function Down(c: char): (d: Pos)
      ensures d.path != "" && d.Up() == this && d.Last() == c
    {
      var d := Pos(key, path + [c]);
      assert d.path[..|path|] == path;
      d
    }
  }

  datatype Route<T> = Route(host: string, path: string, value: T)

  // ----- the specification: a linear scan

  predicate IsBoundary(path: string, matchLen: nat)
    requires matchLen <= |path|
  {
    || matchLen == |path|
    || (matchLen > 0 && path[matchLen - 1] == '/')
    || path[matchLen] == '/'
  }

  function KeyOf(lower: string -> string, host: string): Key {
    if host == "" then AnyHost else Host(lower(host))
  }

  /** The registered path `p` matches the request path. */
  predicate Matches(p: string, path: string) {
    p <= path && IsBoundary(path, |p|)
  }

  /** A registered path matches a request path exactly when it is that path, ends in a slash and starts it, or is
      followed in it by a slash. */
  lemma MatchesIff(p: string, path: string)
    ensures Matches(p, path) <==> p == path || (p != "" && p[|p| - 1] == '/' && p <= path) || p + "/" <= path
  {
    if p <= path && |p| < |path| && path[|p|] == '/' {
      assert path[..|p| + 1] == p + "/";
    }
    if p + "/" <= path {
      assert path[|p|] == (p + "/")[|p|] == '/';
    }
  }

  predicate Applies<T>(lower: string -> string, r: Route<T>, key: Key, path: string) {
    KeyOf(lower, r.host) == key && Matches(r.path, path)
  }

  /** One pass over the routes in the order they were added: a route replaces the best so far unless it is shorter. */
  function Scan<T>(lower: string -> string, routes: seq<Route<T>>, key: Key, path: string): Option<Route<T>> {
    if routes == [] then None
    else
      var best := Scan(lower, routes[..|routes| - 1], key, path);
      var r := routes[|routes| - 1];
      if Applies(lower, r, key, path) && (best.None? || |r.path| >= |best.value.path|) then Some(r) else best
  }

  function ScanLookup<T>(lower: string -> string, routes: seq<Route<T>>, host: string, path: string): Option<T> {
    var own := Scan(lower, routes, Host(lower(host)), path);
    if own.Some? then Some(own.value.value)
    else
      var any := Scan(lower, routes, AnyHost, path);
      if any.Some? then Some(any.value.value) else None
  }

  /** Route `i` is the longest applicable one, and the latest of that length. */
  ghost predicate LongestLatest<T>(lower: string -> string, routes: seq<Route<T>>, key: Key, path: string, i: nat) {
    && i < |routes| && Applies(lower, routes[i], key, path)
    && forall j :: 0 <= j < |routes| && Applies(lower, routes[j], key, path) ==>
         |routes[j].path| <= |routes[i].path| && (j > i ==> |routes[j].path| < |routes[i].path|)
  }

  /** The route a scan ends with. */
  lemma {:induction false} ScanFinds<T>(lower: string -> string, routes: seq<Route<T>>, key: Key, path: string)
    returns (i: nat)
    requires Scan(lower, routes, key, path).Some?
    ensures LongestLatest(lower, routes, key, path, i) && Scan(lower, routes, key, path) == Some(routes[i])
    decreases |routes|
  {
    var k := |routes| - 1;
    var before, last := routes[..k], routes[k];
    var best := Scan(lower, before, key, path);
    i := k;
    if best.Some? {
      var j := ScanFinds(lower, before, key, path);
      if !(Applies(lower, last, key, path) && |last.path| >= |best.value.path|) {
        i := j;
      }
    } else {
      ScanMisses(lower, before, key, path);
    }
    forall j | 0 <= j < k ensures routes[j] == before[j] {}
  }

  lemma {:induction false} ScanMisses<T>(lower: string -> string, routes: seq<Route<T>>, key: Key, path: string)
    requires Scan(lower, routes, key, path).None?
    ensures forall i :: 0 <= i < |routes| ==> !Applies(lower, routes[i], key, path)
    decreases |routes|
  {
    if routes != [] {
      var k := |routes| - 1;
      ScanMisses(lower, routes[..k], key, path);
      forall j | 0 <= j < k ensures routes[j] == routes[..k][j] {}
    }
  }

  /** The scan finds the longest applicable route, and among equally long ones the latest. */
  lemma ScanIsLongestLatest<T>(lower: string -> string, routes: seq<Route<T>>, key: Key, path: string)
    ensures Scan(lower, routes, key, path).None? <==> forall i :: 0 <= i < |routes| ==>
            !Applies(lower, routes[i], key, path)
    ensures Scan(lower, routes, key, path).Some? ==>
            exists i: nat :: LongestLatest(lower, routes, key, path, i) &&
                Scan(lower, routes, key, path) == Some(routes[i])
  {
    if Scan(lower, routes, key, path).Some? {
      var i := ScanFinds(lower, routes, key, path);
      assert Applies(lower, routes[i], key, path);
    } else {
      ScanMisses(lower, routes, key, path);
    }
  }

  // ----- the table a sequence of Adds leaves behind

  function TableOf<T>(lower: string -> string, routes: seq<Route<T>>): map<Pos, T> {
    if routes == [] then map[]
    else
      var r := routes[|routes| - 1];
      TableOf(lower, routes[..|routes| - 1])[Pos(KeyOf(lower, r.host), r.path) := r.value]
  }

  lemma TableSnoc<T>(lower: string -> string, routes: seq<Route<T>>, r: Route<T>)
    ensures TableOf(lower, routes + [r]) == TableOf(lower, routes)[Pos(KeyOf(lower, r.host), r.path) := r.value]
  {
    assert (routes + [r])[..|routes|] == routes;
  }

  predicate HitAt<T>(m: map<Pos, T>, key: Key, path: string, n: nat) {
    n <= |path| && Pos(key, path[..n]) in m && IsBoundary(path, n)
  }

  /** The length of the longest hit of at most `n` bytes, or -1. */
  function BestLen<T>(m: map<Pos, T>, key: Key, path: string, n: nat): (len: int)
    requires n <= |path|
    ensures -1 <= len <= n
    ensures len >= 0 ==> HitAt(m, key, path, len)
    ensures forall k: nat :: len < k <= n ==> !HitAt(m, key, path, k)
  {
    if HitAt(m, key, path, n) then n else if n == 0 then -1 else BestLen(m, key, path, n - 1)
  }

  function TableLookup<T>(m: map<Pos, T>, key: Key, path: string): Option<T> {
    var len := BestLen(m, key, path, |path|);
    if len < 0 then None else Some(m[Pos(key, path[..len])])
  }

  /** Looking up the table is the linear scan. */
  lemma {:induction false} TableIsScan<T>(lower: string -> string, routes: seq<Route<T>>, key: Key, path: string)
    ensures var best := Scan(lower, routes, key, path);
            && BestLen(TableOf(lower, routes), key, path, |path|) == (if best.None? then -1 else |best.value.path|)
            && (best.Some? ==> Matches(best.value.path, path))
            && TableLookup(TableOf(lower, routes), key, path) == (if best.None? then None else Some(best.value.value))
  {
    if routes != [] {
      var before := routes[..|routes| - 1];
      var r := routes[|routes| - 1];
      TableIsScan(lower, before, key, path);
      TableGrows(TableOf(lower, before), Pos(KeyOf(lower, r.host), r.path), r.value, key, path);
    }
  }

  /** One more entry changes a lookup only if it matches and is at least as long as the best before. */
  lemma TableGrows<T>(m: map<Pos, T>, e: Pos, v: T, key: Key, path: string)
    ensures var old_ := BestLen(m, key, path, |path|);
            var hit := e.key == key && Matches(e.path, path);
            var new_ := BestLen(m[e := v], key, path, |path|);
            && new_ == (if hit && |e.path| > old_ then |e.path| else old_)
            && TableLookup(m[e := v], key, path) ==
                (if hit && |e.path| >= old_ then Some(v) else TableLookup(m, key, path))
  {
    var old_, new_ := BestLen(m, key, path, |path|), BestLen(m[e := v], key, path, |path|);
    assert forall k: nat :: k <= |path| && Pos(key, path[..k]) == e ==> k == |e.path|;
    assert forall k: nat :: k <= |path| && k != |e.path| ==>
        (HitAt(m[e := v], key, path, k) <==> HitAt(m, key, path, k));
    if e.key == key && Matches(e.path, path) {
      assert path[..|e.path|] == e.path;
      assert HitAt(m[e := v], key, path, |e.path|);
    } else if |e.path| <= |path| && HitAt(m[e := v], key, path, |e.path|) {
      assert HitAt(m, key, path, |e.path|);
    }
    if new_ >= 0 && new_ != |e.path| {
      assert HitAt(m, key, path, new_);
    }
    if old_ >= 0 {
      assert HitAt(m[e := v], key, path, old_);
    }
  }

  // ----- the trie

  class Node<T> {
    var children: map<char, Node<T>>
    var value: Option<T>
    var isRoute: bool
    ghost const pos: Pos

    constructor (ghost pos: Pos)
      ensures children == map[] && value == None && !isRoute && this.pos == pos
    {
      children, value, isRoute := map[], None, false;
      this.pos := pos;
    }
  }

  /** Places are closed under taking prefixes, down to the root of their table. */
  ghost predicate Closed<N>(places: map<Pos, N>) {
    forall e {:trigger e.Up()} :: e in places && e.path != "" ==> e.Up() in places
  }

  /** Every prefix of a place is a place. */
  lemma {:induction false} Ancestor<N>(places: map<Pos, N>, f: Pos, k: nat)
    requires Closed(places) && f in places && k <= |f.path|
    ensures Pos(f.key, f.path[..k]) in places
    decreases |f.path|
  {
    if k == |f.path| {
      assert f.path[..k] == f.path;
    } else {
      Ancestor(places, f.Up(), k);
      assert f.Up().path[..k] == f.path[..k];
    }
  }

  /** Once a walk falls off the trie at byte `i`, nothing is stored at any longer prefix. */
  lemma FellOff<N, T>(places: map<Pos, N>, m: map<Pos, T>, key: Key, path: string, i: nat)
    requires Closed(places) && forall e :: e in m ==> e in places
    requires i < |path| && Pos(key, path[..i + 1]) !in places
    ensures forall k: nat :: i < k <= |path| ==> !HitAt(m, key, path, k)
  {
    forall k: nat | i < k <= |path| ensures !HitAt(m, key, path, k) {
      assert path[..k][..i + 1] == path[..i + 1];
      if Pos(key, path[..k]) in places {
        Ancestor(places, Pos(key, path[..k]), i + 1);
      }
    }
  }

  class Router<T> {
    const lower: string -> string
    var hosts: map<string, Node<T>>
    var any: Node<T>
    ghost var at: map<Pos, Node<T>>   // the node at each place
    ghost var nodes: set<Node<T>>
    ghost var routes: seq<Route<T>>   // every Add so far, in order

    ghost predicate Roots()
      reads `at, `any, `hosts
    {
      && Pos(AnyHost, "") in at && any == at[Pos(AnyHost, "")]
      && (forall h :: h in hosts ==> Pos(Host(h), "") in at && hosts[h] == at[Pos(Host(h), "")])
      && (forall e :: e in at && e.key.Host? && e.path == "" ==> e.key.name in hosts)
    }

    /** Each place has its own node. */
    ghost predicate Placed()
      reads `at, `nodes
    {
      Closed(at) && forall e :: e in at ==> at[e] in nodes && at[e].pos == e
    }

    /** The children of a node are exactly the places one byte further down. */
    ghost predicate Linked()
      requires Placed()
      reads `at, `nodes, nodes
    {
      forall e, c {:trigger e.Down(c)} :: e in at ==>
        (c in at[e].children <==> e.Down(c) in at) && (c in at[e].children ==> at[e].children[c] == at[e.Down(c)])
    }

    /** A node is a route exactly when the table has its place, with the table's value. */
    ghost predicate Stores(m: map<Pos, T>)
      requires Placed()
      reads `at, `nodes, nodes
    {
      && (forall e :: e in m ==> e in at)
      && (forall e :: e in at ==> (at[e].isRoute <==> e in m) && (e in m ==> at[e].value == Some(m[e])))
    }

    ghost predicate Holds(m: map<Pos, T>)
      reads `at, `any, `hosts, `nodes, nodes
    {
      Roots() && Placed() && Linked() && Stores(m)
    }

    ghost predicate Valid()
      reads this, nodes
    {
      Holds(TableOf(lower, routes))
    }

    constructor (lower: string -> string)
      ensures Valid() && fresh(nodes) && this.lower == lower && routes == []
    {
      this.lower := lower;
      hosts := map[];
      var root := new Node(Pos(AnyHost, ""));
      any := root;
      at, nodes, routes := map[Pos(AnyHost, "") := root], {root}, [];
    }

    /** Registers a route: walks the table of the host, growing it where the path is new. */
    method Add(host: string, path: string, value: T)
      requires Valid()
      modifies this, nodes
      ensures Valid() && fresh(nodes - old(nodes)) && routes == old(routes) + [Route(host, path, value)]
    {
      Insert(host, path, value, TableOf(lower, routes));
      TableSnoc(lower, routes, Route(host, path, value));
      routes := routes + [Route(host, path, value)];
    }

    method Insert(host: string, path: string, value: T, ghost m: map<Pos, T>)
      requires Holds(m)
      modifies `at, `any, `hosts, `nodes, nodes
      ensures Holds(m[Pos(KeyOf(lower, host), path) := value]) && fresh(nodes - old(nodes))
    {
      var n := any;
      if host != "" {
        n := HostRoot(lower(host), m);
      }
      ghost var e;
      n, e := Descend(n, Pos(KeyOf(lower, host), ""), path, m);
      assert "" + path == path;
      StoreValue(n, value, e, m);
    }

    method StoreValue(n: Node<T>, value: T, ghost e: Pos, ghost m: map<Pos, T>)
      requires Holds(m) && e in at && n == at[e]
      modifies n`value, n`isRoute
      ensures Holds(m[e := value])
    {
      assert forall f :: f in at && f != e ==> at[f] != n;
      n.value := Some(value);
      n.isRoute := true;
    }

    /** The walk along the path, one byte at a time. */
    method Descend(root: Node<T>, ghost e0: Pos, path: string, ghost m: map<Pos, T>) returns (n: Node<T>, ghost e: Pos)
      requires Holds(m) && e0 in at && root == at[e0]
      modifies `at, `nodes, nodes
      ensures Holds(m) && fresh(nodes - old(nodes)) && old(nodes) <= nodes
      ensures e == Pos(e0.key, e0.path + path) && e in at && n == at[e]
    {
      n, e := root, e0;
      for i := 0 to |path|
        invariant e == Pos(e0.key, e0.path + path[..i]) && e in at && n == at[e]
        invariant Holds(m) && fresh(nodes - old(nodes)) && old(nodes) <= nodes
      {
        assert e0.path + path[..i + 1] == (e0.path + path[..i]) + [path[i]];
        n := Child(n, path[i], e, m);
        e := e.Down(path[i]);
      }
      assert path[..|path|] == path;
    }

    /** The root of a host's table, created on first use. */
    method HostRoot(h: string, ghost m: map<Pos, T>) returns (n: Node<T>)
      requires Holds(m)
      modifies `hosts, `at, `nodes
      ensures Holds(m) && fresh(nodes - old(nodes)) && old(nodes) <= nodes
      ensures Pos(Host(h), "") in at && n == at[Pos(Host(h), "")]
    {
      if h in hosts {
        return hosts[h];
      }
      ghost var e := Pos(Host(h), "");
      n := new Node(e);
      assert e !in at;
      NothingBelow(e);
      hosts := hosts[h := n];
      at := at[e := n];
      nodes := nodes + {n};
    }

    /** The child of `n` at `c`, created on first use. */
    method Child(n: Node<T>, c: char, ghost e: Pos, ghost m: map<Pos, T>) returns (k: Node<T>)
      requires Holds(m) && e in at && n == at[e]
      modifies `at, `nodes, n`children
      ensures Holds(m) && fresh(nodes - old(nodes)) && old(nodes) <= nodes
      ensures e.Down(c) in at && k == at[e.Down(c)]
    {
      ghost var d := e.Down(c);
      if c !in n.children {
        Grow(n, c, e, m);
      }
      k := n.children[c];
    }

    method Grow(n: Node<T>, c: char, ghost e: Pos, ghost m: map<Pos, T>)
      requires Holds(m) && e in at && n == at[e] && c !in n.children
      modifies `at, `nodes, n`children
      ensures Holds(m) && fresh(nodes - old(nodes)) && old(nodes) <= nodes
      ensures e in at && n == at[e] && c in n.children
    {
      assert e.Down(c) !in m;
      var k := HangLeaf(n, c, e);
      assert forall f :: f in at && f != e.Down(c) ==> at[f] == old(at)[f];
      assert Stores(m);
    }

    /** Links a new, empty node below `n`. */
    method HangLeaf(n: Node<T>, c: char, ghost e: Pos) returns (k: Node<T>)
      requires Placed() && Linked() && e in at && n == at[e] && c !in n.children
      modifies `at, `nodes, n`children
      ensures Placed() && Linked() && nodes == old(nodes) + {k} && fresh(k)
      ensures e.Down(c) !in old(at) && at == old(at)[e.Down(c) := k] && !k.isRoute
      ensures c in n.children
    {
      ghost var d := e.Down(c);
      k := new Node(d);
      NothingBelow(d);
      assert forall f :: f in at && f != e ==> at[f] != n;
      n.children := n.children[c := k];
      at := at[d := k];
      nodes := nodes + {k};
      assert Closed(at);
      assert Linked() by {
        forall f, x | f in at
          ensures (x in at[f].children <==> f.Down(x) in at)
          ensures x in at[f].children ==> at[f].children[x] == at[f.Down(x)]
        {
          assert f.Down(x) == d <==> f == e && x == c;
        }
      }
    }

    /** No place lies below one that has no node. */
    lemma NothingBelow(d: Pos)
      requires Placed() && d !in at
      ensures forall c :: d.Down(c) !in at
    {
      forall c ensures d.Down(c) !in at {
        assert d.Down(c).Up() == d;
      }
    }

    /** Walks one table and remembers the last route met on a boundary. */
    method LookupNode(n: Node<T>, ghost key: Key, path: string) returns (r: Option<T>)
      requires Valid() && Pos(key, "") in at && n == at[Pos(key, "")]
      ensures r == TableLookup(TableOf(lower, routes), key, path)
    {
      ghost var m := TableOf(lower, routes);
      var best: Option<T> := None;
      assert path[..0] == "";
      if n.isRoute {
        if IsBoundary(path, 0) {
          best := n.value;
        }
      }
      var curr := n;
      for i := 0 to |path|
        invariant Pos(key, path[..i]) in at && curr == at[Pos(key, path[..i])]
        invariant best == UpTo(m, key, path, i)
      {
        assert path[..i] + [path[i]] == path[..i + 1];
        assert Pos(key, path[..i]).Down(path[i]) == Pos(key, path[..i + 1]);
        if path[i] !in curr.children {
          FellOff(at, m, key, path, i);
          UpToStays(m, key, path, i);
          return best;
        }
        curr := curr.children[path[i]];
        if curr.isRoute {
          if IsBoundary(path, i + 1) {
            best := curr.value;
          }
        }
      }
      return best;
    }

    /** The value stored at the longest matching prefix for the host, else for any host. */
    method Lookup(host: string, path: string) returns (r: Option<T>)
      requires Valid()
      ensures r == ScanLookup(lower, routes, host, path)
    {
      var h := lower(host);
      TableIsScan(lower, routes, Host(h), path);
      TableIsScan(lower, routes, AnyHost, path);
      if h in hosts {
        r := LookupNode(hosts[h], Host(h), path);
        if r.Some? {
          return;
        }
      } else {
        NoTable(h, path);
      }
      r := LookupNode(any, AnyHost, path);
    }

    /** A host without a root has no routes. */
    lemma NoTable(h: string, path: string)
      requires Valid() && h !in hosts
      ensures TableLookup(TableOf(lower, routes), Host(h), path) == None
    {
      var len := BestLen(TableOf(lower, routes), Host(h), path, |path|);
      if len >= 0 {
        Ancestor(at, Pos(Host(h), path[..len]), 0);
      }
    }
  }

  /** The best value among the prefixes of at most `n` bytes. */
  ghost function UpTo<T>(m: map<Pos, T>, key: Key, path: string, n: nat): Option<T>
    requires n <= |path|
  {
    var len := BestLen(m, key, path, n);
    if len < 0 then None else Some(m[Pos(key, path[..len])])
  }

  lemma {:induction false} UpToStays<T>(m: map<Pos, T>, key: Key, path: string, i: nat)
    requires i <= |path| && forall k: nat :: i < k <= |path| ==> !HitAt(m, key, path, k)
    ensures UpTo(m, key, path, i) == TableLookup(m, key, path)
  {
    var a, b := BestLen(m, key, path, i), BestLen(m, key, path, |path|);
    assert b <= i;
  }

  // ----- order of registration

  /** No two routes claim the same place with different values. */
  ghost predicate Unambiguous<T>(lower: string -> string, routes: seq<Route<T>>) {
    forall i, j :: 0 <= i < |routes| && 0 <= j < |routes|
      && KeyOf(lower, routes[i].host) == KeyOf(lower, routes[j].host) && routes[i].path == routes[j].path
      ==> routes[i].value == routes[j].value
  }

  /** Registering the routes in any other order answers every request alike. */
  ghost predicate OrderIndependent<T(!new)>(lower: string -> string, routes: seq<Route<T>>) {
    forall other: seq<Route<T>>, host, path :: multiset(other) == multiset(routes) ==>
      ScanLookup(lower, other, host, path) == ScanLookup(lower, routes, host, path)
  }

  lemma {:induction false} TableEntry<T>(lower: string -> string, routes: seq<Route<T>>, e: Pos)
    ensures e in TableOf(lower, routes) <==>
            exists i :: 0 <= i < |routes| && Pos(KeyOf(lower, routes[i].host), routes[i].path) == e
    ensures e in TableOf(lower, routes) ==>
            exists i :: 0 <= i < |routes| && Pos(KeyOf(lower, routes[i].host), routes[i].path) == e
                        && routes[i].value == TableOf(lower, routes)[e]
  {
    if routes != [] {
      var k := |routes| - 1;
      TableEntry(lower, routes[..k], e);
      assert forall j :: 0 <= j < k ==> routes[..k][j] == routes[j];
      if Pos(KeyOf(lower, routes[k].host), routes[k].path) != e && e in TableOf(lower, routes) {
        var i :| 0 <= i < k && Pos(KeyOf(lower, routes[..k][i].host), routes[..k][i].path) == e
                 && routes[..k][i].value == TableOf(lower, routes[..k])[e];
        assert routes[i].value == TableOf(lower, routes)[e];
      }
    }
  }

  lemma SameElements<T>(a: seq<T>, b: seq<T>, i: nat) returns (j: nat)
    requires multiset(a) == multiset(b) && i < |a|
    ensures j < |b| && b[j] == a[i]
  {
    assert a[i] in multiset(b);
    j :| 0 <= j < |b| && b[j] == a[i];
  }

  /** Unambiguous routes in another order leave the same table behind. */
  lemma SameTable<T>(lower: string -> string, a: seq<Route<T>>, b: seq<Route<T>>)
    requires Unambiguous(lower, a) && multiset(a) == multiset(b)
    ensures TableOf(lower, a) == TableOf(lower, b)
  {
    var ma, mb := TableOf(lower, a), TableOf(lower, b);
    forall e ensures (e in ma <==> e in mb) && (e in ma ==> ma[e] == mb[e]) {
      TableEntry(lower, a, e);
      TableEntry(lower, b, e);
      if e in ma {
        var i :| 0 <= i < |a| && Pos(KeyOf(lower, a[i].host), a[i].path) == e && a[i].value == ma[e];
        var j := SameElements(a, b, i);
        var k :| 0 <= k < |b| && Pos(KeyOf(lower, b[k].host), b[k].path) == e && b[k].value == mb[e];
        var l := SameElements(b, a, k);
        assert a[l].value == a[i].value;
      } else if e in mb {
        var k :| 0 <= k < |b| && Pos(KeyOf(lower, b[k].host), b[k].path) == e;
        var l := SameElements(b, a, k);
      }
    }
    assert ma.Keys == mb.Keys;
  }

  lemma ScanLookupIsTable<T>(lower: string -> string, routes: seq<Route<T>>, host: string, path: string)
    ensures ScanLookup(lower, routes, host, path) ==
            var own := TableLookup(TableOf(lower, routes), Host(lower(host)), path);
            if own.Some? then own else TableLookup(TableOf(lower, routes), AnyHost, path)
  {
    TableIsScan(lower, routes, Host(lower(host)), path);
    TableIsScan(lower, routes, AnyHost, path);
  }

  /** The last route registered answers for its own host and path. */
  lemma LastRouteAnswers<T>(lower: string -> string, routes: seq<Route<T>>)
    requires routes != []
    ensures var r := routes[|routes| - 1];
            TableLookup(TableOf(lower, routes), KeyOf(lower, r.host), r.path) == Some(r.value)
  {
    var r := routes[|routes| - 1];
    var m := TableOf(lower, routes);
    assert r.path[..|r.path|] == r.path;
    assert HitAt(m, KeyOf(lower, r.host), r.path, |r.path|);
  }

  /** The routes with entry `i` moved to the end. */
  function MoveLast<T>(routes: seq<T>, i: nat): seq<T>
    requires i < |routes|
  {
    routes[..i] + routes[i + 1..] + [routes[i]]
  }

  lemma MoveLastPermutes<T>(routes: seq<T>, i: nat)
    requires i < |routes|
    ensures multiset(MoveLast(routes, i)) == multiset(routes)
  {
    assert routes == routes[..i] + [routes[i]] + routes[i + 1..];
  }

  /** The order of registration is irrelevant if no place is claimed twice with different values. */
  lemma UnambiguousIsEnough<T(!new)>(lower: string -> string, routes: seq<Route<T>>)
    requires Unambiguous(lower, routes)
    ensures OrderIndependent(lower, routes)
  {
    forall other: seq<Route<T>>, host, path | multiset(other) == multiset(routes)
      ensures ScanLookup(lower, other, host, path) == ScanLookup(lower, routes, host, path)
    {
      SameTable(lower, routes, other);
      ScanLookupIsTable(lower, other, host, path);
      ScanLookupIsTable(lower, routes, host, path);
    }
  }

  /** Two values for one place make some request depend on the order. */
  lemma AmbiguousDepends<T(!new)>(lower: string -> string, routes: seq<Route<T>>, i: nat, j: nat, unrouted: string)
    requires i < |routes| && j < |routes| && routes[i].path == routes[j].path && routes[i].value != routes[j].value
    requires KeyOf(lower, routes[i].host) == KeyOf(lower, routes[j].host)
    requires forall k :: 0 <= k < |routes| && routes[k].host != "" ==> lower(routes[k].host) != lower(unrouted)
    ensures !OrderIndependent(lower, routes)
  {
    var a, b := MoveLast(routes, i), MoveLast(routes, j);
    MoveLastPermutes(routes, i);
    MoveLastPermutes(routes, j);
    LastRouteAnswers(lower, a);
    LastRouteAnswers(lower, b);
    var host, path := if routes[i].host == "" then unrouted else routes[i].host, routes[i].path;
    ScanLookupIsTable(lower, a, host, path);
    ScanLookupIsTable(lower, b, host, path);
    if routes[i].host == "" {
      NoOwnTable(lower, routes, a, unrouted, path);
      NoOwnTable(lower, routes, b, unrouted, path);
    }
    assert ScanLookup(lower, a, host, path) != ScanLookup(lower, b, host, path);
  }

  lemma NoOwnTable<T>(lower: string -> string, routes: seq<Route<T>>, other: seq<Route<T>>, unrouted: string,
                      path: string)
    requires multiset(other) == multiset(routes)
    requires forall k :: 0 <= k < |routes| && routes[k].host != "" ==> lower(routes[k].host) != lower(unrouted)
    ensures TableLookup(TableOf(lower, other), Host(lower(unrouted)), path) == None
  {
    var m := TableOf(lower, other);
    var len := BestLen(m, Host(lower(unrouted)), path, |path|);
    if len >= 0 {
      TableEntry(lower, other, Pos(Host(lower(unrouted)), path[..len]));
      var i :| 0 <= i < |other| && KeyOf(lower, other[i].host) == Host(lower(unrouted));
      var j := SameElements(other, routes, i);
    }
  }

  /** Given some host no route names, the order of registration is irrelevant exactly when no place is claimed twice
      with different values. */
  lemma OrderIndependentIff<T(!new)>(lower: string -> string, routes: seq<Route<T>>, unrouted: string)
    requires forall k :: 0 <= k < |routes| && routes[k].host != "" ==> lower(routes[k].host) != lower(unrouted)
    ensures OrderIndependent(lower, routes) <==> Unambiguous(lower, routes)
  {
    if Unambiguous(lower, routes) {
      UnambiguousIsEnough(lower, routes);
    } else {
      var i, j :| 0 <= i < |routes| && 0 <= j < |routes|
        && KeyOf(lower, routes[i].host) == KeyOf(lower, routes[j].host) && routes[i].path == routes[j].path
        && routes[i].value != routes[j].value;
      AmbiguousDepends(lower, routes, i, j, unrouted);
    }
  }

  /** What validateRouteCollisions checks: no two routes have the same host and path as written. */
  ghost predicate DistinctAsWritten<T>(routes: seq<Route<T>>) {
    forall i, j :: 0 <= i < j < |routes| ==> routes[i].host != routes[j].host || routes[i].path != routes[j].path
  }

  /** That check is not enough: hosts that differ only in case are one host to the router. */
  lemma ValidatedRoutesMayDepend<T(!new)>(lower: string -> string, v: T, w: T, unrouted: string)
    requires lower("API.example") == lower("api.example") != lower(unrouted) && v != w
    ensures var routes := [Route("API.example", "/mcp", v), Route("api.example", "/mcp", w)];
            DistinctAsWritten(routes) && !OrderIndependent(lower, routes)
  {
    var routes := [Route("API.example", "/mcp", v), Route("api.example", "/mcp", w)];
    assert "API.example"[0] != "api.example"[0];
    AmbiguousDepends(lower, routes, 0, 1, unrouted);
  }

  /** Routes that stay distinct once their hosts are lower-cased never depend on the order. */
  lemma DistinctLoweredIsEnough<T(!new)>(lower: string -> string, routes: seq<Route<T>>)
    requires forall i, j :: 0 <= i < j < |routes| ==>
               KeyOf(lower, routes[i].host) != KeyOf(lower, routes[j].host) || routes[i].path != routes[j].path
    ensures OrderIndependent(lower, routes)
  {
    UnambiguousIsEnough(lower, routes);
  }

  // ----- the gateway's table of routed servers

  datatype Entry<T> = Entry(upstream: string, host: string, path: string, server: T)

  function RoutesOf<T>(entries: seq<Entry<T>>): seq<Route<T>> {
    seq(|entries|, i requires 0 <= i < |entries| => Route(entries[i].host, entries[i].path, entries[i].server))
  }

  ghost predicate Names<T>(entries: seq<Entry<T>>, up: string) {
    exists i :: 0 <= i < |entries| && entries[i].upstream == up
  }

  class RouteTable<T> {
    const lower: string -> string
    var entries: seq<Entry<T>>
    var router: Router<T>

    /** The router was built from exactly the current entries, in order. */
    ghost predicate Valid()
      reads this, router, router.nodes
    {
      router.Valid() && router.lower == lower && router.routes == RoutesOf(entries)
    }

    constructor (lower: string -> string)
      ensures Valid() && entries == []
    {
      this.lower := lower;
      entries := [];
      router := new Router(lower);
    }

    /** Replaces the server of an upstream in place, or appends its route; then rebuilds the router. */
    method SetRouteServer(up: string, host: string, path: string, server: T)
      requires Valid()
      modifies this
      ensures Valid()
      ensures if Names(old(entries), up)
              then exists i :: 0 <= i < |old(entries)| && old(entries)[i].upstream == up
                               && (forall j :: 0 <= j < i ==> old(entries)[j].upstream != up)
                               && entries == old(entries)[i := old(entries)[i].(server := server)]
              else entries == old(entries) + [Entry(up, host, path, server)]
    {
      var i := 0;
      while i < |entries| && entries[i].upstream != up
        invariant 0 <= i <= |entries| && forall j :: 0 <= j < i ==> entries[j].upstream != up
      {
        i := i + 1;
      }
      if i < |entries| {
        entries := entries[i := entries[i].(server := server)];
      } else {
        entries := entries + [Entry(up, host, path, server)];
      }
      Rebuild();
    }

    /** Drops an upstream's routes; the router is rebuilt only if something was dropped. */
    method RemoveRoute(up: string)
      requires Valid()
      modifies this
      ensures Valid() && entries == Without(old(entries), up)
    {
      var kept := [];
      for i := 0 to |entries|
        invariant kept == Without(entries[..i], up)
      {
        assert entries[..i + 1][..i] == entries[..i];
        if entries[i].upstream != up {
          kept := kept + [entries[i]];
        }
      }
      assert entries[..|entries|] == entries;
      WithoutShrinks(entries, up);
      if |kept| == |entries| {
        return;
      }
      entries := kept;
      Rebuild();
    }

    method Rebuild()
      modifies this`router
      ensures Valid() && fresh(router)
    {
      var rt := new Router(lower);
      for i := 0 to |entries|
        invariant fresh(rt) && fresh(rt.nodes) && rt.Valid()
        invariant rt.lower == lower && rt.routes == RoutesOf(entries[..i])
      {
        RoutesOfOneMore(entries, i);
        rt.Add(entries[i].host, entries[i].path, entries[i].server);
      }
      assert entries[..|entries|] == entries;
      router := rt;
    }
  }

  lemma RoutesOfOneMore<T>(entries: seq<Entry<T>>, i: nat)
    requires i < |entries|
    ensures RoutesOf(entries[..i + 1]) == RoutesOf(entries[..i]) +
            [Route(entries[i].host, entries[i].path, entries[i].server)]
  {}

  function Without<T>(entries: seq<Entry<T>>, up: string): seq<Entry<T>> {
    if entries == [] then []
    else
      var before := Without(entries[..|entries| - 1], up);
      if entries[|entries| - 1].upstream == up then before else before + [entries[|entries| - 1]]
  }

  /** Dropping an upstream that has no route changes nothing. */
  lemma {:induction false} WithoutShrinks<T>(entries: seq<Entry<T>>, up: string)
    ensures |Without(entries, up)| <= |entries|
    ensures |Without(entries, up)| == |entries| ==> Without(entries, up) == entries
    ensures !Names(Without(entries, up), up)
  {
    if entries != [] {
      WithoutShrinks(entries[..|entries| - 1], up);
      assert entries == entries[..|entries| - 1] + [entries[|entries| - 1]];
    }
  }

  /** Dropping goes entry by entry and keeps the order: those of the upstream go, and all others stay. */
  lemma {:induction false} WithoutKeepsOthers<T>(a: seq<Entry<T>>, b: seq<Entry<T>>, e: Entry<T>, up: string)
    ensures Without(a + b, up) == Without(a, up) + Without(b, up)
    ensures Without([e], up) == if e.upstream == up then [] else [e]
    decreases |b|
  {
    assert [e][..0] == [];
    if b == [] {
      assert a + b == a;
    } else {
      var before, last := b[..|b| - 1], b[|b| - 1];
      WithoutKeepsOthers(a, before, e, up);
      assert (a + b)[..|a + b| - 1] == a + before;
    }
  }
}
