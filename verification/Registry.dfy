/**
 The aggregated feature registry (internal/gateway/feature_registry.go, the register
 functions of gateway.go and detachUpstream of reload.go).

 Three maps record who owns each exposed name, which names each upstream owns and what
 was registered under each name; the MCP server holds what clients see. `Sync` says
 declaratively what one sync of one upstream does to them. The class `Gateway` has the
 code's two implementations, the hand-written tool sync and the generic diff-then-apply,
 and each is proved to compute `Sync`.
 */
module Registry {
  import opened Options

  datatype UpstreamCfg = UpstreamCfg(name: string, prefix: string, allow: seq<string>, deny: seq<string>)

  /** An item as an upstream lists it: its raw name and its definition. */
  datatype RawItem<R> = RawItem(name: string, def: R)

  /** What a listing contributes under one final name. */
  datatype Listed<T> = Listed(raw: string, def: T)

  /** What the server exposes under a name: the gateway's own tool, or a proxy to `upstream` calling `raw`. */
  datatype Exposed<T> = Own | Proxied(def: T, upstream: string, raw: string)

  datatype Collision = Collision(upstream: string, tool: string, resultName: string)

  datatype Registry<T> = Registry(
    owner: map<string, string>,
    sets: map<string, set<string>>,
    payload: map<string, T>,
    server: map<string, Exposed<T>>)

  /** Pattern matching, reserved names, the building of final definitions and their equality. */
  datatype Env<!R, !T> = Env(
    glob: (string, string) -> bool,
    reserved: string -> bool,
    finalize: (UpstreamCfg, string, R) -> T,
    equal: (T, T) -> bool)

  function NamespaceName(prefix: string, toolName: string): string {
    if prefix == "" then toolName else prefix + toolName
  }

  predicate Allowed(glob: (string, string) -> bool, cfg: UpstreamCfg, name: string) {
    && (cfg.allow != [] ==> exists i :: 0 <= i < |cfg.allow| && glob(cfg.allow[i], name))
    && (forall i :: 0 <= i < |cfg.deny| ==> !glob(cfg.deny[i], name))
  }

  predicate Eligible<R, T>(env: Env<R, T>, cfg: UpstreamCfg, it: RawItem<R>) {
    Allowed(env.glob, cfg, it.name) && !env.reserved(NamespaceName(cfg.prefix, it.name))
  }

  /** The listing under final names: filtered, prefixed, reserved names dropped, later items winning. */
  function Listing<R, T>(env: Env<R, T>, cfg: UpstreamCfg, items: seq<RawItem<R>>): map<string, Listed<T>> {
    if items == [] then map[]
    else
      var before := Listing(env, cfg, items[..|items| - 1]);
      var it := items[|items| - 1];
      if Eligible(env, cfg, it) then
        var final := NamespaceName(cfg.prefix, it.name);
        before[final := Listed(it.name, env.finalize(cfg, final, it.def))]
      else before
  }

  /** The same without filtering, for the kinds that have no allow and deny lists and no reserved names; resources and
      their templates also have an empty prefix. */
  function Unfiltered<R, T>(env: Env<R, T>, cfg: UpstreamCfg, items: seq<RawItem<R>>): map<string, Listed<T>> {
    if items == [] then map[]
    else
      var it := items[|items| - 1];
      var final := NamespaceName(cfg.prefix, it.name);
      Unfiltered(env, cfg, items[..|items| - 1])[final := Listed(it.name, env.finalize(cfg, final, it.def))]
  }

  // ----- the specification of a sync

  /** `n` belongs to an upstream other than `up`. */
  predicate Foreign<T>(r: Registry<T>, up: string, n: string) {
    n in r.owner && r.owner[n] != up
  }

  /** `n` is registered to `up` with a definition the listing repeats. */
  predicate Unchanged<T>(equal: (T, T) -> bool, r: Registry<T>, up: string, l: map<string, Listed<T>>, n: string) {
    n in l && n in r.owner && r.owner[n] == up && n in r.payload && equal(r.payload[n], l[n].def)
  }

  /** Who owns `n` after `up` is synced to the listing `l`. */
  function OwnerAt<T>(r: Registry<T>, up: string, l: map<string, Listed<T>>, n: string): Option<string> {
    if Foreign(r, up, n) then Some(r.owner[n]) else if n in l then Some(up) else None
  }

  function PayloadAt<T>(equal: (T, T) -> bool, r: Registry<T>, up: string, l: map<string, Listed<T>>,
                        n: string): Option<T> {
    if Foreign(r, up, n) || Unchanged(equal, r, up, l, n) then Look(r.payload, n)
    else if n in l then Some(l[n].def) else None
  }

  function ServerAt<T>(equal: (T, T) -> bool, r: Registry<T>, up: string, l: map<string, Listed<T>>, n: string)
    : Option<Exposed<T>>
  {
    if Foreign(r, up, n) || Unchanged(equal, r, up, l, n) then Look(r.server, n)
    else if n in l then Some(Proxied(l[n].def, up, l[n].raw))
    else if n in r.owner then None
    else Look(r.server, n)
  }

  /** `r'` is `r` after a sync of `up` to the listing `l`: every map is determined at every name. */
  ghost predicate Synced<T>(equal: (T, T) -> bool, r: Registry<T>, up: string, l: map<string, Listed<T>>,
                            r': Registry<T>) {
    && (forall n :: Look(r'.owner, n) == OwnerAt(r, up, l, n))
    && (forall n :: Look(r'.payload, n) == PayloadAt(equal, r, up, l, n))
    && (forall n :: Look(r'.server, n) == ServerAt(equal, r, up, l, n))
    && SetsSynced(r.sets, up, r'.owner, r'.sets)
  }

  /** Only the set of `up` may differ. */
  ghost predicate OthersKept(before: map<string, set<string>>, up: string, sets: map<string, set<string>>) {
    up in sets && forall u :: u != up ==> Look(sets, u) == Look(before, u)
  }

  /** Only the set of `up` changed, and it is exactly what `up` owns. */
  ghost predicate SetsSynced(before: map<string, set<string>>, up: string, owner: map<string, string>,
                             sets: map<string, set<string>>) {
    OthersKept(before, up, sets) && forall n :: n in sets[up] <==> n in owner && owner[n] == up
  }

  /** A sync has one outcome: the two implementations cannot differ. */
  lemma SyncedIsUnique<T>(equal: (T, T) -> bool, r: Registry<T>, up: string, l: map<string, Listed<T>>,
                          a: Registry<T>, b: Registry<T>)
    requires Synced(equal, r, up, l, a) && Synced(equal, r, up, l, b)
    ensures a == b
  {
    SameMap(a.owner, b.owner);
    SameMap(a.payload, b.payload);
    SameMap(a.server, b.server);
    assert a.sets[up] == b.sets[up];
    SameMap(a.sets, b.sets);
  }

  lemma SameMap<K(!new), V>(a: map<K, V>, b: map<K, V>)
    requires forall k :: Look(a, k) == Look(b, k)
    ensures a == b
  {
    forall k ensures (k in a <==> k in b) && (k in a ==> a[k] == b[k]) {
      assert Look(a, k) == Look(b, k);
    }
    assert a.Keys == b.Keys;
  }

  /** The collisions a sync reports: listed names that another upstream owns, with that owner. */
  ghost predicate Collides<T>(r: Registry<T>, up: string, l: map<string, Listed<T>>, c: Collision) {
    c.resultName in l && Foreign(r, up, c.resultName)
    && c.upstream == r.owner[c.resultName] && c.tool == l[c.resultName].raw
  }

  ghost predicate Distinct<A>(xs: seq<A>) {
    forall i, j :: 0 <= i < j < |xs| ==> xs[i] != xs[j]
  }

  /** A collision report names every collision once and nothing else. */
  ghost predicate Reports<T>(r: Registry<T>, up: string, l: map<string, Listed<T>>, collisions: seq<Collision>) {
    Distinct(collisions) && forall c :: c in collisions <==> Collides(r, up, l, c)
  }

  ghost predicate ReportsSoFar<T>(r: Registry<T>, up: string, l: map<string, Listed<T>>, rest: set<string>,
                                  collisions: seq<Collision>) {
    Distinct(collisions) && forall c :: c in collisions <==> c.resultName !in rest && Collides(r, up, l, c)
  }

  lemma ReportsOneMore<T>(r: Registry<T>, up: string, l: map<string, Listed<T>>, rest: set<string>, name: string,
                          collisions: seq<Collision>)
    requires ReportsSoFar(r, up, l, rest, collisions) && name in rest && name in l
    ensures ReportsSoFar(r, up, l, rest - {name},
              if Foreign(r, up, name) then collisions + [Collision(r.owner[name], l[name].raw, name)] else collisions)
  {}

  /** Names of `up` that the listing dropped. */
  ghost predicate Stale<T>(r: Registry<T>, up: string, l: map<string, Listed<T>>, n: string) {
    up in r.sets && n in r.sets[up] && n !in l
  }

  /** Listed names that `up` gains or redefines. */
  ghost predicate Gained<T>(equal: (T, T) -> bool, r: Registry<T>, up: string, l: map<string, Listed<T>>, n: string) {
    n in l && !Foreign(r, up, n) && !Unchanged(equal, r, up, l, n)
  }

  /** The three maps agree with each other and with the server, whose remaining entries are the gateway's own. */
  ghost predicate Consistent<T>(reserved: string -> bool, own: set<string>, r: Registry<T>) {
    && (forall u, n :: u in r.sets ==> (n in r.sets[u] <==> n in r.owner && r.owner[n] == u))
    && (forall n :: n in r.owner ==> r.owner[n] in r.sets)
    && (forall n :: n in r.payload <==> n in r.owner)
    && (forall n :: n in r.server <==> n in r.owner || n in own)
    && (forall n :: n in r.owner ==>
          r.server[n].Proxied? && r.server[n].def == r.payload[n] && r.server[n].upstream == r.owner[n])
    && (forall n :: n in own ==> reserved(n) && r.server[n] == Own)
    && (forall n :: n in r.owner ==> !reserved(n))
  }

  // ----- the gateway

  class Gateway<R, T> {
    const env: Env<R, T>
    var owner: map<string, string>
    var sets: map<string, set<string>>
    var payload: map<string, T>
    var server: map<string, Exposed<T>>

    ghost function View(): Registry<T>
      reads this
    {
      Registry(owner, sets, payload, server)
    }

    ghost predicate Valid(own: set<string>)
      reads this
    {
      Consistent(env.reserved, own, View())
    }

    constructor (env: Env<R, T>, own: set<string>)
      requires forall n :: n in own ==> env.reserved(n)
      ensures this.env == env && Valid(own)
      ensures View() == Registry(map[], map[], map[], map n | n in own :: Own)
    {
      this.env := env;
      owner, sets, payload, server := map[], map[], map[], map n | n in own :: Own;
    }

    method EnsureUpstream(up: string)
      modifies this`sets
      ensures OthersKept(old(sets), up, sets) && sets[up] == if up in old(sets) then old(sets)[up] else {}
    {
      if up !in sets {
        sets := sets[up := {}];
      }
    }

    /** The loop that filters and prefixes a raw listing. */
    method Collect(cfg: UpstreamCfg, items: seq<RawItem<R>>) returns (l: map<string, Listed<T>>)
      ensures l == Listing(env, cfg, items)
    {
      l := map[];
      for i := 0 to |items|
        invariant l == Listing(env, cfg, items[..i])
      {
        assert items[..i + 1][..i] == items[..i];
        var it := items[i];
        if Allowed(env.glob, cfg, it.name) {
          var final := NamespaceName(cfg.prefix, it.name);
          if !env.reserved(final) {
            l := l[final := Listed(it.name, env.finalize(cfg, final, it.def))];
          }
        }
      }
      assert items[..|items|] == items;
    }

    // The generic algorithm.

    /** What changes hands if `up` now lists `l`: removals, additions or changes, and collisions. */
    method Diff(up: string, l: map<string, Listed<T>>)
      returns (toRemove: seq<string>, toAdd: seq<string>, collisions: seq<Collision>)
      requires owner.Keys <= payload.Keys
      modifies this`sets
      ensures OthersKept(old(sets), up, sets) && sets[up] == if up in old(sets) then old(sets)[up] else {}
      ensures Distinct(toRemove) && forall n :: n in toRemove <==> Stale(old(View()), up, l, n)
      ensures Distinct(toAdd) && forall n :: n in toAdd <==> Gained(env.equal, old(View()), up, l, n)
      ensures Reports(old(View()), up, l, collisions)
    {
      EnsureUpstream(up);
      ghost var v := old(View());
      toRemove := [];
      var prev := sets[up];
      while prev != {}
        invariant prev <= sets[up]
        invariant Distinct(toRemove) && forall n :: n in toRemove <==> n in sets[up] && n !in prev && n !in l
        decreases |prev|
      {
        var name :| name in prev;
        if name !in l {
          toRemove := toRemove + [name];
        }
        prev := prev - {name};
      }
      toAdd, collisions := DiffListed(up, l);
    }

    method DiffListed(up: string, l: map<string, Listed<T>>) returns (toAdd: seq<string>, collisions: seq<Collision>)
      requires owner.Keys <= payload.Keys
      ensures Distinct(toAdd) && forall n :: n in toAdd <==> Gained(env.equal, View(), up, l, n)
      ensures Reports(View(), up, l, collisions)
    {
      toAdd, collisions := [], [];
      var rest := l.Keys;
      while rest != {}
        invariant rest <= l.Keys
        invariant Distinct(toAdd) && forall n :: n in toAdd <==> n !in rest && Gained(env.equal, View(), up, l, n)
        invariant Distinct(collisions)
        invariant forall c :: c in collisions <==> c.resultName !in rest && Collides(View(), up, l, c)
        decreases |rest|
      {
        var name :| name in rest;
        if name in owner && owner[name] != up {
          collisions := collisions + [Collision(owner[name], l[name].raw, name)];
        } else if name in owner && owner[name] == up {
          if !env.equal(payload[name], l[name].def) {
            toAdd := toAdd + [name];
          }
        } else {
          toAdd := toAdd + [name];
        }
        rest := rest - {name};
      }
    }

    /** Removes, adds, and rebuilds the set of `up` from the names it ended up owning. */
    method Apply(up: string, toRemove: seq<string>, toAdd: map<string, T>, newSet: set<string>)
      modifies this`owner, this`payload, this`sets
      ensures forall n :: Look(owner, n) ==
                if n in toAdd then Some(up) else if n in toRemove then None else Look(old(owner), n)
      ensures forall n :: Look(payload, n) ==
                if n in toAdd then Some(toAdd[n]) else if n in toRemove then None else Look(old(payload), n)
      ensures OthersKept(old(sets), up, sets) && forall n :: n in sets[up] <==>
              n in newSet && n in owner && owner[n] == up
    {
      EnsureUpstream(up);
      for i := 0 to |toRemove|
        invariant forall n :: Look(owner, n) == if n in toRemove[..i] then None else Look(old(owner), n)
        invariant forall n :: Look(payload, n) == if n in toRemove[..i] then None else Look(old(payload), n)
        invariant OthersKept(old(sets), up, sets)
      {
        assert toRemove[..i + 1] == toRemove[..i] + [toRemove[i]];
        owner := owner - {toRemove[i]};
        payload := payload - {toRemove[i]};
        sets := sets[up := sets[up] - {toRemove[i]}];
      }
      assert toRemove[..|toRemove|] == toRemove;
      AddAll(up, toAdd);
      sets := sets[up := set n | n in newSet && n in owner && owner[n] == up];
    }

    method AddAll(up: string, toAdd: map<string, T>)
      modifies this`owner, this`payload
      ensures forall n :: Look(owner, n) == if n in toAdd then Some(up) else Look(old(owner), n)
      ensures forall n :: Look(payload, n) == if n in toAdd then Some(toAdd[n]) else Look(old(payload), n)
    {
      var rest := toAdd.Keys;
      while rest != {}
        invariant rest <= toAdd.Keys
        invariant forall n :: Look(owner, n) == if n in toAdd && n !in rest then Some(up) else Look(old(owner), n)
        invariant forall n :: Look(payload, n) == if n in toAdd && n !in rest then Some(toAdd[n])
            else Look(old(payload), n)
        decreases |rest|
      {
        var name :| name in rest;
        owner := owner[name := up];
        payload := payload[name := toAdd[name]];
        rest := rest - {name};
      }
    }

    /** The server side of a generic sync, and the payloads that apply installs. */
    method ExposeDiff(up: string, l: map<string, Listed<T>>, toRemove: seq<string>, toAdd: seq<string>)
      returns (payloads: map<string, T>)
      requires forall n :: n in toAdd ==> n in l
      modifies this`server
      ensures forall n :: Look(payloads, n) == if n in toAdd then Some(l[n].def) else None
      ensures forall n :: Look(server, n) ==
                if n in toAdd then Some(Proxied(l[n].def, up, l[n].raw))
                else if n in toRemove then None else Look(old(server), n)
    {
      for i := 0 to |toRemove|
        invariant forall n :: Look(server, n) == if n in toRemove[..i] then None else Look(old(server), n)
      {
        assert toRemove[..i + 1] == toRemove[..i] + [toRemove[i]];
        server := server - {toRemove[i]};
      }
      assert toRemove[..|toRemove|] == toRemove;
      payloads := map[];
      for i := 0 to |toAdd|
        invariant forall n :: Look(payloads, n) == if n in toAdd[..i] then Some(l[n].def) else None
        invariant forall n :: Look(server, n) ==
                    if n in toAdd[..i] then Some(Proxied(l[n].def, up, l[n].raw))
                    else if n in toRemove then None else Look(old(server), n)
      {
        assert toAdd[..i + 1] == toAdd[..i] + [toAdd[i]];
        var name := toAdd[i];
        server := server[name := Proxied(l[name].def, up, l[name].raw)];
        payloads := payloads[name := l[name].def];
      }
      assert toAdd[..|toAdd|] == toAdd;
    }

    /** The generic sync to any listing: diff, update the server, apply. */
    method SyncListing(up: string, l: map<string, Listed<T>>, ghost own: set<string>)
      returns (removed: seq<string>, collisions: seq<Collision>)
      requires Valid(own)
      modifies this
      ensures Synced(env.equal, old(View()), up, l, View())
      ensures forall n :: n in removed <==> Stale(old(View()), up, l, n)
      ensures Reports(old(View()), up, l, collisions)
    {
      ghost var v := View();
      EnsureUpstream(up);
      var toRemove, toAdd;
      SetsMatter(env.equal, v, View(), up, l);
      toRemove, toAdd, collisions := Diff(up, l);
      removed := toRemove;
      InstallDiff(up, l, toRemove, toAdd, v, own);
    }

    /** registerUpstreamPrompts and its siblings: every item is listed, whatever the allow and deny lists say. */
    method RegisterFeatures(cfg: UpstreamCfg, items: seq<RawItem<R>>, ghost own: set<string>)
      returns (removed: seq<string>, collisions: seq<Collision>)
      requires Valid(own)
      modifies this
      ensures var l := Unfiltered(env, cfg, items);
              && Synced(env.equal, old(View()), cfg.name, l, View())
              && (forall n :: n in removed <==> Stale(old(View()), cfg.name, l, n))
              && Reports(old(View()), cfg.name, l, collisions)
    {
      var l: map<string, Listed<T>> := map[];
      for i := 0 to |items|
        invariant l == Unfiltered(env, cfg, items[..i]) && View() == old(View())
      {
        assert items[..i + 1][..i] == items[..i];
        var final := NamespaceName(cfg.prefix, items[i].name);
        l := l[final := Listed(items[i].name, env.finalize(cfg, final, items[i].def))];
      }
      assert items[..|items|] == items;
      removed, collisions := SyncListing(cfg.name, l, own);
    }

    /** The server and the registry take over the outcome of a diff. */
    method InstallDiff(up: string, l: map<string, Listed<T>>, toRemove: seq<string>, toAdd: seq<string>,
                       ghost v: Registry<T>, ghost own: set<string>)
      requires Consistent(env.reserved, own, v)
      requires owner == v.owner && payload == v.payload && server == v.server && OthersKept(v.sets, up, sets)
      requires forall n :: n in toRemove <==> Stale(v, up, l, n)
      requires forall n :: n in toAdd <==> Gained(env.equal, v, up, l, n)
      modifies this
      ensures Synced(env.equal, v, up, l, View())
    {
      var payloads := ExposeDiff(up, l, toRemove, toAdd);
      Apply(up, toRemove, payloads, l.Keys);
      GenericIsSync(env.equal, env.reserved, own, v, up, l, toRemove, toAdd, payloads, View());
    }

    // The hand-written algorithm.

    /** registerUpstreamTools: the same sync in one pass over the listing. */
    method RegisterTools(cfg: UpstreamCfg, items: seq<RawItem<R>>, ghost own: set<string>)
      returns (removed: seq<string>, collisions: seq<Collision>)
      requires Valid(own)
      modifies this
      ensures Synced(env.equal, old(View()), cfg.name, Listing(env, cfg, items), View())
      ensures forall n :: n in removed <==> Stale(old(View()), cfg.name, Listing(env, cfg, items), n)
      ensures Reports(old(View()), cfg.name, Listing(env, cfg, items), collisions)
    {
      ghost var v := View();
      var l := Collect(cfg, items);
      removed := DropStale(cfg.name, l, own);
      collisions := ClaimAndRecord(cfg.name, l, v);
    }

    /** detachUpstream: sync the upstream against nothing, then forget its set. */
    method DetachTools(cfg: UpstreamCfg, ghost own: set<string>)
      requires Valid(own)
      modifies this
      ensures exists mid: Registry<T> ::
                Synced(env.equal, old(View()), cfg.name, map[], mid) && View() == mid.(sets := mid.sets - {cfg.name})
    {
      var _, _ := RegisterTools(cfg, [], own);
      ghost var mid := View();
      sets := sets - {cfg.name};
      assert View() == mid.(sets := mid.sets - {cfg.name});
    }

    /** The first half of the sync: the names `up` no longer lists are gone. */
    method DropStale(up: string, l: map<string, Listed<T>>, ghost own: set<string>) returns (removed: seq<string>)
      requires Valid(own)
      modifies this
      ensures Partial(env.equal, old(View()), up, l, l.Keys, View()) && OthersKept(old(sets), up, sets)
      ensures forall n :: n in removed <==> Stale(old(View()), up, l, n)
    {
      ghost var v := View();
      EnsureUpstream(up);
      ghost var w := View();
      SetsMatter(env.equal, v, w, up, l);
      removed := RemoveStale(up, l);
      StaleRemoved(env.equal, env.reserved, own, v, w, up, l, View());
    }

    /** The second half: the listed names are claimed or reported, and the set of `up` is rebuilt. */
    method ClaimAndRecord(up: string, l: map<string, Listed<T>>, ghost v: Registry<T>)
      returns (collisions: seq<Collision>)
      requires v.owner.Keys <= v.payload.Keys
      requires Partial(env.equal, v, up, l, l.Keys, View()) && OthersKept(v.sets, up, sets)
      modifies this
      ensures Synced(env.equal, v, up, l, View())
      ensures Reports(v, up, l, collisions)
    {
      collisions := ClaimListed(up, l, v);
      sets := sets[up := set n | n in l.Keys && n in owner && owner[n] == up];
      PartialDone(env.equal, v, up, l, View());
    }

    method RemoveStale(up: string, l: map<string, Listed<T>>) returns (removed: seq<string>)
      requires up in sets
      modifies this
      ensures forall n :: n in removed <==> Stale(old(View()), up, l, n)
      ensures WithoutStale(old(View()), up, l, View())
      ensures OthersKept(old(sets), up, sets)
    {
      removed := [];
      ghost var v := View();
      ghost var gone: set<string> := {};
      var prev := sets[up];
      while prev != {}
        invariant prev <= v.sets[up]
        invariant forall n :: n in gone <==> n in v.sets[up] && n !in prev && n !in l
        invariant forall n :: n in removed <==> n in gone
        invariant Without(v, gone, View())
        invariant OthersKept(v.sets, up, sets)
        decreases |prev|
      {
        var name :| name in prev;
        prev := prev - {name};
        if name !in l {
          ghost var r := View();
          server := server - {name};
          owner := owner - {name};
          payload := payload - {name};
          sets := sets[up := sets[up] - {name}];
          removed := removed + [name];
          WithoutOneMore(v, gone, r, name, View());
          gone := gone + {name};
        }
      }
    }

    /** The pass over the listing, in any order: each name is claimed, kept, or reported. */
    method ClaimListed(up: string, l: map<string, Listed<T>>, ghost v: Registry<T>) returns (collisions: seq<Collision>)
      requires v.owner.Keys <= v.payload.Keys
      requires Partial(env.equal, v, up, l, l.Keys, View()) && up in sets
      modifies this
      ensures Partial(env.equal, v, up, l, {}, View()) && OthersKept(old(sets), up, sets)
      ensures Reports(v, up, l, collisions)
    {
      collisions := [];
      var rest := l.Keys;
      while rest != {}
        invariant rest <= l.Keys
        invariant OthersKept(old(sets), up, sets)
        invariant Partial(env.equal, v, up, l, rest, View())
        invariant ReportsSoFar(v, up, l, rest, collisions)
        decreases |rest|
      {
        var name :| name in rest;
        PartialAt(env.equal, v, up, l, rest, View(), name);
        ghost var before := View();
        var c := ClaimOne(up, name, l[name]);
        PartialStep(env.equal, v, up, l, rest, name, before, View());
        ReportsOneMore(v, up, l, rest, name, collisions);
        if c.Some? {
          collisions := collisions + [c.value];
        }
        rest := rest - {name};
      }
    }

    /** One iteration over the listing: report another owner, or register and remember the name. */
    method ClaimOne(up: string, name: string, it: Listed<T>) returns (c: Option<Collision>)
      requires name in owner ==> name in payload
      requires up in sets
      modifies this
      ensures OthersKept(old(sets), up, sets)
      ensures c == if name in old(owner) && old(owner)[name] != up then Some(Collision(old(owner)[name], it.raw, name))
              else None
      ensures if c.Some? || (name in old(owner) && env.equal(old(payload)[name], it.def))
              then owner == old(owner) && payload == old(payload) && server == old(server)
              else owner == old(owner)[name := up] && payload == old(payload)[name := it.def]
                   && server == old(server)[name := Proxied(it.def, up, it.raw)]
    {
      if name in owner && owner[name] != up {
        return Some(Collision(owner[name], it.raw, name));
      }
      if name !in owner || !env.equal(payload[name], it.def) {
        server := server[name := Proxied(it.def, up, it.raw)];
        owner := owner[name := up];
        payload := payload[name := it.def];
      }
      sets := sets[up := sets[up] + {name}];
      return None;
    }
  }

  /** `r` is the sync of `v` except that the names in `rest` are still as they were. */
  ghost predicate Partial<T>(equal: (T, T) -> bool, v: Registry<T>, up: string, l: map<string, Listed<T>>,
                             rest: set<string>, r: Registry<T>)
  {
    && (forall n :: Look(r.owner, n) == if n in rest then Look(v.owner, n) else OwnerAt(v, up, l, n))
    && (forall n :: Look(r.payload, n) == if n in rest then Look(v.payload, n) else PayloadAt(equal, v, up, l, n))
    && (forall n :: Look(r.server, n) == if n in rest then Look(v.server, n) else ServerAt(equal, v, up, l, n))
  }

  lemma PartialAt<T>(equal: (T, T) -> bool, v: Registry<T>, up: string, l: map<string, Listed<T>>,
                     rest: set<string>, r: Registry<T>, n: string)
    requires Partial(equal, v, up, l, rest, r) && n in rest
    ensures Look(r.owner, n) == Look(v.owner, n)
    ensures Look(r.payload, n) == Look(v.payload, n)
    ensures Look(r.server, n) == Look(v.server, n)
  {}

  lemma PartialStep<T>(equal: (T, T) -> bool, v: Registry<T>, up: string, l: map<string, Listed<T>>,
                       rest: set<string>, name: string, r: Registry<T>, r': Registry<T>)
    requires v.owner.Keys <= v.payload.Keys && rest <= l.Keys && name in rest
    requires Partial(equal, v, up, l, rest, r)
    requires if Foreign(r, up, name) || Unchanged(equal, r, up, l, name)
             then r'.owner == r.owner && r'.payload == r.payload && r'.server == r.server
             else r'.owner == r.owner[name := up] && r'.payload == r.payload[name := l[name].def]
                  && r'.server == r.server[name := Proxied(l[name].def, up, l[name].raw)]
    ensures Partial(equal, v, up, l, rest - {name}, r')
  {
    PartialAt(equal, v, up, l, rest, r, name);
    forall n
      ensures Look(r'.owner, n) == if n in rest - {name} then Look(v.owner, n) else OwnerAt(v, up, l, n)
      ensures Look(r'.payload, n) == if n in rest - {name} then Look(v.payload, n) else PayloadAt(equal, v, up, l, n)
      ensures Look(r'.server, n) == if n in rest - {name} then Look(v.server, n) else ServerAt(equal, v, up, l, n)
    {
      assert n != name ==> Look(r'.owner, n) == Look(r.owner, n)
                           && Look(r'.payload, n) == Look(r.payload, n) && Look(r'.server, n) == Look(r.server, n);
    }
  }

  ghost predicate Without<T>(v: Registry<T>, gone: set<string>, r: Registry<T>) {
    && (forall n :: Look(r.owner, n) == if n in gone then None else Look(v.owner, n))
    && (forall n :: Look(r.payload, n) == if n in gone then None else Look(v.payload, n))
    && (forall n :: Look(r.server, n) == if n in gone then None else Look(v.server, n))
  }

  lemma WithoutOneMore<T>(v: Registry<T>, gone: set<string>, r: Registry<T>, name: string, r': Registry<T>)
    requires Without(v, gone, r)
    requires r'.owner == r.owner - {name} && r'.payload == r.payload - {name} && r'.server == r.server - {name}
    ensures Without(v, gone + {name}, r')
  {
    forall n
      ensures Look(r'.owner, n) == if n == name then None else Look(r.owner, n)
      ensures Look(r'.payload, n) == if n == name then None else Look(r.payload, n)
      ensures Look(r'.server, n) == if n == name then None else Look(r.server, n)
    {}
  }

  /** `r` is `v` without the names `up` no longer lists. */
  ghost predicate WithoutStale<T>(v: Registry<T>, up: string, l: map<string, Listed<T>>, r: Registry<T>) {
    && (forall n :: Look(r.owner, n) == if Stale(v, up, l, n) then None else Look(v.owner, n))
    && (forall n :: Look(r.payload, n) == if Stale(v, up, l, n) then None else Look(v.payload, n))
    && (forall n :: Look(r.server, n) == if Stale(v, up, l, n) then None else Look(v.server, n))
  }

  /** Dropping the stale names leaves only the listed ones to be dealt with. */
  lemma StaleRemoved<T>(equal: (T, T) -> bool, reserved: string -> bool, own: set<string>,
                        v: Registry<T>, w: Registry<T>, up: string, l: map<string, Listed<T>>, r: Registry<T>)
    requires Consistent(reserved, own, v)
    requires w.owner == v.owner && w.payload == v.payload && w.server == v.server
    requires forall n :: Stale(w, up, l, n) <==> Stale(v, up, l, n)
    requires WithoutStale(w, up, l, r)
    ensures Partial(equal, v, up, l, l.Keys, r)
  {
    forall n
      ensures Look(r.owner, n) == if n in l.Keys then Look(v.owner, n) else OwnerAt(v, up, l, n)
      ensures Look(r.payload, n) == if n in l.Keys then Look(v.payload, n) else PayloadAt(equal, v, up, l, n)
      ensures Look(r.server, n) == if n in l.Keys then Look(v.server, n) else ServerAt(equal, v, up, l, n)
    {
      StaleIs(reserved, own, v, up, l, n);
      StaleRemovedAt(equal, v, w, up, l, r, n);
    }
  }

  lemma StaleIs<T>(reserved: string -> bool, own: set<string>, v: Registry<T>, up: string, l: map<string, Listed<T>>,
                   n: string)
    requires Consistent(reserved, own, v)
    ensures Stale(v, up, l, n) <==> n !in l && n in v.owner && v.owner[n] == up
    ensures n in v.server && n !in v.owner ==> v.server[n] == Own
    ensures n !in v.owner ==> n !in v.payload
  {}

  lemma StaleRemovedAt<T>(equal: (T, T) -> bool, v: Registry<T>, w: Registry<T>, up: string, l: map<string, Listed<T>>,
                          r: Registry<T>, n: string)
    requires w.owner == v.owner && w.payload == v.payload && w.server == v.server
    requires (Stale(w, up, l, n) <==> n !in l && n in v.owner && v.owner[n] == up)
    requires n !in v.owner ==> n !in v.payload
    requires WithoutStale(w, up, l, r)
    ensures Look(r.owner, n) == if n in l.Keys then Look(v.owner, n) else OwnerAt(v, up, l, n)
    ensures Look(r.payload, n) == if n in l.Keys then Look(v.payload, n) else PayloadAt(equal, v, up, l, n)
    ensures Look(r.server, n) == if n in l.Keys then Look(v.server, n) else ServerAt(equal, v, up, l, n)
  {}

  lemma PartialDone<T>(equal: (T, T) -> bool, v: Registry<T>, up: string, l: map<string, Listed<T>>, r: Registry<T>)
    requires Partial(equal, v, up, l, {}, r)
    requires OthersKept(v.sets, up, r.sets) && forall n :: n in r.sets[up] <==>
            n in l && n in r.owner && r.owner[n] == up
    ensures Synced(equal, v, up, l, r)
  {
    forall n | n in r.owner && r.owner[n] == up ensures n in l {
      assert Look(r.owner, n) == OwnerAt(v, up, l, n);
    }
  }

  /** Adding an empty set for `up` does not change what a sync of `up` removes, adds or reports. */
  lemma SetsMatter<T>(equal: (T, T) -> bool, v: Registry<T>, w: Registry<T>, up: string, l: map<string, Listed<T>>)
    requires w.owner == v.owner && w.payload == v.payload
    requires OthersKept(v.sets, up, w.sets) && w.sets[up] == if up in v.sets then v.sets[up] else {}
    ensures forall n :: Stale(w, up, l, n) <==> Stale(v, up, l, n)
    ensures forall n :: Gained(equal, w, up, l, n) <==> Gained(equal, v, up, l, n)
    ensures forall c :: Collides(w, up, l, c) <==> Collides(v, up, l, c)
  {}

  /** Diff then apply computes the sync. */
  lemma GenericIsSync<T>(equal: (T, T) -> bool, reserved: string -> bool, own: set<string>,
                         v: Registry<T>, up: string, l: map<string, Listed<T>>,
                         toRemove: seq<string>, toAdd: seq<string>, payloads: map<string, T>, w: Registry<T>)
    requires Consistent(reserved, own, v)
    requires forall n :: n in toRemove <==> Stale(v, up, l, n)
    requires forall n :: n in toAdd <==> Gained(equal, v, up, l, n)
    requires forall n :: n in toAdd ==> n in l
    requires forall n :: Look(payloads, n) == if n in toAdd then Some(l[n].def) else None
    requires forall n :: Look(w.owner, n) ==
               if n in payloads then Some(up) else if n in toRemove then None else Look(v.owner, n)
    requires forall n :: Look(w.payload, n) ==
               if n in payloads then Some(payloads[n]) else if n in toRemove then None else Look(v.payload, n)
    requires forall n :: Look(w.server, n) ==
               if n in toAdd then Some(Proxied(l[n].def, up, l[n].raw))
               else if n in toRemove then None else Look(v.server, n)
    requires OthersKept(v.sets, up, w.sets) && forall n :: n in w.sets[up] <==>
            n in l && n in w.owner && w.owner[n] == up
    ensures Synced(equal, v, up, l, w)
  {
    forall n
      ensures Look(w.owner, n) == OwnerAt(v, up, l, n)
      ensures Look(w.payload, n) == PayloadAt(equal, v, up, l, n)
      ensures Look(w.server, n) == ServerAt(equal, v, up, l, n)
    {
      assert Look(payloads, n) == if n in toAdd then Some(l[n].def) else None;
      assert n in toAdd <==> Gained(equal, v, up, l, n);
      assert n in toRemove <==> Stale(v, up, l, n);
    }
    forall n | n in w.owner && w.owner[n] == up ensures n in l {
      assert Look(w.owner, n) == OwnerAt(v, up, l, n);
    }
  }

  // ----- listings

  /** Item `i` is the last one listed under the final name `n`. */
  ghost predicate LastFor<R, T>(env: Env<R, T>, cfg: UpstreamCfg, items: seq<RawItem<R>>, n: string, i: nat) {
    && i < |items| && Eligible(env, cfg, items[i]) && NamespaceName(cfg.prefix, items[i].name) == n
    && forall j :: i < j < |items| && Eligible(env, cfg, items[j]) ==> NamespaceName(cfg.prefix, items[j].name) != n
  }

  /** Item `j` is eligible and ends up under `n`. */
  predicate Yields<R, T>(env: Env<R, T>, cfg: UpstreamCfg, it: RawItem<R>, n: string) {
    Eligible(env, cfg, it) && NamespaceName(cfg.prefix, it.name) == n
  }

  /** The last item that ends up under a listed name. */
  lemma {:induction false} LastYielding<R, T>(env: Env<R, T>, cfg: UpstreamCfg, items: seq<RawItem<R>>, n: string)
    returns (i: nat)
    requires n in Listing(env, cfg, items)
    ensures LastFor(env, cfg, items, n, i)
    ensures Listing(env, cfg, items)[n] == Listed(items[i].name, env.finalize(cfg, n, items[i].def))
    decreases |items|
  {
    var k := |items| - 1;
    if Yields(env, cfg, items[k], n) {
      i := k;
    } else {
      i := LastYielding(env, cfg, items[..k], n);
    }
  }

  lemma {:induction false} YieldedIsListed<R, T>(env: Env<R, T>, cfg: UpstreamCfg, items: seq<RawItem<R>>, n: string,
                                          j: nat)
    requires j < |items| && Yields(env, cfg, items[j], n)
    ensures n in Listing(env, cfg, items)
    decreases |items|
  {
    if j < |items| - 1 {
      YieldedIsListed(env, cfg, items[..|items| - 1], n, j);
    }
  }

  /** A final name is listed exactly when some eligible item has it, and the last such item defines it. */
  lemma ListingIsLast<R, T>(env: Env<R, T>, cfg: UpstreamCfg, items: seq<RawItem<R>>, n: string)
    ensures n in Listing(env, cfg, items) <==> exists j :: 0 <= j < |items| && Yields(env, cfg, items[j], n)
    ensures n in Listing(env, cfg, items) ==>
            exists i: nat :: LastFor(env, cfg, items, n, i)
                   && Listing(env, cfg, items)[n] == Listed(items[i].name, env.finalize(cfg, n, items[i].def))
  {
    if n in Listing(env, cfg, items) {
      var i := LastYielding(env, cfg, items, n);
      assert Yields(env, cfg, items[i], n);
    }
    if j: nat :| j < |items| && Yields(env, cfg, items[j], n) {
      YieldedIsListed(env, cfg, items, n, j);
    }
  }

  /** A name is listed exactly when some item with that name behind the prefix matches no deny pattern and, if there
      are allow patterns, one of them, and the name is not reserved. */
  lemma ListedIff<R, T>(env: Env<R, T>, cfg: UpstreamCfg, items: seq<RawItem<R>>, n: string)
    ensures n in Listing(env, cfg, items) <==>
            !env.reserved(n) && exists j :: 0 <= j < |items| && Passes(env, cfg, items[j].name, n)
  {
    ListingIsLast(env, cfg, items, n);
    if n in Listing(env, cfg, items) {
      var j :| 0 <= j < |items| && Yields(env, cfg, items[j], n);
      assert Passes(env, cfg, items[j].name, n);
    }
    if j :| 0 <= j < |items| && !env.reserved(n) && Passes(env, cfg, items[j].name, n) {
      assert NamespaceName(cfg.prefix, items[j].name) == n;
      assert Yields(env, cfg, items[j], n);
    }
  }

  /** The filter in terms of the patterns, and the final name in terms of the prefix. */
  ghost predicate Passes<R, T>(env: Env<R, T>, cfg: UpstreamCfg, raw: string, n: string) {
    && n == cfg.prefix + raw
    && (forall i :: 0 <= i < |cfg.deny| ==> !env.glob(cfg.deny[i], raw))
    && (cfg.allow == [] || exists i :: 0 <= i < |cfg.allow| && env.glob(cfg.allow[i], raw))
  }

  /** In particular a denied tool is neither listed nor, after a sync, owned or exposed for its upstream. */
  lemma DeniedIsHidden<R, T(!new)>(env: Env<R, T>, s: Live<T>, up: string, items: seq<RawItem<R>>, t: Live<T>,
                                   raw: string)
    requires Next(env, s, Relist(up, items), t)
    requires exists i :: 0 <= i < |s.cfgs[up].deny| && env.glob(s.cfgs[up].deny[i], raw)
    ensures s.cfgs[up].prefix + raw !in Listing(env, s.cfgs[up], items)
    ensures Look(t.reg.owner, s.cfgs[up].prefix + raw) != Some(up)
  {
    var cfg, n := s.cfgs[up], s.cfgs[up].prefix + raw;
    ListedIff(env, cfg, items, n);
    forall j | 0 <= j < |items| ensures !Passes(env, cfg, items[j].name, n) {
      SameRest(cfg.prefix, items[j].name, raw);
    }
    SyncFrees(env, s, up, items, t, n);
  }

  lemma SameRest(prefix: string, a: string, b: string)
    ensures prefix + a == prefix + b ==> a == b
  {
    assert (prefix + a)[|prefix|..] == a && (prefix + b)[|prefix|..] == b;
  }

  /** What a sync does at a listed name that no other upstream owns: an equal registration stays untouched, anything
      else is replaced by the listed definition, exposed under its raw name. */
  lemma SyncAtListed<R, T(!new)>(env: Env<R, T>, s: Live<T>, up: string, items: seq<RawItem<R>>, t: Live<T>, n: string)
    requires Next(env, s, Relist(up, items), t) && n in Listing(env, s.cfgs[up], items)
    requires n in s.reg.owner ==> s.reg.owner[n] == up
    ensures
      var l := Listing(env, s.cfgs[up], items);
      if n in s.reg.owner && n in s.reg.payload && env.equal(s.reg.payload[n], l[n].def)
      then Look(t.reg.payload, n) == Look(s.reg.payload, n) && Look(t.reg.server, n) == Look(s.reg.server, n)
      else Look(t.reg.payload, n) == Some(l[n].def) && Look(t.reg.server, n) == Some(Proxied(l[n].def, up, l[n].raw))
  {
    SyncedAt(env.equal, s.reg, up, Listing(env, s.cfgs[up], items), t.reg, n);
  }

  /** With nothing denied and nothing reserved the two listings are one. */
  lemma {:induction false} UnfilteredIsListing<R, T>(env: Env<R, T>, cfg: UpstreamCfg, items: seq<RawItem<R>>)
    requires cfg.allow == [] && cfg.deny == [] && forall n :: !env.reserved(n)
    ensures Unfiltered(env, cfg, items) == Listing(env, cfg, items)
    decreases |items|
  {
    if items != [] {
      UnfilteredIsListing(env, cfg, items[..|items| - 1]);
    }
  }

  lemma ListingNames<R, T>(env: Env<R, T>, cfg: UpstreamCfg, items: seq<RawItem<R>>)
    ensures var l := Listing(env, cfg, items);
            forall n :: n in l ==>
              !env.reserved(n) && NamespaceName(cfg.prefix, l[n].raw) == n && Allowed(env.glob, cfg, l[n].raw)
  {
    var l := Listing(env, cfg, items);
    forall n | n in l
      ensures !env.reserved(n) && NamespaceName(cfg.prefix, l[n].raw) == n && Allowed(env.glob, cfg, l[n].raw)
    {
      var i := LastYielding(env, cfg, items, n);
    }
  }

  // ----- runs

  /** The attached upstreams and the registry they share. */
  datatype Live<T> = Live(cfgs: map<string, UpstreamCfg>, reg: Registry<T>)

  datatype Op<R> = Attach(cfg: UpstreamCfg) | Relist(up: string, items: seq<RawItem<R>>) | Detach(up: string)

  /** One reload attach, one list-changed sync, or one detach. Detaching syncs against nothing and forgets the set. */
  ghost predicate Next<R, T(!new)>(env: Env<R, T>, s: Live<T>, op: Op<R>, t: Live<T>) {
    match op
    case Attach(cfg) => cfg.name !in s.cfgs && t == Live(s.cfgs[cfg.name := cfg], s.reg)
    case Relist(up, items) =>
      up in s.cfgs && t.cfgs == s.cfgs && Synced(env.equal, s.reg, up, Listing(env, s.cfgs[up], items), t.reg)
    case Detach(up) =>
      && up in s.cfgs && t.cfgs == s.cfgs - {up}
      && exists mid: Registry<T> :: Synced(env.equal, s.reg, up, map[], mid) && t.reg == mid.(sets := mid.sets - {up})
  }

  ghost predicate Run<R, T(!new)>(env: Env<R, T>, tr: seq<Live<T>>, ops: seq<Op<R>>) {
    |tr| == |ops| + 1 && forall i {:trigger StepAt(env, tr, ops, i)} :: 0 <= i < |ops| ==> StepAt(env, tr, ops, i)
  }

  ghost predicate StepAt<R, T(!new)>(env: Env<R, T>, tr: seq<Live<T>>, ops: seq<Op<R>>, i: nat)
    requires i < |ops| && i + 1 < |tr|
  {
    Next(env, tr[i], ops[i], tr[i + 1])
  }

  lemma StepOf<R, T(!new)>(env: Env<R, T>, tr: seq<Live<T>>, ops: seq<Op<R>>, i: nat)
    requires Run(env, tr, ops) && i < |ops|
    ensures Next(env, tr[i], ops[i], tr[i + 1])
  {
    assert StepAt(env, tr, ops, i);
  }

  /** Every exposed proxy leads to the attached upstream that owns the name, under the raw name behind it. */
  ghost predicate Routed<T>(glob: (string, string) -> bool, s: Live<T>) {
    forall n :: n in s.reg.owner && n in s.reg.server && s.reg.server[n].Proxied? ==>
      && s.reg.owner[n] in s.cfgs
      && s.cfgs[s.reg.owner[n]].name == s.reg.owner[n]
      && NamespaceName(s.cfgs[s.reg.owner[n]].prefix, s.reg.server[n].raw) == n
      && Allowed(glob, s.cfgs[s.reg.owner[n]], s.reg.server[n].raw)
  }

  ghost predicate LiveInv<R, T>(env: Env<R, T>, own: set<string>, s: Live<T>) {
    && Consistent(env.reserved, own, s.reg)
    && (forall u :: u in s.cfgs ==> s.cfgs[u].name == u)
    && Routed(env.glob, s)
  }

  /** A sync keeps the maps consistent, for every listing without reserved names. */
  lemma SyncKeepsConsistent<T>(equal: (T, T) -> bool, reserved: string -> bool, own: set<string>,
                               r: Registry<T>, up: string, l: map<string, Listed<T>>, r': Registry<T>)
    requires Consistent(reserved, own, r) && Synced(equal, r, up, l, r')
    requires forall n :: n in l ==> !reserved(n)
    ensures Consistent(reserved, own, r')
  {
    forall n
      ensures n in r'.payload <==> n in r'.owner
      ensures n in r'.server <==> n in r'.owner || n in own
      ensures n in r'.owner ==> r'.owner[n] in r'.sets && !reserved(n)
      ensures n in r'.owner ==>
              r'.server[n].Proxied? && r'.server[n].def == r'.payload[n] && r'.server[n].upstream == r'.owner[n]
      ensures n in own ==> reserved(n) && r'.server[n] == Own
    {
      SyncedAt(equal, r, up, l, r', n);
      if Foreign(r, up, n) {
        assert Look(r'.sets, r.owner[n]) == Look(r.sets, r.owner[n]);
      }
    }
    forall u, n | u in r'.sets ensures n in r'.sets[u] <==> n in r'.owner && r'.owner[n] == u {
      SyncedAt(equal, r, up, l, r', n);
      if u != up {
        assert Look(r'.sets, u) == Look(r.sets, u);
      }
    }
  }

  lemma SyncedAt<T>(equal: (T, T) -> bool, r: Registry<T>, up: string, l: map<string, Listed<T>>, r': Registry<T>,
                    n: string)
    requires Synced(equal, r, up, l, r')
    ensures Look(r'.owner, n) == OwnerAt(r, up, l, n)
    ensures Look(r'.payload, n) == PayloadAt(equal, r, up, l, n)
    ensures Look(r'.server, n) == ServerAt(equal, r, up, l, n)
  {}

  lemma RelistKeepsInv<R, T(!new)>(env: Env<R, T>, own: set<string>, s: Live<T>, up: string, items: seq<RawItem<R>>,
                                   t: Live<T>)
    requires LiveInv(env, own, s) && Next(env, s, Relist(up, items), t)
    ensures LiveInv(env, own, t)
  {
    var l := Listing(env, s.cfgs[up], items);
    ListingNames(env, s.cfgs[up], items);
    SyncKeepsConsistent(env.equal, env.reserved, own, s.reg, up, l, t.reg);
    forall n | n in t.reg.owner
      ensures t.reg.owner[n] in t.cfgs
           && NamespaceName(t.cfgs[t.reg.owner[n]].prefix, t.reg.server[n].raw) == n
           && Allowed(env.glob, t.cfgs[t.reg.owner[n]], t.reg.server[n].raw)
    {
      SyncedAt(env.equal, s.reg, up, l, t.reg, n);
    }
  }

  lemma DetachKeepsInv<R, T(!new)>(env: Env<R, T>, own: set<string>, s: Live<T>, up: string, t: Live<T>)
    requires LiveInv(env, own, s) && Next(env, s, Detach(up), t)
    ensures LiveInv(env, own, t)
  {
    var mid: Registry<T> :| Synced(env.equal, s.reg, up, map[], mid) && t.reg == mid.(sets := mid.sets - {up});
    SyncKeepsConsistent(env.equal, env.reserved, own, s.reg, up, map[], mid);
    forall n | n in mid.owner
      ensures mid.owner[n] != up && n in s.reg.owner && mid.owner[n] == s.reg.owner[n]
      ensures mid.server[n] == s.reg.server[n]
    {
      SyncedAt(env.equal, s.reg, up, map[], mid, n);
    }
  }

  lemma StepKeepsInv<R, T(!new)>(env: Env<R, T>, own: set<string>, s: Live<T>, op: Op<R>, t: Live<T>)
    requires LiveInv(env, own, s) && Next(env, s, op, t)
    ensures LiveInv(env, own, t)
  {
    match op
    case Attach(_) =>
    case Relist(up, items) => RelistKeepsInv(env, own, s, up, items, t);
    case Detach(up) => DetachKeepsInv(env, own, s, up, t);
  }

  /** Over any sequence of attaches, syncs and detaches the maps, the server and the raw names agree. */
  lemma {:induction false} RunKeepsInv<R, T(!new)>(env: Env<R, T>, own: set<string>, tr: seq<Live<T>>, ops: seq<Op<R>>,
                                          k: nat)
    requires Run(env, tr, ops) && k < |tr|
    requires LiveInv(env, own, tr[0])
    ensures LiveInv(env, own, tr[k])
  {
    if k > 0 {
      RunKeepsInv(env, own, tr, ops, k - 1);
      StepOf(env, tr, ops, k - 1);
      StepKeepsInv(env, own, tr[k - 1], ops[k - 1], tr[k]);
    }
  }

  /** After a sync each eligible listed name is owned with the last listed definition, or is a collision with its
      true owner. */
  lemma SyncOutcome<R, T(!new)>(env: Env<R, T>, s: Live<T>, up: string, items: seq<RawItem<R>>, t: Live<T>, i: nat)
    requires Next(env, s, Relist(up, items), t)
    requires i < |items| && Eligible(env, s.cfgs[up], items[i])
    requires LastFor(env, s.cfgs[up], items, NamespaceName(s.cfgs[up].prefix, items[i].name), i)
    ensures var n := NamespaceName(s.cfgs[up].prefix, items[i].name);
            var def := env.finalize(s.cfgs[up], n, items[i].def);
            var c := Collision(if n in s.reg.owner then s.reg.owner[n] else "", items[i].name, n);
            if Foreign(s.reg, up, n)
            then Collides(s.reg, up, Listing(env, s.cfgs[up], items), c) && Look(t.reg.owner, n) == Some(c.upstream)
            else n in t.reg.owner && t.reg.owner[n] == up && n in t.reg.payload
                 && (t.reg.payload[n] == def || env.equal(t.reg.payload[n], def))
  {
    var n := NamespaceName(s.cfgs[up].prefix, items[i].name);
    YieldedIsListed(env, s.cfgs[up], items, n, i);
    var k := LastYielding(env, s.cfgs[up], items, n);
    assert k == i;
    SyncedAt(env.equal, s.reg, up, Listing(env, s.cfgs[up], items), t.reg, n);
  }

  /** A sync drops every name its upstream no longer lists, and never takes or frees another upstream's name. */
  lemma SyncFrees<R, T(!new)>(env: Env<R, T>, s: Live<T>, up: string, items: seq<RawItem<R>>, t: Live<T>, n: string)
    requires Next(env, s, Relist(up, items), t)
    ensures Look(t.reg.owner, n) == Some(up) <==> n in Listing(env, s.cfgs[up], items) && !Foreign(s.reg, up, n)
    ensures Foreign(s.reg, up, n) <==> Foreign(t.reg, up, n)
    ensures Foreign(s.reg, up, n) ==> t.reg.owner[n] == s.reg.owner[n] && Look(t.reg.server, n) == Look(s.reg.server, n)
  {
    SyncedAt(env.equal, s.reg, up, Listing(env, s.cfgs[up], items), t.reg, n);
  }

  /** Detaching frees exactly the names the upstream owned; everything else is untouched. */
  lemma DetachFrees<R, T(!new)>(env: Env<R, T>, own: set<string>, s: Live<T>, up: string, t: Live<T>, n: string)
    requires LiveInv(env, own, s) && Next(env, s, Detach(up), t)
    ensures Look(t.reg.owner, n) == if Look(s.reg.owner, n) == Some(up) then None else Look(s.reg.owner, n)
    ensures Look(t.reg.payload, n) == if Look(s.reg.owner, n) == Some(up) then None else Look(s.reg.payload, n)
    ensures Look(t.reg.server, n) == if Look(s.reg.owner, n) == Some(up) then None else Look(s.reg.server, n)
    ensures Look(t.reg.sets, n) == if n == up then None else Look(s.reg.sets, n)
  {
    var mid: Registry<T> :| Synced(env.equal, s.reg, up, map[], mid) && t.reg == mid.(sets := mid.sets - {up});
    SyncedAt(env.equal, s.reg, up, map[], mid, n);
  }

  // ----- ownership and what each upstream last listed

  /** The last sync of `up` among the first `k` operations, or -1 if there is none since it was attached. */
  function LastSync<R>(ops: seq<Op<R>>, k: nat, up: string): (m: int)
    requires k <= |ops|
    ensures -1 <= m < k && (m >= 0 ==> ops[m].Relist? && ops[m].up == up)
  {
    if k == 0 then -1
    else
      match ops[k - 1]
      case Relist(u, _) => if u == up then k - 1 else LastSync(ops, k - 1, up)
      case Detach(u) => if u == up then -1 else LastSync(ops, k - 1, up)
      case Attach(_) => LastSync(ops, k - 1, up)
  }

  /** What operation `m`, a sync, listed. */
  ghost function ListingAt<R, T>(env: Env<R, T>, tr: seq<Live<T>>, ops: seq<Op<R>>, m: nat): map<string, Listed<T>>
    requires m < |ops| && m < |tr| && ops[m].Relist? && ops[m].up in tr[m].cfgs
  {
    Listing(env, tr[m].cfgs[ops[m].up], ops[m].items)
  }

  /** The last sync of `up` listed `n`, and no other upstream owned it then. */
  ghost predicate Claimed<R, T>(env: Env<R, T>, tr: seq<Live<T>>, ops: seq<Op<R>>, k: nat, up: string, n: string)
    requires k <= |ops| && k < |tr|
  {
    var m := LastSync(ops, k, up);
    m >= 0 && up in tr[m].cfgs && n in ListingAt(env, tr, ops, m) && !Foreign(tr[m].reg, up, n)
  }

  /** `n` is registered to `up` as it was last listed, up to equality of definitions. */
  ghost predicate RegisteredAs<T>(equal: (T, T) -> bool, r: Registry<T>, up: string, l: map<string, Listed<T>>,
                                  n: string) {
    && Look(r.owner, n) == Some(up) && n in l && n in r.payload
    && (r.payload[n] == l[n].def || equal(r.payload[n], l[n].def))
  }

  /** A sync or detach of one upstream leaves the names of another alone. */
  lemma OthersUntouched<R, T(!new)>(env: Env<R, T>, s: Live<T>, op: Op<R>, t: Live<T>, up: string, n: string)
    requires Next(env, s, op, t) && (op.Attach? || op.up != up)
    ensures Look(t.reg.owner, n) == Some(up) <==> Look(s.reg.owner, n) == Some(up)
    ensures Look(s.reg.owner, n) == Some(up) ==> Look(t.reg.payload, n) == Look(s.reg.payload, n)
  {
    match op
    case Attach(_) =>
    case Relist(u, items) =>
      SyncedAt(env.equal, s.reg, u, Listing(env, s.cfgs[u], items), t.reg, n);
    case Detach(u) =>
      var mid: Registry<T> :| Synced(env.equal, s.reg, u, map[], mid) && t.reg == mid.(sets := mid.sets - {u});
      SyncedAt(env.equal, s.reg, u, map[], mid, n);
  }

  lemma DetachedOwnsNothing<R, T(!new)>(env: Env<R, T>, s: Live<T>, up: string, t: Live<T>, n: string)
    requires Next(env, s, Detach(up), t)
    ensures Look(t.reg.owner, n) != Some(up)
  {
    var mid: Registry<T> :| Synced(env.equal, s.reg, up, map[], mid) && t.reg == mid.(sets := mid.sets - {up});
    SyncedAt(env.equal, s.reg, up, map[], mid, n);
  }

  lemma SyncedOwnsListed<R, T(!new)>(env: Env<R, T>, s: Live<T>, up: string, items: seq<RawItem<R>>, t: Live<T>,
                                     n: string)
    requires Next(env, s, Relist(up, items), t)
    ensures Look(t.reg.owner, n) == Some(up) <==> n in Listing(env, s.cfgs[up], items) && !Foreign(s.reg, up, n)
    ensures Look(t.reg.owner, n) == Some(up) ==>
            RegisteredAs(env.equal, t.reg, up, Listing(env, s.cfgs[up], items), n)
  {
    SyncedAt(env.equal, s.reg, up, Listing(env, s.cfgs[up], items), t.reg, n);
  }

  /** Over any run from an empty registry: an upstream owns a name exactly when its last listing has it and no other
      upstream owned it at that sync; and then the registered payload equals the listed definition. */
  lemma {:induction false} OwnedIffLastListed<R, T(!new)>(env: Env<R, T>, tr: seq<Live<T>>, ops: seq<Op<R>>,
                                                          k: nat, up: string, n: string)
    requires Run(env, tr, ops) && k < |tr| && tr[0].reg.owner == map[]
    ensures Look(tr[k].reg.owner, n) == Some(up) <==> Claimed(env, tr, ops, k, up, n)
    ensures Look(tr[k].reg.owner, n) == Some(up) ==>
            RegisteredAs(env.equal, tr[k].reg, up, ListingAt(env, tr, ops, LastSync(ops, k, up)), n)
  {
    if k > 0 {
      var s, op, t := tr[k - 1], ops[k - 1], tr[k];
      StepOf(env, tr, ops, k - 1);
      if op.Attach? || op.up != up {
        ClaimedAfter(env, tr, ops, k, up, n);
        OwnedIffLastListed(env, tr, ops, k - 1, up, n);
        OthersUntouched(env, s, op, t, up, n);
      } else if op.Detach? {
        DetachedOwnsNothing(env, s, up, t, n);
      } else {
        ClaimedAfter(env, tr, ops, k, up, n);
        SyncedOwnsListed(env, s, up, op.items, t, n);
      }
    }
  }

  /** An operation of another upstream leaves the last sync of `up` what it was; a sync of `up` becomes it. */
  lemma ClaimedAfter<R, T>(env: Env<R, T>, tr: seq<Live<T>>, ops: seq<Op<R>>, k: nat, up: string, n: string)
    requires 0 < k <= |ops| && k < |tr|
    ensures ops[k - 1].Attach? || ops[k - 1].up != up ==>
            && LastSync(ops, k, up) == LastSync(ops, k - 1, up)
            && Claimed(env, tr, ops, k, up, n) == Claimed(env, tr, ops, k - 1, up, n)
    ensures ops[k - 1].Relist? && ops[k - 1].up == up && up in tr[k - 1].cfgs ==>
            && LastSync(ops, k, up) == k - 1
            && (Claimed(env, tr, ops, k, up, n) <==>
                n in Listing(env, tr[k - 1].cfgs[up], ops[k - 1].items) && !Foreign(tr[k - 1].reg, up, n))
  {}

  /** A listed name need not be owned by anybody: an upstream that collided does not get the name when its owner is
      detached, until it is synced again. */
  lemma ListedButUnowned<R, T(!new)>(env: Env<R, T>, def: R) returns (s: Live<T>, t: Live<T>, u: Live<T>, v: Live<T>)
    requires !env.reserved("n")
    ensures LiveInv(env, {}, s) && s.reg.owner == map[]
    ensures Next(env, s, Relist("a", [RawItem("n", def)]), t) && Next(env, t, Relist("b", [RawItem("n", def)]), u)
    ensures Next(env, u, Detach("a"), v) && "b" in v.cfgs
    ensures "n" in Listing(env, v.cfgs["b"], [RawItem("n", def)]) && "n" !in v.reg.owner
  {
    var a, b := UpstreamCfg("a", "", [], []), UpstreamCfg("b", "", [], []);
    var cfgs := map["a" := a, "b" := b];
    var x := env.finalize(a, "n", def);
    s, t := Live(cfgs, NoneOwned(map[])), Live(cfgs, OneOwned(x, map["a" := {"n"}]));
    u, v := Live(cfgs, OneOwned(x, map["a" := {"n"}, "b" := {}])), Live(map["b" := b], NoneOwned(map["b" := {}]));
    OneItem(env, a, def);
    OneItem(env, b, def);
    FirstClaims(env.equal, x, env.finalize(b, "n", def));
    DetachesFirst(env, x, a, b);
  }

  function NoneOwned<T>(sets: map<string, set<string>>): Registry<T> { Registry(map[], sets, map[], map[]) }

  /** The registry in which "a" owns "n". */
  function OneOwned<T>(x: T, sets: map<string, set<string>>): Registry<T> {
    Registry(map["n" := "a"], sets, map["n" := x], map["n" := Proxied(x, "a", "n")])
  }

  lemma FirstClaims<T(!new)>(equal: (T, T) -> bool, x: T, y: T)
    ensures Synced(equal, NoneOwned(map[]), "a", map["n" := Listed("n", x)], OneOwned(x, map["a" := {"n"}]))
    ensures Synced(equal, OneOwned(x, map["a" := {"n"}]), "b", map["n" := Listed("n", y)],
                   OneOwned(x, map["a" := {"n"}, "b" := {}]))
  {}

  lemma DetachesFirst<R, T(!new)>(env: Env<R, T>, x: T, a: UpstreamCfg, b: UpstreamCfg)
    ensures Next(env, Live(map["a" := a, "b" := b], OneOwned(x, map["a" := {"n"}, "b" := {}])), Detach("a"),
                 Live(map["b" := b], NoneOwned(map["b" := {}])))
  {
    var r: Registry<T> := OneOwned(x, map["a" := {"n"}, "b" := {}]);
    var mid: Registry<T> := NoneOwned(map["a" := {}, "b" := {}]);
    assert Synced(env.equal, r, "a", map[], mid);
    assert map["b" := {}] == mid.sets - {"a"} && map["b" := b] == map["a" := a, "b" := b] - {"a"};
  }

  lemma OneItem<R, T>(env: Env<R, T>, cfg: UpstreamCfg, def: R)
    requires cfg.prefix == "" && cfg.allow == [] && cfg.deny == [] && !env.reserved("n")
    ensures Listing(env, cfg, [RawItem("n", def)]) == map["n" := Listed("n", env.finalize(cfg, "n", def))]
  {
    assert [RawItem("n", def)][..0] == [];
    assert Listing(env, cfg, []) == map[];
  }
}
