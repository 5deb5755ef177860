/**
 OAuth scopes and lazy listing over the aggregated registry (internal/gateway/scope.go and
 discovery.go): what a credential may call, what tools/list shows it, and what the
 discovery tools let it find.
 */
module Scope {
  import opened Options
  import opened Registry

  const SEARCH_TOOLS := "search_tools"
  const DESCRIBE_TOOLS := "describe_tools"
  const BLOB_SHARE := "blob_share"

  datatype ScopeConfig = ScopeConfig(name: string, patterns: seq<string>)

  /** What an upstream's section adds to the registry's view of it. */
  datatype Policy = Policy(scopes: seq<ScopeConfig>, lazy: bool)

  /** The features that reserve names on the aggregate server. */
  datatype Features = Features(discovery: bool, blob: bool)

  /** Granted scopes of an OAuth token, or none for the unrestricted auth paths. */
  type Credential = Option<seq<string>>

  predicate ReservedTool(f: Features, name: string) {
    if name == SEARCH_TOOLS || name == DESCRIBE_TOOLS then f.discovery
    else name == BLOB_SHARE && f.blob
  }

  /** The gateway's own tools on the aggregate server. */
  function OwnTools(f: Features): set<string> {
    (if f.discovery then {SEARCH_TOOLS, DESCRIBE_TOOLS} else {}) + (if f.blob then {BLOB_SHARE} else {})
  }

  function UpstreamScope(up: string): string { "mcp:" + up }

  function UpstreamSubScope(up: string, name: string): string { "mcp:" + up + ":" + name }

  predicate ScopeAllowsTool(glob: (string, string) -> bool, granted: seq<string>, up: string, scopes: seq<ScopeConfig>,
                            raw: string) {
    || UpstreamScope(up) in granted
    || exists i, j :: 0 <= i < |scopes| && UpstreamSubScope(up, scopes[i].name) in granted
                      && 0 <= j < |scopes[i].patterns| && glob(scopes[i].patterns[j], raw)
  }

  function TrimPrefix(s: string, prefix: string): string {
    if prefix <= s then s[|prefix|..] else s
  }

  /** The gateway a request meets: attached upstreams, registry, policies and features. */
  datatype View<T> = View(live: Live<T>, policies: map<string, Policy>, features: Features)

  predicate WellFormed<T>(v: View<T>) {
    v.live.cfgs.Keys <= v.policies.Keys
  }

  /** The upstream owning a final name, with the name its scope patterns are matched against. */
  function ResolveToolOwner<T>(v: View<T>, name: string): Option<(UpstreamCfg, string)> {
    if name !in v.live.reg.owner then None
    else if v.live.reg.owner[name] !in v.live.cfgs then None
    else
      var u := v.live.cfgs[v.live.reg.owner[name]];
      Some((u, TrimPrefix(name, u.prefix)))
  }

  /** scopeMiddleware's decision on one aggregate tool name. */
  predicate Permitted<T>(glob: (string, string) -> bool, v: View<T>, cred: Credential, name: string)
    requires WellFormed(v)
  {
    || cred.None?
    || ReservedTool(v.features, name)
    || var o := ResolveToolOwner(v, name);
       o.Some? && o.value.0.name in v.policies
       && ScopeAllowsTool(glob, cred.value, o.value.0.name, v.policies[o.value.0.name].scopes, o.value.1)
  }

  predicate Lazy<T>(v: View<T>, name: string)
    requires WellFormed(v)
  {
    var o := ResolveToolOwner(v, name);
    o.Some? && o.value.0.name in v.policies && v.policies[o.value.0.name].lazy
  }

  datatype Outcome = Refused | NotFound | OwnTool | Forwarded(upstream: string, raw: string)

  /** tools/call on the aggregate server: the middleware, then the handler registered under the name. */
  function CallTool<T>(glob: (string, string) -> bool, v: View<T>, cred: Credential, name: string): Outcome
    requires WellFormed(v)
  {
    if !Permitted(glob, v, cred, name) then Refused
    else if name !in v.live.reg.server then NotFound
    else
      match v.live.reg.server[name]
      case Own => OwnTool
      case Proxied(_, up, raw) => Forwarded(up, raw)
  }

  /** What the two list filters keep of the server's tools. */
  predicate Shown<T>(glob: (string, string) -> bool, v: View<T>, cred: Credential, name: string)
    requires WellFormed(v)
  {
    Permitted(glob, v, cred, name) && !(v.features.discovery && Lazy(v, name))
  }

  /** tools/list: the server's tools through the scope filter, and through the lazy filter when discovery is on. */
  method ListTools<T>(glob: (string, string) -> bool, v: View<T>, cred: Credential, names: seq<string>)
    returns (out: seq<string>)
    requires WellFormed(v)
    ensures forall n :: n in out <==> n in names && Shown(glob, v, cred, n)
    ensures forall n :: multiset(out)[n] == if n in out then multiset(names)[n] else 0
  {
    out := [];
    for i := 0 to |names|
      invariant forall n :: n in out <==> n in names[..i] && Shown(glob, v, cred, n)
      invariant forall n :: multiset(out)[n] == if n in out then multiset(names[..i])[n] else 0
    {
      assert names[..i + 1] == names[..i] + [names[i]];
      if Permitted(glob, v, cred, names[i]) && !(v.features.discovery && Lazy(v, names[i])) {
        out := out + [names[i]];
      }
    }
    assert names[..|names|] == names;
  }

  /** What visibleTools keeps of the registered tools. */
  predicate Visible<T>(glob: (string, string) -> bool, v: View<T>, cred: Credential, name: string) {
    var o := ResolveToolOwner(v, name);
    && name in v.live.reg.payload && o.Some?
    && (cred.None?
        || (o.value.0.name in v.policies
            && ScopeAllowsTool(glob, cred.value, o.value.0.name, v.policies[o.value.0.name].scopes, o.value.1)))
  }

  /** visibleTools: a copy of the registered tools, minus what the credential may not see. */
  method VisibleTools<T>(glob: (string, string) -> bool, v: View<T>, cred: Credential) returns (out: map<string, T>)
    requires WellFormed(v)
    requires forall u :: u in v.live.cfgs ==> v.live.cfgs[u].name == u
    ensures forall n :: n in out <==> Visible(glob, v, cred, n)
    ensures forall n :: n in out ==> n in v.live.reg.payload && out[n] == v.live.reg.payload[n]
  {
    out := v.live.reg.payload;
    var rest := out.Keys;
    while rest != {}
      invariant rest <= out.Keys <= v.live.reg.payload.Keys
      invariant forall n :: n in out ==> out[n] == v.live.reg.payload[n]
      invariant forall n :: n in v.live.reg.payload && n !in rest ==> (n in out <==> Visible(glob, v, cred, n))
      decreases |rest|
    {
      var name :| name in rest;
      rest := rest - {name};
      var o := ResolveToolOwner(v, name);
      if o.None? {
        out := out - {name};
      } else if cred.Some? && !ScopeAllowsTool(glob, cred.value, o.value.0.name, v.policies[o.value.0.name].scopes,
          o.value.1) {
        out := out - {name};
      }
    }
  }

  /** Any registry state a run can reach, seen by a request. */
  ghost predicate Reachable<R, T>(env: Env<R, T>, v: View<T>) {
    && WellFormed(v)
    && (forall n :: env.reserved(n) <==> ReservedTool(v.features, n))
    && LiveInv(env, OwnTools(v.features), v.live)
  }

  /** The raw name the scope check uses is the raw name the call is forwarded under, to the same upstream. */
  lemma CheckedNameIsForwardedName<R, T>(env: Env<R, T>, v: View<T>, cred: Credential, name: string)
    requires Reachable(env, v)
    requires name in v.live.reg.owner
    ensures v.live.reg.server[name].Proxied?
    ensures ResolveToolOwner(v, name).Some?
         && ResolveToolOwner(v, name).value.0.name == v.live.reg.server[name].upstream
         && ResolveToolOwner(v, name).value.1 == v.live.reg.server[name].raw
  {
    var u := v.live.cfgs[v.live.reg.owner[name]];
    assert NamespaceName(u.prefix, v.live.reg.server[name].raw) == name;
    assert u.prefix + v.live.reg.server[name].raw == name;
  }

  /** A call reaches an upstream exactly when that upstream owns the name and the credential covers the forwarded
      raw name. */
  lemma CallIsScoped<R, T>(env: Env<R, T>, v: View<T>, cred: Credential, name: string)
    requires Reachable(env, v)
    ensures CallTool(env.glob, v, cred, name).Forwarded? <==>
            name in v.live.reg.owner
            && (cred.None? || ScopeAllowsTool(env.glob, cred.value, v.live.reg.owner[name],
                                v.policies[v.live.reg.owner[name]].scopes, v.live.reg.server[name].raw))
    ensures CallTool(env.glob, v, cred, name).OwnTool? <==> name in OwnTools(v.features)
    ensures name in v.live.reg.owner && CallTool(env.glob, v, cred, name).Forwarded? ==>
            CallTool(env.glob, v, cred, name) == Forwarded(v.live.reg.owner[name], v.live.reg.server[name].raw)
  {
    if name in v.live.reg.owner {
      CheckedNameIsForwardedName(env, v, cred, name);
    }
  }

  /** What search and describe can see is exactly what the credential can call on an upstream. */
  lemma VisibleIsCallable<R, T>(env: Env<R, T>, v: View<T>, cred: Credential, name: string)
    requires Reachable(env, v)
    ensures Visible(env.glob, v, cred, name) <==> CallTool(env.glob, v, cred, name).Forwarded?
  {
    CallIsScoped(env, v, cred, name);
    if name in v.live.reg.owner {
      CheckedNameIsForwardedName(env, v, cred, name);
    }
  }

  /** A call that reaches nothing: without a credential only an unknown name is not found; with one, an unknown name is
      refused like an owned tool the credential does not cover. */
  lemma UnknownOrRefused<R, T>(env: Env<R, T>, v: View<T>, cred: Credential, name: string)
    requires Reachable(env, v) && name !in OwnTools(v.features)
    ensures CallTool(env.glob, v, cred, name) == NotFound <==> cred.None? && name !in v.live.reg.owner
    ensures CallTool(env.glob, v, cred, name) == Refused <==>
            cred.Some? && (name in v.live.reg.owner ==> !CallTool(env.glob, v, cred, name).Forwarded?)
  {
    CallIsScoped(env, v, cred, name);
    if name in v.live.reg.owner {
      CheckedNameIsForwardedName(env, v, cred, name);
    }
  }

  /** tools/list is the callable tools minus those of lazy upstreams; the gateway's own tools always stay. */
  lemma ListIsCallableMinusLazy<R, T>(env: Env<R, T>, v: View<T>, cred: Credential, name: string)
    requires Reachable(env, v) && v.features.discovery
    ensures name in v.live.reg.server && Shown(env.glob, v, cred, name) <==>
              || CallTool(env.glob, v, cred, name).OwnTool?
              || (CallTool(env.glob, v, cred, name).Forwarded? && !v.policies[v.live.reg.owner[name]].lazy)
    ensures name in OwnTools(v.features) ==> name in v.live.reg.server && Shown(env.glob, v, cred, name)
  {
    CallIsScoped(env, v, cred, name);
    if name in v.live.reg.owner {
      CheckedNameIsForwardedName(env, v, cred, name);
    }
  }

  /** Over every run, both discovery surfaces agree with what tools/call does, for every credential. */
  lemma DiscoveryMatchesCalls<R, T(!new)>(env: Env<R, T>, tr: seq<Live<T>>, ops: seq<Op<R>>, k: nat, v: View<T>,
                                          cred: Credential, n: string)
    requires Run(env, tr, ops) && k < |tr| && LiveInv(env, OwnTools(v.features), tr[0])
    requires v.live == tr[k] && WellFormed(v) && v.features.discovery
    requires forall x :: env.reserved(x) <==> ReservedTool(v.features, x)
    ensures Visible(env.glob, v, cred, n) <==> CallTool(env.glob, v, cred, n).Forwarded?
    ensures n in v.live.reg.server && Shown(env.glob, v, cred, n) <==>
              || CallTool(env.glob, v, cred, n).OwnTool?
              || (CallTool(env.glob, v, cred, n).Forwarded? && !v.policies[v.live.reg.owner[n]].lazy)
    ensures CallTool(env.glob, v, cred, n).Forwarded? ==>
            var o := CallTool(env.glob, v, cred, n);
            o.upstream in v.live.cfgs && Allowed(env.glob, v.live.cfgs[o.upstream], o.raw)
            && NamespaceName(v.live.cfgs[o.upstream].prefix, o.raw) == n
  {
    RunKeepsInv(env, OwnTools(v.features), tr, ops, k);
    CallIsScoped(env, v, cred, n);
    VisibleIsCallable(env, v, cred, n);
    ListIsCallableMinusLazy(env, v, cred, n);
    if n in v.live.reg.owner {
      CheckedNameIsForwardedName(env, v, cred, n);
    }
  }

  // ----- which upstreams a scope reaches

  lemma LastColon(a: string, n: string, b: string, m: string)
    requires ':' !in n && ':' !in m && a + ":" + n == b + ":" + m
    ensures a == b && n == m
  {
    var s, t := a + ":" + n, b + ":" + m;
    assert s[|a|] == ':' && t[|b|] == ':';
    assert forall i :: |a| < i < |s| ==> s[i] == n[i - |a| - 1];
    assert forall i :: |b| < i < |t| ==> t[i] == m[i - |b| - 1];
    assert |a| == |b|;
    assert s[..|a|] == a && s[|a| + 1..] == n && t[..|b|] == b && t[|b| + 1..] == m;
  }

  /** Scope names as validation leaves them. */
  predicate NoColons(scopes: seq<ScopeConfig>) {
    forall i :: 0 <= i < |scopes| ==> ':' !in scopes[i].name
  }

  /** Some scope of the list has this name and a pattern for the tool. */
  predicate Covers(glob: (string, string) -> bool, scopes: seq<ScopeConfig>, name: string, raw: string) {
    exists i, j :: 0 <= i < |scopes| && scopes[i].name == name
                   && 0 <= j < |scopes[i].patterns| && glob(scopes[i].patterns[j], raw)
  }

  /** What a sub-scope granted for upstream `a` allows on upstream `b`: its own patterns on `a`, everything on an
      upstream whose name is `a`, a colon and the scope's name, and nothing on any other. */
  lemma SubScopeReaches(glob: (string, string) -> bool, a: string, n: string, b: string, scopes: seq<ScopeConfig>,
                        raw: string)
    requires ':' !in n && NoColons(scopes)
    ensures ScopeAllowsTool(glob, [UpstreamSubScope(a, n)], b, scopes, raw) <==>
            b == a + ":" + n || (b == a && Covers(glob, scopes, n, raw))
  {
    var granted := UpstreamSubScope(a, n);
    assert granted == "mcp:" + (a + ":" + n);
    SameTail("mcp:", b, a + ":" + n);
    forall i | 0 <= i < |scopes|
      ensures UpstreamSubScope(b, scopes[i].name) == granted <==> b == a && scopes[i].name == n
    {
      SameTail("mcp:", b + ":" + scopes[i].name, a + ":" + n);
      assert UpstreamSubScope(b, scopes[i].name) == "mcp:" + (b + ":" + scopes[i].name);
      if b + ":" + scopes[i].name == a + ":" + n {
        LastColon(b, scopes[i].name, a, n);
      }
    }
  }

  lemma SameTail(p: string, x: string, y: string)
    ensures p + x == p + y <==> x == y
  {
    assert (p + x)[|p|..] == x && (p + y)[|p|..] == y;
  }

  /** The sub-scopes of an upstream stay with it, whatever they are called and whatever the others' scopes, exactly when
      no other upstream has its name, a colon and a colon-free rest for a name. */
  lemma SubScopesStayIff(glob: (string, string) -> bool, ups: set<string>, a: string)
    ensures (forall b, n, scopes, raw :: b in ups && b != a && ':' !in n && NoColons(scopes) ==>
               !ScopeAllowsTool(glob, [UpstreamSubScope(a, n)], b, scopes, raw))
       <==> (forall n :: ':' !in n ==> a + ":" + n !in ups)
  {
    if forall n :: ':' !in n ==> a + ":" + n !in ups {
      forall b, n, scopes, raw | b in ups && b != a && ':' !in n && NoColons(scopes)
        ensures !ScopeAllowsTool(glob, [UpstreamSubScope(a, n)], b, scopes, raw)
      {
        SubScopeReaches(glob, a, n, b, scopes, raw);
      }
    } else {
      var n :| ':' !in n && a + ":" + n in ups;
      SubScopeReaches(glob, a, n, a + ":" + n, [], "");
    }
  }

  /** Validation refuses a colon in scope names but not in upstream names, and one is enough. */
  lemma SubScopeReachesAnother(glob: (string, string) -> bool, scopes: seq<ScopeConfig>, raw: string)
    requires NoColons(scopes)
    ensures ScopeAllowsTool(glob, [UpstreamSubScope("a", "b")], "a:b", scopes, raw)
  {
    SubScopeReaches(glob, "a", "b", "a:b", scopes, raw);
    assert "a:b" == "a" + ":" + "b";
  }

  // ----- the gateway's own tools, and what a credential with several scopes may do

  /** The reserved names are the gateway's own tools: search and describe with discovery, share with the blob store. */
  lemma ReservedIsOwn(f: Features, name: string)
    ensures ReservedTool(f, name) <==> name in OwnTools(f)
    ensures name in OwnTools(f) <==>
            (f.discovery && (name == "search_tools" || name == "describe_tools")) || (f.blob && name == "blob_share")
  {}

  /** A credential may do what one of its scopes allows, no more and no less. */
  lemma GrantsAdd(glob: (string, string) -> bool, granted: seq<string>, up: string, scopes: seq<ScopeConfig>,
                  raw: string)
    ensures ScopeAllowsTool(glob, granted, up, scopes, raw) <==>
            exists k :: 0 <= k < |granted| && ScopeAllowsTool(glob, [granted[k]], up, scopes, raw)
  {
    if ScopeAllowsTool(glob, granted, up, scopes, raw) {
      if UpstreamScope(up) in granted {
        var k :| 0 <= k < |granted| && granted[k] == UpstreamScope(up);
        assert ScopeAllowsTool(glob, [granted[k]], up, scopes, raw);
      } else {
        var i, j :| 0 <= i < |scopes| && UpstreamSubScope(up, scopes[i].name) in granted
                    && 0 <= j < |scopes[i].patterns| && glob(scopes[i].patterns[j], raw);
        var k :| 0 <= k < |granted| && granted[k] == UpstreamSubScope(up, scopes[i].name);
        assert ScopeAllowsTool(glob, [granted[k]], up, scopes, raw);
      }
    }
  }

  /** What the base scope of upstream `a` allows on upstream `b`: everything on `a` itself, and on an upstream whose
      name is followed in `a` by a colon and one of its scopes' names, what that scope covers. */
  lemma BaseScopeReaches(glob: (string, string) -> bool, a: string, b: string, scopes: seq<ScopeConfig>, raw: string)
    ensures ScopeAllowsTool(glob, [UpstreamScope(a)], b, scopes, raw) <==>
            b == a || exists i :: 0 <= i < |scopes| && a == b + ":" + scopes[i].name && CoversAt(glob, scopes[i], raw)
  {
    SameTail("mcp:", a, b);
    forall i | 0 <= i < |scopes|
      ensures UpstreamSubScope(b, scopes[i].name) == UpstreamScope(a) <==> a == b + ":" + scopes[i].name
    {
      SameTail("mcp:", b + ":" + scopes[i].name, a);
      assert UpstreamSubScope(b, scopes[i].name) == "mcp:" + (b + ":" + scopes[i].name);
    }
  }

  predicate CoversAt(glob: (string, string) -> bool, scope: ScopeConfig, raw: string) {
    exists j :: 0 <= j < |scope.patterns| && glob(scope.patterns[j], raw)
  }
}
