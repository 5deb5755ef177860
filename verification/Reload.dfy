/**
 Live configuration reload (internal/gateway/reload.go): which upstreams a new
 configuration adds, restarts, keeps and removes, and what the gateway runs afterwards.

 A running upstream carries what was baked into it when it was built: its section, the
 secret definitions its resolver reads, and its effective redaction config. A kept upstream
 carries these across any number of reloads, so the invariant relates them to the
 configuration that is current now, not to the one it was built from.
 */
module Reload {
  import opened Options
  import opened Secrets

  datatype Redact = Redact(enabled: bool, patterns: seq<string>, minEntropy: real)

  datatype Secret = Secret(name: string, value: string, env: string, file: string, command: string)

  const NO_SECRET := Secret("", "", "", "", "")

  /** An upstream's section; `rest` stands for the fields that are only compared as a whole. */
  datatype Section = Section(name: string, env: map<string, string>, headers: map<string, string>,
                             redact: Option<Redact>, rest: string)

  datatype Config = Config(upstreams: seq<Section>, secrets: seq<Secret>, redact: Redact)

  /** An upstream as it runs. */
  datatype Running = Running(section: Section, secrets: map<string, Secret>, redactor: Option<Redact>)

  datatype State = State(cfg: Config, live: seq<Running>)

  /** The checks and constructions that may fail and whose details do not matter here, and the trimming of
      references. */
  datatype Env = Env(trim: string -> string, accepts: Config -> bool, compiles: Redact -> bool,
      builds: (Section, Config) -> bool)

  // ----- configurations

  function SecretsByName(secrets: seq<Secret>): map<string, Secret> {
    if secrets == [] then map[]
    else SecretsByName(secrets[..|secrets| - 1])[secrets[|secrets| - 1].name := secrets[|secrets| - 1]]
  }

  function SectionNames(us: seq<Section>): set<string> {
    set i | 0 <= i < |us| :: us[i].name
  }

  function Values(uc: Section): set<string> { uc.env.Values + uc.headers.Values }

  /** `n` is a secret that `uc` interpolates. */
  ghost predicate Refers(trim: string -> string, uc: Section, n: string) {
    exists v :: v in Values(uc) && n in Names(Tokenize(trim, v, 0))
  }

  /** What Validate enforces that a reload relies on. */
  ghost predicate WellFormed(c: Config) {
    && DistinctSections(c.upstreams)
    && (forall i :: 0 <= i < |c.secrets| ==> c.secrets[i].name != "")
    && (forall i, j :: 0 <= i < j < |c.secrets| ==> c.secrets[i].name != c.secrets[j].name)
  }

  function EffectiveRedact(uc: Section, global: Redact): Option<Redact> {
    var r := if uc.redact.Some? then uc.redact.value else global;
    if r.enabled then Some(r) else None
  }

  function NewUpstream(uc: Section, c: Config): Running {
    Running(uc, SecretsByName(c.secrets), EffectiveRedact(uc, c.redact))
  }

  lemma {:induction false} SecretsByNameKeys(secrets: seq<Secret>)
    requires forall i :: 0 <= i < |secrets| ==> secrets[i].name != ""
    ensures forall n :: n in SecretsByName(secrets) ==> n != "" && SecretsByName(secrets)[n].name == n
  {
    if secrets != [] {
      SecretsByNameKeys(secrets[..|secrets| - 1]);
    }
  }

  /** With distinct names the map holds each secret under its name, and nothing else. */
  lemma {:induction false} SecretsByNameAre(secrets: seq<Secret>, x: string, s: Secret)
    requires forall i, j :: 0 <= i < j < |secrets| ==> secrets[i].name != secrets[j].name
    ensures Look(SecretsByName(secrets), x) == Some(s) <==> s in secrets && s.name == x
    decreases |secrets|
  {
    if secrets != [] {
      var before, last := secrets[..|secrets| - 1], secrets[|secrets| - 1];
      SecretsByNameAre(before, x, s);
      assert secrets == before + [last];
      assert forall i :: 0 <= i < |before| ==> before[i].name != last.name;
    }
  }

  // ----- the plan

  function Get(m: map<string, Secret>, n: string): Secret { if n in m then m[n] else NO_SECRET }

  /** A secret that the value `v` refers to has another definition. */
  ghost predicate ValueChanged(trim: string -> string, v: string, before: map<string, Secret>,
                               after: map<string, Secret>) {
    exists n :: n in Names(Tokenize(trim, v, 0)) && Get(before, n) != Get(after, n)
  }

  ghost predicate RefsChanged(trim: string -> string, uc: Section, before: map<string, Secret>,
                              after: map<string, Secret>) {
    exists v :: v in Values(uc) && ValueChanged(trim, v, before, after)
  }

  method ValueRefsChanged(trim: string -> string, v: string, before: map<string, Secret>, after: map<string, Secret>)
    returns (changed: bool)
    ensures changed <==> ValueChanged(trim, v, before, after)
  {
    var names := ExtractSecretRefs(trim, v);
    for i := 0 to |names|
      invariant forall j :: 0 <= j < i ==> Get(before, names[j]) == Get(after, names[j])
    {
      if Get(before, names[i]) != Get(after, names[i]) {
        return true;
      }
    }
    return false;
  }

  method SecretRefsChanged(trim: string -> string, uc: Section, before: map<string, Secret>, after: map<string, Secret>)
    returns (changed: bool)
    ensures changed <==> RefsChanged(trim, uc, before, after)
  {
    var rest := Values(uc);
    while rest != {}
      invariant rest <= Values(uc)
      invariant forall v :: v in Values(uc) - rest ==> !ValueChanged(trim, v, before, after)
      decreases |rest|
    {
      var v :| v in rest;
      rest := rest - {v};
      var c := ValueRefsChanged(trim, v, before, after);
      if c {
        return true;
      }
    }
    return false;
  }

  datatype Plan = Plan(add: seq<Section>, restart: seq<Section>, remove: seq<Section>, keep: seq<Section>)

  ghost predicate DistinctSections(us: seq<Section>) {
    forall i, j :: 0 <= i < j < |us| ==> us[i].name != us[j].name
  }

  ghost predicate InOld(o: Config, name: string) { name in SectionNames(o.upstreams) }

  ghost predicate NeedsRestart(trim: string -> string, o: Config, n: Config, uc: Section) {
    || uc !in o.upstreams
    || (uc.redact.None? && o.redact != n.redact)
    || RefsChanged(trim, uc, SecretsByName(o.secrets), SecretsByName(n.secrets))
  }

  ghost predicate IsPlan(trim: string -> string, o: Config, n: Config, p: Plan) {
    && (forall uc :: uc in p.add <==> uc in n.upstreams && !InOld(o, uc.name))
    && (forall uc :: uc in p.restart <==> uc in n.upstreams && InOld(o, uc.name) && NeedsRestart(trim, o, n, uc))
    && (forall uc :: uc in p.keep <==> uc in n.upstreams && InOld(o, uc.name) && !NeedsRestart(trim, o, n, uc))
    && (forall uc :: uc in p.remove <==> uc in o.upstreams && uc.name !in SectionNames(n.upstreams))
    && DistinctSections(p.add) && DistinctSections(p.restart)
  }

  /** The section has an environment variable or a header whose value refers to `x`. */
  ghost predicate Mentions(trim: string -> string, uc: Section, x: string) {
    || (exists k :: k in uc.env && x in Names(Tokenize(trim, uc.env[k], 0)))
    || (exists k :: k in uc.headers && x in Names(Tokenize(trim, uc.headers[k], 0)))
  }

  lemma MentionsIsRefers(trim: string -> string, uc: Section, x: string)
    ensures Refers(trim, uc, x) <==> Mentions(trim, uc, x)
  {
    if Mentions(trim, uc, x) {
      if k :| k in uc.env && x in Names(Tokenize(trim, uc.env[k], 0)) {
        assert uc.env[k] in Values(uc);
      } else {
        var k :| k in uc.headers && x in Names(Tokenize(trim, uc.headers[k], 0));
        assert uc.headers[k] in Values(uc);
      }
    }
  }

  /** The two lists define `x` alike, or not at all. */
  ghost predicate SameSecret(o: seq<Secret>, n: seq<Secret>, x: string) {
    forall s: Secret :: s.name == x ==> (s in o <==> s in n)
  }

  lemma SameSecretIs(o: Config, n: Config, x: string)
    requires WellFormed(o) && WellFormed(n)
    ensures Get(SecretsByName(o.secrets), x) == Get(SecretsByName(n.secrets), x) <==>
            SameSecret(o.secrets, n.secrets, x)
  {
    SecretsByNameKeys(o.secrets);
    SecretsByNameKeys(n.secrets);
    forall s: Secret
      ensures Look(SecretsByName(o.secrets), x) == Some(s) <==> s in o.secrets && s.name == x
      ensures Look(SecretsByName(n.secrets), x) == Some(s) <==> s in n.secrets && s.name == x
    {
      SecretsByNameAre(o.secrets, x, s);
      SecretsByNameAre(n.secrets, x, s);
    }
    var a, b := Look(SecretsByName(o.secrets), x), Look(SecretsByName(n.secrets), x);
    assert a.Some? ==> a.value in o.secrets && a.value.name == x;
    assert b.Some? ==> b.value in n.secrets && b.value.name == x;
  }

  /** A section of both configurations is restarted exactly when it changed, when it relies on a global redaction that
      changed, or when a secret it mentions is defined differently. */
  lemma RestartIff(trim: string -> string, o: Config, n: Config, uc: Section)
    requires WellFormed(o) && WellFormed(n)
    ensures NeedsRestart(trim, o, n, uc) <==>
            || uc !in o.upstreams
            || (uc.redact.None? && o.redact != n.redact)
            || exists x :: Mentions(trim, uc, x) && !SameSecret(o.secrets, n.secrets, x)
  {
    forall x
      ensures Refers(trim, uc, x) <==> Mentions(trim, uc, x)
      ensures Get(SecretsByName(o.secrets), x) == Get(SecretsByName(n.secrets), x)
         <==> SameSecret(o.secrets, n.secrets, x)
    {
      MentionsIsRefers(trim, uc, x);
      SameSecretIs(o, n, x);
    }
    var before, after := SecretsByName(o.secrets), SecretsByName(n.secrets);
    if RefsChanged(trim, uc, before, after) {
      var v :| v in Values(uc) && ValueChanged(trim, v, before, after);
      var x :| x in Names(Tokenize(trim, v, 0)) && Get(before, x) != Get(after, x);
      assert Refers(trim, uc, x);
    }
    if x :| Mentions(trim, uc, x) && !SameSecret(o.secrets, n.secrets, x) {
      var v :| v in Values(uc) && x in Names(Tokenize(trim, v, 0));
      assert ValueChanged(trim, v, before, after);
    }
  }

  method PlanUpstreams(trim: string -> string, o: Config, n: Config) returns (p: Plan)
    requires WellFormed(o) && WellFormed(n)
    ensures IsPlan(trim, o, n, p)
  {
    var oldByName := ByName(o.upstreams);
    var oldSecrets, newSecrets := SecretsByName(o.secrets), SecretsByName(n.secrets);
    var add, restart, keep, remove: seq<Section> := [], [], [], [];
    for i := 0 to |n.upstreams|
      invariant DistinctSections(add) && DistinctSections(restart)
      invariant forall uc :: uc in add <==> uc in n.upstreams[..i] && !InOld(o, uc.name)
      invariant forall uc :: uc in restart <==>
          uc in n.upstreams[..i] && InOld(o, uc.name) && NeedsRestart(trim, o, n, uc)
      invariant forall uc :: uc in keep <==>
          uc in n.upstreams[..i] && InOld(o, uc.name) && !NeedsRestart(trim, o, n, uc)
    {
      assert n.upstreams[..i + 1] == n.upstreams[..i] + [n.upstreams[i]];
      var uc := n.upstreams[i];
      if uc.name !in oldByName {
        add := add + [uc];
      } else {
        assert uc in o.upstreams <==> oldByName[uc.name] == uc;
        var changed := SecretRefsChanged(trim, uc, oldSecrets, newSecrets);
        if oldByName[uc.name] != uc || (uc.redact.None? && o.redact != n.redact) || changed {
          restart := restart + [uc];
        } else {
          keep := keep + [uc];
        }
      }
    }
    assert n.upstreams[..|n.upstreams|] == n.upstreams;
    for i := 0 to |o.upstreams|
      invariant forall uc :: uc in remove <==> uc in o.upstreams[..i] && uc.name !in SectionNames(n.upstreams)
    {
      assert o.upstreams[..i + 1] == o.upstreams[..i] + [o.upstreams[i]];
      if o.upstreams[i].name !in SectionNames(n.upstreams) {
        remove := remove + [o.upstreams[i]];
      }
    }
    assert o.upstreams[..|o.upstreams|] == o.upstreams;
    p := Plan(add, restart, remove, keep);
  }

  method ByName(us: seq<Section>) returns (m: map<string, Section>)
    requires DistinctSections(us)
    ensures m.Keys == SectionNames(us)
    ensures forall n :: n in m ==> m[n] in us && m[n].name == n
    ensures forall uc :: uc in us ==> m[uc.name] == uc
  {
    m := map[];
    for i := 0 to |us|
      invariant m.Keys == SectionNames(us[..i])
      invariant forall n :: n in m ==> m[n] in us[..i] && m[n].name == n
      invariant forall j :: 0 <= j < i ==> us[j].name in m && m[us[j].name] == us[j]
    {
      assert us[..i + 1] == us[..i] + [us[i]];
      m := m[us[i].name := us[i]];
    }
    assert us[..|us|] == us;
  }

  /** The four lists partition the names of the two configurations: each name falls in exactly one. */
  lemma PlanPartitions(trim: string -> string, o: Config, n: Config, p: Plan, name: string)
    requires WellFormed(o) && WellFormed(n) && IsPlan(trim, o, n, p)
    ensures name in SectionNames(p.add) <==> name in SectionNames(n.upstreams) && name !in SectionNames(o.upstreams)
    ensures name in SectionNames(p.remove) <==> name in SectionNames(o.upstreams) && name !in SectionNames(n.upstreams)
    ensures name in SectionNames(p.restart) || name in SectionNames(p.keep) <==>
            name in SectionNames(o.upstreams) && name in SectionNames(n.upstreams)
    ensures !(name in SectionNames(p.restart) && name in SectionNames(p.keep))
  {
    NameOf(p.add, name); NameOf(p.remove, name); NameOf(p.restart, name); NameOf(p.keep, name);
    NameOf(n.upstreams, name); NameOf(o.upstreams, name);
  }

  lemma NameOf(us: seq<Section>, name: string)
    ensures name in SectionNames(us) <==> exists uc :: uc in us && uc.name == name
  {
    if uc :| uc in us && uc.name == name {
      var i :| 0 <= i < |us| && us[i] == uc;
    }
    if name in SectionNames(us) {
      var i :| 0 <= i < |us| && us[i].name == name;
      assert us[i] in us;
    }
  }

  // ----- the gateway

  ghost predicate HasName(us: seq<Running>, name: string) {
    exists i :: 0 <= i < |us| && us[i].section.name == name
  }

  ghost predicate DistinctNames(us: seq<Running>) {
    forall i, j :: 0 <= i < j < |us| ==> us[i].section.name != us[j].section.name
  }

  /** What `u` was built with is what the configuration `c` would build now, as far as `u` can tell. */
  ghost predicate UpToDate(trim: string -> string, c: Config, u: Running) {
    && u.section in c.upstreams
    && u.redactor == EffectiveRedact(u.section, c.redact)
    && forall n :: Refers(trim, u.section, n) ==> Look(u.secrets, n) == Look(SecretsByName(c.secrets), n)
  }

  /** The gateway runs exactly the configured upstreams, each up to date. */
  ghost predicate Inv(trim: string -> string, s: State) {
    && WellFormed(s.cfg)
    && DistinctNames(s.live)
    && (forall uc :: uc in s.cfg.upstreams ==> HasName(s.live, uc.name))
    && (forall i :: 0 <= i < |s.live| ==> UpToDate(trim, s.cfg, s.live[i]))
  }

  /** A successful reload from `s` to the configuration `n`. */
  ghost predicate Reloaded(trim: string -> string, s: State, n: Config, t: State) {
    && t.cfg == n && WellFormed(n) && DistinctNames(t.live)
    && (forall uc :: uc in n.upstreams ==> HasName(t.live, uc.name))
    && (forall i :: 0 <= i < |t.live| ==> Kept(trim, s, n, t.live[i]) || Fresh(trim, s, n, t.live[i]))
  }

  /** `u` ran before, and nothing it depends on changed. */
  ghost predicate Kept(trim: string -> string, s: State, n: Config, u: Running) {
    u in s.live && u.section in n.upstreams && u.section in s.cfg.upstreams && !NeedsRestart(trim, s.cfg, n, u.section)
  }

  /** `u` was built from the new configuration. */
  ghost predicate Fresh(trim: string -> string, s: State, n: Config, u: Running) {
    u.section in n.upstreams && u == NewUpstream(u.section, n)
  }

  /** Every check and every construction succeeds for `n`. */
  ghost predicate Constructible(env: Env, n: Config) {
    WellFormed(n) && env.accepts(n) && (n.redact.enabled ==> env.compiles(n.redact)) &&
        forall uc :: uc in n.upstreams ==> env.builds(uc, n)
  }

  datatype Outcome = Applied(plan: Plan) | Rejected(error: string)

  class Gateway {
    const env: Env
    var cfg: Config
    var upstreams: seq<Running>

    ghost function View(): State
      reads this
    {
      State(cfg, upstreams)
    }

    /** New: every configured upstream is built once. */
    constructor (env: Env, c: Config)
      requires WellFormed(c)
      ensures this.env == env && View().cfg == c && Inv(env.trim, View())
    {
      this.env := env;
      cfg := c;
      upstreams := seq(|c.upstreams|, i requires 0 <= i < |c.upstreams| => NewUpstream(c.upstreams[i], c));
      new;
      forall uc | uc in c.upstreams ensures HasName(upstreams, uc.name) {
        var i :| 0 <= i < |c.upstreams| && c.upstreams[i] == uc;
        assert upstreams[i].section.name == uc.name;
      }
    }

    /** A rejected configuration changes nothing; an applied one takes the gateway to a reloaded state. */
    method Reload(c: Option<Config>) returns (r: Outcome)
      requires Inv(env.trim, View())
      modifies this
      ensures r.Rejected? ==> View() == old(View())
      ensures c.Some? && Constructible(env, c.value) ==> r.Applied?
      ensures r.Applied? ==> c.Some? && Reloaded(env.trim, old(View()), c.value, View())
      ensures r.Applied? ==> IsPlan(env.trim, old(cfg), c.value, r.plan)
    {
      if c.None? {
        return Rejected("nil config");
      }
      var n := c.value;
      var valid := Validate(n);
      if !valid {
        return Rejected("validate");
      }
      if n.redact.enabled && !env.compiles(n.redact) {
        return Rejected("create redactor");
      }
      ghost var s := View();
      var plan := PlanUpstreams(env.trim, cfg, n);
      var built, ok := BuildAll(plan.add + plan.restart, n);
      if !ok {
        return Rejected("upstream");
      }
      cfg := n;
      DetachAll(plan.remove + plan.restart);
      StayingIs(s.live, SectionNames(plan.remove + plan.restart));
      upstreams := upstreams + built;
      AssembleReload(env.trim, s, n, plan, upstreams[..|upstreams| - |built|], built);
      assert upstreams == upstreams[..|upstreams| - |built|] + built;
      return Applied(plan);
    }

    /** The names must be usable and unique; the remaining checks are the environment's. */
    method Validate(n: Config) returns (ok: bool)
      ensures ok <==> WellFormed(n) && env.accepts(n)
    {
      var seen: set<string> := {};
      for i := 0 to |n.upstreams|
        invariant seen == SectionNames(n.upstreams[..i]) && DistinctSections(n.upstreams[..i])
      {
        assert n.upstreams[..i + 1] == n.upstreams[..i] + [n.upstreams[i]];
        if n.upstreams[i].name in seen {
          assert !DistinctSections(n.upstreams);
          return false;
        }
        seen := seen + {n.upstreams[i].name};
      }
      assert n.upstreams[..|n.upstreams|] == n.upstreams;
      seen := {};
      for i := 0 to |n.secrets|
        invariant seen == set j | 0 <= j < i :: n.secrets[j].name
        invariant forall j :: 0 <= j < i ==> n.secrets[j].name != ""
        invariant forall j, k :: 0 <= j < k < i ==> n.secrets[j].name != n.secrets[k].name
      {
        if n.secrets[i].name == "" || n.secrets[i].name in seen {
          return false;
        }
        seen := seen + {n.secrets[i].name};
      }
      return env.accepts(n);
    }

    /** Constructs every new upstream before anything live is touched. */
    method BuildAll(us: seq<Section>, n: Config) returns (built: seq<Running>, ok: bool)
      ensures ok ==> |built| == |us| && forall i :: 0 <= i < |us| ==> built[i] == NewUpstream(us[i], n)
      ensures ok <==> forall i :: 0 <= i < |us| ==> env.builds(us[i], n)
    {
      built := [];
      for i := 0 to |us|
        invariant |built| == i && forall j :: 0 <= j < i ==> built[j] == NewUpstream(us[j], n) && env.builds(us[j], n)
      {
        if !env.builds(us[i], n) {
          return built, false;
        }
        built := built + [NewUpstream(us[i], n)];
      }
      return built, true;
    }

    /** Removes the running upstreams of these names; the others stay, in order. */
    method DetachAll(us: seq<Section>)
      requires DistinctNames(upstreams)
      modifies this`upstreams
      ensures upstreams == Staying(old(upstreams), SectionNames(us))
    {
      assert us[..0] == [] && SectionNames([]) == {};
      StayingNone(upstreams, {});
      for i := 0 to |us|
        invariant upstreams == Staying(old(upstreams), SectionNames(us[..i])) && DistinctNames(upstreams)
      {
        assert SectionNames(us[..i + 1]) == SectionNames(us[..i]) + {us[i].name};
        StayingTwice(old(upstreams), SectionNames(us[..i]), {us[i].name});
        var k := IndexByName(us[i].name);
        if k < |upstreams| {
          StayingOne(upstreams, k);
          StayingDistinct(upstreams, {us[i].name});
          upstreams := upstreams[..k] + upstreams[k + 1..];
        } else {
          StayingNone(upstreams, {us[i].name});
        }
      }
      assert us[..|us|] == us;
    }

    method IndexByName(name: string) returns (k: nat)
      ensures k <= |upstreams|
      ensures k < |upstreams| ==> upstreams[k].section.name == name
      ensures k == |upstreams| ==> forall u :: u in upstreams ==> u.section.name != name
    {
      k := 0;
      while k < |upstreams|
        invariant k <= |upstreams| && forall j :: 0 <= j < k ==> upstreams[j].section.name != name
      {
        if upstreams[k].section.name == name {
          return;
        }
        k := k + 1;
      }
    }
  }

  /** The upstreams whose names are not among these, in order. */
  function Staying(us: seq<Running>, gone: set<string>): seq<Running> {
    if us == [] then []
    else
      var last := us[|us| - 1];
      Staying(us[..|us| - 1], gone) + if last.section.name in gone then [] else [last]
  }

  lemma {:induction false} StayingAre(us: seq<Running>, gone: set<string>, u: Running)
    ensures u in Staying(us, gone) <==> u in us && u.section.name !in gone
    decreases |us|
  {
    if us != [] {
      StayingAre(us[..|us| - 1], gone, u);
      assert us == us[..|us| - 1] + [us[|us| - 1]];
    }
  }

  lemma StayingIs(us: seq<Running>, gone: set<string>)
    requires DistinctNames(us)
    ensures DistinctNames(Staying(us, gone))
    ensures forall u :: u in Staying(us, gone) <==> u in us && u.section.name !in gone
  {
    StayingDistinct(us, gone);
    forall u ensures u in Staying(us, gone) <==> u in us && u.section.name !in gone {
      StayingAre(us, gone, u);
    }
  }

  lemma {:induction false} StayingAppend(a: seq<Running>, b: seq<Running>, gone: set<string>)
    ensures Staying(a + b, gone) == Staying(a, gone) + Staying(b, gone)
    decreases |b|
  {
    if b == [] {
      assert a + b == a;
    } else {
      StayingAppend(a, b[..|b| - 1], gone);
      assert (a + b)[..|a + b| - 1] == a + b[..|b| - 1];
    }
  }

  lemma {:induction false} StayingNone(us: seq<Running>, gone: set<string>)
    requires forall u :: u in us ==> u.section.name !in gone
    ensures Staying(us, gone) == us
    decreases |us|
  {
    if us != [] {
      assert us[|us| - 1] in us;
      StayingNone(us[..|us| - 1], gone);
    }
  }

  lemma {:induction false} StayingTwice(us: seq<Running>, a: set<string>, b: set<string>)
    ensures Staying(Staying(us, a), b) == Staying(us, a + b)
    decreases |us|
  {
    if us != [] {
      var before, last := us[..|us| - 1], us[|us| - 1];
      var kept := Staying(before, a);
      StayingTwice(before, a, b);
      if last.section.name in a {
        assert Staying(us, a) == kept;
      } else {
        StayingAppend(kept, [last], b);
        StayingLast(last, b);
      }
    }
  }

  lemma StayingLast(u: Running, gone: set<string>)
    ensures Staying([u], gone) == if u.section.name in gone then [] else [u]
  {
    assert [u][..0] == [];
    assert Staying([], gone) == [];
  }

  lemma StayingOne(us: seq<Running>, k: nat)
    requires k < |us| && DistinctNames(us)
    ensures us[..k] + us[k + 1..] == Staying(us, {us[k].section.name})
  {
    var a, u, b, gone := us[..k], us[k], us[k + 1..], {us[k].section.name};
    assert us == (a + [u]) + b;
    StayingAppend(a + [u], b, gone);
    StayingAppend(a, [u], gone);
    StayingLast(u, gone);
    StayingNone(a, gone);
    StayingNone(b, gone);
    assert a + [] == a;
  }

  lemma {:induction false} StayingDistinct(us: seq<Running>, gone: set<string>)
    requires DistinctNames(us)
    ensures DistinctNames(Staying(us, gone))
    decreases |us|
  {
    if us != [] {
      var before, last := us[..|us| - 1], us[|us| - 1];
      StayingDistinct(before, gone);
      forall u | u in Staying(before, gone) ensures u.section.name != last.section.name {
        StayingAre(before, gone, u);
      }
    }
  }

  /** What stays plus what was built is a reloaded gateway. */
  lemma AssembleReload(trim: string -> string, s: State, n: Config, p: Plan, stay: seq<Running>, built: seq<Running>)
    requires Inv(trim, s) && WellFormed(n) && IsPlan(trim, s.cfg, n, p)
    requires DistinctNames(stay)
    requires forall u :: u in stay <==> u in s.live && u.section.name !in SectionNames(p.remove + p.restart)
    requires |built| == |p.add + p.restart|
    requires forall i :: 0 <= i < |built| ==> built[i] == NewUpstream((p.add + p.restart)[i], n)
    ensures Reloaded(trim, s, n, State(n, stay + built))
  {
    var us := p.add + p.restart;
    forall i | 0 <= i < |stay| ensures Kept(trim, s, n, stay[i]) && stay[i].section in p.keep {
      StayIsKept(trim, s, n, p, stay[i]);
    }
    forall i | 0 <= i < |built| ensures Fresh(trim, s, n, built[i]) && us[i] == built[i].section {
      assert us[i] in p.add || us[i] in p.restart;
    }
    forall i, j | 0 <= i < j < |us| ensures us[i].name != us[j].name {
      if i < |p.add| <= j {
        assert us[i] in p.add && us[j] in p.restart;
      }
    }
    forall i, j | 0 <= i < |stay| && 0 <= j < |built| ensures stay[i].section.name != built[j].section.name {
      assert us[j] in p.add || us[j] in p.restart;
      PlanPartitions(trim, s.cfg, n, p, us[j].name);
      NameOf(p.add, us[j].name); NameOf(p.restart, us[j].name); NameOf(p.keep, us[j].name);
    }
    forall uc | uc in n.upstreams ensures HasName(stay + built, uc.name) {
      EveryNameRuns(trim, s, n, p, stay, built, uc);
    }
  }

  lemma StayIsKept(trim: string -> string, s: State, n: Config, p: Plan, u: Running)
    requires Inv(trim, s) && WellFormed(n) && IsPlan(trim, s.cfg, n, p)
    requires u in s.live && u.section.name !in SectionNames(p.remove + p.restart)
    ensures Kept(trim, s, n, u) && u.section in p.keep
  {
    var k :| 0 <= k < |s.live| && s.live[k] == u;
    assert UpToDate(trim, s.cfg, u);
    var name := u.section.name;
    NameOf(s.cfg.upstreams, name); NameOf(n.upstreams, name); NameOf(p.remove + p.restart, name);
    assert name in SectionNames(n.upstreams) by {
      assert u.section in p.remove ==> u.section in p.remove + p.restart;
    }
    var uc :| uc in n.upstreams && uc.name == name;
    assert uc !in p.restart by {
      assert uc in p.restart ==> uc in p.remove + p.restart;
    }
    assert uc in s.cfg.upstreams;
    SameName(s.cfg.upstreams, uc, u.section);
  }

  lemma SameName(us: seq<Section>, a: Section, b: Section)
    requires DistinctSections(us) && a in us && b in us && a.name == b.name
    ensures a == b
  {}

  lemma EveryNameRuns(trim: string -> string, s: State, n: Config, p: Plan, stay: seq<Running>, built: seq<Running>,
                      uc: Section)
    requires Inv(trim, s) && WellFormed(n) && IsPlan(trim, s.cfg, n, p) && uc in n.upstreams
    requires forall u :: u in stay <==> u in s.live && u.section.name !in SectionNames(p.remove + p.restart)
    requires |built| == |p.add + p.restart|
    requires forall i :: 0 <= i < |built| ==> built[i] == NewUpstream((p.add + p.restart)[i], n)
    ensures HasName(stay + built, uc.name)
  {
    if uc in p.add + p.restart {
      BuiltRuns(n, p, stay, built, uc);
    } else {
      assert uc !in p.add by { assert uc in p.add ==> uc in p.add + p.restart; }
      assert uc !in p.restart by { assert uc in p.restart ==> uc in p.add + p.restart; }
      KeptRuns(trim, s, n, p, stay, built, uc);
    }
  }

  lemma BuiltRuns(n: Config, p: Plan, stay: seq<Running>, built: seq<Running>, uc: Section)
    requires uc in p.add + p.restart && |built| == |p.add + p.restart|
    requires forall i :: 0 <= i < |built| ==> built[i] == NewUpstream((p.add + p.restart)[i], n)
    ensures HasName(stay + built, uc.name)
  {
    var us := p.add + p.restart;
    var i :| 0 <= i < |us| && us[i] == uc;
    assert built[i].section.name == uc.name;
    assert (stay + built)[|stay| + i] == built[i];
  }

  lemma KeptRuns(trim: string -> string, s: State, n: Config, p: Plan, stay: seq<Running>, built: seq<Running>,
                 uc: Section)
    requires Inv(trim, s) && WellFormed(n) && IsPlan(trim, s.cfg, n, p) && uc in n.upstreams && uc !in p.add
    requires uc !in p.restart
    requires forall u :: u in stay <==> u in s.live && u.section.name !in SectionNames(p.remove + p.restart)
    ensures HasName(stay + built, uc.name)
  {
    assert uc in p.keep && uc in s.cfg.upstreams;
    var k :| 0 <= k < |s.live| && s.live[k].section.name == uc.name;
    NotGone(trim, s.cfg, n, p, uc);
    assert s.live[k] in stay;
    var i :| 0 <= i < |stay| && stay[i] == s.live[k];
    assert (stay + built)[i] == stay[i];
  }

  lemma NotGone(trim: string -> string, o: Config, n: Config, p: Plan, uc: Section)
    requires WellFormed(n) && IsPlan(trim, o, n, p) && uc in n.upstreams && uc !in p.restart
    ensures uc.name !in SectionNames(p.remove + p.restart)
  {
    NameOf(p.remove + p.restart, uc.name);
    NameOf(n.upstreams, uc.name);
    forall x | x in p.restart && x.name == uc.name ensures x == uc {
      SameName(n.upstreams, x, uc);
    }
  }

  // ----- what a reload promises

  /** A reload keeps the gateway up to date, however many reloads an upstream has lived through. */
  lemma ReloadKeepsInv(trim: string -> string, s: State, n: Config, t: State)
    requires Inv(trim, s) && Reloaded(trim, s, n, t)
    ensures Inv(trim, t)
  {
    forall i | 0 <= i < |t.live| ensures UpToDate(trim, n, t.live[i]) {
      var u := t.live[i];
      if !Fresh(trim, s, n, u) {
        var k :| 0 <= k < |s.live| && s.live[k] == u;
        assert UpToDate(trim, s.cfg, u);
        KeptSecrets(trim, s, n, u);
      }
    }
  }

  lemma KeptSecrets(trim: string -> string, s: State, n: Config, u: Running)
    requires WellFormed(s.cfg) && WellFormed(n) && UpToDate(trim, s.cfg, u) && Kept(trim, s, n, u)
    ensures forall x :: Refers(trim, u.section, x) ==> Look(u.secrets, x) == Look(SecretsByName(n.secrets), x)
  {
    SecretsByNameKeys(s.cfg.secrets);
    SecretsByNameKeys(n.secrets);
    forall x | Refers(trim, u.section, x) ensures Look(u.secrets, x) == Look(SecretsByName(n.secrets), x) {
      var v :| v in Values(u.section) && x in Names(Tokenize(trim, v, 0));
      assert !ValueChanged(trim, v, SecretsByName(s.cfg.secrets), SecretsByName(n.secrets));
      assert Get(SecretsByName(s.cfg.secrets), x) == Get(SecretsByName(n.secrets), x);
    }
  }

  /** A sequence of reloads, successful or rejected. */
  ghost predicate Run(trim: string -> string, tr: seq<State>) {
    forall i {:trigger StepAt(trim, tr, i)} :: 0 <= i < |tr| - 1 ==> StepAt(trim, tr, i)
  }

  ghost predicate StepAt(trim: string -> string, tr: seq<State>, i: nat)
    requires i + 1 < |tr|
  {
    tr[i + 1] == tr[i] || Reloaded(trim, tr[i], tr[i + 1].cfg, tr[i + 1])
  }

  lemma {:induction false} RunKeepsInv(trim: string -> string, tr: seq<State>, k: nat)
    requires Run(trim, tr) && k < |tr| && Inv(trim, tr[0])
    ensures Inv(trim, tr[k])
  {
    if k > 0 {
      RunKeepsInv(trim, tr, k - 1);
      assert StepAt(trim, tr, k - 1);
      StepKeepsInv(trim, tr[k - 1], tr[k]);
    }
  }

  lemma StepKeepsInv(trim: string -> string, s: State, t: State)
    requires Inv(trim, s) && (t == s || Reloaded(trim, s, t.cfg, t))
    ensures Inv(trim, t)
  {
    if t != s {
      ReloadKeepsInv(trim, s, t.cfg, t);
    }
  }

  /** The resolver an upstream holds: a secret resolves through its definition. */
  function Resolver(source: Secret -> Resolved, secrets: map<string, Secret>): string -> Resolved {
    name => if name in secrets then source(secrets[name]) else Unresolved("secret not found")
  }

  /** After any number of reloads exactly the configured names run, and each running upstream interpolates
      its environment and headers, and redacts, exactly as one built now would. */
  lemma RunningMatchesConfig(trim: string -> string, source: Secret -> Resolved, tr: seq<State>, k: nat, i: nat,
                             v: string)
    requires Run(trim, tr) && k < |tr| && Inv(trim, tr[0])
    requires i < |tr[k].live|
    ensures var s := tr[k]; var u := s.live[i];
            && u.section in s.cfg.upstreams
            && u.redactor == NewUpstream(u.section, s.cfg).redactor
            && (v in Values(u.section) ==>
                  Interpolation(trim, Resolver(source, u.secrets), v)
                  == Interpolation(trim, Resolver(source, SecretsByName(s.cfg.secrets)), v))
    ensures forall name :: HasName(tr[k].live, name) <==> name in SectionNames(tr[k].cfg.upstreams)
  {
    RunKeepsInv(trim, tr, k);
    var s := tr[k];
    var u := s.live[i];
    assert UpToDate(trim, s.cfg, u);
    if v in Values(u.section) {
      forall n | n in Names(Tokenize(trim, v, 0))
        ensures Resolver(source, u.secrets)(n) == Resolver(source, SecretsByName(s.cfg.secrets))(n)
      {
        assert Refers(trim, u.section, n);
        assert Look(u.secrets, n) == Look(SecretsByName(s.cfg.secrets), n);
      }
      DependsOnReferences(trim, Resolver(source, u.secrets), Resolver(source, SecretsByName(s.cfg.secrets)), v);
    }
    forall name ensures HasName(s.live, name) <==> name in SectionNames(s.cfg.upstreams) {
      NameOf(s.cfg.upstreams, name);
    }
  }

  /** And each runs with the secrets its section mentions as they are configured now, and with the redaction of its own
      section or else the global one, if that is enabled. */
  lemma RunningHoldsConfig(trim: string -> string, tr: seq<State>, k: nat, i: nat)
    requires Run(trim, tr) && k < |tr| && Inv(trim, tr[0]) && i < |tr[k].live|
    ensures
      var c, u := tr[k].cfg, tr[k].live[i];
      forall x, s :: Mentions(trim, u.section, x) ==>
        (Look(u.secrets, x) == Some(s) <==> s in c.secrets && s.name == x)
    ensures
      var c, u := tr[k].cfg, tr[k].live[i];
      match u.section.redact
      case Some(own) => u.redactor == if own.enabled then Some(own) else None
      case None => u.redactor == if c.redact.enabled then Some(c.redact) else None
  {
    RunningIsUpToDate(trim, tr, k, i);
    var c, u := tr[k].cfg, tr[k].live[i];
    forall x | Mentions(trim, u.section, x)
      ensures forall s :: Look(u.secrets, x) == Some(s) <==> s in c.secrets && s.name == x
    {
      HeldAreConfigured(trim, c, u, x);
    }
  }

  lemma HeldIsConfigured(trim: string -> string, c: Config, u: Running, x: string, s: Secret)
    requires WellFormed(c) && UpToDate(trim, c, u) && Mentions(trim, u.section, x)
    ensures Look(u.secrets, x) == Some(s) <==> s in c.secrets && s.name == x
  {
    MentionsIsRefers(trim, u.section, x);
    SecretsByNameAre(c.secrets, x, s);
  }

  /** So a secret that its section mentions resolves through the definition configured now, or to nothing if there is
      none. */
  lemma RunningResolves(trim: string -> string, source: Secret -> Resolved, tr: seq<State>, k: nat, i: nat, x: string)
    requires Run(trim, tr) && k < |tr| && Inv(trim, tr[0]) && i < |tr[k].live|
    requires Mentions(trim, tr[k].live[i].section, x)
    ensures forall s :: s in tr[k].cfg.secrets && s.name == x ==>
      Resolver(source, tr[k].live[i].secrets)(x) == source(s)
    ensures (forall s :: s in tr[k].cfg.secrets ==> s.name != x) ==>
      Resolver(source, tr[k].live[i].secrets)(x).Unresolved?
  {
    RunningIsUpToDate(trim, tr, k, i);
    var c, u := tr[k].cfg, tr[k].live[i];
    HeldAreConfigured(trim, c, u, x);
    ResolvesThrough(source, c.secrets, u.secrets, x);
  }

  lemma HeldAreConfigured(trim: string -> string, c: Config, u: Running, x: string)
    requires WellFormed(c) && UpToDate(trim, c, u) && Mentions(trim, u.section, x)
    ensures forall s :: Look(u.secrets, x) == Some(s) <==> s in c.secrets && s.name == x
  {
    forall s ensures Look(u.secrets, x) == Some(s) <==> s in c.secrets && s.name == x {
      HeldIsConfigured(trim, c, u, x, s);
    }
  }

  lemma RunningIsUpToDate(trim: string -> string, tr: seq<State>, k: nat, i: nat)
    requires Run(trim, tr) && k < |tr| && Inv(trim, tr[0]) && i < |tr[k].live|
    ensures WellFormed(tr[k].cfg) && UpToDate(trim, tr[k].cfg, tr[k].live[i])
  {
    RunKeepsInv(trim, tr, k);
  }

  lemma ResolvesThrough(source: Secret -> Resolved, configured: seq<Secret>, held: map<string, Secret>, x: string)
    requires forall s :: Look(held, x) == Some(s) <==> s in configured && s.name == x
    ensures forall s :: s in configured && s.name == x ==> Resolver(source, held)(x) == source(s)
    ensures (forall s :: s in configured ==> s.name != x) ==> Resolver(source, held)(x).Unresolved?
  {
    if x in held {
      assert Look(held, x) == Some(held[x]);
    }
    forall s | s in configured && s.name == x ensures Resolver(source, held)(x) == source(s) {
      assert Look(held, x) == Some(s);
    }
  }

  /** A new upstream is built from its section with every configured secret. */
  lemma NewUpstreamHolds(uc: Section, c: Config, x: string, s: Secret)
    requires WellFormed(c)
    ensures NewUpstream(uc, c).section == uc
    ensures Look(NewUpstream(uc, c).secrets, x) == Some(s) <==> s in c.secrets && s.name == x
  {
    SecretsByNameAre(c.secrets, x, s);
  }
}
