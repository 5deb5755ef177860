/**
 Secret references in configured strings (internal/gateway/secret.go): the `{secret:NAME}`
 parser, the scanner that lists the names and the one that substitutes their values.

 `Tokenize` cuts a string into literal bytes and references; both scanners are proved to
 walk exactly these tokens. White-space trimming is a parameter: nothing depends on which
 characters count as space.
 */
module Secrets {
  import opened Options

  datatype Resolved = Value(value: string) | Unresolved(error: string)

  datatype Interpolated = Text(text: string) | Failed(error: string)

  /** A reference found by the parser: its name, and the index just past its closing brace. */
  datatype Reference = Reference(name: string, end: nat)

  function IndexOf(s: string, c: char): (i: int)
    ensures -1 <= i < |s|
    ensures i >= 0 ==> s[i] == c && forall j :: 0 <= j < i ==> s[j] != c
    ensures i < 0 ==> c !in s
  {
    if s == "" then -1
    else if s[0] == c then 0
    else
      var i := IndexOf(s[1..], c);
      if i < 0 then -1 else i + 1
  }

  predicate SecretNameChar(b: char) {
    'A' <= b <= 'Z' || 'a' <= b <= 'z' || '0' <= b <= '9' || b == '_' || b == '.' || b == '-'
  }

  ghost predicate SecretName(s: string) {
    s != "" && forall i :: 0 <= i < |s| ==> SecretNameChar(s[i])
  }

  method IsValidSecretName(s: string) returns (ok: bool)
    ensures ok <==> SecretName(s)
  {
    if s == "" {
      return false;
    }
    for i := 0 to |s|
      invariant forall j :: 0 <= j < i ==> SecretNameChar(s[j])
    {
      if !SecretNameChar(s[i]) {
        return false;
      }
    }
    return true;
  }

  /** The name that the text between two braces refers to, if it is a reference. */
  function InnerName(trim: string -> string, text: string): (r: Option<string>)
    ensures r.Some? ==> SecretName(r.value)
  {
    var inner := trim(text);
    var colon := IndexOf(inner, ':');
    if colon < 0 || trim(inner[..colon]) != "secret" then None
    else
      var n := trim(inner[colon + 1..]);
      if n == "" || exists k :: 0 <= k < |n| && !SecretNameChar(n[k]) then None else Some(n)
  }

  /** The token starting at position `i`, if one does. */
  function ParseSecretRef(trim: string -> string, s: string, i: nat): (r: Option<Reference>)
    ensures r.Some? ==> i + 1 < r.value.end <= |s| && s[i] == '{' && s[r.value.end - 1] == '}'
    ensures r.Some? ==> '}' !in s[i + 1..r.value.end - 1] && SecretName(r.value.name)
  {
    if i >= |s| || s[i] != '{' then None
    else
      var close := IndexOf(s[i + 1..], '}');
      if close < 0 then None
      else
        var inner := s[i + 1..i + 1 + close];
        assert forall k :: 0 <= k < |inner| ==> inner[k] == s[i + 1..][k];
        var n := InnerName(trim, inner);
        if n.None? then None else Some(Reference(n.value, i + close + 2))
  }

  // ----- tokens

  datatype Token = Lit(c: char) | Ref(name: string, text: string)

  /** Where the scan goes next from position `i`. */
  function Next(trim: string -> string, s: string, i: nat): (j: nat)
    requires i < |s|
    ensures i < j <= |s|
  {
    var r := ParseSecretRef(trim, s, i);
    if r.None? then i + 1 else r.value.end
  }

  function TokenFrom(trim: string -> string, s: string, i: nat): (t: Token)
    requires i < |s|
    ensures TextOf(t) == s[i..Next(trim, s, i)]
  {
    var r := ParseSecretRef(trim, s, i);
    if r.None? then Lit(s[i]) else Ref(r.value.name, s[i..r.value.end])
  }

  function Tokenize(trim: string -> string, s: string, i: nat): seq<Token>
    decreases |s| - i
  {
    if i >= |s| then [] else [TokenFrom(trim, s, i)] + Tokenize(trim, s, Next(trim, s, i))
  }

  /** A token's text in the input, and what it becomes; a reference that does not resolve stays as written. */
  function TextOf(t: Token): string { if t.Lit? then [t.c] else t.text }

  function ValueOf(resolve: string -> Resolved, t: Token): string {
    match t
    case Lit(c) => [c]
    case Ref(name, text) => if resolve(name).Value? then resolve(name).value else text
  }

  function Source(ts: seq<Token>): string {
    if ts == [] then "" else TextOf(ts[0]) + Source(ts[1..])
  }

  function NamesIn(t: Token): seq<string> { if t.Lit? then [] else [t.name] }

  function Names(ts: seq<Token>): seq<string> {
    if ts == [] then [] else NamesIn(ts[0]) + Names(ts[1..])
  }

  /** The text after substitution. */
  function Render(resolve: string -> Resolved, ts: seq<Token>): string {
    if ts == [] then "" else ValueOf(resolve, ts[0]) + Render(resolve, ts[1..])
  }

  /** The error of the last reference that does not resolve. */
  function LastError(resolve: string -> Resolved, names: seq<string>): Option<string> {
    if names == [] then None
    else
      var last := resolve(names[|names| - 1]);
      if last.Unresolved? then Some(last.error) else LastError(resolve, names[..|names| - 1])
  }

  ghost function Interpolation(trim: string -> string, resolve: string -> Resolved, s: string): Interpolated {
    var ts := Tokenize(trim, s, 0);
    var err := LastError(resolve, Names(ts));
    if err.Some? then Failed(err.value) else Text(Render(resolve, ts))
  }

  lemma Cons(resolve: string -> Resolved, t: Token, ts: seq<Token>)
    ensures Names([t] + ts) == NamesIn(t) + Names(ts)
    ensures Render(resolve, [t] + ts) == ValueOf(resolve, t) + Render(resolve, ts)
  {
    assert ([t] + ts)[1..] == ts;
  }

  lemma SourceCons(t: Token, ts: seq<Token>)
    ensures Source([t] + ts) == TextOf(t) + Source(ts)
  {
    assert ([t] + ts)[1..] == ts;
  }

  lemma Cut(s: string, i: nat, j: nat)
    requires i <= j <= |s|
    ensures s[i..] == s[i..j] + s[j..]
  {}

  lemma {:induction false} SourceOfTokens(trim: string -> string, s: string, i: nat)
    requires i <= |s|
    ensures Source(Tokenize(trim, s, i)) == s[i..]
    decreases |s| - i
  {
    if i < |s| {
      var next := Next(trim, s, i);
      SourceOfTokens(trim, s, next);
      SourceCons(TokenFrom(trim, s, i), Tokenize(trim, s, next));
      Cut(s, i, next);
    }
  }

  /** The name of the reference at `i`, if any. */
  function NameAt(trim: string -> string, s: string, i: nat): seq<string>
    requires i < |s|
  {
    NamesIn(TokenFrom(trim, s, i))
  }

  /** What the token at `i` becomes. */
  function TextAt(trim: string -> string, resolve: string -> Resolved, s: string, i: nat): string
    requires i < |s|
  {
    ValueOf(resolve, TokenFrom(trim, s, i))
  }

  lemma TokenAt(trim: string -> string, resolve: string -> Resolved, s: string, i: nat)
    requires i < |s|
    ensures Names(Tokenize(trim, s, i)) == NameAt(trim, s, i) + Names(Tokenize(trim, s, Next(trim, s, i)))
    ensures Render(resolve, Tokenize(trim, s, i))
         == TextAt(trim, resolve, s, i) + Render(resolve, Tokenize(trim, s, Next(trim, s, i)))
  {
    Cons(resolve, TokenFrom(trim, s, i), Tokenize(trim, s, Next(trim, s, i)));
  }

  lemma Reassociate<T>(a: seq<T>, b: seq<T>, c: seq<T>)
    ensures a + (b + c) == (a + b) + c
  {}

  // ----- the scanners

  /** extractSecretRefs, run to the end: the index jumps past each reference. */
  method ExtractSecretRefs(trim: string -> string, s: string) returns (names: seq<string>)
    ensures names == Names(Tokenize(trim, s, 0))
  {
    names := [];
    var i := 0;
    while i < |s|
      invariant 0 <= i <= |s|
      invariant names + Names(Tokenize(trim, s, i)) == Names(Tokenize(trim, s, 0))
    {
      TokenAt(trim, name => Unresolved(""), s, i);
      Reassociate(names, NameAt(trim, s, i), Names(Tokenize(trim, s, Next(trim, s, i))));
      names, i := ExtractToken(trim, s, names, i);
    }
    assert names + [] == names;
  }

  /** One iteration of extractSecretRefs, up to and including the loop increment. */
  method ExtractToken(trim: string -> string, s: string, names: seq<string>, i: nat)
    returns (names': seq<string>, i': nat)
    requires i < |s|
    ensures i' == Next(trim, s, i) && names' == names + NameAt(trim, s, i)
  {
    names', i' := names, i;
    if s[i] == '{' {
      var r := ParseSecretRef(trim, s, i);
      if r.Some? {
        names' := names + [r.value.name];
        i' := r.value.end - 1;
      }
    }
    i' := i' + 1;
  }

  /** Interpolate with a resolver; `asked` is the sequence of names it resolves. */
  method Interpolate(trim: string -> string, resolve: string -> Resolved, s: string)
    returns (r: Interpolated, asked: seq<string>)
    ensures r == Interpolation(trim, resolve, s)
    ensures asked == Names(Tokenize(trim, s, 0))
  {
    var b := "";
    var merr: Option<string> := None;
    asked := [];
    var i := 0;
    while i < |s|
      invariant 0 <= i <= |s|
      invariant asked + Names(Tokenize(trim, s, i)) == Names(Tokenize(trim, s, 0))
      invariant b + Render(resolve, Tokenize(trim, s, i)) == Render(resolve, Tokenize(trim, s, 0))
      invariant merr == LastError(resolve, asked)
    {
      TokenAt(trim, resolve, s, i);
      Reassociate(asked, NameAt(trim, s, i), Names(Tokenize(trim, s, Next(trim, s, i))));
      Reassociate(b, TextAt(trim, resolve, s, i), Render(resolve, Tokenize(trim, s, Next(trim, s, i))));
      LastErrorSnoc(resolve, asked, NameAt(trim, s, i));
      b, merr, asked, i := InterpolateToken(trim, resolve, s, b, merr, asked, i);
    }
    assert asked + [] == asked && b + "" == b;
    if merr.Some? {
      return Failed(merr.value), asked;
    }
    return Text(b), asked;
  }

  /** One iteration of Interpolate. */
  method InterpolateToken(trim: string -> string, resolve: string -> Resolved, s: string,
                          b: string, merr: Option<string>, asked: seq<string>, i: nat)
    returns (b': string, merr': Option<string>, asked': seq<string>, i': nat)
    requires i < |s|
    ensures i' == Next(trim, s, i) && asked' == asked + NameAt(trim, s, i) && b' == b + TextAt(trim, resolve, s, i)
    ensures merr' == var name := NameAt(trim, s, i);
                     if name != [] && resolve(name[0]).Unresolved? then Some(resolve(name[0]).error) else merr
  {
    merr', asked' := merr, asked;
    if s[i] != '{' {
      b', i' := b + [s[i]], i + 1;
      return;
    }
    var p := ParseSecretRef(trim, s, i);
    if p.None? {
      b', i' := b + [s[i]], i + 1;
      return;
    }
    var v := resolve(p.value.name);
    asked' := asked + [p.value.name];
    if v.Unresolved? {
      merr' := Some(v.error);
      b' := b + s[i..p.value.end];
    } else {
      b' := b + v.value;
    }
    i' := p.value.end;
  }

  lemma LastErrorSnoc(resolve: string -> Resolved, names: seq<string>, name: seq<string>)
    requires |name| <= 1
    ensures LastError(resolve, names + name)
         == if name != [] && resolve(name[0]).Unresolved? then Some(resolve(name[0]).error)
             else LastError(resolve, names)
  {
    if name == [] {
      assert names + name == names;
    } else {
      assert (names + name)[..|names|] == names;
    }
  }

  // ----- what interpolation promises

  lemma {:induction false} LastErrorSpec(resolve: string -> Resolved, names: seq<string>)
    ensures LastError(resolve, names).None? <==> forall n :: n in names ==> resolve(n).Value?
    ensures LastError(resolve, names).Some? ==>
            exists k :: 0 <= k < |names| && resolve(names[k]) == Unresolved(LastError(resolve, names).value)
                        && forall j :: k < j < |names| ==> resolve(names[j]).Value?
  {
    if names != [] {
      var k := |names| - 1;
      LastErrorSpec(resolve, names[..k]);
      assert names == names[..k] + [names[k]];
      if resolve(names[k]).Value? && LastError(resolve, names).Some? {
        var j :| 0 <= j < k && resolve(names[..k][j]) == Unresolved(LastError(resolve, names[..k]).value)
                 && forall m :: j < m < k ==> resolve(names[..k][m]).Value?;
        assert forall m :: j < m < |names| ==> resolve(names[m]).Value?;
      }
    }
  }

  /** Interpolation succeeds exactly when every reference resolves. */
  lemma SucceedsIffAllResolve(trim: string -> string, resolve: string -> Resolved, s: string)
    ensures Interpolation(trim, resolve, s).Text? <==> forall n :: n in Names(Tokenize(trim, s, 0)) ==>
            resolve(n).Value?
  {
    LastErrorSpec(resolve, Names(Tokenize(trim, s, 0)));
  }

  /** A string without references is returned unchanged, whatever the resolver. */
  lemma IdentityWithoutReferences(trim: string -> string, resolve: string -> Resolved, s: string)
    requires Names(Tokenize(trim, s, 0)) == []
    ensures Interpolation(trim, resolve, s) == Text(s)
  {
    RenderLiterals(resolve, Tokenize(trim, s, 0));
    SourceOfTokens(trim, s, 0);
  }

  lemma {:induction false} RenderLiterals(resolve: string -> Resolved, ts: seq<Token>)
    requires Names(ts) == []
    ensures Render(resolve, ts) == Source(ts)
  {
    if ts != [] {
      RenderLiterals(resolve, ts[1..]);
    }
  }

  lemma {:induction false} RenderAppend(resolve: string -> Resolved, a: seq<Token>, b: seq<Token>)
    ensures Render(resolve, a + b) == Render(resolve, a) + Render(resolve, b)
    decreases |a|
  {
    if a == [] {
      assert a + b == b;
    } else {
      RenderAppend(resolve, a[1..], b);
      assert (a + b)[1..] == a[1..] + b;
      Reassociate(ValueOf(resolve, a[0]), Render(resolve, a[1..]), Render(resolve, b));
    }
  }

  lemma {:induction false} SourceAppend(a: seq<Token>, b: seq<Token>)
    ensures Source(a + b) == Source(a) + Source(b)
    decreases |a|
  {
    if a == [] {
      assert a + b == b;
    } else {
      SourceAppend(a[1..], b);
      assert (a + b)[1..] == a[1..] + b;
      Reassociate(TextOf(a[0]), Source(a[1..]), Source(b));
    }
  }

  lemma TokenStands(resolve: string -> Resolved, ts: seq<Token>, k: nat)
    requires k < |ts|
    ensures Source(ts) == Source(ts[..k]) + (TextOf(ts[k]) + Source(ts[k + 1..]))
    ensures Render(resolve, ts) == Render(resolve, ts[..k]) + (ValueOf(resolve, ts[k]) + Render(resolve, ts[k + 1..]))
  {
    SourceStands(ts, k);
    RenderStands(resolve, ts, k);
  }

  lemma SourceStands(ts: seq<Token>, k: nat)
    requires k < |ts|
    ensures Source(ts) == Source(ts[..k]) + (TextOf(ts[k]) + Source(ts[k + 1..]))
  {
    var rest := ts[k..];
    assert ts == ts[..k] + rest;
    SourceAppend(ts[..k], rest);
    assert rest[0] == ts[k] && rest[1..] == ts[k + 1..];
  }

  lemma RenderStands(resolve: string -> Resolved, ts: seq<Token>, k: nat)
    requires k < |ts|
    ensures Render(resolve, ts) == Render(resolve, ts[..k]) + (ValueOf(resolve, ts[k]) + Render(resolve, ts[k + 1..]))
  {
    var rest := ts[k..];
    assert ts == ts[..k] + rest;
    RenderAppend(resolve, ts[..k], rest);
    assert rest[0] == ts[k] && rest[1..] == ts[k + 1..];
  }

  /** Every token stands in the input where the tokens before it end, and in the output where their values end. So each
      byte outside a reference is copied verbatim and in order, for every resolver, and nothing else is put between. */
  lemma OutsideIsVerbatim(trim: string -> string, resolve: string -> Resolved, s: string, k: nat)
    requires k < |Tokenize(trim, s, 0)|
    ensures
      var ts, out := Tokenize(trim, s, 0), Render(resolve, Tokenize(trim, s, 0));
      var p, q := |Source(ts[..k])|, |Render(resolve, ts[..k])|;
      && s == Source(ts[..k]) + (TextOf(ts[k]) + Source(ts[k + 1..]))
      && out == Render(resolve, ts[..k]) + (ValueOf(resolve, ts[k]) + Render(resolve, ts[k + 1..]))
      && (ts[k].Lit? ==> p < |s| && q < |out| && out[q] == s[p])
  {
    var ts := Tokenize(trim, s, 0);
    SourceOfTokens(trim, s, 0);
    assert s[0..] == s;
    TokenStands(resolve, ts, k);
  }

  /** A reference whose name resolves becomes its value, in place. */
  lemma ResolvedIsSubstituted(trim: string -> string, resolve: string -> Resolved, s: string, k: nat, v: string)
    requires k < |Tokenize(trim, s, 0)| && Tokenize(trim, s, 0)[k].Ref?
    requires resolve(Tokenize(trim, s, 0)[k].name) == Value(v)
    ensures
      var ts := Tokenize(trim, s, 0);
      Render(resolve, ts) == Render(resolve, ts[..k]) + (v + Render(resolve, ts[k + 1..]))
  {
    TokenStands(resolve, Tokenize(trim, s, 0), k);
  }

  /** Interpolation only looks at the names the extractor yields. */
  lemma DependsOnReferences(trim: string -> string, r1: string -> Resolved, r2: string -> Resolved, s: string)
    requires forall n :: n in Names(Tokenize(trim, s, 0)) ==> r1(n) == r2(n)
    ensures Interpolation(trim, r1, s) == Interpolation(trim, r2, s)
  {
    RenderAgrees(r1, r2, Tokenize(trim, s, 0));
    LastErrorAgrees(r1, r2, Names(Tokenize(trim, s, 0)));
  }

  lemma {:induction false} RenderAgrees(r1: string -> Resolved, r2: string -> Resolved, ts: seq<Token>)
    requires forall n :: n in Names(ts) ==> r1(n) == r2(n)
    ensures Render(r1, ts) == Render(r2, ts)
  {
    if ts != [] {
      assert ts[0].Ref? ==> Names(ts)[0] == ts[0].name;
      RenderAgrees(r1, r2, ts[1..]);
    }
  }

  lemma {:induction false} LastErrorAgrees(r1: string -> Resolved, r2: string -> Resolved, names: seq<string>)
    requires forall n :: n in names ==> r1(n) == r2(n)
    ensures LastError(r1, names) == LastError(r2, names)
  {
    if names != [] {
      assert names[|names| - 1] in names;
      LastErrorAgrees(r1, r2, names[..|names| - 1]);
    }
  }

  // ----- the syntax

  /** The text between braces refers to a name when it trims to "secret:NAME". */
  predicate Writes(trim: string -> string, inner: string, name: string) {
    && name != "" && (forall i :: 0 <= i < |name| ==> SecretNameChar(name[i]))
    && '}' !in inner && trim(inner) == "secret" + [':'] + name
    && trim("secret") == "secret" && trim(name) == name
  }

  lemma WrittenName(trim: string -> string, inner: string, name: string)
    requires Writes(trim, inner, name)
    ensures InnerName(trim, inner) == Some(name)
  {
    var t := "secret" + [':'] + name;
    FirstIndex("secret", ':', name);
    assert t[..6] == "secret" && t[7..] == name;
  }

  /** Such text in braces is a reference to that name, wherever it stands, ending at the closing brace. */
  lemma WrittenReferenceParses(trim: string -> string, before: string, inner: string, name: string, after: string)
    requires Writes(trim, inner, name)
    ensures ParseSecretRef(trim, before + ['{'] + (inner + ['}'] + after), |before|)
         == Some(Reference(name, |before| + 1 + |inner| + 1))
  {
    WrittenName(trim, inner, name);
    var rest, i := inner + ['}'] + after, |before|;
    var s := before + ['{'] + rest;
    Tail(before + ['{'], rest);
    assert s[i + 1..] == rest;
    FirstIndex(inner, '}', after);
    assert s[i + 1..i + 1 + |inner|] == rest[..|inner|] == inner;
  }

  lemma Tail(a: string, b: string)
    ensures (a + b)[|a|..] == b
  {}

  lemma {:induction false} FirstIndex(a: string, c: char, b: string)
    requires c !in a
    ensures IndexOf(a + [c] + b, c) == |a|
  {
    if a != "" {
      FirstIndex(a[1..], c, b);
      assert (a + [c] + b)[1..] == a[1..] + [c] + b;
    }
  }

  // ----- without a resolver

  predicate Contains(s: string, part: string) {
    exists i :: 0 <= i <= |s| && part <= s[i..]
  }

  /** Interpolate without a resolver: only the text "{secret:" is looked for. */
  function WithoutResolver(s: string): Interpolated {
    if Contains(s, "{secret:") then Failed("secrets present but no resolver") else Text(s)
  }

  /** Without a resolver a lone reference is refused exactly when nothing stands between its brace and its keyword;
      one with white space there passes through unresolved. */
  lemma RefusedIffTight(inner: string)
    requires '{' !in inner && '}' !in inner
    ensures WithoutResolver(['{'] + inner + ['}']).Failed? <==> "secret:" <= inner
  {
    var s := ['{'] + inner + ['}'];
    if "secret:" <= inner {
      assert s[0..] == s && "{secret:" == ['{'] + "secret:";
      assert "{secret:" <= s[0..];
    }
    if i :| 0 <= i <= |s| && "{secret:" <= s[i..] {
      assert s[i] == s[i..][0] == '{';
      assert i == 0 && s[0..] == s;
      assert "secret:" == ("{secret:")[1..] == s[1..8];
      assert s[7] == ':' && 7 <= |inner|;
      assert s[1..8] == inner[..7];
    }
  }

  /** Such a reference is one to both scanners all the same. */
  lemma LoneReferenceIsToken(trim: string -> string, inner: string, name: string)
    requires Writes(trim, inner, name)
    ensures Tokenize(trim, ['{'] + inner + ['}'], 0) == [Ref(name, ['{'] + inner + ['}'])]
  {
    var s := ['{'] + inner + ['}'];
    assert s == "" + ['{'] + (inner + ['}'] + "");
    WrittenReferenceParses(trim, "", inner, name, "");
    assert s[0..|s|] == s;
    assert Tokenize(trim, s, |s|) == [];
  }

  /** For instance this one. */
  lemma SpacedReferencePasses(trim: string -> string)
    requires trim(" secret:a") == "secret" + [':'] + "a" && trim("secret") == "secret" && trim("a") == "a"
    ensures
      var s := ['{'] + " secret:a" + ['}'];
      Tokenize(trim, s, 0) == [Ref("a", s)] && WithoutResolver(s) == Text(s)
  {
    RefusedIffTight(" secret:a");
    LoneReferenceIsToken(trim, " secret:a", "a");
  }

  /** In any string, a reference with its keyword right after its brace makes the call fail without a resolver. */
  lemma TightReferenceRefused(trim: string -> string, s: string, k: nat)
    requires k < |Tokenize(trim, s, 0)| && Tokenize(trim, s, 0)[k].Ref?
    requires "{secret:" <= Tokenize(trim, s, 0)[k].text
    ensures WithoutResolver(s).Failed?
  {
    var ts := Tokenize(trim, s, 0);
    SourceOfTokens(trim, s, 0);
    assert s[0..] == s;
    TokenStands(name => Unresolved(""), ts, k);
    ContainsMiddle(Source(ts[..k]), "{secret:", ts[k].text, Source(ts[k + 1..]));
  }

  lemma ContainsMiddle(a: string, part: string, b: string, c: string)
    requires part <= b
    ensures Contains(a + (b + c), part)
  {
    var s := a + (b + c);
    assert s[|a|..] == b + c;
    assert part <= s[|a|..];
  }

  /** Alone in the string it is the whole result. */
  lemma LoneReferenceResolves(trim: string -> string, resolve: string -> Resolved, inner: string, name: string,
                              v: string)
    requires Writes(trim, inner, name) && resolve(name) == Value(v)
    ensures Interpolation(trim, resolve, ['{'] + inner + ['}']) == Text(v)
  {
    LoneReferenceIsToken(trim, inner, name);
    OneTokenRenders(resolve, name, ['{'] + inner + ['}'], v);
  }

  lemma OneTokenRenders(resolve: string -> Resolved, name: string, text: string, v: string)
    requires resolve(name) == Value(v)
    ensures Names([Ref(name, text)]) == [name] && Render(resolve, [Ref(name, text)]) == v
    ensures LastError(resolve, [name]).None?
  {
    var t := Ref(name, text);
    assert [t][1..] == [] && [name][..0] == [];
    assert Names([]) == [] && Render(resolve, []) == "" && v + "" == v;
  }

  // ----- the syntax, exactly

  /** The characters of a secret name, by their codes: letters, digits, underscore, full stop and hyphen. */
  lemma SecretNameChars(b: char)
    ensures
      var c := b as int;
      SecretNameChar(b) <==> 65 <= c <= 90 || 97 <= c <= 122 || 48 <= c <= 57 || c == 95 || c == 46 || c == 45
  {}

  /** The text between two braces is a reference to a name exactly when it trims to a keyword, its first colon, and
      a rest such that the keyword trims to "secret" and the rest to the name, which is valid. */
  lemma InnerNameIff(trim: string -> string, text: string, keyword: string, rest: string)
    requires trim(text) == keyword + [':'] + rest && ':' !in keyword
    ensures InnerName(trim, text) ==
            if trim(keyword) == "secret" && SecretName(trim(rest)) then Some(trim(rest)) else None
  {
    var t := keyword + [':'] + rest;
    FirstIndex(keyword, ':', rest);
    assert t[..|keyword|] == keyword && t[|keyword| + 1..] == rest;
  }

  lemma NoColonNoName(trim: string -> string, text: string)
    requires ':' !in trim(text)
    ensures InnerName(trim, text).None?
  {}

  /** A token starts at a brace exactly when what stands before the next closing brace is a reference, and ends
      there. */
  lemma ParsesIff(trim: string -> string, s: string, i: nat, end: nat)
    requires i + 1 < end <= |s| && s[i] == '{' && s[end - 1] == '}' && '}' !in s[i + 1..end - 1]
    ensures ParseSecretRef(trim, s, i) ==
            match InnerName(trim, s[i + 1..end - 1])
            case Some(name) => Some(Reference(name, end))
            case None => None
  {
    var rest, inner := s[i + 1..], s[i + 1..end - 1];
    assert rest == inner + ['}'] + s[end..];
    FirstIndex(inner, '}', s[end..]);
  }

  lemma NothingParses(trim: string -> string, s: string, i: nat)
    requires i >= |s| || s[i] != '{' || '}' !in s[i + 1..]
    ensures ParseSecretRef(trim, s, i).None?
  {}
}
