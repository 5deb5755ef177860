/** Bucket keys of the S3 blob store (blob/s3/s3.go): prefix cleaning, key building and id parsing. */
module S3Keys {
  import opened Options

  // ----- slash-separated paths

  function Split(s: string): (parts: seq<string>)
    ensures parts != [] && forall i :: 0 <= i < |parts| ==> '/' !in parts[i]
  {
    if s == "" then [""]
    else
      var rest := Split(s[1..]);
      if s[0] == '/' then [""] + rest else [[s[0]] + rest[0]] + rest[1..]
  }

  function Join(parts: seq<string>): string {
    if parts == [] then ""
    else if |parts| == 1 then parts[0]
    else parts[0] + "/" + Join(parts[1..])
  }

  ghost predicate SlashFree(parts: seq<string>) {
    forall i :: 0 <= i < |parts| ==> '/' !in parts[i]
  }

  lemma {:induction false} SplitAtSlash(a: string, b: string)
    requires '/' !in a
    ensures Split(a + "/" + b) == [a] + Split(b)
  {
    if a == "" {
      assert a + "/" + b == "/" + b;
    } else {
      SplitAtSlash(a[1..], b);
      assert (a + "/" + b)[1..] == a[1..] + "/" + b;
      assert [a[0]] + a[1..] == a;
    }
  }

  lemma {:induction false} SplitPlain(a: string)
    requires '/' !in a
    ensures Split(a) == [a]
  {
    if a != "" {
      SplitPlain(a[1..]);
      assert [a[0]] + a[1..] == a;
    }
  }

  /** Splitting undoes joining. */
  lemma {:induction false} SplitJoin(parts: seq<string>)
    requires parts != [] && SlashFree(parts)
    ensures Split(Join(parts)) == parts
    decreases |parts|
  {
    if |parts| == 1 {
      SplitPlain(parts[0]);
    } else {
      SplitJoin(parts[1..]);
      SplitAtSlash(parts[0], Join(parts[1..]));
    }
  }

  lemma {:induction false} JoinAppend(a: seq<string>, b: seq<string>)
    requires a != [] && b != []
    ensures Join(a + b) == Join(a) + "/" + Join(b)
    decreases |a|
  {
    if |a| == 1 {
      assert (a + b)[1..] == b;
    } else {
      JoinAppend(a[1..], b);
      assert (a + b)[1..] == a[1..] + b;
    }
  }

  /** Joining undoes splitting. */
  lemma {:induction false} JoinSplit(s: string)
    ensures Join(Split(s)) == s
  {
    if s != "" {
      JoinSplit(s[1..]);
      var rest := Split(s[1..]);
      if s[0] != '/' {
        var parts := [[s[0]] + rest[0]] + rest[1..];
        assert |rest| > 1 ==> parts[1..] == rest[1..];
      }
    }
  }

  // ----- path.Clean and path.Join

  /** What one component does to the components kept so far. */
  function Push(rooted: bool, kept: seq<string>, c: string): seq<string> {
    if c == "" || c == "." then kept
    else if c == ".." then
      if kept != [] && kept[|kept| - 1] != ".." then kept[..|kept| - 1]
      else if rooted then kept
      else kept + [".."]
    else kept + [c]
  }

  function Normal(rooted: bool, parts: seq<string>): seq<string> {
    if parts == [] then [] else Push(rooted, Normal(rooted, parts[..|parts| - 1]), parts[|parts| - 1])
  }

  function PathClean(s: string): string {
    var rooted := s != "" && s[0] == '/';
    var cleaned := (if rooted then "/" else "") + Join(Normal(rooted, Split(s)));
    if cleaned == "" then "." else cleaned
  }

  function PathJoin(a: string, b: string): string {
    if a == "" then if b == "" then "" else PathClean(b)
    else if b == "" then PathClean(a)
    else PathClean(a + "/" + b)
  }

  function TrimLeft(s: string): string {
    if s != "" && s[0] == '/' then TrimLeft(s[1..]) else s
  }

  function TrimRight(s: string): string {
    if s != "" && s[|s| - 1] == '/' then TrimRight(s[..|s| - 1]) else s
  }

  // ----- the store's functions

  function CleanPrefix(prefix: string): string {
    var p := TrimRight(TrimLeft(PathClean("/" + prefix)));
    if p == "." then "" else p
  }

  function Key(prefix: string, id: string): string { PathJoin(prefix, id) }

  predicate Alphanumeric(c: char) { 'a' <= c <= 'z' || 'A' <= c <= 'Z' || '0' <= c <= '9' }

  predicate Hex(c: char) { '0' <= c <= '9' || 'a' <= c <= 'f' }

  predicate ValidNamespace(s: string) {
    1 <= |s| <= 64 && Alphanumeric(s[0])
    && forall i :: 1 <= i < |s| ==> Alphanumeric(s[i]) || s[i] == '_' || s[i] == '.' || s[i] == '-'
  }

  predicate ValidUuid(s: string) {
    |s| == 36 && forall i :: 0 <= i < 36 ==> if i == 8 || i == 13 || i == 18 || i == 23 then s[i] == '-' else Hex(s[i])
  }

  function ParseId(id: string): Option<(string, string)> {
    var parts := Split(id);
    if |parts| == 2 && ValidNamespace(parts[0]) && ValidUuid(parts[1]) then Some((parts[0], parts[1])) else None
  }

  function Parse(prefix: string, id: string): Option<string> {
    if ParseId(id).None? then None else Some(Key(prefix, id))
  }

  function NewId(namespace: string, uuid: string): string { namespace + "/" + uuid }

  // ----- the claims

  /** A component that cleaning leaves alone. */
  predicate Plain(c: string) { c != "" && c != "." && c != ".." && '/' !in c }

  ghost predicate AllPlain(parts: seq<string>) {
    forall i :: 0 <= i < |parts| ==> Plain(parts[i])
  }

  lemma {:induction false} PlainIsNormal(rooted: bool, parts: seq<string>)
    requires AllPlain(parts)
    ensures Normal(rooted, parts) == parts
    decreases |parts|
  {
    if parts != [] {
      PlainIsNormal(rooted, parts[..|parts| - 1]);
    }
  }

  /** A rooted path cleans to plain components only. */
  lemma {:induction false} RootedIsPlain(parts: seq<string>)
    requires SlashFree(parts)
    ensures AllPlain(Normal(true, parts))
    decreases |parts|
  {
    if parts != [] {
      RootedIsPlain(parts[..|parts| - 1]);
    }
  }

  /** The components of a cleaned prefix. */
  function Components(prefix: string): seq<string> { Normal(true, Split("/" + prefix)) }

  lemma {:induction false} JoinEnds(parts: seq<string>)
    requires parts != [] && AllPlain(parts)
    ensures Join(parts) != "" && Join(parts)[0] != '/' && Join(parts)[|Join(parts)| - 1] != '/'
    ensures Join(parts) != "."
    decreases |parts|
  {
    if |parts| > 1 {
      JoinEnds(parts[1..]);
    }
  }

  /** A cleaned prefix is its plain components joined: leading, trailing and repeated slashes, "." and ".." are gone. */
  lemma CleanPrefixIs(prefix: string)
    ensures AllPlain(Components(prefix)) && CleanPrefix(prefix) == Join(Components(prefix))
  {
    RootedIsPlain(Split("/" + prefix));
    var joined := Join(Components(prefix));
    if Components(prefix) != [] {
      JoinEnds(Components(prefix));
    }
    assert PathClean("/" + prefix) == "/" + joined;
    assert ("/" + joined)[1..] == joined;
    assert TrimLeft("/" + joined) == TrimLeft(joined) == joined;
    assert TrimRight(joined) == joined;
  }

  lemma IdParts(id: string)
    requires ParseId(id).Some?
    ensures Split(id) == [ParseId(id).value.0, ParseId(id).value.1] && AllPlain(Split(id))
    ensures id == ParseId(id).value.0 + "/" + ParseId(id).value.1
  {
    JoinSplit(id);
    var parts := Split(id);
    assert parts[1..] == [parts[1]];
    assert parts[1][0] != '.';
  }

  /** The key of a well-formed id is the prefix's components followed by the id's two. */
  lemma KeyShape(prefix: string, id: string)
    requires ParseId(id).Some?
    ensures Key(CleanPrefix(prefix), id) == Join(Components(prefix) + Split(id))
    ensures AllPlain(Components(prefix) + Split(id))
  {
    CleanPrefixIs(prefix);
    IdParts(id);
    JoinSplit(id);
    var all := Components(prefix) + Split(id);
    PlainIsNormal(false, all);
    SplitJoin(all);
    JoinEnds(all);
    if Components(prefix) == [] {
      assert all == Split(id);
    } else {
      JoinEnds(Components(prefix));
      JoinAppend(Components(prefix), Split(id));
    }
  }

  /** A key determines its prefix and its id: no two prefixes, nested or not, share a key. */
  lemma KeyDeterminesBoth(p: string, id: string, q: string, jd: string)
    requires ParseId(id).Some? && ParseId(jd).Some?
    requires Key(CleanPrefix(p), id) == Key(CleanPrefix(q), jd)
    ensures CleanPrefix(p) == CleanPrefix(q) && id == jd
  {
    KeyShape(p, id);
    KeyShape(q, jd);
    var a, b := Components(p), Components(q);
    SplitJoin(a + Split(id));
    SplitJoin(b + Split(jd));
    assert a + Split(id) == b + Split(jd);
    IdParts(id);
    IdParts(jd);
    assert |a| == |b|;
    assert a == (a + Split(id))[..|a|] == (b + Split(jd))[..|b|] == b;
    assert Split(id) == (a + Split(id))[|a|..] == (b + Split(jd))[|b|..] == Split(jd);
    CleanPrefixIs(p);
    CleanPrefixIs(q);
    JoinSplit(id);
    JoinSplit(jd);
  }

  /** Whatever id a caller supplies, the key it leads to lies under the configured prefix. */
  lemma KeyStaysUnderPrefix(prefix: string, id: string)
    requires Parse(CleanPrefix(prefix), id).Some? && CleanPrefix(prefix) != ""
    ensures Parse(CleanPrefix(prefix), id).value == CleanPrefix(prefix) + "/" + id
  {
    KeyShape(prefix, id);
    CleanPrefixIs(prefix);
    JoinSplit(id);
    JoinAppend(Components(prefix), Split(id));
  }

  /** A minted id parses back to the namespace and UUID it was made of. */
  lemma MintedIdParses(namespace: string, uuid: string)
    requires ValidNamespace(namespace) && ValidUuid(uuid)
    ensures ParseId(NewId(namespace, uuid)) == Some((namespace, uuid))
  {
    assert '/' !in namespace && '/' !in uuid;
    SplitAtSlash(namespace, uuid);
    SplitPlain(uuid);
  }

  /** Only minted ids parse: an id that parses is the one its parts would mint. */
  lemma ParsedIdIsMinted(id: string)
    requires ParseId(id).Some?
    ensures ValidNamespace(ParseId(id).value.0) && ValidUuid(ParseId(id).value.1)
    ensures id == NewId(ParseId(id).value.0, ParseId(id).value.1)
  {
    IdParts(id);
  }

  /** Cleaning is idempotent. */
  lemma CleanPrefixIdempotent(prefix: string)
    ensures CleanPrefix(CleanPrefix(prefix)) == CleanPrefix(prefix)
  {
    CleanPrefixIs(prefix);
    var parts := Components(prefix);
    var clean := CleanPrefix(prefix);
    CleanPrefixIs(clean);
    SplitAtSlash("", clean);
    assert "" + "/" + clean == "/" + clean;
    if parts == [] {
      assert Split("/" + clean) == ["", ""];
      assert ["", ""][..1] == [""] && [""][..0] == [];
      assert Normal(true, [""]) == [];
      assert Components(clean) == [];
    } else {
      SplitJoin(parts);
      assert Split("/" + clean) == [""] + parts;
      SkipEmpty(parts);
    }
  }

  lemma {:induction false} SkipEmpty(parts: seq<string>)
    requires AllPlain(parts)
    ensures Normal(true, [""] + parts) == parts
    decreases |parts|
  {
    if parts != [] {
      var all := [""] + parts;
      assert all[..|all| - 1] == [""] + parts[..|parts| - 1];
      SkipEmpty(parts[..|parts| - 1]);
    }
  }

  // ----- formats and cleaning, spelled out

  ghost predicate AllHex(s: string) {
    forall i :: 0 <= i < |s| ==> s[i] in "0123456789abcdef"
  }

  lemma HexDigits(c: char)
    ensures Hex(c) <==> c in "0123456789abcdef"
  {
    if Hex(c) {
      var digits := "0123456789abcdef";
      var i := if c <= '9' then c as int - '0' as int else 10 + c as int - 'a' as int;
      assert digits[i] == c;
    }
  }

  /** A UUID is groups of 8, 4, 4, 4 and 12 lower-case hexadecimal digits with hyphens between. */
  lemma UuidIs(a: string, b: string, c: string, d: string, e: string)
    requires |a| == 8 && |b| == 4 && |c| == 4 && |d| == 4 && |e| == 12
    ensures ValidUuid(a + "-" + b + "-" + c + "-" + d + "-" + e) <==>
            AllHex(a) && AllHex(b) && AllHex(c) && AllHex(d) && AllHex(e)
  {
    forall x: char ensures Hex(x) <==> x in "0123456789abcdef" { HexDigits(x); }
    var s := a + "-" + b + "-" + c + "-" + d + "-" + e;
    assert s[..8] == a && s[9..13] == b && s[14..18] == c && s[19..23] == d && s[24..] == e;
  }

  /** And every valid one is of that shape. */
  lemma UuidShape(s: string)
    requires ValidUuid(s)
    ensures s == s[..8] + "-" + s[9..13] + "-" + s[14..18] + "-" + s[19..23] + "-" + s[24..]
  {}

  /** A namespace is 1 to 64 letters, digits, underscores, full stops and hyphens, by their codes, and does not
      begin with one of the last three. */
  lemma NamespaceIs(s: string)
    ensures ValidNamespace(s) <==>
            && 1 <= |s| <= 64 && s[0] != '_' && s[0] != '.' && s[0] != '-'
            && forall i :: 0 <= i < |s| ==>
                 var c := s[i] as int;
                 48 <= c <= 57 || 65 <= c <= 90 || 97 <= c <= 122 || c == 95 || c == 46 || c == 45
  {}

  lemma NormalSnoc(rooted: bool, parts: seq<string>, c: string)
    ensures Normal(rooted, parts + [c]) == Push(rooted, Normal(rooted, parts), c)
  {
    assert (parts + [c])[..|parts|] == parts;
  }

  /** In a rooted path an empty component and "." change nothing, a plain one stays, ".." takes back the component
      before it, and at the root it changes nothing. */
  lemma RootedStep(parts: seq<string>, c: string)
    requires SlashFree(parts) && '/' !in c
    ensures
      var before, after := Normal(true, parts), Normal(true, parts + [c]);
      && (c == "" || c == "." ==> after == before)
      && (Plain(c) ==> after == before + [c])
      && (c == ".." && before != [] ==> after == before[..|before| - 1])
      && (c == ".." && before == [] ==> after == [])
  {
    NormalSnoc(true, parts, c);
    RootedIsPlain(parts);
  }

  /** The store acts on an id exactly when it is well-formed. */
  lemma ParsesIff(prefix: string, id: string)
    ensures Parse(prefix, id).Some? <==>
      exists ns, uuid :: id == ns + "/" + uuid && ValidNamespace(ns) && ValidUuid(uuid)
  {
    if ParseId(id).Some? {
      ParsedIdIsMinted(id);
    }
    forall ns, uuid | id == ns + "/" + uuid && ValidNamespace(ns) && ValidUuid(uuid)
      ensures ParseId(id).Some?
    {
      MintedIdParses(ns, uuid);
    }
  }
}
