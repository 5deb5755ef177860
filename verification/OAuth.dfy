/**
 The authorization-code facade (mcpauth/oauth.go): section 4.1 of RFC 6749 with the proof keys
 of RFC 7636.

 A mutex guards the two maps of outstanding codes and tokens. The token endpoint takes it
 twice, once to consume the code and once to store the token, and other requests may run in
 between. `Facade` is the object with those critical sections; the step machine interleaves
 them with a moving clock and a rotating operator secret.
 */
module OAuth {
  import opened Options

  type Code = string
  type Token = string

  const CODE_LIFETIME: int := 300

  /** `s256` is BASE64URL(SHA256(·)) and `fields` splits a scope string on white space. */
  datatype Config = Config(
    clientId: string,
    redirectUris: seq<string>,
    scopes: seq<string>,
    fallbackScopes: seq<string>,
    tokenTTL: nat,
    s256: string -> string,
    fields: string -> seq<string>)

  /** The parameters of an authorization request and the token typed into its form. */
  datatype AuthRequest = AuthRequest(
    redirectUri: string, responseType: string, clientId: string, scope: string,
    challenge: string, challengeMethod: string, typed: string)

  datatype CodeData = CodeData(
    clientId: string, redirectUri: string, scope: string, challenge: string, challengeMethod: string, expires: int)

  datatype TokenRequest = TokenRequest(code: Code, redirectUri: string, clientId: string, verifier: string)

  datatype TokenInfo = TokenInfo(scopes: seq<string>, expires: int)

  // ----- the decisions

  predicate ValidClient(cfg: Config, clientId: string) { cfg.clientId == "" || clientId == cfg.clientId }

  predicate ValidRedirect(cfg: Config, uri: string) { uri in cfg.redirectUris }

  function Scopes(cfg: Config): seq<string> {
    if cfg.scopes != [] then cfg.scopes else if cfg.fallbackScopes != [] then cfg.fallbackScopes else ["mcp"]
  }

  function Join(parts: seq<string>): string {
    if parts == [] then "" else if |parts| == 1 then parts[0] else parts[0] + " " + Join(parts[1..])
  }

  function NormalizeScope(cfg: Config, scope: string): string {
    if scope != "" then scope else Join(Scopes(cfg))
  }

  datatype Verdict = BadRequest | RedirectError(code: string) | WrongToken | Grant

  predicate Matches(typed: string, secret: string) { "Bearer " + typed == secret || typed == secret }

  /** handleAuthorizePost up to the minting of a code. */
  function Authorize(cfg: Config, q: AuthRequest, secret: string): Verdict {
    if q.redirectUri == "" || !ValidRedirect(cfg, q.redirectUri) then BadRequest
    else if q.responseType != "code" then RedirectError("unsupported_response_type")
    else if !ValidClient(cfg, q.clientId) then RedirectError("unauthorized_client")
    else if q.challenge == "" then RedirectError("invalid_request")
    else if !Matches(q.typed, secret) then WrongToken
    else Grant
  }

  function NewCode(cfg: Config, q: AuthRequest, now: int): CodeData {
    CodeData(q.clientId, q.redirectUri, NormalizeScope(cfg, q.scope), q.challenge, q.challengeMethod,
        now + CODE_LIFETIME)
  }

  function VerifyPKCE(s256: string -> string, challenge: string, challengeMethod: string, verifier: string): bool {
    if challenge == "" then false
    else if verifier == "" then false
    else if challengeMethod == "" || challengeMethod == "plain" then verifier == challenge
    else if challengeMethod != "S256" then false
    else s256(verifier) == challenge
  }

  /** Whether a consumed code may be exchanged, in the order the endpoint checks. */
  function Redeems(cfg: Config, data: CodeData, q: TokenRequest, now: int): bool {
    if now > data.expires then false
    else if data.redirectUri != q.redirectUri || !ValidClient(cfg, q.clientId) then false
    else VerifyPKCE(cfg.s256, data.challenge, data.challengeMethod, q.verifier)
  }

  /** Section 4.6 of RFC 7636: the transformed verifier equals the challenge; without a method it is plain. */
  predicate ProofKeyHolds(s256: string -> string, data: CodeData, verifier: string) {
    match data.challengeMethod
    case "S256" => s256(verifier) == data.challenge
    case "plain" => verifier == data.challenge
    case "" => verifier == data.challenge
    case _ => false
  }

  /** The check is the standard's plus the refusal of an empty challenge and of an empty verifier. */
  lemma VerifyPKCEIsStandard(s256: string -> string, data: CodeData, verifier: string)
    ensures VerifyPKCE(s256, data.challenge, data.challengeMethod, verifier)
       <==> data.challenge != "" && verifier != "" && ProofKeyHolds(s256, data, verifier)
  {}

  // ----- the object

  class Facade {
    var codes: map<Code, CodeData>
    var tokens: map<Token, TokenInfo>

    constructor ()
      ensures codes == map[] && tokens == map[]
    {
      codes, tokens := map[], map[];
    }

    /** The POST of the authorize page: every refusal leaves the codes alone, a grant adds the one freshly drawn. */
    method AuthorizePost(cfg: Config, q: AuthRequest, secret: string, code: Code, now: int) returns (v: Verdict)
      modifies this`codes
      ensures v == Authorize(cfg, q, secret)
      ensures codes == if v.Grant? then old(codes)[code := NewCode(cfg, q, now)] else old(codes)
    {
      if q.redirectUri == "" || !ValidRedirect(cfg, q.redirectUri) {
        return BadRequest;
      }
      if q.responseType != "code" {
        return RedirectError("unsupported_response_type");
      }
      if !ValidClient(cfg, q.clientId) {
        return RedirectError("unauthorized_client");
      }
      if q.challenge == "" {
        return RedirectError("invalid_request");
      }
      if "Bearer " + q.typed != secret && q.typed != secret {
        return WrongToken;
      }
      codes := codes[code := NewCode(cfg, q, now)];
      return Grant;
    }

    /** A presented code is gone, whatever becomes of the request. */
    method TakeCode(code: Code) returns (data: Option<CodeData>)
      modifies this`codes
      ensures codes == old(codes) - {code}
      ensures data == if code in old(codes) then Some(old(codes)[code]) else None
    {
      data := None;
      if code in codes {
        data := Some(codes[code]);
        codes := codes - {code};
      }
    }

    /** The token endpoint, run without interruption: a token is stored exactly when the code was there and may be
        exchanged; the code is gone either way. */
    method ServeToken(cfg: Config, q: TokenRequest, token: Token, now: int) returns (ok: bool)
      modifies this`codes, this`tokens
      ensures ok <==> q.code in old(codes) && Redeems(cfg, old(codes)[q.code], q, now)
      ensures codes == old(codes) - {q.code}
      ensures tokens == if ok then old(tokens)[token := TokenInfo(cfg.fields(old(codes)[q.code].scope),
              now + cfg.tokenTTL)]
                        else old(tokens)
    {
      var data := TakeCode(q.code);
      if data.None? || now > data.value.expires {
        return false;
      }
      if data.value.redirectUri != q.redirectUri || !ValidClient(cfg, q.clientId) {
        return false;
      }
      if !VerifyPKCE(cfg.s256, data.value.challenge, data.value.challengeMethod, q.verifier) {
        return false;
      }
      tokens := tokens[token := TokenInfo(cfg.fields(data.value.scope), now + cfg.tokenTTL)];
      return true;
    }

    method VerifyAccessToken(token: Token, now: int) returns (info: Option<TokenInfo>)
      modifies this`tokens
      ensures info.Some? <==> token in old(tokens) && now <= old(tokens)[token].expires
      ensures info.Some? ==> info.value == old(tokens)[token]
      ensures tokens == Verified(old(tokens), token, now)
      ensures tokens == if info.Some? then old(tokens) else old(tokens) - {token}
    {
      info := None;
      if token in tokens {
        if now > tokens[token].expires {
          tokens := tokens - {token};
        } else {
          info := Some(tokens[token]);
        }
      }
    }
  }

  /** The tokens after one verification: an expired one is dropped when it is presented. */
  function Verified(tokens: map<Token, TokenInfo>, token: Token, now: int): map<Token, TokenInfo> {
    if token in tokens && now > tokens[token].expires then tokens - {token} else tokens
  }

  // ----- the machine

  /** An authorization that passed its checks against the secret in force then, not stored yet. */
  datatype Authorization = Authorization(request: AuthRequest, secret: string)

  /** A token request: its code has been taken; then it was refused, or passed at some moment; then a token was
      stored. */
  datatype Phase = Took | Refused | Passed(at: int) | Stored(token: Token)

  datatype Exchange = Exchange(request: TokenRequest, data: Option<CodeData>, phase: Phase)

  /** History of a code, and of a token. */
  datatype Issued = Issued(request: AuthRequest, secret: string, at: int, data: CodeData)
  datatype Minted = Minted(exchange: nat, code: Code, passedAt: int, info: TokenInfo)

  datatype State = State(
    codes: map<Code, CodeData>,
    tokens: map<Token, TokenInfo>,
    authorizing: map<nat, Authorization>,
    exchanges: map<nat, Exchange>,
    secret: string,
    clock: int,
    secrets: set<string>,          // history: every secret the operator has used
    issued: map<Code, Issued>,     // history: every code
    taken: map<Code, nat>,         // history: the exchange that consumed each code
    minted: map<Token, Minted>)    // history: every token

  datatype Step =
    | Tick(elapsed: nat)
    | RotateSecret(secret: string)
    | CheckAuthorize(a: nat, request: AuthRequest)
    | IssueCode(a: nat, code: Code)
    | PresentCode(x: nat, presented: TokenRequest)
    | CheckExchange(x: nat)
    | MintToken(x: nat, token: Token, at: int)
    | VerifyToken(token: Token)

  function Initial(secret: string): State {
    State(map[], map[], map[], map[], secret, 0, {secret}, map[], map[], map[])
  }

  predicate Enabled(cfg: Config, s: State, step: Step) {
    match step
    case Tick(_) => true
    case RotateSecret(_) => true
    case CheckAuthorize(a, q) => a !in s.authorizing && Authorize(cfg, q, s.secret) == Grant
    case IssueCode(a, code) => a in s.authorizing && code !in s.issued
    case PresentCode(x, _) => x !in s.exchanges
    case CheckExchange(x) => x in s.exchanges && s.exchanges[x].phase.Took?
    case MintToken(x, token, at) =>
      && x in s.exchanges && s.exchanges[x].phase.Passed? && s.exchanges[x].data.Some?
      && token !in s.minted && s.exchanges[x].phase.at <= at <= s.clock
    case VerifyToken(_) => true
  }

  function Apply(cfg: Config, s: State, step: Step): State
    requires Enabled(cfg, s, step)
  {
    match step
    case Tick(elapsed) => s.(clock := s.clock + elapsed)
    case RotateSecret(secret) => s.(secret := secret, secrets := s.secrets + {secret})
    case CheckAuthorize(a, q) => s.(authorizing := s.authorizing[a := Authorization(q, s.secret)])
    case IssueCode(a, code) =>
      var auth := s.authorizing[a];
      var data := NewCode(cfg, auth.request, s.clock);
      s.(authorizing := s.authorizing - {a}, codes := s.codes[code := data],
         issued := s.issued[code := Issued(auth.request, auth.secret, s.clock, data)])
    case PresentCode(x, q) =>
      var data := if q.code in s.codes then Some(s.codes[q.code]) else None;
      s.(codes := s.codes - {q.code}, exchanges := s.exchanges[x := Exchange(q, data, Took)],
         taken := if data.Some? then s.taken[q.code := x] else s.taken)
    case CheckExchange(x) =>
      var e := s.exchanges[x];
      var ok := e.data.Some? && Redeems(cfg, e.data.value, e.request, s.clock);
      s.(exchanges := s.exchanges[x := e.(phase := if ok then Passed(s.clock) else Refused)])
    case MintToken(x, token, at) =>
      var e := s.exchanges[x];
      var info := TokenInfo(cfg.fields(e.data.value.scope), at + cfg.tokenTTL);
      s.(tokens := s.tokens[token := info], exchanges := s.exchanges[x := e.(phase := Stored(token))],
         minted := s.minted[token := Minted(x, e.request.code, e.phase.at, info)])
    case VerifyToken(token) => s.(tokens := Verified(s.tokens, token, s.clock))
  }

  ghost predicate Reaches(cfg: Config, s: State, steps: seq<Step>, t: State)
    decreases |steps|
  {
    if steps == [] then s == t
    else Enabled(cfg, s, steps[0]) && Reaches(cfg, Apply(cfg, s, steps[0]), steps[1..], t)
  }

  ghost predicate Reachable(cfg: Config, s: State) {
    exists secret, steps :: Reaches(cfg, Initial(secret), steps, s)
  }

  // ----- the invariant

  ghost predicate CodeInv(cfg: Config, s: State, code: Code) {
    && (code in s.codes ==> code in s.issued && code !in s.taken && s.codes[code] == s.issued[code].data)
    && (code in s.taken ==> code in s.issued && s.taken[code] in s.exchanges)
    && (code in s.issued ==> GoodIssue(cfg, s, s.issued[code]))
  }

  /** Under a secret of the operator's, to an allowed redirect URI, with a challenge. */
  ghost predicate GoodIssue(cfg: Config, s: State, i: Issued) {
    && i.secret in s.secrets && Authorize(cfg, i.request, i.secret) == Grant
    && i.at <= s.clock && i.data == NewCode(cfg, i.request, i.at)
  }

  ghost predicate AuthorizationInv(cfg: Config, s: State, a: nat) {
    a in s.authorizing ==>
      s.authorizing[a].secret in s.secrets && Authorize(cfg, s.authorizing[a].request, s.authorizing[a].secret) == Grant
  }

  ghost predicate ExchangeInv(cfg: Config, s: State, x: nat) {
    x in s.exchanges ==>
      var e := s.exchanges[x];
      && (e.data.Some? ==>
            e.request.code in s.issued && e.data.value == s.issued[e.request.code].data
            && e.request.code in s.taken && s.taken[e.request.code] == x)
      && (e.data.Some? ==> s.issued[e.request.code].at <= s.clock)
      && (e.phase.Passed? ==>
            && e.data.Some? && s.issued[e.request.code].at <= e.phase.at <= s.clock
            && Redeems(cfg, e.data.value, e.request, e.phase.at))
      && (e.phase.Stored? ==> e.data.Some? && e.phase.token in s.minted && s.minted[e.phase.token].exchange == x)
  }

  ghost predicate TokenInv(cfg: Config, s: State, t: Token) {
    && (t in s.tokens ==> t in s.minted && s.tokens[t] == s.minted[t].info)
    && (t in s.minted && t !in s.tokens ==> s.minted[t].info.expires < s.clock)
    && (t in s.minted ==> GoodMint(cfg, s, t, s.minted[t]))
  }

  ghost predicate GoodMint(cfg: Config, s: State, t: Token, m: Minted) {
    && m.exchange in s.exchanges && m.code in s.issued && m.code in s.taken && s.taken[m.code] == m.exchange
    && s.exchanges[m.exchange].request.code == m.code && s.exchanges[m.exchange].phase == Stored(t)
    && Redeems(cfg, s.issued[m.code].data, s.exchanges[m.exchange].request, m.passedAt)
    && m.info.scopes == cfg.fields(s.issued[m.code].data.scope)
    && s.issued[m.code].at <= m.passedAt && m.passedAt + cfg.tokenTTL <= m.info.expires <= s.clock + cfg.tokenTTL
  }

  ghost predicate Inv(cfg: Config, s: State) {
    && s.secret in s.secrets
    && (forall code :: CodeInv(cfg, s, code))
    && (forall a :: AuthorizationInv(cfg, s, a))
    && (forall x :: ExchangeInv(cfg, s, x))
    && (forall t :: TokenInv(cfg, s, t))
  }

  lemma StepCode(cfg: Config, s: State, step: Step, code: Code)
    requires Inv(cfg, s) && Enabled(cfg, s, step)
    ensures CodeInv(cfg, Apply(cfg, s, step), code)
  {
    assert CodeInv(cfg, s, code);
    if step.IssueCode? {
      assert AuthorizationInv(cfg, s, step.a);
    }
  }

  lemma StepAuthorization(cfg: Config, s: State, step: Step, a: nat)
    requires Inv(cfg, s) && Enabled(cfg, s, step)
    ensures AuthorizationInv(cfg, Apply(cfg, s, step), a)
  {
    assert AuthorizationInv(cfg, s, a);
  }

  lemma StepExchange(cfg: Config, s: State, step: Step, x: nat)
    requires Inv(cfg, s) && Enabled(cfg, s, step)
    ensures ExchangeInv(cfg, Apply(cfg, s, step), x)
  {
    assert ExchangeInv(cfg, s, x);
    if step.PresentCode? {
      assert CodeInv(cfg, s, step.presented.code);
    }
  }

  lemma StepToken(cfg: Config, s: State, step: Step, t: Token)
    requires Inv(cfg, s) && Enabled(cfg, s, step)
    ensures TokenInv(cfg, Apply(cfg, s, step), t)
  {
    assert TokenInv(cfg, s, t);
    if step.MintToken? {
      assert ExchangeInv(cfg, s, step.x);
    }
    if step.PresentCode? {
      assert CodeInv(cfg, s, step.presented.code);
    }
  }

  lemma StepInv(cfg: Config, s: State, step: Step)
    requires Inv(cfg, s) && Enabled(cfg, s, step)
    ensures Inv(cfg, Apply(cfg, s, step))
  {
    var t := Apply(cfg, s, step);
    forall code ensures CodeInv(cfg, t, code) { StepCode(cfg, s, step, code); }
    forall a ensures AuthorizationInv(cfg, t, a) { StepAuthorization(cfg, s, step, a); }
    forall x ensures ExchangeInv(cfg, t, x) { StepExchange(cfg, s, step, x); }
    forall token ensures TokenInv(cfg, t, token) { StepToken(cfg, s, step, token); }
  }

  lemma {:induction false} RunInv(cfg: Config, s: State, steps: seq<Step>, t: State)
    requires Inv(cfg, s) && Reaches(cfg, s, steps, t)
    ensures Inv(cfg, t)
    decreases |steps|
  {
    if steps != [] {
      StepInv(cfg, s, steps[0]);
      RunInv(cfg, Apply(cfg, s, steps[0]), steps[1..], t);
    }
  }

  lemma ReachableInv(cfg: Config, s: State)
    requires Reachable(cfg, s)
    ensures Inv(cfg, s)
  {
    var secret, steps :| Reaches(cfg, Initial(secret), steps, s);
    RunInv(cfg, Initial(secret), steps, s);
  }

  // ----- what every run guarantees

  /** Where a token comes from: one code, issued to somebody who typed a secret of the operator's, for an allowed
      redirect URI; redeemed in time, by the same redirect URI and with a proof key that holds; with the code's
      scopes. */
  lemma TokenProvenance(cfg: Config, s: State, t: Token)
    requires Reachable(cfg, s) && t in s.minted
    ensures s.minted[t].code in s.issued && s.minted[t].exchange in s.exchanges
    ensures
      var m, i := s.minted[t], s.issued[s.minted[t].code];
      var q := s.exchanges[m.exchange].request;
      && i.secret in s.secrets && Matches(i.request.typed, i.secret)
      && i.request.redirectUri in cfg.redirectUris && i.request.responseType == "code"
      && q.code == m.code && q.redirectUri == i.request.redirectUri && ValidClient(cfg, q.clientId)
      && q.verifier != "" && ProofKeyHolds(cfg.s256, i.data, q.verifier)
      && i.data.challenge == i.request.challenge && i.data.challengeMethod == i.request.challengeMethod
      && i.at <= m.passedAt <= i.at + 300
      && m.passedAt + cfg.tokenTTL <= m.info.expires <= s.clock + cfg.tokenTTL
      && m.info.scopes == cfg.fields(NormalizeScope(cfg, i.request.scope))
  {
    ReachableInv(cfg, s);
    assert TokenInv(cfg, s, t);
    assert CodeInv(cfg, s, s.minted[t].code);
    VerifyPKCEIsStandard(cfg.s256, s.issued[s.minted[t].code].data, s.exchanges[s.minted[t].exchange].request.verifier);
  }

  /** A code yields at most one token. */
  lemma OneTokenPerCode(cfg: Config, s: State, t: Token, u: Token)
    requires Reachable(cfg, s) && t in s.minted && u in s.minted && s.minted[t].code == s.minted[u].code
    ensures t == u
  {
    ReachableInv(cfg, s);
    assert TokenInv(cfg, s, t) && TokenInv(cfg, s, u);
  }

  /** What was issued, taken and minted is never forgotten or rewritten, and time does not run back. */
  lemma StepHistory(cfg: Config, s: State, step: Step, code: Code, t: Token)
    requires Inv(cfg, s) && Enabled(cfg, s, step)
    ensures
      var u := Apply(cfg, s, step);
      && s.clock <= u.clock
      && (code in s.issued ==> code in u.issued && u.issued[code] == s.issued[code])
      && (code in s.issued && code !in s.codes ==> code !in u.codes)
      && (t in s.minted ==> t in u.minted && u.minted[t] == s.minted[t])
  {
    assert CodeInv(cfg, s, code);
  }

  lemma {:induction false} RunHistory(cfg: Config, s: State, steps: seq<Step>, u: State, code: Code, t: Token)
    requires Inv(cfg, s) && Reaches(cfg, s, steps, u)
    ensures s.clock <= u.clock
    ensures code in s.issued ==> code in u.issued && u.issued[code] == s.issued[code]
    ensures code in s.issued && code !in s.codes ==> code !in u.codes
    ensures t in s.minted ==> t in u.minted && u.minted[t] == s.minted[t]
    decreases |steps|
  {
    if steps != [] {
      StepInv(cfg, s, steps[0]);
      StepHistory(cfg, s, steps[0], code, t);
      RunHistory(cfg, Apply(cfg, s, steps[0]), steps[1..], u, code, t);
    }
  }

  /** A code is consumed by its first presentation, whatever that request's fate: every later presentation
      finds nothing and is refused. */
  lemma FirstPresentationConsumes(cfg: Config, s: State, q: TokenRequest, x: nat, steps: seq<Step>, u: State,
                                  r: TokenRequest, y: nat)
    requires Reachable(cfg, s) && q.code in s.issued && r.code == q.code && x !in s.exchanges
    requires Reaches(cfg, Apply(cfg, s, PresentCode(x, q)), steps, u) && y !in u.exchanges
    ensures q.code !in u.codes
    ensures
      var v := Apply(cfg, u, PresentCode(y, r));
      && v.exchanges[y].data.None?
      && Apply(cfg, v, CheckExchange(y)).exchanges[y].phase == Refused
  {
    ReachableInv(cfg, s);
    StepInv(cfg, s, PresentCode(x, q));
    RunHistory(cfg, Apply(cfg, s, PresentCode(x, q)), steps, u, q.code, "");
  }

  /** A token verifies exactly until its expiry, whether or not an expired one was dropped before; never after it. */
  lemma VerifiesExactly(cfg: Config, s: State, t: Token)
    requires Reachable(cfg, s)
    ensures t in s.tokens && s.clock <= s.tokens[t].expires <==> t in s.minted && s.clock <= s.minted[t].info.expires
    ensures t in s.tokens ==> t in s.minted && s.tokens[t] == s.minted[t].info
  {
    ReachableInv(cfg, s);
    assert TokenInv(cfg, s, t);
  }

  /** Once a token has expired it never verifies again. */
  lemma ExpiredForGood(cfg: Config, s: State, t: Token, steps: seq<Step>, u: State)
    requires Reachable(cfg, s) && t in s.minted && s.minted[t].info.expires < s.clock && Reaches(cfg, s, steps, u)
    ensures !(t in u.tokens && u.clock <= u.tokens[t].expires)
  {
    ReachableInv(cfg, s);
    RunInv(cfg, s, steps, u);
    RunHistory(cfg, s, steps, u, "", t);
    assert TokenInv(cfg, u, t);
  }

  // ----- which client redeems a code

  /** The client that redeemed the code of a token is the one the code was issued to, as section 4.1.3 of RFC 6749
      asks. */
  ghost predicate RedeemedByItsClient(s: State, t: Token)
    requires t in s.minted
  {
    var m := s.minted[t];
    m.code in s.issued && m.exchange in s.exchanges
    && s.exchanges[m.exchange].request.clientId == s.issued[m.code].request.clientId
  }

  lemma ConfiguredClientRedeems(cfg: Config, s: State, t: Token)
    requires cfg.clientId != "" && Reachable(cfg, s) && t in s.minted
    ensures RedeemedByItsClient(s, t)
  {
    ReachableInv(cfg, s);
    assert TokenInv(cfg, s, t);
    assert CodeInv(cfg, s, s.minted[t].code);
  }

  lemma {:induction false} Extend(cfg: Config, s: State, steps: seq<Step>, t: State, step: Step)
    requires Reaches(cfg, s, steps, t) && Enabled(cfg, t, step)
    ensures Reaches(cfg, s, steps + [step], Apply(cfg, t, step))
    decreases |steps|
  {
    if steps == [] {
      assert [step][1..] == [];
      assert Reaches(cfg, Apply(cfg, s, step), [], Apply(cfg, t, step));
      assert steps + [step] == [step];
    } else {
      Extend(cfg, Apply(cfg, s, steps[0]), steps[1..], t, step);
      assert (steps + [step])[1..] == steps[1..] + [step];
    }
  }

  lemma Onward(cfg: Config, s: State, step: Step)
    requires Reachable(cfg, s) && Enabled(cfg, s, step)
    ensures Reachable(cfg, Apply(cfg, s, step))
  {
    var secret, steps :| Reaches(cfg, Initial(secret), steps, s);
    Extend(cfg, Initial(secret), steps, s, step);
  }

  /** A code issued to client "a", with no client configured. */
  lemma IssuedToA(cfg: Config, uri: string) returns (s: State)
    requires cfg.clientId == "" && uri in cfg.redirectUris && uri != ""
    ensures Reachable(cfg, s) && s.clock == 0 && s.exchanges == map[] && s.minted == map[]
    ensures "c" in s.issued && s.issued["c"].request.clientId == "a"
    ensures "c" in s.codes && s.codes["c"] == NewCode(cfg, AuthRequest(uri, "code", "a", "", "v", "plain", "k"), 0)
  {
    s := Initial("k");
    assert Reaches(cfg, Initial("k"), [], s);
    var q := AuthRequest(uri, "code", "a", "", "v", "plain", "k");
    Onward(cfg, s, CheckAuthorize(0, q));
    s := Apply(cfg, s, CheckAuthorize(0, q));
    Onward(cfg, s, IssueCode(0, "c"));
    s := Apply(cfg, s, IssueCode(0, "c"));
  }

  /** Then client "b" redeems it. */
  lemma RedeemedByAnother(cfg: Config, uri: string) returns (s: State)
    requires cfg.clientId == "" && uri in cfg.redirectUris && uri != ""
    ensures Reachable(cfg, s) && "t" in s.minted && !RedeemedByItsClient(s, "t")
  {
    s := IssuedToA(cfg, uri);
    var r := TokenRequest("c", uri, "b", "v");
    Onward(cfg, s, PresentCode(0, r));
    s := Apply(cfg, s, PresentCode(0, r));
    Onward(cfg, s, CheckExchange(0));
    s := Apply(cfg, s, CheckExchange(0));
    Onward(cfg, s, MintToken(0, "t", 0));
    s := Apply(cfg, s, MintToken(0, "t", 0));
  }

  /** With some redirect URI allowed, every token is redeemed by the client of its code exactly when a client is
      configured. */
  lemma RedeemedByItsClientIff(cfg: Config, uri: string)
    requires uri in cfg.redirectUris && uri != ""
    ensures (forall s, t :: Reachable(cfg, s) && t in s.minted ==> RedeemedByItsClient(s, t)) <==> cfg.clientId != ""
  {
    if cfg.clientId == "" {
      var s := RedeemedByAnother(cfg, uri);
    } else {
      forall s, t | Reachable(cfg, s) && t in s.minted ensures RedeemedByItsClient(s, t) {
        ConfiguredClientRedeems(cfg, s, t);
      }
    }
  }

  // ----- what the decisions come down to

  /** A code is granted exactly for an allowed redirect URI, the code response type, a valid client, a challenge,
      and the operator's secret, typed with or without its "Bearer " prefix. */
  lemma GrantIff(cfg: Config, q: AuthRequest, secret: string)
    ensures Authorize(cfg, q, secret) == Grant <==>
            && q.redirectUri != "" && q.redirectUri in cfg.redirectUris && q.responseType == "code"
            && (cfg.clientId == "" || q.clientId == cfg.clientId) && q.challenge != ""
            && (q.typed == secret || "Bearer " + q.typed == secret)
  {}

  /** Which refusal a request gets: only an allowed redirect URI is ever told an error, and a wrong secret is only
      reported for a request that is good otherwise. */
  lemma RefusalIs(cfg: Config, q: AuthRequest, secret: string)
    ensures
      var v := Authorize(cfg, q, secret);
      var client := cfg.clientId == "" || q.clientId == cfg.clientId;
      var typed := q.typed == secret || "Bearer " + q.typed == secret;
      if q.redirectUri == "" || q.redirectUri !in cfg.redirectUris then v == BadRequest
      else
        && (v == RedirectError("unsupported_response_type") <==> q.responseType != "code")
        && (v == RedirectError("unauthorized_client") <==> q.responseType == "code" && !client)
        && (v == RedirectError("invalid_request") <==> q.responseType == "code" && client && q.challenge == "")
        && (v == WrongToken <==> q.responseType == "code" && client && q.challenge != "" && !typed)
  {}

  /** Only an allowed redirect URI is ever redirected to. */
  lemma ErrorsGoToAllowedUris(cfg: Config, q: AuthRequest, secret: string)
    ensures Authorize(cfg, q, secret).RedirectError? ==> q.redirectUri in cfg.redirectUris
    ensures q.redirectUri !in cfg.redirectUris ==> Authorize(cfg, q, secret) == BadRequest
  {}

  /** A code issued to a request is exchanged exactly within five minutes, for the same redirect URI, by a valid client,
      with a non-empty verifier for which the proof key holds. */
  lemma RedeemsIff(cfg: Config, q: AuthRequest, at: int, r: TokenRequest, now: int)
    requires q.challenge != ""
    ensures Redeems(cfg, NewCode(cfg, q, at), r, now) <==>
            && now <= at + 300 && r.redirectUri == q.redirectUri
            && (cfg.clientId == "" || r.clientId == cfg.clientId)
            && r.verifier != "" && ProofKeyHolds(cfg.s256, NewCode(cfg, q, at), r.verifier)
  {
    VerifyPKCEIsStandard(cfg.s256, NewCode(cfg, q, at), r.verifier);
  }

  /** The scopes of a code: those requested, or without any the configured ones, or those derived, or "mcp". */
  lemma ScopesOfCode(cfg: Config, q: AuthRequest, at: int)
    ensures q.scope != "" ==> NewCode(cfg, q, at).scope == q.scope
    ensures q.scope == "" && cfg.scopes != [] ==> NewCode(cfg, q, at).scope == Join(cfg.scopes)
    ensures q.scope == "" && cfg.scopes == [] && cfg.fallbackScopes != [] ==>
              NewCode(cfg, q, at).scope == Join(cfg.fallbackScopes)
    ensures q.scope == "" && cfg.scopes == [] && cfg.fallbackScopes == [] ==> NewCode(cfg, q, at).scope == "mcp"
  {}

  /** The operator's secret changes for the requests checked from then on, and a token is verified, at any moment. */
  lemma AnyMoment(cfg: Config, s: State, secret: string, token: Token, elapsed: nat)
    ensures Enabled(cfg, s, RotateSecret(secret)) && Apply(cfg, s, RotateSecret(secret)).secret == secret
    ensures Enabled(cfg, s, VerifyToken(token))
    ensures Apply(cfg, s, VerifyToken(token)).tokens ==
      if token in s.tokens && s.tokens[token].expires < s.clock then s.tokens - {token} else s.tokens
    ensures Enabled(cfg, s, Tick(elapsed)) && Apply(cfg, s, Tick(elapsed)) == s.(clock := s.clock + elapsed)
  {}

  /** An authorization that passed issues one code, under which its request's data can be presented. */
  lemma AnsweredOnce(cfg: Config, s: State, a: nat, code: Code, other: Code)
    requires Enabled(cfg, s, IssueCode(a, code))
    ensures
      var t := Apply(cfg, s, IssueCode(a, code));
      && !Enabled(cfg, t, IssueCode(a, other))
      && code in t.codes && t.codes[code] == NewCode(cfg, s.authorizing[a].request, s.clock)
  {}

  /** A code that is presented and redeems becomes a token, which verifies from then on until it expires. */
  lemma GoodCodeGetsToken(cfg: Config, s: State, x: nat, q: TokenRequest, token: Token)
    requires q.code in s.codes && Redeems(cfg, s.codes[q.code], q, s.clock) && x !in s.exchanges && token !in s.minted
    ensures Enabled(cfg, s, PresentCode(x, q))
    ensures
      var p := Apply(cfg, s, PresentCode(x, q));
      Enabled(cfg, p, CheckExchange(x)) &&
      var c := Apply(cfg, p, CheckExchange(x));
      Enabled(cfg, c, MintToken(x, token, s.clock)) &&
      var t := Apply(cfg, c, MintToken(x, token, s.clock));
      token in t.tokens && t.tokens[token] == TokenInfo(cfg.fields(s.codes[q.code].scope), s.clock + cfg.tokenTTL)
  {}

  /** Joining puts one space between the parts. */
  lemma {:induction false} JoinAppends(parts: seq<string>, last: string)
    ensures Join([]) == "" && Join([last]) == last
    ensures parts != [] ==> Join(parts + [last]) == Join(parts) + " " + last
    decreases |parts|
  {
    if |parts| == 1 {
      assert (parts + [last])[1..] == [last];
    } else if |parts| > 1 {
      JoinAppends(parts[1..], last);
      assert (parts + [last])[1..] == parts[1..] + [last];
      assert Join(parts) == parts[0] + " " + Join(parts[1..]);
    }
  }
}
