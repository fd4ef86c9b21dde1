/**
 Runs that exist: how an action extends a run, when a launch is accepted, and runs of a given tool and platform
 with another login, launch or restored launch at their end.
 */
module Runs {
  import opened Wrappers
  import opened LtiData
  import opened Storage
  import opened Launch
  import opened MessageLaunches
  import opened Protocol
  import OidcLogins
  import Refusals
  import Jwt

  // ---- Extending a run. ----

  const EMPTY_RUN: Trace := Trace([], [], [START])

  ghost function AnswerTo(lib: Crypto, st: System, action: Action): Answer {
    match action
    case Launch(l) => LaunchOutcome(lib, l, st.store).0
    case Restoring(secure, conf, jar, launchId, _, _) => RestoreOutcome(secure, conf, jar, launchId, st.store)
    case _ => Err(Crash)
  }

  ghost function StateAfter(lib: Crypto, st: System, action: Action): System {
    match action
    case Login(conf, req, jar, mint, params) =>
      System(OidcLogins.StoreAfter(conf, req, jar, mint, params, st.store),
             st.cookies + OidcLogins.CookiesSet(conf, req, jar, mint).Items)
    case Launch(l) => System(LaunchOutcome(lib, l, st.store).1, st.cookies)
    case Restoring(_, _, _, _, _, _) => st
    case Expire(key) => st.(store := st.store - {key})
  }

  /** The run goes on with one more action. */
  ghost function Extend(lib: Crypto, h: History, action: Action): History {
    var st := h.states[|h.actions|];
    Trace(h.actions + [action], h.answers + [AnswerTo(lib, st, action)], h.states + [StateAfter(lib, st, action)])
  }

  /** In every state any well-shaped action is possible, and nothing that happened before changes. */
  lemma ExtendingIsARun(lib: Crypto, h: History, action: Action)
    requires AnyRun(lib, h) && Shaped(action)
    ensures AnyRun(lib, Extend(lib, h, action))
    ensures HonestRun(lib, h) && WellBehaved(h.states[|h.actions|], action) ==> HonestRun(lib, Extend(lib, h, action))
  {
    var e := Extend(lib, h, action);
    hide Shaped;
    hide WellBehaved;
    assert Happens(lib, h.states[|h.actions|], action, AnswerTo(lib, h.states[|h.actions|], action),
        StateAfter(lib, h.states[|h.actions|], action)) by {
      hide LaunchOutcome;
      hide RestoreOutcome;
    }
    hide Happens;
    hide Extend;
    ExtendKeeps(lib, h, action);
    forall i: nat | i < |e.actions| ensures HappensAt(lib, e, i) {
      if i < |h.actions| { assert HappensAt(lib, h, i); }
    }
    if HonestRun(lib, h) && WellBehaved(h.states[|h.actions|], action) {
      forall i: nat | i < |e.actions| ensures WellBehavedAt(e, i) {
        if i < |h.actions| { assert WellBehavedAt(h, i); }
      }
    }
  }

  lemma ExtendKeeps(lib: Crypto, h: History, action: Action)
    ensures var e, st := Extend(lib, h, action), h.states[|h.actions|];
            && |e.actions| == |h.actions| + 1
            && e.actions[|h.actions|] == action && e.answers[|h.actions|] == AnswerTo(lib, st, action)
            && e.states[|h.actions| + 1] == StateAfter(lib, st, action)
            && (forall i: nat :: i < |h.actions| ==> e.actions[i] == h.actions[i] && e.answers[i] == h.answers[i])
            && (forall i: nat :: i <= |h.actions| ==> e.states[i] == h.states[i])
  {
  }

  lemma Append(lib: Crypto, h: History, action: Action) returns (e: History)
    requires AnyRun(lib, h) && Shaped(action)
    ensures AnyRun(lib, e) && e.actions == h.actions + [action]
    ensures e.answers[..|h.actions|] == h.answers && e.states[..|h.actions| + 1] == h.states
    ensures HonestRun(lib, h) && WellBehaved(h.states[|h.actions|], action) ==> HonestRun(lib, e)
  {
    e := Extend(lib, h, action);
    ExtendingIsARun(lib, h, action);
  }

  lemma EmptyRunIsARun(lib: Crypto)
    ensures HonestRun(lib, EMPTY_RUN)
  {
  }

  // ---- When a launch is accepted. ----

  /** What a launch needs besides a known nonce. */
  ghost predicate Acceptable(c: Context, o: Oracle, store: Store, header: Header, body: Body, reg: Registration) {
    && c.request.state != "" && c.request.idToken != "" && (MarkerFound(c, store) || CookiePresented(c))
    && DecodesTo(c.crypto, c.request.idToken, header, body)
    && body.nonce != "" && ClaimsResolve(c, body, reg) && Verified(c, o, store, header, reg)
         && OneValidatorAccepts(o, body)
  }

  /** In any run, a launch whose conditions hold, its nonce being known, is answered with its body. */
  lemma AcceptableLaunchesAreAccepted(lib: Crypto, h: History, i: nat, sid: Option<string>, header: Header, body: Body,
      reg: Registration)
    requires AnyRun(lib, h) && i < |h.actions| && h.actions[i].Launch?
    requires SessionOfLaunch(h.actions[i].launch) == Ok(sid)
    requires Acceptable(ContextOf(lib, h.actions[i].launch, sid), h.actions[i].launch.oracle, Cache(h, i), header, body,
               reg)
    requires Read(Cache(h, i), sid, NonceKey(body.nonce)).Some?
    ensures h.answers[i] == Ok(body)
  {
    assert HappensAt(lib, h, i);
    var l := h.actions[i].launch;
    var c := ContextOf(lib, l, sid);
    assert PassedWith(c, l.oracle, Cache(h, i), header, body, reg) by {
      hide DecodesTo;
      hide ClaimsResolve;
      hide Verified;
      hide OneValidatorAccepts;
      hide MarkerFound;
    }
    hide Acceptable;
    hide PassedWith;
    hide Validate;
    ValidateIffPassed(c, l.oracle, Cache(h, i), body);
  }

  /**
   In any run, a launch that is right in every respect up to its signature, but names a deployment that the
   configuration does not know for its issuer and client, is refused for that.
   */
  lemma UnknownDeploymentsAreRefused(lib: Crypto, h: History, i: nat, sid: Option<string>, header: Header, body: Body,
      reg: Registration)
    requires AnyRun(lib, h) && i < |h.actions| && h.actions[i].Launch?
    requires SessionOfLaunch(h.actions[i].launch) == Ok(sid) && body.deploymentId != ""
    requires var l := h.actions[i].launch;
             && Refusals.Registered(ContextOf(lib, l, sid), Cache(h, i), header, body, reg)
             && Verified(ContextOf(lib, l, sid), l.oracle, Cache(h, i), header, reg)
             && !(if l.conf.hasOneClient(body.iss) then l.conf.findDeployment(body.iss, body.deploymentId)
                  else l.conf.findDeploymentByParams(body.iss, body.deploymentId, reg.clientId))
    ensures h.answers[i] == Err(DeploymentNotFound)
  {
    hide Validate;
    hide Verified;
    hide Refusals.Registered;
    assert HappensAt(lib, h, i);
    var l := h.actions[i].launch;
    Refusals.UnknownDeployments(ContextOf(lib, l, sid), l.oracle, Cache(h, i), header, body, reg);
  }

  lemma {:induction false} EntryLasts(lib: Crypto, h: History, i: nat, n: nat, key: string)
    requires AnyRun(lib, h) && i <= n <= |h.actions| && key in Cache(h, i)
    requires forall k :: i <= k < n ==> h.actions[k] != Expire(key)
    ensures key in Cache(h, n)
    decreases n
  {
    if i < n {
      EntryLasts(lib, h, i, n - 1, key);
      assert HappensAt(lib, h, n - 1);
      EntriesStay(lib, h, n - 1, key);
    }
  }

  /**
   In any run, a launch is accepted, with its token's body, when a login of its session minted its nonce and the
   nonce has not expired since, it presents its state's cookie, and its token, claims, key and message are right.
   */
  lemma LaunchAfterLoginIsAccepted(lib: Crypto, h: History, j: nat, i: nat, sid: Option<string>, header: Header,
      body: Body, reg: Registration)
    requires AnyRun(lib, h) && j < i < |h.actions| && NonceSavedAt(h, j, sid, body.nonce)
    requires forall k :: j < k < i ==> h.actions[k] != Expire(PrepareKey(sid, NonceKey(body.nonce)))
    requires h.actions[i].Launch? && SessionOfLaunch(h.actions[i].launch) == Ok(sid)
    requires Acceptable(ContextOf(lib, h.actions[i].launch, sid), h.actions[i].launch.oracle, Cache(h, i), header, body,
               reg)
    ensures h.answers[i] == Ok(body)
  {
    hide Acceptable;
    LoginLeavesNonce(lib, h, j);
    EntryLasts(lib, h, j + 1, i, PrepareKey(sid, NonceKey(body.nonce)));
    AcceptableLaunchesAreAccepted(lib, h, i, sid, header, body, reg);
  }

  lemma LoginLeavesNonce(lib: Crypto, h: History, j: nat)
    requires AnyRun(lib, h) && j < |h.actions| && h.actions[j].Login?
    requires OidcLogins.Mints(h.actions[j].conf, h.actions[j].req)
    ensures var a := h.actions[j];
            var sid := OidcLogins.LoginSession(a.req, a.jar, a.mint);
            && PrepareKey(sid, NonceKey(a.mint.nonce)) in Cache(h, j + 1)
            && (a.params != EMPTY_BODY ==>
                  Read(Cache(h, j + 1), sid, ParamsKey(StateOf(a.mint.stateUuid))) == Some(Dict(a.params)))
  {
    assert HappensAt(lib, h, j);
    hide LaunchOutcome;
  }

  // ---- A platform, a tool and their answers, for the runs below. ----

  const KEY := Jwk("key", None, "material")
  const KEYS_URL := "https://platform/keys"
  const REGISTRATION := Registration(Some("client"), Some("https://platform/login"), None, Some(KEYS_URL))
  const CONF := ToolConf(
    _ => true, _ => Some(REGISTRATION), (_, _) => Some(REGISTRATION), (_, _) => true, (_, _, _) => true)
  const HEADER := Header("key", "RS256")

  function BodyWith(nonce: string): Body {
    Body("platform", One("client"), nonce, "deployment", "LtiResourceLinkRequest", map[])
  }

  /** The platform's key set document, which holds the claims of a launch as well. */
  const DOCUMENT := Keys([KEY], BodyWith(""))
  const ORACLE := Oracle(_ => Served(DOCUMENT), _ => Some("pem"), (_, _, _) => true, (_, _) => true)

  /** The token whose payload is empty carries one nonce, every other token another. */
  function CryptoWith(md5: string -> string, first: string, second: string): Crypto {
    Crypto(md5, _ => Object(HEADER), bytes => Object(BodyWith(if bytes == [] then first else second)))
  }

  function ZeroDigest(s: string): string { "00000000000000000000000000000000" }

  function FirstToken(): string { Jwt.Compact([], [], []) }

  function SecondToken(): string { Jwt.Compact([], [0], []) }

  const UUID := "00000000-0000-4000-8000-000000000000"

  function NonceOfDigit(c: char): string {
    seq(64, i => if i == 12 then '4' else if i == 16 || i == 48 then '8' else if i == 44 then '1' else c)
  }

  lemma ConstantsAreShaped()
    ensures IsUuid(UUID) && IsNonce(NonceOfDigit('0')) && IsNonce(NonceOfDigit('1'))
    ensures NonceOfDigit('0') != NonceOfDigit('1')
  {
    assert NonceOfDigit('0')[0] == '0' && NonceOfDigit('1')[0] == '1';
  }

  function LoginAction(secure: bool, jar: map<string, string>, mint: OidcLogins.Mint, params: Body): Action {
    Login(CONF, OidcLogins.LoginRequest(secure, "platform", "hint", "client", "", "https://tool/launch"), jar, mint,
      params)
  }

  function LaunchAction(secure: bool, jar: map<string, string>, post: Request, uuid: string, caching: bool): Action {
    Launch(LaunchRequest(secure, CONF, jar, post, uuid, caching, ORACLE))
  }

  function RestoringAction(secure: bool, jar: map<string, string>, launchId: string): Action {
    Restoring(secure, CONF, jar, launchId, Request("", ""), ORACLE)
  }

  lemma TokenDecodes(crypto: Crypto, payload: seq<Jwt.Byte>)
    requires crypto.parseHeader([]) == Object(HEADER) && crypto.parseBody(payload).Object?
    ensures DecodesTo(crypto, Jwt.Compact([], payload, []), HEADER, crypto.parseBody(payload).value)
    ensures Jwt.Compact([], payload, []) != ""
  {
    Jwt.CompactRoundTrip([], payload, []);
    hide Jwt.UrlsafeB64Decode;
    hide Jwt.Parts;
  }

  lemma TokensDecode(md5: string -> string, first: string, second: string)
    ensures DecodesTo(CryptoWith(md5, first, second), FirstToken(), HEADER, BodyWith(first))
    ensures DecodesTo(CryptoWith(md5, first, second), SecondToken(), HEADER, BodyWith(second))
  {
    TokenDecodes(CryptoWith(md5, first, second), []);
    TokenDecodes(CryptoWith(md5, first, second), [0]);
    hide DecodesTo;
  }

  lemma DigestsAreHex(first: string, second: string)
    ensures HexDigests(CryptoWith(ZeroDigest, first, second))
  {
  }

  lemma DecodedTokensAreFull(lib: Crypto, token: string, header: Header, body: Body)
    requires DecodesTo(lib, token, header, body)
    ensures token != ""
  {
    hide Jwt.UrlsafeB64Decode;
  }

  // ---- Appending logins, launches and restored launches. ----

  lemma LoginActionFacts(secure: bool, jar: map<string, string>, mint: OidcLogins.Mint, params: Body)
    ensures var a := LoginAction(secure, jar, mint, params);
            && a.Login? && OidcLogins.Mints(a.conf, a.req) && a.jar == jar && a.mint == mint && a.params == params
            && OidcLogins.LoginSession(a.req, a.jar, a.mint) == NewSession(secure, jar, mint)
            && (StateOf(mint.stateUuid), StateOf(mint.stateUuid))
               in OidcLogins.CookiesSet(a.conf, a.req, jar, mint).Items
            && (secure && SESSION_COOKIE !in jar ==>
                  (SESSION_COOKIE, mint.sessionUuid) in OidcLogins.CookiesSet(a.conf, a.req, jar, mint).Items)
  {
    var a := LoginAction(secure, jar, mint, params);
    var cookies := OidcLogins.CookiesSet(a.conf, a.req, jar, mint);
    var state := StateOf(mint.stateUuid);
    assert state[1] == 't';
    assert state in cookies && cookies[state] == state;
  }

  function NewSession(secure: bool, jar: map<string, string>, mint: OidcLogins.Mint): Option<string> {
    if !secure then None
    else if SESSION_COOKIE in jar && jar[SESSION_COOKIE] != "" then Some(jar[SESSION_COOKIE])
    else Some(mint.sessionUuid)
  }

  /** The run goes on with a login, which leaves its nonce and parameters behind and hands out its cookies. */
  lemma AppendLogin(lib: Crypto, h: History, secure: bool, jar: map<string, string>, mint: OidcLogins.Mint,
      params: Body)
    returns (e: History)
    requires AnyRun(lib, h) && IsUuid(mint.sessionUuid) && IsUuid(mint.stateUuid) && IsNonce(mint.nonce)
    ensures Continues(lib, h, LoginAction(secure, jar, mint, params), e)
    ensures PrepareKey(NewSession(secure, jar, mint), NonceKey(mint.nonce)) in Cache(e, |h.actions| + 1)
    ensures params != EMPTY_BODY ==>
              Read(Cache(e, |h.actions| + 1), NewSession(secure, jar, mint), ParamsKey(StateOf(mint.stateUuid))) ==
                Some(Dict(params))
    ensures (StateOf(mint.stateUuid), StateOf(mint.stateUuid)) in e.states[|h.actions| + 1].cookies
    ensures secure && SESSION_COOKIE !in jar ==> (SESSION_COOKIE, mint.sessionUuid) in e.states[|h.actions| + 1].cookies
  {
    var n := |h.actions|;
    var login := LoginAction(secure, jar, mint, params);
    LoginActionFacts(secure, jar, mint, params);
    hide LoginAction;
    hide IsUuid;
    hide IsNonce;
    e := AppendAction(lib, h, login);
    LoginLeavesNonce(lib, e, n);
    LoginHandsOutCookies(lib, e, n);
  }

  lemma LoginHandsOutCookies(lib: Crypto, h: History, n: nat)
    requires AnyRun(lib, h) && n < |h.actions| && h.actions[n].Login?
    ensures var a := h.actions[n];
            h.states[n + 1].cookies == h.states[n].cookies + OidcLogins.CookiesSet(a.conf, a.req, a.jar, a.mint).Items
  {
    hide LaunchOutcome;
    assert HappensAt(lib, h, n);
  }

  /**
   The run `e` is `h` with one more action; no entry and no cookie is lost, and it is honest if the action's jar is.
   */
  ghost predicate Continues(lib: Crypto, h: History, action: Action, e: History) {
    && AnyRun(lib, e) && e.actions == h.actions + [action]
    && e.answers[..|h.actions|] == h.answers && e.states[..|h.actions| + 1] == h.states
    && (action.Expire? || forall key :: key in Cache(h, |h.actions|) ==> key in Cache(e, |h.actions| + 1))
    && h.states[|h.actions|].cookies <= e.states[|h.actions| + 1].cookies
    && (HonestRun(lib, h) && WellBehaved(h.states[|h.actions|], action) ==> HonestRun(lib, e))
  }

  lemma AppendAction(lib: Crypto, h: History, action: Action) returns (e: History)
    requires AnyRun(lib, h) && Shaped(action)
    ensures Continues(lib, h, action, e)
  {
    var n := |h.actions|;
    e := Append(lib, h, action);
    assert HappensAt(lib, e, n);
    hide HonestRun;
    hide Shaped;
    assert Cache(e, n) == Cache(h, n) && e.states[n] == h.states[n] by { assert e.states[..n + 1][n] == h.states[n]; }
    assert e.states[n].cookies <= e.states[n + 1].cookies by { hide LaunchOutcome; }
    hide AnyRun;
    hide Happens;
    if !action.Expire? {
      forall key | key in Cache(h, n) ensures key in Cache(e, n + 1) { EntriesStay(lib, e, n, key); }
    }
  }

  /**
   What a launch of the tool needs besides its nonce: a session, a known state, and a key set not yet cached, or no
   caching.
   */
  ghost predicate Postable(lib: Crypto, store: Store, secure: bool, jar: map<string, string>, post: Request,
      caching: bool, nonce: string) {
    && LaunchSession(secure, jar).Ok?
    && var sid := LaunchSession(secure, jar).value;
    && post.state != "" && nonce != "" && DecodesTo(lib, post.idToken, HEADER, BodyWith(nonce))
    && ((post.state in jar && jar[post.state] == post.state)
        || Read(store, sid, MarkerKey(post.state)) == Some(Hash(lib.md5(post.idToken))))
    && PrepareKey(sid, NonceKey(nonce)) in store
    && (caching ==> Read(store, None, KeySetKey(lib.md5(KEYS_URL))).None?)
  }

  lemma PostedWithCookie(lib: Crypto, store: Store, secure: bool, jar: map<string, string>, post: Request,
      caching: bool,
                         nonce: string)
    requires LaunchSession(secure, jar).Ok? && post.state != "" && post.state in jar && jar[post.state] == post.state
    requires nonce != "" && DecodesTo(lib, post.idToken, HEADER, BodyWith(nonce))
    requires PrepareKey(LaunchSession(secure, jar).value, NonceKey(nonce)) in store
    requires caching ==> Read(store, None, KeySetKey(lib.md5(KEYS_URL))).None?
    ensures Postable(lib, store, secure, jar, post, caching, nonce)
  {
    hide DecodesTo;
    hide PrepareKey;
  }

  lemma PostableIsAcceptable(lib: Crypto, store: Store, secure: bool, jar: map<string, string>, post: Request,
      uuid: string,
                             caching: bool, nonce: string)
    requires Postable(lib, store, secure, jar, post, caching, nonce)
    ensures var l := LaunchAction(secure, jar, post, uuid, caching).launch;
            && SessionOfLaunch(l) == LaunchSession(secure, jar)
            && Acceptable(ContextOf(lib, l, SessionOfLaunch(l).value), ORACLE, store, HEADER, BodyWith(nonce),
                 REGISTRATION)
  {
    DecodedTokensAreFull(lib, post.idToken, HEADER, BodyWith(nonce));
    hide DecodesTo;
    hide PrepareKey;
    var l := LaunchAction(secure, jar, post, uuid, caching).launch;
    var c := ContextOf(lib, l, SessionOfLaunch(l).value);
    KeysVerify(c, store, post.idToken);
    ClaimsAreKnown(c, nonce);
    hide Verified;
    hide ClaimsResolve;
    hide OneValidatorAccepts;
  }

  lemma ClaimsAreKnown(c: Context, nonce: string)
    requires c.conf == CONF
    ensures ClaimsResolve(c, BodyWith(nonce), REGISTRATION) && OneValidatorAccepts(ORACLE, BodyWith(nonce))
  {
  }

  lemma KeysVerify(c: Context, store: Store, token: string)
    requires c.request.idToken == token && (c.caching ==> Read(store, None, KeySetKey(c.crypto.md5(KEYS_URL))).None?)
    ensures Verified(c, ORACLE, store, HEADER, REGISTRATION)
  {
    KeysAreFetched(c, store);
    hide KeysOf;
    hide PrepareKey;
    assert VerifiedBy(ORACLE, token, [KEY], HEADER, 0);
  }

  lemma KeysAreFetched(c: Context, store: Store)
    requires c.caching ==> Read(store, None, KeySetKey(c.crypto.md5(KEYS_URL))).None?
    ensures KeySetFor(c, ORACLE, store, REGISTRATION).0 == Ok(DOCUMENT) && KeysOf(c, ORACLE, store, REGISTRATION, [KEY])
    ensures c.caching ==> KeySetFor(c, ORACLE, store, REGISTRATION).1 ==
                          Write(store, None, KeySetKey(c.crypto.md5(KEYS_URL)), Jwks(DOCUMENT))
  {
    hide PrepareKey;
    assert IsHttpUrl(KEYS_URL);
    KeySetForIs(c, ORACLE, store, REGISTRATION, DOCUMENT);
  }

  /** The run goes on with a launch, accepted because its nonce is known, which leaves its record and its marker. */
  lemma AppendLaunch(lib: Crypto, h: History, secure: bool, jar: map<string, string>, post: Request, uuid: string,
                     caching: bool, nonce: string) returns (e: History)
    requires AnyRun(lib, h) && IsUuid(uuid) && Postable(lib, Cache(h, |h.actions|), secure, jar, post, caching, nonce)
    ensures Continues(lib, h, LaunchAction(secure, jar, post, uuid, caching), e)
    ensures var n, sid := |h.actions|, LaunchSession(secure, jar).value;
            && AcceptedAt(e, n, sid, BodyWith(nonce))
            && PrepareKey(sid, RecordKey(LaunchIdOf(uuid))) in Cache(e, n + 1)
            && Read(Cache(e, n + 1), sid, MarkerKey(post.state)) == Some(Hash(lib.md5(post.idToken)))
  {
    var n, sid := |h.actions|, LaunchSession(secure, jar).value;
    var action := LaunchAction(secure, jar, post, uuid, caching);
    assert Shaped(action);
    hide IsUuid;
    e := AppendAction(lib, h, action);
    assert Cache(e, n) == Cache(h, n) by { assert e.states[..n + 1][n] == h.states[n]; }
    PostableIsAcceptable(lib, Cache(h, n), secure, jar, post, uuid, caching, nonce);
    assert action.launch.oracle == ORACLE && action.launch.launchUuid == uuid && action.launch.request == post;
    hide LaunchAction;
    hide Acceptable;
    AcceptableLaunchesAreAccepted(lib, e, n, sid, HEADER, BodyWith(nonce), REGISTRATION);
    hide Postable;
    LaunchLeavesItsEntries(lib, e, n, sid, BodyWith(nonce));
  }

  lemma LaunchLeavesItsEntries(lib: Crypto, h: History, i: nat, sid: Option<string>, body: Body)
    requires AnyRun(lib, h) && AcceptedAt(h, i, sid, body)
    ensures var l := h.actions[i].launch;
            && PrepareKey(sid, RecordKey(LaunchIdOf(l.launchUuid))) in Cache(h, i + 1)
            && Read(Cache(h, i + 1), sid, MarkerKey(l.request.state)) == Some(Hash(lib.md5(l.request.idToken)))
  {
    assert HappensAt(lib, h, i);
    hide Happens;
    var _ := LaunchEffect(lib, h, i);
  }

  /** The run goes on with a restored launch, whose text reads a value that holds a body with a known client. */
  lemma AppendRestoring(lib: Crypto, h: History, secure: bool, jar: map<string, string>, launchId: string, body: Body)
    returns (e: History)
    requires AnyRun(lib, h) && LaunchSession(secure, jar).Ok? && FindRegistration(CONF, body).Ok?
    requires var value := Read(Cache(h, |h.actions|), LaunchSession(secure, jar).value, RecordKey(launchId));
             value.Some? && AsLaunchData(value.value) == Ok(body)
    ensures Continues(lib, h, RestoringAction(secure, jar, launchId), e)
    ensures RestoredAt(e, |h.actions|, LaunchSession(secure, jar).value, launchId, body)
  {
    hide FindRegistration;
    hide AsLaunchData;
    hide PrepareKey;
    var n := |h.actions|;
    e := AppendAction(lib, h, RestoringAction(secure, jar, launchId));
    assert Cache(e, n) == Cache(h, n) by { assert e.states[..n + 1][n] == h.states[n]; }
    assert HappensAt(lib, e, n);
    assert RestoreOutcome(secure, CONF, jar, launchId, Cache(h, n)) == Ok(body);
  }
}
