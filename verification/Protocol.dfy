/**
 Runs of the launch protocol: logins, launches, restored launches and expiring entries, in any order,
 over one cache shared by all sessions. In any run random values have their shape; in an honest run
 browsers also present only cookies that a login handed out. Requests come over either scheme.
 */
module Protocol {
  import opened Wrappers
  import opened LtiData
  import opened Storage
  import opened Launch
  import opened MessageLaunches
  import opened OddNonces
  import OidcLogins

  /** A launch request: what the browser sends, the launch's own random id, and the outside world's answers. */
  datatype LaunchRequest = LaunchRequest(
    secure: bool, conf: ToolConf, cookies: map<string, string>, request: Request, launchUuid: string, caching: bool,
      oracle: Oracle)

  datatype Action =
    | Login(conf: ToolConf, req: OidcLogins.LoginRequest, jar: map<string, string>, mint: OidcLogins.Mint, params: Body)
    | Launch(launch: LaunchRequest)
    | Restoring(secure: bool, conf: ToolConf, jar: map<string, string>, launchId: string, request: Request,
      oracle: Oracle)
    | Expire(key: string)

  /** The body that a launch or a restored launch hands out, or its error; without meaning for other actions. */
  type Answer = Result<Body, Error>

  /** The cache, and every cookie ever handed to a browser. */
  datatype System = System(store: Store, cookies: set<(string, string)>)

  const START := System(map[], {})

  // ---- Runs. ----

  /** A record of actions, with the answer to each and the states before, between and after them. */
  datatype Trace = Trace(actions: seq<Action>, answers: seq<Answer>, states: seq<System>)

  type History = h: Trace | |h.answers| == |h.actions| && |h.states| == |h.actions| + 1
    witness Trace([], [], [START])

  /** The cache before action `n`, or after the last one. */
  function Cache(h: History, n: nat): Store
    requires n <= |h.actions|
  {
    h.states[n].store
  }

  function ContextOf(lib: Crypto, l: LaunchRequest, sid: Option<string>): Context {
    Context(lib, l.conf, sid, l.cookies, l.request, LaunchIdOf(l.launchUuid), l.caching)
  }

  function SessionOfLaunch(l: LaunchRequest): Result<Option<string>, Error> {
    LaunchSession(l.secure, l.cookies)
  }

  /** What a launch comes to in a state of the cache; a request without its session's cookie is refused. */
  ghost function LaunchOutcome(lib: Crypto, l: LaunchRequest, store: Store): (Answer, Store) {
    match SessionOfLaunch(l)
    case Err(e) => (Err(e), store)
    case Ok(sid) => Validate(ContextOf(lib, l, sid), l.oracle, store)
  }

  function RestoreOutcome(secure: bool, conf: ToolConf, jar: map<string, string>, launchId: string,
      store: Store): Answer {
    var sid :- LaunchSession(secure, jar);
    Restore(conf, store, sid, launchId)
  }

  /** The action turns one state into the next and is answered like this. */
  ghost predicate Happens(lib: Crypto, st: System, action: Action, answer: Answer, next: System) {
    match action
    case Login(conf, req, jar, mint, params) =>
      next == System(OidcLogins.StoreAfter(conf, req, jar, mint, params, st.store),
                     st.cookies + OidcLogins.CookiesSet(conf, req, jar, mint).Items)
    case Launch(l) => (answer, next.store) == LaunchOutcome(lib, l, st.store) && next.cookies == st.cookies
    case Restoring(secure, conf, jar, launchId, _, _) =>
      answer == RestoreOutcome(secure, conf, jar, launchId, st.store) && next == st
    case Expire(key) => next == st.(store := st.store - {key})
  }

  /** Random values have their shape. */
  ghost predicate Shaped(action: Action) {
    match action
    case Login(_, _, _, mint, _) => IsUuid(mint.sessionUuid) && IsUuid(mint.stateUuid) && IsNonce(mint.nonce)
    case Launch(l) => IsUuid(l.launchUuid)
    case _ => true
  }

  /** A browser presents only cookies that some login handed out. */
  ghost predicate Honest(jar: map<string, string>, cookies: set<(string, string)>) {
    forall name :: name in jar ==> (name, jar[name]) in cookies
  }

  /** The request's jar is honest. */
  ghost predicate WellBehaved(st: System, action: Action) {
    match action
    case Login(_, _, jar, _, _) => Honest(jar, st.cookies)
    case Launch(l) => Honest(l.cookies, st.cookies)
    case Restoring(_, _, jar, _, _, _) => Honest(jar, st.cookies)
    case Expire(_) => true
  }

  ghost predicate HappensAt(lib: Crypto, h: History, i: nat) {
    i < |h.actions| && Shaped(h.actions[i]) && Happens(lib, h.states[i], h.actions[i], h.answers[i], h.states[i + 1])
  }

  ghost predicate WellBehavedAt(h: History, i: nat) {
    i < |h.actions| && WellBehaved(h.states[i], h.actions[i])
  }

  /** Any run at all: browsers may present whatever cookies they like, over either scheme. */
  ghost predicate AnyRun(lib: Crypto, h: History) {
    h.states[0] == START && forall i: nat :: i < |h.actions| ==> HappensAt(lib, h, i)
  }

  ghost predicate HonestRun(lib: Crypto, h: History) {
    AnyRun(lib, h) && forall i: nat :: i < |h.actions| ==> WellBehavedAt(h, i)
  }

  // ---- Cookies. ----

  ghost predicate MintedCookie(name: string, value: string) {
    (name == SESSION_COOKIE && IsUuid(value)) || (name == value && exists uuid :: IsUuid(uuid) && name == StateOf(uuid))
  }

  /** Every cookie handed out names a session or is a state's own. */
  lemma {:induction false} CookiesAreMinted(lib: Crypto, h: History, n: nat, name: string, value: string)
    requires AnyRun(lib, h) && n <= |h.actions| && (name, value) in h.states[n].cookies
    ensures MintedCookie(name, value)
  {
    hide LaunchOutcome;
    if (name, value) !in h.states[n - 1].cookies {
      assert HappensAt(lib, h, n - 1);
    } else {
      CookiesAreMinted(lib, h, n - 1, name, value);
    }
  }

  /** With honest jars, the session a request names, if any, is one that a login minted. */
  lemma SessionsAreMinted(lib: Crypto, h: History, n: nat, secure: bool, jar: map<string, string>)
    requires AnyRun(lib, h) && n <= |h.actions| && Honest(jar, h.states[n].cookies)
    requires LaunchSession(secure, jar).Ok?
    ensures MintedSession(LaunchSession(secure, jar).value)
  {
    if secure {
      CookiesAreMinted(lib, h, n, SESSION_COOKIE, jar[SESSION_COOKIE]);
      assert forall uuid :: StateOf(uuid)[1] == 't';
    }
  }

  lemma LoginSessionsAreMinted(lib: Crypto, h: History, n: nat)
    requires HonestRun(lib, h) && n < |h.actions| && h.actions[n].Login?
    ensures MintedSession(OidcLogins.LoginSession(h.actions[n].req, h.actions[n].jar, h.actions[n].mint))
  {
    assert HappensAt(lib, h, n) && WellBehavedAt(h, n);
    var a := h.actions[n];
    if a.req.secure && LaunchSession(true, a.jar).Ok? { SessionsAreMinted(lib, h, n, true, a.jar); }
  }

  // ---- Where entries come from. ----

  /** The entries that an action writes, kind by kind. */
  ghost predicate Writes(lib: Crypto, action: Action, answer: Answer, key: string, value: Value) {
    match action
    case Login(conf, req, jar, mint, params) =>
      && OidcLogins.Mints(conf, req)
      && var sid := OidcLogins.LoginSession(req, jar, mint);
      || (key == PrepareKey(sid, NonceKey(mint.nonce)) && value == Mark)
      || (params != EMPTY_BODY && key == PrepareKey(sid, ParamsKey(StateOf(mint.stateUuid))) && value == Dict(params))
    case Launch(l) =>
      || (exists url :: WritesKeySet(lib, l, url, key, value))
      || (SessionOfLaunch(l).Ok? && answer.Ok?
           && WritesLaunch(lib, l, SessionOfLaunch(l).value, answer.value, key, value))
    case _ => false
  }

  ghost predicate WritesKeySet(lib: Crypto, l: LaunchRequest, url: string, key: string, value: Value) {
    value.Jwks? && l.oracle.fetch(url) == Served(value.keySet) && key == PrepareKey(None, KeySetKey(lib.md5(url)))
  }

  ghost predicate WritesLaunch(lib: Crypto, l: LaunchRequest, sid: Option<string>, body: Body, key: string,
      value: Value) {
    || (key == PrepareKey(sid, RecordKey(LaunchIdOf(l.launchUuid))) && value == Dict(body))
    || (key == PrepareKey(sid, MarkerKey(l.request.state)) && value == Hash(lib.md5(l.request.idToken)))
  }

  /** Action `i` writes this entry. */
  ghost predicate WrittenAt(lib: Crypto, h: History, i: nat, key: string, value: Value) {
    i < |h.actions| && Writes(lib, h.actions[i], h.answers[i], key, value)
  }

  ghost predicate KeySetCached(lib: Crypto, l: LaunchRequest, before: Store, url: string, keySet: KeySet,
      after: Store) {
    l.oracle.fetch(url) == Served(keySet) && after == Write(before, None, KeySetKey(lib.md5(url)), Jwks(keySet))
  }

  /** A launch may cache a key set, and when it is accepted it leaves its record and then its marker. */
  lemma LaunchEffect(lib: Crypto, h: History, n: nat) returns (fetched: Store)
    requires HappensAt(lib, h, n) && h.actions[n].Launch?
    ensures var l := h.actions[n].launch;
            && (fetched == Cache(h, n) || exists url, keySet :: KeySetCached(lib, l, Cache(h, n), url, keySet, fetched))
            && (h.answers[n].Ok? ==> SessionOfLaunch(l).Ok?)
            && Cache(h, n + 1) == if h.answers[n].Ok?
                 then SaveLaunch(ContextOf(lib, l, SessionOfLaunch(l).value), fetched, h.answers[n].value)
                                  else fetched
  {
    hide Validate;
    hide Fetched;
    hide SaveLaunch;
    var l := h.actions[n].launch;
    fetched := Cache(h, n);
    if SessionOfLaunch(l).Ok? {
      var c := ContextOf(lib, l, SessionOfLaunch(l).value);
      ValidateWrites(c, l.oracle, Cache(h, n));
      fetched := Fetched(c, l.oracle, Cache(h, n));
      if url, keySet :| KeySetWritten(c, l.oracle, Cache(h, n), url, keySet, fetched) {
        assert KeySetCached(lib, l, Cache(h, n), url, keySet, fetched);
      }
    }
  }

  lemma StepWrites(lib: Crypto, h: History, n: nat, key: string)
    requires HappensAt(lib, h, n) && key in Cache(h, n + 1)
    ensures WrittenAt(lib, h, n, key, Cache(h, n + 1)[key])
              || (key in Cache(h, n) && Cache(h, n)[key] == Cache(h, n + 1)[key])
  {
    hide LaunchOutcome;
    if h.actions[n].Launch? { LaunchWritesEntries(lib, h, n, key); }
  }

  lemma LaunchWritesEntries(lib: Crypto, h: History, n: nat, key: string)
    requires HappensAt(lib, h, n) && h.actions[n].Launch? && key in Cache(h, n + 1)
    ensures WrittenAt(lib, h, n, key, Cache(h, n + 1)[key])
            || (key in Cache(h, n) && Cache(h, n)[key] == Cache(h, n + 1)[key])
  {
    var fetched := LaunchEffect(lib, h, n);
    hide Happens;
    hide PrepareKey;
    var l := h.actions[n].launch;
    if key in fetched && (key !in Cache(h, n) || fetched[key] != Cache(h, n)[key]) {
      var url, keySet :| KeySetCached(lib, l, Cache(h, n), url, keySet, fetched);
      assert WritesKeySet(lib, l, url, key, fetched[key]);
    }
  }

  /** Every entry of the cache was written, with its value, by an earlier action. */
  lemma {:induction false} EntriesHaveWriters(lib: Crypto, h: History, n: nat, key: string) returns (i: nat)
    requires AnyRun(lib, h) && n <= |h.actions| && key in Cache(h, n)
    ensures i < n && WrittenAt(lib, h, i, key, Cache(h, n)[key])
  {
    hide WrittenAt;
    hide HappensAt;
    assert HappensAt(lib, h, n - 1);
    StepWrites(lib, h, n - 1, key);
    if WrittenAt(lib, h, n - 1, key, Cache(h, n)[key]) {
      i := n - 1;
    } else {
      i := EntriesHaveWriters(lib, h, n - 1, key);
    }
  }

  // ---- Accepted launches. ----

  /** Action `i` is a launch that was accepted, in this session and with this body. */
  ghost predicate AcceptedAt(h: History, i: nat, sid: Option<string>, body: Body) {
    && i < |h.actions| && h.actions[i].Launch?
    && SessionOfLaunch(h.actions[i].launch) == Ok(sid) && h.answers[i] == Ok(body)
  }

  /** Action `i` is a login that minted this state. */
  ghost predicate StateMintedAt(h: History, i: nat, state: string) {
    && i < |h.actions| && h.actions[i].Login? && OidcLogins.Mints(h.actions[i].conf, h.actions[i].req)
    && state == StateOf(h.actions[i].mint.stateUuid)
  }

  /** Action `i` is a login that saved this nonce in this session. */
  ghost predicate NonceSavedAt(h: History, i: nat, sid: Option<string>, nonce: string) {
    && i < |h.actions| && h.actions[i].Login? && OidcLogins.Mints(h.actions[i].conf, h.actions[i].req)
    && sid == OidcLogins.LoginSession(h.actions[i].req, h.actions[i].jar, h.actions[i].mint)
         && nonce == h.actions[i].mint.nonce
  }

  /** The whole chain of launch `i` held of the cache as it was then. */
  ghost predicate PassedAt(lib: Crypto, h: History, i: nat, sid: Option<string>, body: Body) {
    && i < |h.actions| && h.actions[i].Launch?
    && Passed(ContextOf(lib, h.actions[i].launch, sid), h.actions[i].launch.oracle, Cache(h, i), body)
  }

  lemma AcceptedMeansPassed(lib: Crypto, h: History, i: nat, sid: Option<string>, body: Body)
    requires AnyRun(lib, h) && AcceptedAt(h, i, sid, body)
    ensures PassedAt(lib, h, i, sid, body)
  {
    hide Validate;
    hide Passed;
    assert HappensAt(lib, h, i);
    var l := h.actions[i].launch;
    ValidateIffPassed(ContextOf(lib, l, sid), l.oracle, Cache(h, i), body);
  }

  /**
   In any run, the configuration knew the registration and the deployment of an accepted launch's issuer and client.
   */
  lemma AcceptedClaimsWereKnown(lib: Crypto, h: History, i: nat, sid: Option<string>, body: Body)
    returns (client: Option<string>)
    requires AnyRun(lib, h) && AcceptedAt(h, i, sid, body)
    ensures match body.aud {
            case NoAudience => client == None
            case One(id) => client == Some(id)
            case Many(ids) => |ids| > 0 && client == Some(ids[0])
            }
    ensures var conf := h.actions[i].launch.conf;
            && body.iss != "" && body.deploymentId != ""
            && var reg := if conf.hasOneClient(body.iss) then conf.findByIssuer(body.iss)
                 else conf.findByParams(body.iss, client);
            && reg.Some? && reg.value.clientId == client
            && if conf.hasOneClient(body.iss) then conf.findDeployment(body.iss, body.deploymentId)
               else conf.findDeploymentByParams(body.iss, body.deploymentId, client)
  {
    AcceptedMeansPassed(lib, h, i, sid, body);
    hide AnyRun;
    hide DecodesTo;
    hide Verified;
    hide MarkerFound;
    hide OneValidatorAccepts;
    var c := ContextOf(lib, h.actions[i].launch, sid);
    var header, reg :| PassedWith(c, h.actions[i].launch.oracle, Cache(h, i), header, body, reg);
    client := reg.clientId;
  }

  /** What the accepted launch's request and the cache had in common. */
  lemma AcceptedMeansKnown(lib: Crypto, h: History, i: nat, sid: Option<string>, body: Body)
    requires AnyRun(lib, h) && AcceptedAt(h, i, sid, body)
    ensures var c := ContextOf(lib, h.actions[i].launch, sid);
            && (MarkerFound(c, Cache(h, i)) || CookiePresented(c))
            && body.nonce != "" && Read(Cache(h, i), sid, NonceKey(body.nonce)).Some?
            && c.request.state != "" && c.request.idToken != ""
  {
    AcceptedMeansPassed(lib, h, i, sid, body);
    hide AnyRun;
  }

  lemma AcceptedSessionIsMinted(lib: Crypto, h: History, i: nat, sid: Option<string>, body: Body)
    requires HonestRun(lib, h) && AcceptedAt(h, i, sid, body)
    ensures MintedSession(sid)
  {
    assert WellBehavedAt(h, i);
    SessionsAreMinted(lib, h, i, h.actions[i].launch.secure, h.actions[i].launch.cookies);
  }

  // ---- States trace back to logins. ----

  /** What distinguishes the marker of a state in a session from other markers. */
  function Place(sid: Option<string>, state: string): string {
    Lead(sid) + state
  }

  /** Markers share a key exactly when they have one place, whatever the sessions and states are. */
  lemma MarkersShareKeysIff(s: Option<string>, state: string, t: Option<string>, other: string)
    ensures PrepareKey(s, MarkerKey(state)) == PrepareKey(t, MarkerKey(other)) <==> Place(s, state) == Place(t, other)
  {
    MarkersStrip(state);
    MarkersStrip(other);
    PreparedKeysEqual(s, MarkerKey(state), t, MarkerKey(other));
    hide PrepareKey;
    hide Strip;
    hide Lead;
    assert Lead(s) + (state + "-id-token-hash") == Place(s, state) + "-id-token-hash";
    assert Lead(t) + (other + "-id-token-hash") == Place(t, other) + "-id-token-hash";
    if Place(s, state) + "-id-token-hash" == Place(t, other) + "-id-token-hash" {
      AppendCancels(Place(s, state), "-id-token-hash", Place(t, other), "-id-token-hash");
    }
  }

  lemma MarkersStrip(state: string)
    ensures Strip(MarkerKey(state)) == state + "-id-token-hash"
  {
    assert SESSION_PREFIX + "-" == PREFIX;
    assert MarkerKey(state) == PREFIX + (state + "-id-token-hash");
  }

  /** Places of minted sessions are the same only for one session and state, or when a state spells the session. */
  lemma PlacesOfMintedSessions(s: Option<string>, state: string, t: Option<string>, other: string)
    requires MintedSession(s) && MintedSession(t) && Place(s, state) == Place(t, other)
    ensures (s == t && state == other)
            || (s.None? && t.Some? && state == t.value + "-" + other && IsHex(state[0]))
            || (s.Some? && t.None? && other == s.value + "-" + state && IsHex(other[0]))
  {
    assert "" + state == state && "" + other == other;
    if s.Some? && t.Some? {
      AppendCancels(s.value + "-", state, t.value + "-", other);
      AppendCancels(s.value, "-", t.value, "-");
    } else if s.None? && t.None? {
      assert state == other;
    }
  }

  /** A state's own cookie was handed out by a login that minted the state. */
  lemma {:induction false} CookiesHaveLogins(lib: Crypto, h: History, n: nat, state: string) returns (k: nat)
    requires AnyRun(lib, h) && n <= |h.actions| && (state, state) in h.states[n].cookies
    ensures k < n && StateMintedAt(h, k, state)
  {
    hide LaunchOutcome;
    if (state, state) in h.states[n - 1].cookies {
      k := CookiesHaveLogins(lib, h, n - 1, state);
    } else {
      assert HappensAt(lib, h, n - 1);
      assert |SESSION_COOKIE| == 10;
      k := n - 1;
    }
  }

  /** Action `j` is a launch accepted in this session that presented its state's own cookie. */
  ghost predicate PresentedAt(h: History, j: nat, sid: Option<string>) {
    && j < |h.actions| && h.actions[j].Launch? && h.answers[j].Ok?
    && var l := h.actions[j].launch;
    && SessionOfLaunch(l) == Ok(sid)
    && l.request.state in l.cookies && l.cookies[l.request.state] == l.request.state
  }

  /** Two launches have one marker: one place, and the same digest of the token. */
  ghost predicate SamePost(lib: Crypto, h: History, j: nat, t: Option<string>, i: nat, s: Option<string>)
    requires j < |h.actions| && h.actions[j].Launch? && i < |h.actions| && h.actions[i].Launch?
  {
    && Place(t, h.actions[j].launch.request.state) == Place(s, h.actions[i].launch.request.state)
    && lib.md5(h.actions[j].launch.request.idToken) == lib.md5(h.actions[i].launch.request.idToken)
  }

  /**
   Launch `j` in session `t` presented its cookie, and launch `i` in session `s` was let in by its marker, if not by its
   own.
   */
  ghost predicate RootOf(lib: Crypto, h: History, j: nat, t: Option<string>, i: nat, s: Option<string>) {
    && j <= i < |h.actions| && h.actions[i].Launch? && PresentedAt(h, j, t) && SamePost(lib, h, j, t, i, s)
  }

  /** In any run, an accepted launch traces back to one that presented a cookie and whose marker let it in. */
  lemma {:induction false} LaunchesHaveRoots(lib: Crypto, h: History, i: nat, sid: Option<string>, body: Body)
    returns (j: nat, t: Option<string>)
    requires AnyRun(lib, h) && AcceptedAt(h, i, sid, body)
    ensures RootOf(lib, h, j, t, i, sid)
    decreases i
  {
    AcceptedMeansKnown(lib, h, i, sid, body);
    var l := h.actions[i].launch;
    if CookiePresented(ContextOf(lib, l, sid)) {
      j, t := i, sid;
    } else {
      var m, s, b := MarkerHasLaunch(lib, h, i, sid, l.request.state, lib.md5(l.request.idToken));
      hide AnyRun;
      j, t := LaunchesHaveRoots(lib, h, m, s, b);
    }
  }

  /** In any run, a marker in the cache was left by an earlier accepted launch of that token and at that place. */
  lemma MarkerHasLaunch(lib: Crypto, h: History, n: nat, sid: Option<string>, state: string, hash: string)
    returns (m: nat, s: Option<string>, body: Body)
    requires AnyRun(lib, h) && n <= |h.actions|
    requires Read(Cache(h, n), sid, MarkerKey(state)) == Some(Hash(hash))
    ensures m < n && AcceptedAt(h, m, s, body)
    ensures Place(s, h.actions[m].launch.request.state) == Place(sid, state)
    ensures lib.md5(h.actions[m].launch.request.idToken) == hash
  {
    var key := PrepareKey(sid, MarkerKey(state));
    m := EntriesHaveWriters(lib, h, n, key);
    var l := h.actions[m].launch;
    s, body := SessionOfLaunch(l).value, h.answers[m].value;
    MarkersShareKeysIff(s, l.request.state, sid, state);
  }

  /** A state, over plain HTTP, that spells out a session and a state in it. */
  predicate SpellsSession(sid: Option<string>, state: string) {
    sid.None? && |state| == 79 && IsUuid(state[..36]) && state[36..43] == "-state-" && IsUuid(state[43..])
  }

  /**
   In an honest run every accepted launch traces back to an accepted launch of the same token that presented its
   state's cookie, and that state was minted by a login before it. Session and state are those of the launch,
   unless it came over plain HTTP and its state spells them out.
   */
  lemma LaunchesTraceToCookies(lib: Crypto, h: History, i: nat, sid: Option<string>, body: Body)
    returns (j: nat, t: Option<string>, k: nat)
    requires HonestRun(lib, h) && AcceptedAt(h, i, sid, body)
    ensures RootOf(lib, h, j, t, i, sid) && MintedSession(t)
    ensures k < j && StateMintedAt(h, k, h.actions[j].launch.request.state)
    ensures var state, root := h.actions[i].launch.request.state, h.actions[j].launch.request.state;
            if SpellsSession(sid, state) then t == Some(state[..36]) && root == state[37..]
            else t == sid && root == state
  {
    j, t := LaunchesHaveRoots(lib, h, i, sid, body);
    var state, root := h.actions[i].launch.request.state, h.actions[j].launch.request.state;
    AcceptedSessionIsMinted(lib, h, i, sid, body);
    AcceptedSessionIsMinted(lib, h, j, t, h.answers[j].value);
    assert WellBehavedAt(h, j);
    assert (root, root) in h.states[j].cookies;
    k := CookiesHaveLogins(lib, h, j, root);
    assert HappensAt(lib, h, k);
    hide AnyRun;
    hide Happens;
    StatesSpellSessionsIff(sid, state, t, h.actions[k].mint.stateUuid);
  }

  /** A minted state has the place of another session's state only if that state spells both out. */
  lemma StatesSpellSessionsIff(s: Option<string>, state: string, t: Option<string>, uuid: string)
    requires MintedSession(s) && MintedSession(t) && IsUuid(uuid) && Place(t, StateOf(uuid)) == Place(s, state)
    ensures if SpellsSession(s, state) then t == Some(state[..36]) && StateOf(uuid) == state[37..]
            else t == s && StateOf(uuid) == state
  {
    hide IsUuid;
    hide MintedSession;
    PlacesOfMintedSessions(s, state, t, StateOf(uuid));
    hide Lead;
    assert StateOf(uuid)[0] == 's';
    if s.None? && t.Some? {
      IdsAreMinted(t);
      SpelledStates(t.value, uuid);
    } else {
      StatesSpellNoSession(s, uuid);
    }
  }

  lemma IdsAreMinted(sid: Option<string>)
    requires MintedSession(sid) && sid.Some?
    ensures IsUuid(sid.value)
  {
  }

  lemma SpelledStates(sid: string, uuid: string)
    requires IsUuid(sid) && IsUuid(uuid)
    ensures var state := sid + "-" + StateOf(uuid);
            SpellsSession(None, state) && state[..36] == sid && state[37..] == StateOf(uuid)
  {
    var state := sid + "-" + StateOf(uuid);
    assert |sid| == |uuid| == 36;
    hide IsUuid;
    assert state[..36] == sid && state[36..43] == "-state-" && state[43..] == uuid;
  }

  lemma StatesSpellNoSession(sid: Option<string>, uuid: string)
    ensures !SpellsSession(sid, StateOf(uuid))
  {
    assert StateOf(uuid)[0] == 's';
    if |StateOf(uuid)| == 79 { assert StateOf(uuid)[..36][0] == 's'; }
  }

  /** Action `i` is a login that gets as far as minting its state and nonce. */
  ghost predicate MintsAt(h: History, i: nat) {
    i < |h.actions| && h.actions[i].Login? && OidcLogins.Mints(h.actions[i].conf, h.actions[i].req)
  }

  /** No nonce is minted twice. */
  ghost predicate FreshNonces(h: History) {
    forall i: nat, j: nat :: i < j && MintsAt(h, i) && MintsAt(h, j) ==>
      h.actions[i].mint.nonce != h.actions[j].mint.nonce
  }

  /** If digests are injective and nonces fresh, session and state are always those of the launch itself. */
  lemma FreshNoncesKeepSessions(lib: Crypto, h: History, i: nat, sid: Option<string>, body: Body)
    returns (j: nat, k: nat)
    requires HonestRun(lib, h) && AcceptedAt(h, i, sid, body)
    requires FreshNonces(h) && forall x, y :: lib.md5(x) == lib.md5(y) ==> x == y
    ensures RootOf(lib, h, j, sid, i, sid) && h.actions[j].launch.request.state == h.actions[i].launch.request.state
    ensures k < j && StateMintedAt(h, k, h.actions[i].launch.request.state)
  {
    var t;
    j, t, k := LaunchesTraceToCookies(lib, h, i, sid, body);
    var other := h.answers[j].value;
    SameTokenSameBody(lib, h, i, sid, body, j, t, other);
    var a := AcceptedNoncesWereSaved(lib, h, i, sid, body);
    var b := AcceptedNoncesWereSaved(lib, h, j, t, other);
    assert MintsAt(h, a) && MintsAt(h, b);
    assert a == b;
  }

  lemma SameTokenSameBody(lib: Crypto, h: History, i: nat, s: Option<string>, a: Body, j: nat, t: Option<string>,
      b: Body)
    requires AnyRun(lib, h) && AcceptedAt(h, i, s, a) && AcceptedAt(h, j, t, b)
    requires h.actions[i].launch.request.idToken == h.actions[j].launch.request.idToken
    ensures a == b
  {
    AcceptedMeansPassed(lib, h, i, s, a);
    AcceptedMeansPassed(lib, h, j, t, b);
    hide AnyRun;
    hide ClaimsResolve;
    hide Verified;
    hide OneValidatorAccepts;
    hide MarkerFound;
  }

  // ---- Every entry has a kind. ----

  /** The action writes an entry of this kind in this session; a marker, by any launch that has its place. */
  ghost predicate WritesKind(lib: Crypto, action: Action, answer: Answer, sid: Option<string>, kind: Kind,
      value: Value) {
    match kind
    case NonceOf(nonce) =>
      && action.Login? && OidcLogins.Mints(action.conf, action.req)
           && sid == OidcLogins.LoginSession(action.req, action.jar, action.mint)
      && nonce == action.mint.nonce && value == Mark
    case ParamsOf(uuid) =>
      && action.Login? && OidcLogins.Mints(action.conf, action.req)
           && sid == OidcLogins.LoginSession(action.req, action.jar, action.mint)
      && uuid == action.mint.stateUuid && action.params != EMPTY_BODY && value == Dict(action.params)
    case MarkerOf(uuid) =>
      && action.Launch? && SessionOfLaunch(action.launch).Ok? && answer.Ok?
      && Place(SessionOfLaunch(action.launch).value, action.launch.request.state) == Place(sid, StateOf(uuid))
      && value == Hash(lib.md5(action.launch.request.idToken))
    case RecordOf(uuid) =>
      && action.Launch? && SessionOfLaunch(action.launch) == Ok(sid) && answer.Ok?
      && action.launch.launchUuid == uuid && value == Dict(answer.value)
    case KeySetOf(hash) =>
      && action.Launch? && value.Jwks?
      && exists url :: action.launch.oracle.fetch(url) == Served(value.keySet) && hash == lib.md5(url)
  }

  ghost predicate KindWrittenAt(lib: Crypto, h: History, i: nat, sid: Option<string>, kind: Kind, value: Value) {
    i < |h.actions| && WritesKind(lib, h.actions[i], h.answers[i], sid, kind, value)
  }

  /**
   Every entry an action of an honest run writes is of one of the five kinds, built from minted values in a minted
   session.
   */
  lemma WritersHaveKinds(lib: Crypto, h: History, i: nat, key: string, value: Value)
    returns (sid: Option<string>, kind: Kind)
    requires HonestRun(lib, h) && WrittenAt(lib, h, i, key, value)
    ensures MintedSession(sid) && Minted(kind) && key == StoreKey(sid, kind)
    ensures KindWrittenAt(lib, h, i, sid, kind, value)
  {
    hide MintedSession;
    hide Happens;
    var action := h.actions[i];
    assert HappensAt(lib, h, i);
    if action.Login? {
      sid := OidcLogins.LoginSession(action.req, action.jar, action.mint);
      LoginSessionsAreMinted(lib, h, i);
      if key == PrepareKey(sid, NonceKey(action.mint.nonce)) && value == Mark { kind := NonceOf(action.mint.nonce); }
      else { kind := ParamsOf(action.mint.stateUuid); }
    } else if value.Jwks? {
      var url :| WritesKeySet(lib, action.launch, url, key, value);
      sid, kind := None, KeySetOf(lib.md5(url));
      assert MintedSession(None) by { NoSessionIsMinted(); }
    } else {
      sid := SessionOfLaunch(action.launch).value;
      var body := h.answers[i].value;
      AcceptedSessionIsMinted(lib, h, i, sid, body);
      if value.Dict? {
        kind := RecordOf(action.launch.launchUuid);
      } else {
        sid, kind := AcceptedMarkerIsMinted(lib, h, i, sid, body);
      }
    }
  }

  lemma NoSessionIsMinted()
    ensures MintedSession(None)
  {
  }

  /** An accepted launch's marker is that of a minted state in a minted session, as which its state may be spelled. */
  lemma AcceptedMarkerIsMinted(lib: Crypto, h: History, i: nat, sid: Option<string>, body: Body)
    returns (t: Option<string>, kind: Kind)
    requires HonestRun(lib, h) && AcceptedAt(h, i, sid, body)
    ensures MintedSession(t) && kind.MarkerOf? && Minted(kind)
    ensures PrepareKey(sid, MarkerKey(h.actions[i].launch.request.state)) == StoreKey(t, kind)
    ensures KindWrittenAt(lib, h, i, t, kind, Hash(lib.md5(h.actions[i].launch.request.idToken)))
  {
    var j, k;
    j, t, k := LaunchesTraceToCookies(lib, h, i, sid, body);
    assert HappensAt(lib, h, k);
    hide Happens;
    kind := MarkerOf(h.actions[k].mint.stateUuid);
    MarkersShareKeysIff(sid, h.actions[i].launch.request.state, t, h.actions[j].launch.request.state);
    hide PrepareKey;
  }

  /**
   An entry under a minted key was written, with its value, by an action that writes exactly this kind in this session.
   */
  lemma EntryOfKind(lib: Crypto, h: History, n: nat, sid: Option<string>, kind: Kind) returns (i: nat)
    requires HonestRun(lib, h) && n <= |h.actions| && MintedSession(sid) && Minted(kind)
    requires StoreKey(sid, kind) in Cache(h, n)
    ensures i < n && KindWrittenAt(lib, h, i, sid, kind, Cache(h, n)[StoreKey(sid, kind)])
  {
    hide WrittenAt;
    hide Minted;
    hide StoreKey;
    var key := StoreKey(sid, kind);
    i := EntriesHaveWriters(lib, h, n, key);
    var sid', kind' := WritersHaveKinds(lib, h, i, key, Cache(h, n)[key]);
    MintedKeysNeverCollide(sid, kind, sid', kind');
  }

  // ---- Safety of the records, in any run whatever. ----

  /** Digests are thirty-two hexadecimal digits. */
  ghost predicate HexDigests(crypto: Crypto) {
    forall x :: var h := crypto.md5(x); |h| == 32 && forall i :: 0 <= i < 32 ==> IsHex(h[i])
  }

  /** A prepared key ends as the bare key does, whatever the session. */
  lemma PreparedKeysEnd(sid: Option<string>, key: string, n: nat)
    requires 0 < n <= |Strip(key)|
    ensures n <= |PrepareKey(sid, key)|
    ensures PrepareKey(sid, key)[|PrepareKey(sid, key)| - n] == Strip(key)[|Strip(key)| - n]
  {
    PrepareKeyForm(sid, key);
  }

  lemma EndsAgree(s: Option<string>, j: Kind, t: Option<string>, k: Kind, n: nat)
    requires PrepareKey(s, KeyOf(j)) == PrepareKey(t, KeyOf(k)) && 0 < n <= |BareKey(j)| && n <= |BareKey(k)|
    ensures FromEnd(BareKey(j), n) == FromEnd(BareKey(k), n)
  {
    hide KeyOf;
    hide PrepareKey;
    hide BareKey;
    hide Strip;
    KeysStripToBareKeys(j);
    KeysStripToBareKeys(k);
    PreparedKeysEnd(s, KeyOf(j), n);
    PreparedKeysEnd(t, KeyOf(k), n);
  }

  /** The character a given number of places from the end. */
  function FromEnd(s: string, n: nat): char
    requires 0 < n <= |s|
  {
    s[|s| - n]
  }

  lemma UuidKeysEnd(uuid: string)
    requires IsUuid(uuid)
    ensures var p := BareKey(ParamsOf(uuid)); |p| == 42 && FromEnd(p, 37) == '-' && FromEnd(p, 38) == 'e'
    ensures var r := BareKey(RecordOf(uuid));
            |r| == 43 && FromEnd(r, 37) == '-' && FromEnd(r, 38) == 'h'
              && (IsHex(FromEnd(r, 34)) || FromEnd(r, 34) == '-')
  {
  }

  lemma KeySetKeysEnd(hash: string)
    requires |hash| == 32
    ensures var k := BareKey(KeySetOf(hash));
            |k| == 44 && FromEnd(k, 33) == '-' && FromEnd(k, 34) == 'l' && FromEnd(k, 38) == 't'
  {
  }

  lemma BareKeysEndWithDigits(k: Kind)
    requires HexMinted(k) && !k.MarkerOf?
    ensures BareKey(k) != "" && IsHex(BareKey(k)[|BareKey(k)| - 1])
  {
  }

  /** Minted, and with a digest of thirty-two hexadecimal digits. */
  ghost predicate HexMinted(k: Kind) {
    Minted(k) && (k.KeySetOf? ==> |k.hash| == 32 && forall i :: 0 <= i < 32 ==> IsHex(k.hash[i]))
  }

  /** No other kind's key ends as a marker's does, whatever text the marker's state is. */
  lemma OnlyMarkersEndAsMarkers(s: Option<string>, k: Kind, t: Option<string>, state: string)
    requires HexMinted(k) && !k.MarkerOf?
    ensures PrepareKey(s, KeyOf(k)) != PrepareKey(t, MarkerKey(state))
  {
    KeysStripToBareKeys(k);
    BareKeysEndWithDigits(k);
    hide KeyOf;
    hide BareKey;
    MarkersStrip(state);
    PreparedKeysEnd(s, KeyOf(k), 1);
    PreparedKeysEnd(t, MarkerKey(state), 1);
  }

  ghost predicate RealSession(sid: Option<string>) {
    sid.Some? ==> sid.value != ""
  }

  /** Of all keys built from minted values, a record has only its own, and only in its own session, of whatever form. */
  lemma RecordSharesItsKey(s: Option<string>, uuid: string, t: Option<string>, k: Kind)
    requires IsUuid(uuid) && HexMinted(k) && RealSession(s) && RealSession(t)
    requires StoreKey(s, RecordOf(uuid)) == StoreKey(t, k)
    ensures s == t && k == RecordOf(uuid)
  {
    UuidKeysEnd(uuid);
    match k
    case KeySetOf(hash) =>
      KeySetKeysEnd(hash);
      EndsAgree(s, RecordOf(uuid), None, k, 34);
    case ParamsOf(other) =>
      UuidKeysEnd(other);
      hide BareKey;
      EndsAgree(s, RecordOf(uuid), t, k, 38);
    case NonceOf(nonce) =>
      NonceEnds(nonce);
      hide BareKey;
      EndsAgree(s, RecordOf(uuid), t, k, 37);
    case RecordOf(other) =>
      UuidKeysEnd(other);
      hide BareKey;
      SameLengthSameSession(s, RecordOf(uuid), t, k);
    case MarkerOf(other) =>
      OnlyMarkersEndAsMarkers(s, RecordOf(uuid), t, StateOf(other));
  }

  lemma NonceEnds(nonce: string)
    requires IsNonce(nonce)
    ensures var n := BareKey(NonceOf(nonce)); |n| == 70 && IsHex(FromEnd(n, 33)) && IsHex(FromEnd(n, 37))
  {
    assert BareKey(NonceOf(nonce)) == "nonce-" + nonce;
  }

  lemma SameLengthSameSession(s: Option<string>, j: Kind, t: Option<string>, k: Kind)
    requires Minted(j) && Minted(k) && RealSession(s) && RealSession(t) && |BareKey(j)| == |BareKey(k)|
    requires PrepareKey(s, KeyOf(j)) == PrepareKey(t, KeyOf(k))
    ensures s == t && j == k
  {
    KeysStripToBareKeys(j);
    KeysStripToBareKeys(k);
    PreparedKeysEqual(s, KeyOf(j), t, KeyOf(k));
    hide PrepareKey;
    AppendCancels(Lead(s), BareKey(j), Lead(t), BareKey(k));
    BareKeysEqualIff(j, k);
    if Truthy(s) && Truthy(t) { AppendCancels(s.value, "-", t.value, "-"); }
  }

  /** Whatever writes an entry under a record's key is an accepted launch of that id and session leaving its record. */
  lemma RecordEntryIsOfLaunch(lib: Crypto, action: Action, answer: Answer, sid: Option<string>, uuid: string,
      value: Value)
    requires Shaped(action) && HexDigests(lib) && RealSession(sid) && IsUuid(uuid)
    requires Writes(lib, action, answer, PrepareKey(sid, KeyOf(RecordOf(uuid))), value)
    ensures WritesKind(lib, action, answer, sid, RecordOf(uuid), value)
  {
    hide PrepareKey;
    if action.Login? {
      var session := OidcLogins.LoginSession(action.req, action.jar, action.mint);
      if PrepareKey(sid, KeyOf(RecordOf(uuid))) == PrepareKey(session, NonceKey(action.mint.nonce)) {
        RecordSharesItsKey(sid, uuid, session, NonceOf(action.mint.nonce));
      } else {
        RecordSharesItsKey(sid, uuid, session, ParamsOf(action.mint.stateUuid));
      }
    } else if url :| WritesKeySet(lib, action.launch, url, PrepareKey(sid, KeyOf(RecordOf(uuid))), value) {
      RecordSharesItsKey(sid, uuid, None, KeySetOf(lib.md5(url)));
    } else {
      var session := SessionOfLaunch(action.launch).value;
      OnlyMarkersEndAsMarkers(sid, RecordOf(uuid), session, action.launch.request.state);
      RecordSharesItsKey(sid, uuid, session, RecordOf(action.launch.launchUuid));
    }
  }

  /** In every run, a record under a launch's key was left by an accepted launch of that id in that session. */
  lemma RecordsComeFromAcceptedLaunches(lib: Crypto, h: History, n: nat, sid: Option<string>, uuid: string)
    returns (i: nat, body: Body)
    requires AnyRun(lib, h) && n <= |h.actions| && HexDigests(lib) && RealSession(sid) && IsUuid(uuid)
    requires Read(Cache(h, n), sid, RecordKey(LaunchIdOf(uuid))).Some?
    ensures Read(Cache(h, n), sid, RecordKey(LaunchIdOf(uuid))) == Some(Dict(body))
    ensures i < n && AcceptedAt(h, i, sid, body) && h.actions[i].launch.launchUuid == uuid
  {
    hide Writes;
    hide HexDigests;
    var key := PrepareKey(sid, RecordKey(LaunchIdOf(uuid)));
    i := EntriesHaveWriters(lib, h, n, key);
    assert HappensAt(lib, h, i);
    hide Happens;
    hide AnyRun;
    RecordEntryIsOfLaunch(lib, h.actions[i], h.answers[i], sid, uuid, Cache(h, n)[key]);
    body := h.answers[i].value;
  }

  /**
   In every run, whatever cookies browsers present and over whichever scheme, a record under a launch's key was
   written by an accepted launch of that id in that session, whose whole chain held of the cache as it was then;
   and unless its nonce is an odd text, an earlier login of that session saved it.
   */
  lemma RecordsComeFromPassedLaunches(lib: Crypto, h: History, n: nat, sid: Option<string>, uuid: string)
    returns (i: nat, body: Body, j: nat)
    requires AnyRun(lib, h) && n <= |h.actions| && HexDigests(lib) && RealSession(sid) && IsUuid(uuid)
    requires Read(Cache(h, n), sid, RecordKey(LaunchIdOf(uuid))).Some?
    ensures Read(Cache(h, n), sid, RecordKey(LaunchIdOf(uuid))) == Some(Dict(body))
    ensures i < n && AcceptedAt(h, i, sid, body) && h.actions[i].launch.launchUuid == uuid
    ensures PassedAt(lib, h, i, sid, body)
    ensures !OddNonce(body.nonce) ==> j < i && NonceSavedAt(h, j, sid, body.nonce)
  {
    hide PassedAt;
    hide HexDigests;
    hide AnyRun;
    i, body := RecordsComeFromAcceptedLaunches(lib, h, n, sid, uuid);
    AcceptedMeansPassed(lib, h, i, sid, body);
    j := AcceptedNoncesWereSavedInAnyRun(lib, h, i, sid, body);
  }

  /** In any run, unless an accepted launch's nonce is an odd text, an earlier login of its session saved it. */
  lemma AcceptedNoncesWereSavedInAnyRun(lib: Crypto, h: History, i: nat, sid: Option<string>, body: Body)
    returns (j: nat)
    requires AnyRun(lib, h) && HexDigests(lib) && AcceptedAt(h, i, sid, body)
    ensures !OddNonce(body.nonce) ==> j < i && NonceSavedAt(h, j, sid, body.nonce)
  {
    hide AnyRun;
    hide HexDigests;
    hide OddNonce;
    AcceptedMeansKnown(lib, h, i, sid, body);
    j := 0;
    if !OddNonce(body.nonce) { j := KnownNonceWasSavedInAnyRun(lib, h, i, sid, body.nonce); }
  }

  /** In any run, a nonce that the cache knows in a session, unless it is an odd text, was saved there by a login. */
  lemma KnownNonceWasSavedInAnyRun(lib: Crypto, h: History, n: nat, sid: Option<string>, nonce: string) returns (j: nat)
    requires AnyRun(lib, h) && n <= |h.actions| && HexDigests(lib) && RealSession(sid) && nonce != ""
    requires !OddNonce(nonce)
    requires Read(Cache(h, n), sid, NonceKey(nonce)).Some?
    ensures j < n && NonceSavedAt(h, j, sid, nonce)
  {
    hide Writes;
    hide HexDigests;
    hide OddNonce;
    var key := PrepareKey(sid, NonceKey(nonce));
    j := EntriesHaveWriters(lib, h, n, key);
    assert HappensAt(lib, h, j);
    hide Happens;
    NonceEntryWasSaved(lib, h.actions[j], h.answers[j], sid, nonce, Cache(h, n)[key]);
  }

  /** Whatever writes an entry under the key of a nonce that is not odd is a login of that session saving it. */
  lemma NonceEntryWasSaved(lib: Crypto, action: Action, answer: Answer, sid: Option<string>, nonce: string,
      value: Value)
    requires Shaped(action) && HexDigests(lib) && RealSession(sid) && nonce != "" && !OddNonce(nonce)
    requires Writes(lib, action, answer, PrepareKey(sid, NonceKey(nonce)), value)
    ensures action.Login? && OidcLogins.Mints(action.conf, action.req)
    ensures sid == OidcLogins.LoginSession(action.req, action.jar, action.mint) && nonce == action.mint.nonce
  {
    hide PrepareKey;
    hide OddNonce;
    if action.Login? {
      var session := OidcLogins.LoginSession(action.req, action.jar, action.mint);
      if PrepareKey(sid, NonceKey(nonce)) == PrepareKey(session, NonceKey(action.mint.nonce)) {
        NonceSharesItsKey(sid, nonce, session, NonceOf(action.mint.nonce));
      } else {
        NonceSharesItsKey(sid, nonce, session, ParamsOf(action.mint.stateUuid));
      }
    } else if url :| WritesKeySet(lib, action.launch, url, PrepareKey(sid, NonceKey(nonce)), value) {
      NonceSharesItsKey(sid, nonce, None, KeySetOf(lib.md5(url)));
    } else {
      var session := SessionOfLaunch(action.launch).value;
      if PrepareKey(sid, NonceKey(nonce)) == PrepareKey(session, RecordKey(LaunchIdOf(action.launch.launchUuid))) {
        NonceSharesItsKey(sid, nonce, session, RecordOf(action.launch.launchUuid));
      } else {
        NonceSharesNoMarkersKey(sid, nonce, session, action.launch.request.state);
      }
    }
  }

  lemma NonceSharesNoMarkersKey(s: Option<string>, nonce: string, t: Option<string>, state: string)
    requires nonce != "" && !OddNonce(nonce)
    ensures PrepareKey(s, NonceKey(nonce)) != PrepareKey(t, MarkerKey(state))
  {
    hide OddNonce;
    KeysStripToBareKeys(NonceOf(nonce));
    MarkersStrip(state);
    PreparedKeysEqual(s, NonceKey(nonce), t, MarkerKey(state));
    hide PrepareKey;
    if PrepareKey(s, NonceKey(nonce)) == PrepareKey(t, MarkerKey(state)) {
      assert Lead(s) + ("nonce-" + nonce) == Lead(s) + "nonce-" + nonce;
      assert Lead(t) + (state + MARK) == (Lead(t) + state) + MARK;
      MarkerTailIsOdd(Lead(s), nonce, Lead(t) + state);
    }
  }

  /** Of all keys built from minted values, a nonce that is not odd has only its own, and only in its own session. */
  lemma NonceSharesItsKey(s: Option<string>, nonce: string, t: Option<string>, k: Kind)
    requires nonce != "" && !OddNonce(nonce) && HexMinted(k) && RealSession(s) && RealSession(t)
    requires PrepareKey(s, NonceKey(nonce)) == StoreKey(t, k)
    ensures s == t && k == NonceOf(nonce)
  {
    hide OddNonce;
    if k.MarkerOf? {
      NonceSharesNoMarkersKey(s, nonce, t, StateOf(k.uuid));
    } else {
      NonceSharesNoOthersKey(s, nonce, t, k);
    }
  }

  lemma NonceSharesNoOthersKey(s: Option<string>, nonce: string, t: Option<string>, k: Kind)
    requires nonce != "" && !OddNonce(nonce) && HexMinted(k) && !k.MarkerOf? && RealSession(s) && RealSession(t)
    requires PrepareKey(s, NonceKey(nonce)) == StoreKey(t, k)
    ensures s == t && k == NonceOf(nonce)
  {
    hide OddNonce;
    SharedKeySpellsBoth(s, nonce, if k.KeySetOf? then None else t, k);
    hide PrepareKey;
    hide KeyOf;
    if k.NonceOf? {
      BareNonce(k.nonce);
      hide BareKey;
      NonceTailIsOddOrSame(Lead(s), nonce, Lead(t), k.nonce);
      if Truthy(s) && Truthy(t) { AppendCancels(s.value, "-", t.value, "-"); }
    } else if k.KeySetOf? {
      KeySetsAreNoNonces(s, nonce, k.hash);
    } else {
      UuidKeysAreTails(k);
      UuidTailIsOdd(Lead(s), nonce, Lead(t), BareKey(k));
    }
  }

  lemma SharedKeySpellsBoth(s: Option<string>, nonce: string, t: Option<string>, k: Kind)
    requires nonce != "" && PrepareKey(s, NonceKey(nonce)) == PrepareKey(t, KeyOf(k))
    ensures Lead(s) + "nonce-" + nonce == Lead(t) + BareKey(k) && EndsLead(Lead(t))
    ensures t == None ==> Lead(t) + BareKey(k) == BareKey(k)
  {
    KeysStripToBareKeys(NonceOf(nonce));
    KeysStripToBareKeys(k);
    PreparedKeysEqual(s, NonceKey(nonce), t, KeyOf(k));
    assert BareKey(NonceOf(nonce)) == "nonce-" + nonce;
    assert Lead(s) + ("nonce-" + nonce) == Lead(s) + "nonce-" + nonce;
  }

  lemma BareNonce(nonce: string)
    requires nonce != ""
    ensures BareKey(NonceOf(nonce)) == "nonce-" + nonce
  {
  }

  lemma UuidKeysAreTails(k: Kind)
    requires (k.ParamsOf? || k.RecordOf?) && IsUuid(k.uuid)
    ensures IsTail(BareKey(k)) && (|BareKey(k)| == 42 || |BareKey(k)| == 43)
  {
    var lead := if k.ParamsOf? then "state-" else "launch-";
    assert BareKey(k)[..|lead|] == lead && BareKey(k)[|lead|..] == k.uuid;
  }

  // ---- Safety of nonces and restored launches, in honest runs. ----

  /** Whatever text a token carries as its nonce, if the cache knows it in a session then a login saved it there. */
  lemma KnownNoncesWereSaved(lib: Crypto, h: History, n: nat, sid: Option<string>, nonce: string) returns (j: nat)
    requires HonestRun(lib, h) && n <= |h.actions| && MintedSession(sid) && nonce != ""
    requires Read(Cache(h, n), sid, NonceKey(nonce)).Some?
    ensures j < n && NonceSavedAt(h, j, sid, nonce)
  {
    var key := PrepareKey(sid, NonceKey(nonce));
    j := EntriesHaveWriters(lib, h, n, key);
    var sid', kind := WritersHaveKinds(lib, h, j, key, Cache(h, n)[key]);
    hide HonestRun;
    NonceKeysAreNonces(sid, nonce, sid', kind);
  }

  /** A nonce's key, for any text, is the key of a minted entry only if that is the entry of this very nonce. */
  lemma NonceKeysAreNonces(s: Option<string>, nonce: string, t: Option<string>, kind: Kind)
    requires MintedSession(s) && MintedSession(t) && Minted(kind) && nonce != ""
    requires PrepareKey(s, NonceKey(nonce)) == StoreKey(t, kind)
    ensures s == t && kind == NonceOf(nonce)
  {
    var t' := if kind.KeySetOf? then None else t;
    KeysStripToBareKeys(NonceOf(nonce));
    KeysStripToBareKeys(kind);
    BareKeysBeginWithNoDigit(NonceOf(nonce));
    BareKeysBeginWithNoDigit(kind);
    MintedSessionsAreApart(s, NonceKey(nonce), t', KeyOf(kind));
    PreparedKeysEqualIff(s, NonceKey(nonce), t', KeyOf(kind));
    hide PrepareKey;
    hide KeyOf;
    BareNonce(nonce);
    assert BareKey(NonceOf(nonce))[0] == BareKey(kind)[0];
    if kind.NonceOf? {
      BareNonce(kind.nonce);
      AppendCancels("nonce-", nonce, "nonce-", kind.nonce);
    }
  }

  /**
   In an honest run every accepted launch's nonce, of whatever shape, was saved by an earlier login of its session.
   */
  lemma AcceptedNoncesWereSaved(lib: Crypto, h: History, i: nat, sid: Option<string>, body: Body) returns (j: nat)
    requires HonestRun(lib, h) && AcceptedAt(h, i, sid, body)
    ensures j < i && NonceSavedAt(h, j, sid, body.nonce)
  {
    AcceptedSessionIsMinted(lib, h, i, sid, body);
    AcceptedMeansKnown(lib, h, i, sid, body);
    j := KnownNoncesWereSaved(lib, h, i, sid, body.nonce);
  }

  // ---- Restored launches. ----

  /** Action `n` restored a launch from the record under this id, in this session and with this body. */
  ghost predicate RestoredAt(h: History, n: nat, sid: Option<string>, launchId: string, body: Body) {
    && n < |h.actions| && h.actions[n].Restoring? && h.actions[n].launchId == launchId
    && LaunchSession(h.actions[n].secure, h.actions[n].jar) == Ok(sid) && h.answers[n] == Ok(body)
  }

  /** A restored body is held by the value found under the id, and its registration still resolves. */
  lemma RestoredBodyIsStored(lib: Crypto, h: History, n: nat, sid: Option<string>, launchId: string, body: Body)
    requires AnyRun(lib, h) && RestoredAt(h, n, sid, launchId, body)
    ensures FindRegistration(h.actions[n].conf, body).Ok?
    ensures var value := Read(Cache(h, n), sid, RecordKey(launchId));
            value.Some? && AsLaunchData(value.value) == Ok(body)
  {
    hide FindRegistration;
    hide AsLaunchData;
    assert HappensAt(lib, h, n);
  }

  /** In any run, a launch restored by its id hands out the body of an accepted launch of the same session. */
  lemma RestoredLaunchesWereAccepted(lib: Crypto, h: History, n: nat, sid: Option<string>, uuid: string, body: Body)
    returns (i: nat)
    requires AnyRun(lib, h) && HexDigests(lib) && IsUuid(uuid) && RestoredAt(h, n, sid, LaunchIdOf(uuid), body)
    ensures i < n && AcceptedAt(h, i, sid, body) && h.actions[i].launch.launchUuid == uuid
    ensures FindRegistration(h.actions[n].conf, body).Ok?
  {
    RestoredBodyIsStored(lib, h, n, sid, LaunchIdOf(uuid), body);
    hide AnyRun;
    hide HexDigests;
    hide PassedAt;
    hide FindRegistration;
    var b;
    i, b := RecordsComeFromAcceptedLaunches(lib, h, n, sid, uuid);
  }

  /** Action `i` is a login that passed these parameters on, in this session. */
  ghost predicate PassedOnAt(h: History, i: nat, sid: Option<string>, params: Body) {
    && i < |h.actions| && h.actions[i].Login? && OidcLogins.Mints(h.actions[i].conf, h.actions[i].req)
    && sid == OidcLogins.LoginSession(h.actions[i].req, h.actions[i].jar, h.actions[i].mint)
    && params != EMPTY_BODY && params == h.actions[i].params
  }

  /** The text is the id of launch `i`, which was accepted in this session with this body. */
  ghost predicate NamesLaunch(h: History, i: nat, sid: Option<string>, text: string, body: Body) {
    AcceptedAt(h, i, sid, body) && text == "launch-" + h.actions[i].launch.launchUuid
  }

  /** The text is the state of login `i`, which passed the body on as parameters in this session. */
  ghost predicate NamesState(h: History, i: nat, sid: Option<string>, text: string, body: Body) {
    PassedOnAt(h, i, sid, body) && text == StateOf(h.actions[i].mint.stateUuid)
  }

  /** The text names a key set that launch `i` was served, and the body is the claims in that document. */
  ghost predicate NamesKeySet(lib: Crypto, h: History, i: nat, text: string, body: Body) {
    && i < |h.actions| && h.actions[i].Launch?
    && exists url :: ServesClaims(h.actions[i].launch.oracle, url, body) && text == "key-set-url-" + lib.md5(url)
  }

  ghost predicate ServesClaims(o: Oracle, url: string, body: Body) {
    o.fetch(url).Served? && AsLaunchData(Jwks(o.fetch(url).keySet)) == Ok(body)
  }

  /** The text spells a minted session, and then names something of that session. */
  ghost predicate NamesElsewhere(h: History, i: nat, text: string, body: Body) {
    && |text| > 37 && IsUuid(text[..36]) && text[36] == '-'
    && (NamesLaunch(h, i, Some(text[..36]), text[37..], body) || NamesState(h, i, Some(text[..36]), text[37..], body))
  }

  /** What a restored text stands for, in an honest run, shows in how it begins, without one leading prefix. */
  lemma RestoredTextsShowWhatTheyName(lib: Crypto, h: History, n: nat, sid: Option<string>, launchId: string,
      body: Body)
    requires HonestRun(lib, h) && RestoredAt(h, n, sid, launchId, body)
    ensures var text := Strip(launchId);
            && ("launch-" <= text <==> exists i: nat :: i < n && NamesLaunch(h, i, sid, text, body))
            && ("state-" <= text <==> exists i: nat :: i < n && NamesState(h, i, sid, text, body))
            && ("key-set-url-" <= text <==> sid == None && exists i: nat :: i < n && NamesKeySet(lib, h, i, text, body))
            && (text != "" && IsHex(text[0]) <==>
                  sid == None && exists i: nat :: i < n && NamesElsewhere(h, i, text, body))
            && ("launch-" <= text || "state-" <= text || "key-set-url-" <= text || (text != "" && IsHex(text[0])))
  {
    var i, t, kind, value := RestoringArbitraryIds(lib, h, n, sid, launchId, body);
    hide HonestRun;
    hide RestoredAt;
    hide Strip;
    var text := Strip(launchId);
    KindShowsInText(lib, h, i, sid, text, t, kind, value, body);
    forall k: nat { NamesShow(lib, h, k, sid, text, body); }
    hide KindWrittenAt;
    hide AsLaunchData;
    hide BareKey;
    hide NamesLaunch;
    hide NamesState;
    hide NamesKeySet;
    hide NamesElsewhere;
  }

  /** How the texts of each sort begin. */
  lemma NamesShow(lib: Crypto, h: History, i: nat, sid: Option<string>, text: string, body: Body)
    ensures NamesLaunch(h, i, sid, text, body) ==> "launch-" <= text
    ensures NamesState(h, i, sid, text, body) ==> "state-" <= text
    ensures NamesKeySet(lib, h, i, text, body) ==> "key-set-url-" <= text
    ensures NamesElsewhere(h, i, text, body) ==> text != "" && IsHex(text[0])
  {
    hide AcceptedAt;
    hide PassedOnAt;
    hide ServesClaims;
    hide NamesLaunch;
    hide NamesState;
    if NamesElsewhere(h, i, text, body) { assert text[..36][0] == text[0]; }
    if NamesLaunch(h, i, sid, text, body) { LaunchTextsBegin(h, i, sid, text, body); }
    if NamesState(h, i, sid, text, body) { StateTextsBegin(h, i, sid, text, body); }
    if NamesKeySet(lib, h, i, text, body) { KeySetTextsBegin(lib, h, i, text, body); }
  }

  lemma LaunchTextsBegin(h: History, i: nat, sid: Option<string>, text: string, body: Body)
    requires NamesLaunch(h, i, sid, text, body)
    ensures "launch-" <= text
  {
  }

  lemma StateTextsBegin(h: History, i: nat, sid: Option<string>, text: string, body: Body)
    requires NamesState(h, i, sid, text, body)
    ensures "state-" <= text
  {
  }

  lemma KeySetTextsBegin(lib: Crypto, h: History, i: nat, text: string, body: Body)
    requires NamesKeySet(lib, h, i, text, body)
    ensures "key-set-url-" <= text
  {
    hide ServesClaims;
  }

  lemma KindShowsInText(lib: Crypto, h: History, i: nat, sid: Option<string>, text: string, t: Option<string>,
      kind: Kind,
                        value: Value, body: Body)
    requires KindWrittenAt(lib, h, i, t, kind, value) && AsLaunchData(value) == Ok(body) && MintedSession(sid)
    requires MintedSession(t)
    requires Lead(sid) + text == Lead(if kind.KeySetOf? then None else t) + BareKey(kind)
    ensures || NamesLaunch(h, i, sid, text, body) || NamesState(h, i, sid, text, body)
            || (sid == None && NamesKeySet(lib, h, i, text, body)) || (sid == None && NamesElsewhere(h, i, text, body))
  {
    var t' := if kind.KeySetOf? then None else t;
    PlacesOfMintedSessions(sid, text, t', BareKey(kind));
    BareKeysBeginWithNoDigit(kind);
    if sid == t' {
      NamesItsKind(lib, h, i, t, kind, value, body);
    } else {
      assert text[..36] == t.value && text[37..] == BareKey(kind);
      NamesItsKind(lib, h, i, t, kind, value, body);
    }
  }

  lemma NamesItsKind(lib: Crypto, h: History, i: nat, t: Option<string>, kind: Kind, value: Value, body: Body)
    requires KindWrittenAt(lib, h, i, t, kind, value) && AsLaunchData(value) == Ok(body)
    ensures match kind {
            case RecordOf(_) => NamesLaunch(h, i, t, BareKey(kind), body)
            case ParamsOf(_) => NamesState(h, i, t, BareKey(kind), body)
            case KeySetOf(_) => NamesKeySet(lib, h, i, BareKey(kind), body)
            case _ => false
            }
  {
    if kind.KeySetOf? {
      var url :| h.actions[i].launch.oracle.fetch(url) == Served(value.keySet) && kind.hash == lib.md5(url);
      assert ServesClaims(h.actions[i].launch.oracle, url, body);
    }
  }

  /**
   Restoring by an arbitrary text finds the record of an accepted launch, the parameters a login passed on, or a
   key set a launch was served, whose key the session and the text spell together.
   */
  lemma RestoringArbitraryIds(lib: Crypto, h: History, n: nat, sid: Option<string>, launchId: string, body: Body)
    returns (i: nat, t: Option<string>, kind: Kind, value: Value)
    requires HonestRun(lib, h) && RestoredAt(h, n, sid, launchId, body)
    ensures i < n && (kind.RecordOf? || kind.ParamsOf? || kind.KeySetOf?) && MintedSession(sid) && MintedSession(t)
    ensures KindWrittenAt(lib, h, i, t, kind, value) && AsLaunchData(value) == Ok(body)
    ensures Lead(sid) + Strip(launchId) == Lead(if kind.KeySetOf? then None else t) + BareKey(kind)
  {
    hide PrepareKey;
    hide Lead;
    hide FindRegistration;
    hide BareKey;
    hide Strip;
    RestoredBodyIsStored(lib, h, n, sid, launchId, body);
    assert WellBehavedAt(h, n);
    SessionsAreMinted(lib, h, n, h.actions[n].secure, h.actions[n].jar);
    var key := PrepareKey(sid, RecordKey(launchId));
    value := Cache(h, n)[key];
    i := EntriesHaveWriters(lib, h, n, key);
    t, kind := WritersHaveKinds(lib, h, i, key, value);
    hide HonestRun;
    hide RestoredAt;
    hide WrittenAt;
    IdSpellsKey(sid, launchId, t, kind);
  }

  lemma IdSpellsKey(sid: Option<string>, launchId: string, t: Option<string>, kind: Kind)
    requires PrepareKey(sid, RecordKey(launchId)) == StoreKey(t, kind)
    ensures Lead(sid) + Strip(launchId) == Lead(if kind.KeySetOf? then None else t) + BareKey(kind)
  {
    PreparedKeysEqual(sid, RecordKey(launchId), if kind.KeySetOf? then None else t, KeyOf(kind));
    KeysStripToBareKeys(kind);
    assert RecordKey(launchId) == launchId;
  }

  // ---- Key sets. ----

  /** In any run, a key set obtained for an address was served for that address, now or at an earlier launch. */
  lemma KeySetsWereServed(lib: Crypto, h: History, n: nat, fetch: string -> FetchReply, caching: bool, url: string,
      keySet: KeySet)
    requires AnyRun(lib, h) && n <= |h.actions| && forall x, y :: lib.md5(x) == lib.md5(y) ==> x == y
    requires FetchKeys(lib.md5, fetch, caching, Cache(h, n), url).0 == Ok(keySet)
    ensures fetch(url) == Served(keySet)
            || exists i :: 0 <= i < n && h.actions[i].Launch? && h.actions[i].launch.oracle.fetch(url) == Served(keySet)
  {
    if fetch(url) != Served(keySet) {
      var key := PrepareKey(None, KeySetKey(lib.md5(url)));
      var i := EntriesHaveWriters(lib, h, n, key);
      var other :| WritesKeySet(lib, h.actions[i].launch, other, key, Jwks(keySet));
      KeySetKeysEqual(lib.md5(url), lib.md5(other));
    }
  }

  /** In any run, only key sets are ever found under a key set's key. */
  lemma KeySetKeysHoldKeySets(lib: Crypto, h: History, n: nat, url: string)
    requires AnyRun(lib, h) && HexDigests(lib) && n <= |h.actions|
    ensures var value := Read(Cache(h, n), None, KeySetKey(lib.md5(url))); value.Some? ==> value.value.Jwks?
  {
    var key := PrepareKey(None, KeySetKey(lib.md5(url)));
    if key in Cache(h, n) {
      hide Writes;
      var i := EntriesHaveWriters(lib, h, n, key);
      assert HappensAt(lib, h, i);
      KeySetEntryIsKeySet(lib, h.actions[i], h.answers[i], lib.md5(url), Cache(h, n)[key]);
    }
  }

  lemma KeySetEntryIsKeySet(lib: Crypto, action: Action, answer: Answer, hash: string, value: Value)
    requires Shaped(action) && HexMinted(KeySetOf(hash))
    requires Writes(lib, action, answer, StoreKey(None, KeySetOf(hash)), value)
    ensures value.Jwks?
  {
    hide PrepareKey;
    if action.Login? {
      var session := OidcLogins.LoginSession(action.req, action.jar, action.mint);
      KeySetSharesNoOthersKey(hash, session, NonceOf(action.mint.nonce));
      KeySetSharesNoOthersKey(hash, session, ParamsOf(action.mint.stateUuid));
    } else if SessionOfLaunch(action.launch).Ok? {
      var session := SessionOfLaunch(action.launch).value;
      KeySetSharesNoOthersKey(hash, session, RecordOf(action.launch.launchUuid));
      OnlyMarkersEndAsMarkers(None, KeySetOf(hash), session, action.launch.request.state);
    }
  }

  lemma KeySetSharesNoOthersKey(hash: string, t: Option<string>, k: Kind)
    requires HexMinted(KeySetOf(hash)) && Minted(k) && (k.NonceOf? || k.ParamsOf? || k.RecordOf?)
    ensures StoreKey(None, KeySetOf(hash)) != PrepareKey(t, KeyOf(k))
  {
    KeySetKeysEnd(hash);
    if k.NonceOf? { NonceEnds(k.nonce); } else { UuidKeysEnd(k.uuid); }
    hide BareKey;
    hide PrepareKey;
    if PrepareKey(None, KeyOf(KeySetOf(hash))) == PrepareKey(t, KeyOf(k)) {
      EndsAgree(None, KeySetOf(hash), t, k, if k.NonceOf? then 33 else 38);
    }
  }

  lemma KeySetKeysEqual(a: string, b: string)
    requires PrepareKey(None, KeySetKey(a)) == PrepareKey(None, KeySetKey(b))
    ensures a == b
  {
    PreparedKeysEqualIff(None, KeySetKey(a), None, KeySetKey(b));
    KeysStripToBareKeys(KeySetOf(a));
    KeysStripToBareKeys(KeySetOf(b));
    AppendCancels("key-set-url-", a, "key-set-url-", b);
  }

  // ---- Refreshing a launch. ----

  /**
   The action neither drops the two entries of a completed launch nor completes another token at its marker's place.
   */
  ghost predicate Leaves(lib: Crypto, action: Action, answer: Answer, sid: Option<string>, l: LaunchRequest,
      nonce: string) {
    && action != Expire(PrepareKey(sid, MarkerKey(l.request.state)))
    && action != Expire(PrepareKey(sid, NonceKey(nonce)))
    && (action.Launch? && answer.Ok? && SessionOfLaunch(action.launch).Ok?
        && Place(SessionOfLaunch(action.launch).value, action.launch.request.state) == Place(sid, l.request.state) ==>
          lib.md5(action.launch.request.idToken) == lib.md5(l.request.idToken))
  }

  /** The actions after `i` and before `n` leave the entries of launch `i` alone. */
  ghost predicate Undisturbed(lib: Crypto, h: History, i: nat, n: nat, sid: Option<string>, nonce: string)
    requires i < n <= |h.actions| && h.actions[i].Launch?
  {
    forall k :: i < k < n ==> Leaves(lib, h.actions[k], h.answers[k], sid, h.actions[i].launch, nonce)
  }

  ghost predicate Refreshable(lib: Crypto, store: Store, sid: Option<string>, l: LaunchRequest, nonce: string) {
    && Read(store, sid, MarkerKey(l.request.state)) == Some(Hash(lib.md5(l.request.idToken)))
    && Read(store, sid, NonceKey(nonce)).Some?
  }

  /** A key present in the cache is still there after an action that does not drop it. */
  lemma EntriesStay(lib: Crypto, h: History, n: nat, key: string)
    requires HappensAt(lib, h, n) && key in Cache(h, n) && h.actions[n] != Expire(key)
    ensures key in Cache(h, n + 1)
  {
    hide LaunchOutcome;
    if h.actions[n].Launch? { var _ := LaunchEffect(lib, h, n); }
  }

  /** Completing a launch leaves it ready to be refreshed. */
  lemma CompletionIsRefreshable(lib: Crypto, h: History, i: nat, sid: Option<string>, body: Body)
    requires AnyRun(lib, h) && AcceptedAt(h, i, sid, body)
    ensures Refreshable(lib, Cache(h, i + 1), sid, h.actions[i].launch, body.nonce)
  {
    hide Happens;
    assert HappensAt(lib, h, i);
    AcceptedMeansKnown(lib, h, i, sid, body);
    EntriesStay(lib, h, i, PrepareKey(sid, NonceKey(body.nonce)));
    var _ := LaunchEffect(lib, h, i);
  }

  /** Whatever writes an entry under a marker's key is an accepted launch at the marker's place leaving its marker. */
  lemma MarkerEntryIsOfLaunch(lib: Crypto, action: Action, answer: Answer, sid: Option<string>, state: string,
      value: Value)
    requires Shaped(action) && HexDigests(lib) && Writes(lib, action, answer, PrepareKey(sid, MarkerKey(state)), value)
    ensures action.Launch? && answer.Ok? && SessionOfLaunch(action.launch).Ok?
    ensures Place(SessionOfLaunch(action.launch).value, action.launch.request.state) == Place(sid, state)
    ensures value == Hash(lib.md5(action.launch.request.idToken))
  {
    hide PrepareKey;
    if action.Login? {
      var session := OidcLogins.LoginSession(action.req, action.jar, action.mint);
      OnlyMarkersEndAsMarkers(session, NonceOf(action.mint.nonce), sid, state);
      OnlyMarkersEndAsMarkers(session, ParamsOf(action.mint.stateUuid), sid, state);
    } else if url :| WritesKeySet(lib, action.launch, url, PrepareKey(sid, MarkerKey(state)), value) {
      OnlyMarkersEndAsMarkers(None, KeySetOf(lib.md5(url)), sid, state);
    } else {
      var session := SessionOfLaunch(action.launch).value;
      OnlyMarkersEndAsMarkers(session, RecordOf(action.launch.launchUuid), sid, state);
      MarkersShareKeysIff(session, action.launch.request.state, sid, state);
    }
  }

  lemma StepKeepsRefreshable(lib: Crypto, h: History, n: nat, sid: Option<string>, l: LaunchRequest, nonce: string)
    requires AnyRun(lib, h) && HexDigests(lib) && n < |h.actions|
    requires Refreshable(lib, Cache(h, n), sid, l, nonce) && Leaves(lib, h.actions[n], h.answers[n], sid, l, nonce)
    ensures Refreshable(lib, Cache(h, n + 1), sid, l, nonce)
  {
    hide Writes;
    hide HexDigests;
    hide Shaped;
    var key := PrepareKey(sid, MarkerKey(l.request.state));
    assert HappensAt(lib, h, n);
    hide Happens;
    EntriesStay(lib, h, n, key);
    EntriesStay(lib, h, n, PrepareKey(sid, NonceKey(nonce)));
    StepWrites(lib, h, n, key);
    if WrittenAt(lib, h, n, key, Cache(h, n + 1)[key]) {
      MarkerEntryIsOfLaunch(lib, h.actions[n], h.answers[n], sid, l.request.state, Cache(h, n + 1)[key]);
    }
  }

  lemma {:induction false} StaysRefreshable(lib: Crypto, h: History, i: nat, n: nat, sid: Option<string>, nonce: string)
    requires AnyRun(lib, h) && HexDigests(lib) && i < n <= |h.actions| && h.actions[i].Launch?
    requires Refreshable(lib, Cache(h, i + 1), sid, h.actions[i].launch, nonce) && Undisturbed(lib, h, i, n, sid, nonce)
    ensures Refreshable(lib, Cache(h, n), sid, h.actions[i].launch, nonce)
    decreases n
  {
    hide AnyRun;
    hide HexDigests;
    hide Refreshable;
    hide Leaves;
    if n > i + 1 {
      StaysRefreshable(lib, h, i, n - 1, sid, nonce);
      StepKeepsRefreshable(lib, h, n - 1, sid, h.actions[i].launch, nonce);
    }
  }

  /**
   In any run, once a launch has completed, and as long as its marker and nonce have not expired and no other
   token has been completed at its marker's place, posting the same state and token again in that session
   passes the state check without any cookie, and passes the nonce check, whatever else has happened.
   */
  lemma CompletedLaunchesCanBeRefreshed(lib: Crypto, h: History, i: nat, n: nat, sid: Option<string>, body: Body)
    requires AnyRun(lib, h) && HexDigests(lib) && AcceptedAt(h, i, sid, body) && i < n <= |h.actions|
    requires Undisturbed(lib, h, i, n, sid, body.nonce)
    ensures var again := ContextOf(lib, h.actions[i].launch, sid).(cookies := map[]);
            CheckState(again, Cache(h, n)) == Ok(()) && CheckNonce(sid, Cache(h, n), body) == Ok(())
  {
    hide Undisturbed;
    hide HexDigests;
    AcceptedMeansKnown(lib, h, i, sid, body);
    CompletionIsRefreshable(lib, h, i, sid, body);
    hide AnyRun;
    StaysRefreshable(lib, h, i, n, sid, body.nonce);
  }

  // ---- The objects carry out the protocol. ----

  method PerformLaunch(lib: Crypto, cache: FlatCache, l: LaunchRequest) returns (r: Answer)
    modifies cache
    ensures (r, cache.entries) == LaunchOutcome(lib, l, old(cache.entries))
  {
    hide Validate;
    hide Passed;
    var session :- OpenStorage(cache, l.secure, l.cookies);
    var launch := new MessageLaunch(lib, l.conf, l.cookies, l.request, session, LaunchIdOf(l.launchUuid));
    if l.caching { launch.SetPublicKeyCaching(); }
    r := launch.GetJwtBody(l.oracle);
  }

  method PerformLogin(cache: FlatCache, conf: ToolConf, req: OidcLogins.LoginRequest, jar: map<string, string>,
      mint: OidcLogins.Mint,
                      params: Body) returns (cookies: map<string, string>)
    modifies cache
    ensures cache.entries == OidcLogins.StoreAfter(conf, req, jar, mint, params, old(cache.entries))
    ensures cookies == OidcLogins.CookiesSet(conf, req, jar, mint)
  {
    var storage := new CacheDataStorage(cache);
    var session := new SessionService(storage);
    var login := new OidcLogins.OidcLogin(conf, req, jar, params, session);
    var _ := login.PrepareRedirectUrl(mint);
    return login.cookiesToSet;
  }

  method PerformRestore(lib: Crypto, cache: FlatCache, action: Action) returns (r: Answer)
    requires action.Restoring?
    modifies cache
    ensures cache.entries == old(cache.entries)
    ensures r == RestoreOutcome(action.secure, action.conf, action.jar, action.launchId, old(cache.entries))
  {
    hide Restore;
    hide Passed;
    var session :- OpenStorage(cache, action.secure, action.jar);
    var launch := FromCache(action.launchId, lib, action.conf, action.jar, action.request, session, action.oracle);
    if launch.Err? { return Err(launch.error); }
    r := launch.value.GetJwtBody(action.oracle);
  }

  /** One action, carried out by the objects on the shared cache, happens as the model says. */
  method Perform(lib: Crypto, cache: FlatCache, action: Action, ghost cookies: set<(string, string)>)
    returns (answer: Answer, ghost cookies': set<(string, string)>)
    modifies cache
    ensures Happens(lib, System(old(cache.entries), cookies), action, answer, System(cache.entries, cookies'))
  {
    hide LaunchOutcome;
    hide RestoreOutcome;
    cookies' := cookies;
    answer := Err(Crash);
    match action {
      case Login(conf, req, jar, mint, params) =>
        var issued := PerformLogin(cache, conf, req, jar, mint, params);
        cookies' := cookies + issued.Items;
      case Launch(l) => answer := PerformLaunch(lib, cache, l);
      case Restoring(_, _, _, _, _, _) => answer := PerformRestore(lib, cache, action);
      case Expire(key) => cache.Drop(key);
    }
  }

  /** Any actions with well-shaped random values, carried out one after the other by the objects, are a run. */
  method PerformAll(lib: Crypto, actions: seq<Action>)
    returns (cache: FlatCache, answers: seq<Answer>, ghost h: History)
    requires forall i :: 0 <= i < |actions| ==> Shaped(actions[i])
    ensures h.actions == actions && h.answers == answers && AnyRun(lib, h)
    ensures fresh(cache) && cache.entries == Cache(h, |actions|)
  {
    hide Happens;
    hide Shaped;
    cache := new FlatCache();
    answers := [];
    ghost var states := [START];
    for i := 0 to |actions|
      invariant fresh(cache) && |answers| == i && |states| == i + 1 && states[0] == START
      invariant states[i].store == cache.entries
      invariant forall k :: 0 <= k < i ==> Happens(lib, states[k], actions[k], answers[k], states[k + 1])
    {
      var answer, cookies := Perform(lib, cache, actions[i], states[i].cookies);
      answers, states := answers + [answer], states + [System(cache.entries, cookies)];
    }
    h := Trace(actions, answers, states);
    forall i: nat | i < |actions| ensures HappensAt(lib, h, i) {}
  }
}
