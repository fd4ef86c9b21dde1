/**
 Where the promises about all runs stop: the nonces no login need have saved, the launches another session's marker
 lets in, and the texts that restore what was no launch of the session. Each limit is exact, and shown by a run.
 */
module Limits {
  import opened Wrappers
  import opened LtiData
  import opened Storage
  import opened Launch
  import opened MessageLaunches
  import opened OddNonces
  import opened Protocol
  import opened Runs
  import OidcLogins

  // ---- Nonces that no login saved. ----

  function JarOf(sid: Option<string>): map<string, string> {
    if sid.Some? then map[SESSION_COOKIE := sid.value] else map[]
  }

  /** What a login in a session leaves behind, and then a launch accepted there. */
  ghost predicate LeftBehind(t: Option<string>, mint: OidcLogins.Mint, state: string, uuid: string, key: string) {
    || key == PrepareKey(t, NonceKey(mint.nonce))
    || key == PrepareKey(t, ParamsKey(StateOf(mint.stateUuid)))
    || key == PrepareKey(t, RecordKey(LaunchIdOf(uuid)))
    || key == PrepareKey(t, MarkerKey(state))
  }

  ghost predicate Fits(t: Option<string>, mint: OidcLogins.Mint, state: string, uuid: string) {
    && RealSession(t) && IsUuid(mint.sessionUuid) && IsUuid(mint.stateUuid) && IsNonce(mint.nonce) && IsUuid(uuid)
    && state != "" && state != SESSION_COOKIE
  }

  /** After it, a launch over plain HTTP is accepted with any nonce whose key is one of those left behind. */
  lemma UnsavedNonceRun(t: Option<string>, mint: OidcLogins.Mint, state: string, uuid: string, nonce: string)
    returns (lib: Crypto, h: History)
    requires Fits(t, mint, state, uuid) && nonce != ""
    requires LeftBehind(t, mint, state, uuid, PrepareKey(None, NonceKey(nonce)))
    requires t.None? ==> nonce != mint.nonce
    ensures AnyRun(lib, h) && HexDigests(lib) && AcceptedAt(h, 2, None, BodyWith(nonce))
    ensures forall j: nat :: !NonceSavedAt(h, j, None, nonce)
  {
    TokensDecode(ZeroDigest, mint.nonce, nonce);
    DigestsAreHex(mint.nonce, nonce);
    hide DecodesTo;
    hide HexDigests;
    hide CryptoWith;
    hide AnyRun;
    hide LeftBehind;
    hide NonceSavedAt;
    hide AcceptedAt;
    hide LoginAction;
    hide FirstToken;
    hide SecondToken;
    hide PrepareKey;
    lib := CryptoWith(ZeroDigest, mint.nonce, nonce);
    h := LoginAndTwoLaunches(lib, t, mint, state, uuid, nonce);
    OnlyOneLogin(h, t, mint, nonce);
  }

  /**
   A login, an accepted launch with a cookie for a state of its own making, and an accepted launch without a session.
   */
  lemma LoginAndTwoLaunches(lib: Crypto, t: Option<string>, mint: OidcLogins.Mint, state: string, uuid: string,
      nonce: string)
    returns (h: History)
    requires Fits(t, mint, state, uuid) && nonce != ""
    requires LeftBehind(t, mint, state, uuid, PrepareKey(None, NonceKey(nonce)))
    requires DecodesTo(lib, FirstToken(), HEADER, BodyWith(mint.nonce))
    requires DecodesTo(lib, SecondToken(), HEADER, BodyWith(nonce))
    ensures AnyRun(lib, h) && AcceptedAt(h, 2, None, BodyWith(nonce))
    ensures |h.actions| == 3 && h.actions[0] == LoginAction(t.Some?, JarOf(t), mint, BodyWith(""))
    ensures h.actions[1].Launch? && h.actions[2].Launch?
  {
    EmptyRunIsARun(lib);
    hide DecodesTo;
    hide AnyRun;
    hide HonestRun;
    hide PrepareKey;
    hide LoginAction;
    hide FirstToken;
    hide SecondToken;
    hide AcceptedAt;
    var jar, made := JarOf(t)[state := state], map["state" := "state"];
    assert NewSession(t.Some?, JarOf(t), mint) == t && LaunchSession(t.Some?, jar) == Ok(t);
    assert mint.nonce != "";
    var h1 := AppendLogin(lib, EMPTY_RUN, t.Some?, JarOf(t), mint, BodyWith(""));
    PostedWithCookie(lib, Cache(h1, 1), t.Some?, jar, Request(state, FirstToken()), false, mint.nonce);
    hide Postable;
    hide IsUuid;
    hide IsNonce;
    var h2 := AppendLaunch(lib, h1, t.Some?, jar, Request(state, FirstToken()), uuid, false, mint.nonce);
    PostedWithCookie(lib, Cache(h2, 2), false, made, Request("state", SecondToken()), false, nonce);
    h := AppendLaunch(lib, h2, false, made, Request("state", SecondToken()), uuid, false, nonce);
  }

  lemma OnlyOneLogin(h: History, t: Option<string>, mint: OidcLogins.Mint, nonce: string)
    requires |h.actions| == 3 && h.actions[0] == LoginAction(t.Some?, JarOf(t), mint, BodyWith(""))
    requires h.actions[1].Launch? && h.actions[2].Launch?
    requires RealSession(t) && (t.None? ==> nonce != mint.nonce)
    ensures forall j: nat :: !NonceSavedAt(h, j, None, nonce)
  {
    LoginActionFacts(t.Some?, JarOf(t), mint, BodyWith(""));
    hide LoginAction;
  }

  /**
   For every odd text there is a run in which a launch with that nonce is accepted that no login of its session saved.
   */
  lemma OddNoncesAreAcceptedUnsaved(nonce: string) returns (lib: Crypto, h: History)
    requires OddNonce(nonce)
    ensures AnyRun(lib, h) && HexDigests(lib) && AcceptedAt(h, 2, None, BodyWith(nonce))
    ensures forall j: nat :: !NonceSavedAt(h, j, None, nonce)
  {
    hide AnyRun;
    hide HexDigests;
    hide NonceSavedAt;
    hide AcceptedAt;
    hide BodyWith;
    hide IsTail;
    var i: nat :| i < |nonce| && TailAt(nonce, i);
    var front, tail := ("nonce-" + nonce[..i])[..5 + i], nonce[i..];
    SplitsAtTail(nonce, i, front, tail);
    hide OddNonce;
    if tail == "id-token-hash" {
      lib, h := OddMarkerRun(nonce, front);
    } else {
      var kind := TailIsKind(tail);
      lib, h := OddKindRun(nonce, front, kind);
    }
  }

  lemma TailIsKind(tail: string) returns (kind: Kind)
    requires IsTail(tail) && tail != "id-token-hash"
    ensures Minted(kind) && BareKey(kind) == tail && (kind.ParamsOf? || kind.RecordOf? || kind.NonceOf?)
  {
    if |tail| == 42 {
      kind := ParamsOf(tail[6..]);
      assert tail == tail[..6] + tail[6..];
    } else if |tail| == 43 {
      kind := RecordOf(tail[7..]);
      assert tail == tail[..7] + tail[7..];
    } else {
      kind := NonceOf(tail[6..]);
      assert tail == tail[..6] + tail[6..];
    }
  }

  lemma SplitsAtTail(nonce: string, i: nat, front: string, tail: string)
    requires i < |nonce| && (i == 0 || nonce[i - 1] == '-')
    requires front == ("nonce-" + nonce[..i])[..5 + i] && tail == nonce[i..]
    ensures front + "-" + tail == "nonce-" + nonce && front != "" && front[0] == 'n'
  {
    assert front + "-" == "nonce-" + nonce[..i];
    assert nonce == nonce[..i] + tail;
  }

  lemma OddMarkerRun(nonce: string, front: string) returns (lib: Crypto, h: History)
    requires nonce != "" && front != "" && front[0] == 'n' && front + "-" + "id-token-hash" == "nonce-" + nonce
    ensures AnyRun(lib, h) && HexDigests(lib) && AcceptedAt(h, 2, None, BodyWith(nonce))
    ensures forall j: nat :: !NonceSavedAt(h, j, None, nonce)
  {
    ConstantsAreShaped();
    OddKeyIsMarkers(nonce, front);
    assert nonce[|nonce| - 1] == ("nonce-" + nonce)[|nonce| + 5] == (front + "-" + "id-token-hash")[|nonce| + 5] == 'h';
    assert NonceOfDigit('0')[63] == '0';
    hide AnyRun;
    hide HexDigests;
    hide NonceSavedAt;
    hide AcceptedAt;
    hide IsUuid;
    hide IsNonce;
    hide PrepareKey;
    lib, h := UnsavedNonceRun(None, OidcLogins.Mint(UUID, UUID, NonceOfDigit('0')), front, UUID, nonce);
  }

  lemma OddKindRun(nonce: string, session: string, kind: Kind) returns (lib: Crypto, h: History)
    requires nonce != "" && session != "" && session + "-" + BareKey(kind) == "nonce-" + nonce
    requires Minted(kind) && (kind.ParamsOf? || kind.RecordOf? || kind.NonceOf?)
    ensures AnyRun(lib, h) && HexDigests(lib) && AcceptedAt(h, 2, None, BodyWith(nonce))
    ensures forall j: nat :: !NonceSavedAt(h, j, None, nonce)
  {
    ConstantsAreShaped();
    OddKeyIsOfKind(nonce, session, kind);
    hide AnyRun;
    hide HexDigests;
    hide NonceSavedAt;
    hide AcceptedAt;
    hide IsUuid;
    hide IsNonce;
    hide PrepareKey;
    hide BareKey;
    var mint := OidcLogins.Mint(
      UUID, if kind.ParamsOf? then kind.uuid else UUID, if kind.NonceOf? then kind.nonce else NonceOfDigit('0'));
    lib, h := UnsavedNonceRun(Some(session), mint, "state", if kind.RecordOf? then kind.uuid else UUID, nonce);
  }

  lemma OddKeyIsMarkers(nonce: string, state: string)
    requires nonce != "" && state + "-" + "id-token-hash" == "nonce-" + nonce
    ensures PrepareKey(None, NonceKey(nonce)) == PrepareKey(None, MarkerKey(state))
  {
    KeysStripToBareKeys(NonceOf(nonce));
    MarkersStrip(state);
    BareNonce(nonce);
    assert state + "-id-token-hash" == state + "-" + "id-token-hash";
    PreparedKeysEqual(None, NonceKey(nonce), None, MarkerKey(state));
    hide PrepareKey;
    hide Strip;
    hide BareKey;
  }

  lemma OddKeyIsOfKind(nonce: string, session: string, kind: Kind)
    requires nonce != "" && session != "" && session + "-" + BareKey(kind) == "nonce-" + nonce
    ensures PrepareKey(None, NonceKey(nonce)) == PrepareKey(Some(session), KeyOf(kind))
  {
    KeysStripToBareKeys(NonceOf(nonce));
    KeysStripToBareKeys(kind);
    BareNonce(nonce);
    PreparedKeysEqual(None, NonceKey(nonce), Some(session), KeyOf(kind));
    assert "" + ("nonce-" + nonce) == "nonce-" + nonce;
  }

  /** In some run a launch with this nonce is accepted although no login of its session saved it. */
  ghost predicate AcceptedUnsaved(lib: Crypto, h: History, i: nat, sid: Option<string>, body: Body, nonce: string) {
    && AnyRun(lib, h) && HexDigests(lib) && AcceptedAt(h, i, sid, body) && body.nonce == nonce
    && forall j: nat :: j < i ==> !NonceSavedAt(h, j, sid, nonce)
  }

  /**
   Exactly the odd texts can be the nonce of an accepted launch that no earlier login of its session saved; every
   other nonce of an accepted launch, in every run whatever, was saved.
   */
  lemma NoncesAreSavedIffNotOdd(nonce: string)
    ensures (exists lib, h, i, sid, body :: AcceptedUnsaved(lib, h, i, sid, body, nonce)) <==> OddNonce(nonce)
  {
    hide AnyRun;
    hide HexDigests;
    hide NonceSavedAt;
    if OddNonce(nonce) {
      var lib, h := OddNoncesAreAcceptedUnsaved(nonce);
      assert AcceptedUnsaved(lib, h, 2, None, BodyWith(nonce), nonce);
    } else {
      forall lib, h, i, sid, body | AcceptedUnsaved(lib, h, i, sid, body, nonce) ensures false {
        var j := AcceptedNoncesWereSavedInAnyRun(lib, h, i, sid, body);
      }
    }
  }

  // ---- Launches let in by the marker of another session. ----

  /**
   In an honest run, launch `i` was accepted with this state, and no launch of its own session and state let it in.
   */
  ghost predicate Untraced(lib: Crypto, h: History, i: nat, sid: Option<string>, body: Body, state: string) {
    && HonestRun(lib, h) && AcceptedAt(h, i, sid, body) && h.actions[i].launch.request.state == state
    && forall j: nat :: !RootOf(lib, h, j, sid, i, sid)
  }

  /**
   Two logins, one with a session and one without, a launch in that session, and a launch without one whose state
   spells out the session and its state: it needs no cookie when the digests of the two tokens agree.
   */
  lemma SpelledStateRun(lib: Crypto, sid: string, uuid: string, a: string, b: string, token: string)
    returns (h: History)
    requires IsUuid(sid) && IsUuid(uuid) && IsNonce(a) && IsNonce(b) && lib.md5(FirstToken()) == lib.md5(token)
    requires DecodesTo(lib, FirstToken(), HEADER, BodyWith(a)) && DecodesTo(lib, token, HEADER, BodyWith(b))
    ensures Untraced(lib, h, 3, None, BodyWith(b), sid + "-" + StateOf(uuid))
    ensures a != b ==> FreshNonces(h)
  {
    ConstantsAreShaped();
    var first, second := OidcLogins.Mint(sid, uuid, a), OidcLogins.Mint(UUID, UUID, b);
    assert a != "" && b != "" && sid != "";
    hide IsUuid;
    hide IsNonce;
    hide HonestRun;
    hide AcceptedAt;
    h := FourSteps(lib, first, second, token);
    OnlyTheSessionPresents(lib, h, first, second, token);
  }

  lemma OnlyTheSessionPresents(lib: Crypto, h: History, first: OidcLogins.Mint, second: OidcLogins.Mint, token: string)
    requires StepsAre(h, first, second, token)
    ensures forall j: nat :: !RootOf(lib, h, j, None, 3, None)
    ensures first.nonce != second.nonce ==> FreshNonces(h)
  {
    LoginActionFacts(true, map[], first, EMPTY_BODY);
    LoginActionFacts(false, map[], second, EMPTY_BODY);
    hide LoginAction;
    hide SamePost;
  }

  lemma FourSteps(lib: Crypto, first: OidcLogins.Mint, second: OidcLogins.Mint, token: string) returns (h: History)
    requires IsUuid(first.sessionUuid) && IsUuid(first.stateUuid) && IsNonce(first.nonce)
    requires IsUuid(second.sessionUuid) && IsUuid(second.stateUuid) && IsNonce(second.nonce)
    requires lib.md5(FirstToken()) == lib.md5(token)
    requires DecodesTo(lib, FirstToken(), HEADER, BodyWith(first.nonce))
    requires DecodesTo(lib, token, HEADER, BodyWith(second.nonce))
    ensures HonestRun(lib, h) && AcceptedAt(h, 3, None, BodyWith(second.nonce))
    ensures StepsAre(h, first, second, token)
  {
    hide DecodesTo;
    hide HonestRun;
    hide AcceptedAt;
    hide PrepareKey;
    var h2 := TwoLogins(lib, first, second);
    h := ThenTwoLaunches(lib, h2, first, second.nonce, token);
  }

  ghost predicate StepsAre(h: History, first: OidcLogins.Mint, second: OidcLogins.Mint, token: string) {
    && |h.actions| == 4
    && h.actions[0] == LoginAction(true, map[], first, EMPTY_BODY)
    && h.actions[1] == LoginAction(false, map[], second, EMPTY_BODY)
    && h.actions[2] == SessionLaunch(first) && h.actions[3] == SpelledLaunch(first, token)
  }

  lemma ThenTwoLaunches(lib: Crypto, h: History, mint: OidcLogins.Mint, nonce: string, token: string)
    returns (e: History)
    requires HonestRun(lib, h) && |h.actions| == 2 && IsUuid(mint.sessionUuid) && mint.nonce != "" && nonce != ""
    requires PrepareKey(Some(mint.sessionUuid), NonceKey(mint.nonce)) in Cache(h, 2)
    requires PrepareKey(None, NonceKey(nonce)) in Cache(h, 2)
    requires Honest(SessionJar(mint), h.states[2].cookies) && lib.md5(FirstToken()) == lib.md5(token)
    requires DecodesTo(lib, FirstToken(), HEADER, BodyWith(mint.nonce))
    requires DecodesTo(lib, token, HEADER, BodyWith(nonce))
    ensures HonestRun(lib, e) && AcceptedAt(e, 3, None, BodyWith(nonce))
    ensures e.actions == h.actions + [SessionLaunch(mint)] + [SpelledLaunch(mint, token)]
  {
    hide DecodesTo;
    hide HonestRun;
    hide AcceptedAt;
    hide PrepareKey;
    hide SessionLaunch;
    hide SpelledLaunch;
    hide SessionJar;
    hide FirstToken;
    var h3 := ThenSessionLaunch(lib, h, mint, PrepareKey(None, NonceKey(nonce)));
    e := ThenSpelledLaunch(lib, h3, mint, nonce, token);
  }

  function SessionLaunch(mint: OidcLogins.Mint): Action {
    LaunchAction(true, SessionJar(mint), Request(StateOf(mint.stateUuid), FirstToken()), UUID, false)
  }

  function Spelled(mint: OidcLogins.Mint): string {
    mint.sessionUuid + "-" + StateOf(mint.stateUuid)
  }

  function SpelledLaunch(mint: OidcLogins.Mint, token: string): Action {
    LaunchAction(false, map[], Request(Spelled(mint), token), UUID, false)
  }

  /** An honest run that consists of a browser's first login. */
  lemma FirstLogin(lib: Crypto, secure: bool, mint: OidcLogins.Mint) returns (h: History)
    requires IsUuid(mint.sessionUuid) && IsUuid(mint.stateUuid) && IsNonce(mint.nonce)
    ensures HonestRun(lib, h) && h.actions == [LoginAction(secure, map[], mint, EMPTY_BODY)]
    ensures PrepareKey(NewSession(secure, map[], mint), NonceKey(mint.nonce)) in Cache(h, 1)
    ensures Read(Cache(h, 1), None, KeySetKey(lib.md5(KEYS_URL))).None?
    ensures Honest(FirstJar(secure, mint), h.states[1].cookies)
  {
    EmptyRunIsARun(lib);
    HonestIsAny(lib, EMPTY_RUN);
    LoginsAreHonest(EMPTY_RUN.states[0], secure, mint);
    hide HonestRun;
    hide AnyRun;
    hide PrepareKey;
    hide LoginAction;
    hide IsUuid;
    hide IsNonce;
    hide WellBehaved;
    h := AppendLogin(lib, EMPTY_RUN, secure, map[], mint, EMPTY_BODY);
    NoKeySetAfterLogin(lib, h, secure, mint);
  }

  lemma TwoLogins(lib: Crypto, first: OidcLogins.Mint, second: OidcLogins.Mint) returns (h: History)
    requires IsUuid(first.sessionUuid) && IsUuid(first.stateUuid) && IsNonce(first.nonce)
    requires IsUuid(second.sessionUuid) && IsUuid(second.stateUuid) && IsNonce(second.nonce)
    ensures HonestRun(lib, h)
    ensures h.actions == [LoginAction(true, map[], first, EMPTY_BODY), LoginAction(false, map[], second, EMPTY_BODY)]
    ensures PrepareKey(Some(first.sessionUuid), NonceKey(first.nonce)) in Cache(h, 2)
    ensures PrepareKey(None, NonceKey(second.nonce)) in Cache(h, 2)
    ensures Honest(SessionJar(first), h.states[2].cookies)
  {
    FirstSession(first);
    FirstSession(second);
    hide HonestRun;
    hide AnyRun;
    hide PrepareKey;
    hide LoginAction;
    hide IsUuid;
    hide IsNonce;
    hide NewSession;
    hide SessionJar;
    hide FirstJar;
    hide Honest;
    var h1 := FirstLogin(lib, true, first);
    HonestIsAny(lib, h1);
    LoginsAreHonest(h1.states[1], false, second);
    hide WellBehaved;
    h := AppendLogin(lib, h1, false, map[], second, EMPTY_BODY);
    HonestJarsStayHonest(SessionJar(first), h1.states[1].cookies, h.states[2].cookies);
  }

  lemma FirstSession(mint: OidcLogins.Mint)
    ensures NewSession(true, map[], mint) == Some(mint.sessionUuid) && NewSession(false, map[], mint) == None
    ensures FirstJar(true, mint) == SessionJar(mint) && LoginAction(false, map[], mint, EMPTY_BODY).Login?
  {
  }

  lemma HonestJarsStayHonest(jar: map<string, string>, before: set<(string, string)>, after: set<(string, string)>)
    requires Honest(jar, before) && before <= after
    ensures Honest(jar, after)
  {
  }

  lemma ThenSessionLaunch(lib: Crypto, h: History, mint: OidcLogins.Mint, key: string) returns (e: History)
    requires HonestRun(lib, h) && |h.actions| == 2 && IsUuid(mint.sessionUuid) && mint.nonce != "" && key in Cache(h, 2)
    requires PrepareKey(Some(mint.sessionUuid), NonceKey(mint.nonce)) in Cache(h, 2)
    requires Honest(SessionJar(mint), h.states[2].cookies)
    requires DecodesTo(lib, FirstToken(), HEADER, BodyWith(mint.nonce))
    ensures HonestRun(lib, e) && e.actions == h.actions + [SessionLaunch(mint)] && key in Cache(e, 3)
    ensures Read(Cache(e, 3), Some(mint.sessionUuid), MarkerKey(StateOf(mint.stateUuid))) ==
              Some(Hash(lib.md5(FirstToken())))
  {
    var jar, post := SessionJar(mint), Request(StateOf(mint.stateUuid), FirstToken());
    ConstantsAreShaped();
    SessionJarFacts(mint);
    HonestIsAny(lib, h);
    assert WellBehaved(h.states[2], SessionLaunch(mint));
    hide HonestRun;
    hide AnyRun;
    hide DecodesTo;
    hide PrepareKey;
    hide FirstToken;
    hide AcceptedAt;
    hide SessionJar;
    PostedWithCookie(lib, Cache(h, 2), true, jar, post, false, mint.nonce);
    hide Postable;
    e := AppendLaunch(lib, h, true, jar, post, UUID, false, mint.nonce);
  }

  lemma ThenSpelledLaunch(lib: Crypto, h: History, mint: OidcLogins.Mint, nonce: string, token: string)
    returns (e: History)
    requires HonestRun(lib, h) && |h.actions| == 3 && mint.sessionUuid != "" && nonce != ""
    requires PrepareKey(None, NonceKey(nonce)) in Cache(h, 3) && DecodesTo(lib, token, HEADER, BodyWith(nonce))
    requires Read(Cache(h, 3), Some(mint.sessionUuid), MarkerKey(StateOf(mint.stateUuid))) == Some(Hash(lib.md5(token)))
    ensures HonestRun(lib, e) && e.actions == h.actions + [SpelledLaunch(mint, token)]
    ensures AcceptedAt(e, 3, None, BodyWith(nonce))
  {
    var post := Request(Spelled(mint), token);
    ConstantsAreShaped();
    HonestIsAny(lib, h);
    MarkersShareKeysIff(Some(mint.sessionUuid), StateOf(mint.stateUuid), None, Spelled(mint));
    SpelledPlace(mint.sessionUuid, StateOf(mint.stateUuid));
    assert WellBehaved(h.states[3], SpelledLaunch(mint, token));
    hide HonestRun;
    hide AnyRun;
    hide DecodesTo;
    hide PrepareKey;
    assert Postable(lib, Cache(h, 3), false, map[], post, false, nonce);
    hide Postable;
    hide AcceptedAt;
    e := AppendLaunch(lib, h, false, map[], post, UUID, false, nonce);
  }

  lemma LoginsAreHonest(st: System, secure: bool, mint: OidcLogins.Mint)
    ensures WellBehaved(st, LoginAction(secure, map[], mint, EMPTY_BODY))
  {
  }

  /** The cookies a browser holds after its first login. */
  function SessionJar(mint: OidcLogins.Mint): map<string, string> {
    map[SESSION_COOKIE := mint.sessionUuid, StateOf(mint.stateUuid) := StateOf(mint.stateUuid)]
  }

  lemma SessionJarFacts(mint: OidcLogins.Mint)
    requires IsUuid(mint.sessionUuid)
    ensures var jar, state := SessionJar(mint), StateOf(mint.stateUuid);
            LaunchSession(true, jar) == Ok(Some(mint.sessionUuid)) && state in jar && jar[state] == state && state != ""
  {
    assert StateOf(mint.stateUuid)[1] == 't';
  }

  lemma SpelledPlace(sid: string, state: string)
    requires sid != ""
    ensures Place(Some(sid), state) == Place(None, sid + "-" + state)
  {
  }

  lemma HonestIsAny(lib: Crypto, h: History)
    ensures HonestRun(lib, h) ==> AnyRun(lib, h)
  {
  }

  /** With colliding digests this happens for every state that spells a session, though no nonce is minted twice. */
  lemma CollidingDigestsLetSpelledStatesIn(state: string) returns (lib: Crypto, h: History)
    requires SpellsSession(None, state)
    ensures HexDigests(lib) && FreshNonces(h) && Untraced(lib, h, 3, None, BodyWith(NonceOfDigit('1')), state)
  {
    var a, b := NonceOfDigit('0'), NonceOfDigit('1');
    ConstantsAreShaped();
    TokensDecode(ZeroDigest, a, b);
    DigestsAreHex(a, b);
    SpelledStateParts(state);
    hide DecodesTo;
    hide HexDigests;
    hide Untraced;
    hide FreshNonces;
    hide NonceOfDigit;
    hide IsUuid;
    lib := CryptoWith(ZeroDigest, a, b);
    h := SpelledStateRun(lib, state[..36], state[43..], a, b, SecondToken());
  }

  /** And it happens with injective digests when a nonce is minted twice. */
  lemma RepeatedNoncesLetSpelledStatesIn(state: string) returns (lib: Crypto, h: History)
    requires SpellsSession(None, state)
    ensures (forall x, y :: lib.md5(x) == lib.md5(y) ==> x == y)
    ensures Untraced(lib, h, 3, None, BodyWith(NonceOfDigit('0')), state)
  {
    var a := NonceOfDigit('0');
    ConstantsAreShaped();
    TokensDecode(x => x, a, a);
    SpelledStateParts(state);
    hide DecodesTo;
    hide Untraced;
    hide NonceOfDigit;
    hide IsUuid;
    lib := CryptoWith(x => x, a, a);
    h := SpelledStateRun(lib, state[..36], state[43..], a, a, FirstToken());
  }

  lemma SpelledStateParts(state: string)
    requires SpellsSession(None, state)
    ensures state == state[..36] + "-" + StateOf(state[43..]) && IsUuid(state[..36]) && IsUuid(state[43..])
  {
    hide IsUuid;
    assert state == state[..36] + state[36..43] + state[43..];
    assert state[..36] + "-state-" + state[43..] == state[..36] + "-" + StateOf(state[43..]);
  }

  /**
   Exactly over plain HTTP, and with a state that spells a session, can a launch be let in by another session's launch.
   */
  lemma UntracedIffSpelled(sid: Option<string>, state: string)
    ensures (exists lib, h, i, body :: Untraced(lib, h, i, sid, body, state)) <==> SpellsSession(sid, state)
  {
    if SpellsSession(sid, state) {
      var lib, h := CollidingDigestsLetSpelledStatesIn(state);
      hide Untraced;
      assert Untraced(lib, h, 3, sid, BodyWith(NonceOfDigit('1')), state);
    } else {
      hide HonestRun;
      hide AcceptedAt;
      hide RootOf;
      forall lib, h, i, body | Untraced(lib, h, i, sid, body, state) ensures false {
        var j, t, k := LaunchesTraceToCookies(lib, h, i, sid, body);
      }
    }
  }

  // ---- Restoring what was no launch, or a launch of another session. ----

  /** There is an honest run in which restoring by a state hands out parameters, before any launch at all. */
  lemma ParametersCanBeRestored(lib: Crypto, params: Body) returns (h: History)
    requires params != EMPTY_BODY && FindRegistration(CONF, params).Ok?
    ensures HonestRun(lib, h) && RestoredAt(h, 1, None, StateOf(UUID), params)
    ensures forall action :: action in h.actions ==> !action.Launch?
  {
    var mint := OidcLogins.Mint(UUID, UUID, NonceOfDigit('0'));
    ConstantsAreShaped();
    EmptyRunIsARun(lib);
    HonestIsAny(lib, EMPTY_RUN);
    assert WellBehaved(START, LoginAction(false, map[], mint, params));
    LoginActionFacts(false, map[], mint, params);
    StatesRestore();
    hide HonestRun;
    hide AnyRun;
    hide FindRegistration;
    hide LoginAction;
    hide PrepareKey;
    hide IsUuid;
    hide IsNonce;
    var h1 := AppendLogin(lib, EMPTY_RUN, false, map[], mint, params);
    h := AppendRestoring(lib, h1, false, map[], StateOf(UUID), params);
  }

  lemma StatesRestore()
    ensures PrepareKey(None, RecordKey(StateOf(UUID))) == PrepareKey(None, ParamsKey(StateOf(UUID)))
  {
    KeysStripToBareKeys(ParamsOf(UUID));
    assert StateOf(UUID)[0] == 's';
    PreparedKeysEqual(None, RecordKey(StateOf(UUID)), None, ParamsKey(StateOf(UUID)));
    assert RecordKey(StateOf(UUID)) == StateOf(UUID);
  }

  /** An honest browser's first login, with or without a session, and its accepted launch, with keys cached or not. */
  lemma LoginThenLaunch(lib: Crypto, mint: OidcLogins.Mint, secure: bool, caching: bool) returns (h: History)
    requires IsUuid(mint.sessionUuid) && IsUuid(mint.stateUuid) && IsNonce(mint.nonce)
    requires DecodesTo(lib, FirstToken(), HEADER, BodyWith(mint.nonce))
    ensures HonestRun(lib, h) && AcceptedAt(h, 1, NewSession(secure, map[], mint), BodyWith(mint.nonce))
    ensures |h.actions| == 2 && h.actions[0] == LoginAction(secure, map[], mint, EMPTY_BODY)
    ensures h.actions[1] == LaunchAction(secure, FirstJar(secure, mint), Request(StateOf(mint.stateUuid), FirstToken()),
              UUID, caching)
    ensures Read(Cache(h, 1), None, KeySetKey(lib.md5(KEYS_URL))).None?
  {
    var jar, state := FirstJar(secure, mint), StateOf(mint.stateUuid);
    ConstantsAreShaped();
    FirstJarFacts(secure, mint);
    hide HonestRun;
    hide AnyRun;
    hide DecodesTo;
    hide PrepareKey;
    hide LoginAction;
    hide FirstToken;
    hide AcceptedAt;
    hide IsUuid;
    hide IsNonce;
    hide FirstJar;
    var h1 := FirstLogin(lib, secure, mint);
    HonestIsAny(lib, h1);
    var post := Request(state, FirstToken());
    assert WellBehaved(h1.states[1], LaunchAction(secure, jar, post, UUID, caching));
    hide WellBehaved;
    hide LaunchAction;
    PostedWithCookie(lib, Cache(h1, 1), secure, jar, post, caching, mint.nonce);
    hide Postable;
    h := AppendLaunch(lib, h1, secure, jar, post, UUID, caching, mint.nonce);
    assert Cache(h, 1) == Cache(h1, 1) by { assert h.states[..2][1] == h1.states[1]; }
  }

  lemma FirstJarFacts(secure: bool, mint: OidcLogins.Mint)
    requires IsUuid(mint.sessionUuid) && IsNonce(mint.nonce)
    ensures var jar, state := FirstJar(secure, mint), StateOf(mint.stateUuid);
            && state in jar && jar[state] == state && state != "" && mint.nonce != ""
            && LaunchSession(secure, jar) == Ok(NewSession(secure, map[], mint))
  {
    SessionJarFacts(mint);
  }

  function FirstJar(secure: bool, mint: OidcLogins.Mint): map<string, string> {
    if secure then SessionJar(mint) else map[StateOf(mint.stateUuid) := StateOf(mint.stateUuid)]
  }

  lemma NoKeySetAfterLogin(lib: Crypto, h: History, secure: bool, mint: OidcLogins.Mint)
    requires AnyRun(lib, h) && h.actions == [LoginAction(secure, map[], mint, EMPTY_BODY)]
    requires IsUuid(mint.sessionUuid) && IsNonce(mint.nonce)
    ensures Read(Cache(h, 1), None, KeySetKey(lib.md5(KEYS_URL))).None?
  {
    assert HappensAt(lib, h, 0);
    LoginActionFacts(secure, map[], mint, EMPTY_BODY);
    MintedKeysNeverCollide(NewSession(secure, map[], mint), NonceOf(mint.nonce), None, KeySetOf(lib.md5(KEYS_URL)));
    hide PrepareKey;
    hide LaunchOutcome;
  }

  /** An accepted launch's record is there right after it. */
  lemma RecordHolds(lib: Crypto, h: History, i: nat, sid: Option<string>, body: Body)
    requires AnyRun(lib, h) && AcceptedAt(h, i, sid, body)
    ensures Read(Cache(h, i + 1), sid, RecordKey(LaunchIdOf(h.actions[i].launch.launchUuid))) == Some(Dict(body))
  {
    assert HappensAt(lib, h, i);
    var l := h.actions[i].launch;
    OnlyMarkersEndAsMarkers(sid, RecordOf(l.launchUuid), sid, l.request.state);
    hide Happens;
    hide PrepareKey;
    var _ := LaunchEffect(lib, h, i);
  }

  lemma RestoringIsHonest(st: System, text: string)
    ensures WellBehaved(st, RestoringAction(false, map[], text))
  {
  }

  lemma SpelledRecordKey(sid: string, uuid: string)
    requires IsUuid(sid)
    ensures PrepareKey(None, RecordKey(sid + "-launch-" + uuid)) == PrepareKey(Some(sid), RecordKey(LaunchIdOf(uuid)))
  {
    var text := sid + "-launch-" + uuid;
    assert text[0] == sid[0];
    hide IsUuid;
    UnprefixedStays(text);
    KeysStripToBareKeys(RecordOf(uuid));
    SpelledLead(sid, uuid);
    hide Strip;
    hide BareKey;
    hide Lead;
    hide LaunchIdOf;
    PreparedKeysEqual(None, RecordKey(text), Some(sid), RecordKey(LaunchIdOf(uuid)));
  }

  lemma UnprefixedStays(text: string)
    requires text != "" && text[0] != 'l'
    ensures Strip(RecordKey(text)) == text
  {
    assert RecordKey(text) == text;
  }

  lemma SpelledLead(sid: string, uuid: string)
    requires sid != ""
    ensures Lead(None) + (sid + "-launch-" + uuid) == Lead(Some(sid)) + BareKey(RecordOf(uuid))
  {
    assert sid + "-launch-" + uuid == sid + "-" + ("launch-" + uuid);
  }

  /**
   There is an honest run in which a session's record is restored over plain HTTP by a text that spells the session.
   */
  lemma RecordsCanBeRestoredWithoutTheirSession(lib: Crypto, mint: OidcLogins.Mint) returns (h: History)
    requires IsUuid(mint.sessionUuid) && IsUuid(mint.stateUuid) && IsNonce(mint.nonce)
    requires DecodesTo(lib, FirstToken(), HEADER, BodyWith(mint.nonce))
    ensures HonestRun(lib, h) && AcceptedAt(h, 1, Some(mint.sessionUuid), BodyWith(mint.nonce))
    ensures RestoredAt(h, 2, None, mint.sessionUuid + "-launch-" + UUID, BodyWith(mint.nonce))
  {
    hide HonestRun;
    hide DecodesTo;
    hide AcceptedAt;
    hide RestoredAt;
    hide LoginAction;
    hide IsUuid;
    hide IsNonce;
    var h2 := LoginThenLaunch(lib, mint, true, false);
    h := ThenRestoreElsewhere(lib, h2, mint);
  }

  lemma ThenRestoreElsewhere(lib: Crypto, h: History, mint: OidcLogins.Mint) returns (e: History)
    requires HonestRun(lib, h) && |h.actions| == 2 && IsUuid(mint.sessionUuid)
    requires AcceptedAt(h, 1, Some(mint.sessionUuid), BodyWith(mint.nonce)) && h.actions[1].launch.launchUuid == UUID
    ensures HonestRun(lib, e) && AcceptedAt(e, 1, Some(mint.sessionUuid), BodyWith(mint.nonce))
    ensures RestoredAt(e, 2, None, mint.sessionUuid + "-launch-" + UUID, BodyWith(mint.nonce))
  {
    var text, body := mint.sessionUuid + "-launch-" + UUID, BodyWith(mint.nonce);
    SpelledRecordKey(mint.sessionUuid, UUID);
    assert FindRegistration(CONF, body).Ok?;
    HonestIsAny(lib, h);
    RestoringIsHonest(h.states[2], text);
    hide HonestRun;
    hide PrepareKey;
    hide AnyRun;
    hide FindRegistration;
    hide IsUuid;
    hide WellBehaved;
    hide RestoringAction;
    RecordHolds(lib, h, 1, Some(mint.sessionUuid), body);
    hide AcceptedAt;
    hide RestoredAt;
    e := AppendRestoring(lib, h, false, map[], text, body);
    StillAccepted(lib, h, e, RestoringAction(false, map[], text), 1, Some(mint.sessionUuid), body);
  }

  /**
   There is an honest run in which the claims of a platform's key set document are restored, which no launch ever had.
   */
  lemma KeySetsCanBeRestored(lib: Crypto, mint: OidcLogins.Mint) returns (h: History)
    requires IsUuid(mint.sessionUuid) && IsUuid(mint.stateUuid) && IsNonce(mint.nonce) && HexDigests(lib)
    requires DecodesTo(lib, FirstToken(), HEADER, BodyWith(mint.nonce))
    ensures HonestRun(lib, h) && RestoredAt(h, 2, None, "key-set-url-" + lib.md5(KEYS_URL), BodyWith(""))
    ensures forall i: nat, sid :: !AcceptedAt(h, i, sid, BodyWith(""))
  {
    hide HonestRun;
    hide HexDigests;
    hide DecodesTo;
    hide LoginAction;
    hide IsUuid;
    hide IsNonce;
    hide RestoredAt;
    var h2 := LoginThenLaunch(lib, mint, false, true);
    hide AcceptedAt;
    h := ThenRestoreKeySet(lib, h2, mint);
    HonestIsAny(lib, h);
    forall i: nat, sid ensures !AcceptedAt(h, i, sid, BodyWith("")) {
      if AcceptedAt(h, i, sid, BodyWith("")) { AcceptedMeansKnown(lib, h, i, sid, BodyWith("")); }
    }
  }

  lemma ThenRestoreKeySet(lib: Crypto, h: History, mint: OidcLogins.Mint) returns (e: History)
    requires HonestRun(lib, h) && HexDigests(lib) && |h.actions| == 2 && AcceptedAt(h, 1, None, BodyWith(mint.nonce))
    requires h.actions[1].launch.conf == CONF && h.actions[1].launch.oracle == ORACLE && h.actions[1].launch.caching
    requires Read(Cache(h, 1), None, KeySetKey(lib.md5(KEYS_URL))).None?
    ensures HonestRun(lib, e) && RestoredAt(e, 2, None, "key-set-url-" + lib.md5(KEYS_URL), BodyWith(""))
  {
    var text := "key-set-url-" + lib.md5(KEYS_URL);
    assert RecordKey(text) == KeySetKey(lib.md5(KEYS_URL));
    assert FindRegistration(CONF, BodyWith("")).Ok?;
    HonestIsAny(lib, h);
    RestoringIsHonest(h.states[2], text);
    hide HonestRun;
    hide HexDigests;
    hide PrepareKey;
    hide AnyRun;
    hide FindRegistration;
    hide WellBehaved;
    hide RestoringAction;
    CachedKeySetStays(lib, h, 1, BodyWith(mint.nonce));
    hide AcceptedAt;
    hide RestoredAt;
    e := AppendRestoring(lib, h, false, map[], text, BodyWith(""));
  }

  /** The random values and the library that these two runs need exist. */
  lemma RunsNeedOnlyThis() returns (lib: Crypto, mint: OidcLogins.Mint)
    ensures IsUuid(mint.sessionUuid) && IsUuid(mint.stateUuid) && IsNonce(mint.nonce) && HexDigests(lib)
    ensures DecodesTo(lib, FirstToken(), HEADER, BodyWith(mint.nonce))
  {
    var nonce := NonceOfDigit('0');
    ConstantsAreShaped();
    TokensDecode(ZeroDigest, nonce, nonce);
    DigestsAreHex(nonce, nonce);
    lib, mint := CryptoWith(ZeroDigest, nonce, nonce), OidcLogins.Mint(UUID, UUID, nonce);
  }

  /** A launch that fetched the key set and was accepted leaves it in the cache. */
  lemma CachedKeySetStays(lib: Crypto, h: History, n: nat, body: Body)
    requires AnyRun(lib, h) && HexDigests(lib) && AcceptedAt(h, n, None, body)
    requires h.actions[n].launch.conf == CONF && h.actions[n].launch.oracle == ORACLE && h.actions[n].launch.caching
    requires Read(Cache(h, n), None, KeySetKey(lib.md5(KEYS_URL))).None?
    ensures Read(Cache(h, n + 1), None, KeySetKey(lib.md5(KEYS_URL))) == Some(Jwks(DOCUMENT))
  {
    assert HappensAt(lib, h, n);
    var l, hash := h.actions[n].launch, lib.md5(KEYS_URL);
    var c := ContextOf(lib, l, None);
    assert HexMinted(KeySetOf(hash));
    hide HexDigests;
    KeysAreFetched(c, Cache(h, n));
    AcceptedLaunchSaves(c, Cache(h, n), body);
    hide Validate;
    hide PrepareKey;
    OnlyMarkersEndAsMarkers(None, KeySetOf(hash), None, l.request.state);
    if StoreKey(None, RecordOf(l.launchUuid)) == StoreKey(None, KeySetOf(hash)) {
      RecordSharesItsKey(None, l.launchUuid, None, KeySetOf(hash));
    }
  }

  lemma AcceptedLaunchSaves(c: Context, store: Store, body: Body)
    requires c.conf == CONF && Validate(c, ORACLE, store).0 == Ok(body)
    ensures Validate(c, ORACLE, store).1 == SaveLaunch(c, KeySetFor(c, ORACLE, store, REGISTRATION).1, body)
  {
    hide KeySetFor;
    hide SaveLaunch;
    hide Decode;
    hide CheckState;
    hide CheckNonce;
    hide AfterSignature;
    hide CheckSignature;
  }

  lemma StillAccepted(lib: Crypto, h: History, e: History, action: Action, i: nat, sid: Option<string>, body: Body)
    requires Continues(lib, h, action, e) && AcceptedAt(h, i, sid, body)
    ensures AcceptedAt(e, i, sid, body)
  {
    assert e.actions[i] == h.actions[i] && e.answers[i] == e.answers[..|h.actions|][i];
  }
}
