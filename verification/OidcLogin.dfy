/**
 Third-party initiated login (section 4 of OpenID Connect Core 1.0 and section 5.1.1 of the 1EdTech
 Security Framework 1.0): choosing the session, minting state and nonce, and the redirect's parameters.
 */
module OidcLogins {
  import opened Wrappers
  import opened LtiData
  import opened Storage
  import Launch

  datatype Error = NoLaunchUrl | NoIssuer | NoLoginHint | RegistrationNotFound | Crash

  /** The parameters of a login request; the empty string stands for an absent one. */
  datatype LoginRequest = LoginRequest(secure: bool, iss: string, loginHint: string, clientId: string,
    messageHint: string, launchUrl: string)

  /** The random values drawn during one login. */
  datatype Mint = Mint(sessionUuid: string, stateUuid: string, nonce: string)

  /** Where the browser is sent, and with what. */
  datatype AuthRequest = AuthRequest(
    url: string, scope: string, responseType: string, responseMode: string, prompt: string,
    clientId: string, redirectUri: string, state: string, nonce: string, loginHint: string, messageHint: Option<string>)

  // ---- What a login comes to. ----

  /** The session of the browser: the one its cookie names, or a new one. */
  function LoginSession(req: LoginRequest, cookies: map<string, string>, mint: Mint): Option<string> {
    if !req.secure then None
    else if SESSION_COOKIE in cookies && cookies[SESSION_COOKIE] != "" then Some(cookies[SESSION_COOKIE])
    else Some(mint.sessionUuid)
  }

  function FindRegistration(conf: Launch.ToolConf, req: LoginRequest): Result<Launch.Registration, Error> {
    if req.iss == "" then Err(NoIssuer)
    else if req.loginHint == "" then Err(NoLoginHint)
    else
      match Launch.Lookup(conf, req.iss, Some(req.clientId))
      case None => Err(RegistrationNotFound)
      case Some(reg) => Ok(reg)
  }

  /**
   A login and a launch of the same issuer, whose client is the same unless the issuer has only one, find the
   same registration; the launch goes on with it exactly when its client id is the token's.
   */
  lemma LoginAndLaunchAgree(conf: Launch.ToolConf, req: LoginRequest, body: Body)
    requires FindRegistration(conf, req).Ok? && body.iss == req.iss && Launch.ClientId(body).Ok?
    requires conf.hasOneClient(req.iss) || Launch.ClientId(body).value == Some(req.clientId)
    ensures var reg := FindRegistration(conf, req).value;
            Launch.FindRegistration(conf, body) ==
            if reg.clientId == Launch.ClientId(body).value then Ok(reg) else Err(Launch.ClientIdMismatch)
  {
  }

  /** Whether the login gets as far as minting state and nonce. */
  predicate Mints(conf: Launch.ToolConf, req: LoginRequest) {
    req.launchUrl != "" && FindRegistration(conf, req).Ok?
  }

  /** The cookies handed to the browser: a session cookie for a new session, and the state's own cookie. */
  function CookiesSet(conf: Launch.ToolConf, req: LoginRequest, cookies: map<string, string>,
      mint: Mint): map<string, string> {
    (if req.launchUrl != "" && req.secure && !(SESSION_COOKIE in cookies && cookies[SESSION_COOKIE] != "")
     then map[SESSION_COOKIE := mint.sessionUuid] else map[]) +
    (if Mints(conf, req) then map[StateOf(mint.stateUuid) := StateOf(mint.stateUuid)] else map[])
  }

  /** The cache afterwards: the nonce and, if there are any, the parameters to pass on to the launch. */
  function StoreAfter(conf: Launch.ToolConf, req: LoginRequest, cookies: map<string, string>, mint: Mint, params: Body,
      store: Store): Store {
    if !Mints(conf, req) then store
    else
      var sid := LoginSession(req, cookies, mint);
      var saved := Write(store, sid, NonceKey(mint.nonce), Mark);
      if params != EMPTY_BODY then Write(saved, sid, ParamsKey(StateOf(mint.stateUuid)), Dict(params)) else saved
  }

  // ---- What a login does, told of its inputs alone. ----

  /** A login mints exactly when it has a launch address, an issuer, a login hint, and a registration that is known. */
  lemma MintsIff(conf: Launch.ToolConf, req: LoginRequest)
    ensures Mints(conf, req) <==>
              && req.launchUrl != "" && req.iss != "" && req.loginHint != ""
              && (conf.hasOneClient(req.iss) ==> conf.findByIssuer(req.iss).Some?)
              && (!conf.hasOneClient(req.iss) ==> conf.findByParams(req.iss, Some(req.clientId)).Some?)
  {
  }

  /** Over a secure scheme the session is the one the cookie names, else a new one; otherwise there is none. */
  lemma LoginSessionIs(req: LoginRequest, cookies: map<string, string>, mint: Mint)
    ensures !req.secure ==> LoginSession(req, cookies, mint) == None
    ensures req.secure && "session-id" in cookies && cookies["session-id"] != "" ==>
              LoginSession(req, cookies, mint) == Some(cookies["session-id"])
    ensures req.secure && ("session-id" !in cookies || cookies["session-id"] == "") ==>
              LoginSession(req, cookies, mint) == Some(mint.sessionUuid)
  {
  }

  /** The only cookies are one that names a new session, and the state's own if the login gets as far as minting. */
  lemma CookiesSetAre(conf: Launch.ToolConf, req: LoginRequest, cookies: map<string, string>, mint: Mint, name: string)
    ensures var state := "state-" + mint.stateUuid;
            var issued := CookiesSet(conf, req, cookies, mint);
            && (name in issued ==>
                  (name == state && issued[name] == state)
                    || (name == "session-id" && issued[name] == mint.sessionUuid))
            && (state in issued <==> Mints(conf, req))
            && ("session-id" in issued <==>
                  req.launchUrl != "" && req.secure && ("session-id" !in cookies || cookies["session-id"] == ""))
  {
    assert |SESSION_COOKIE| == 10;
    assert ("state-" + mint.stateUuid)[1] == 't';
  }

  /** A login that mints enters its nonce and, if it has any, its parameters, in its session, and nothing else. */
  lemma LoginWrites(conf: Launch.ToolConf, req: LoginRequest, cookies: map<string, string>, mint: Mint, params: Body,
      store: Store, key: string)
    requires mint.nonce != ""
    ensures var after, sid := StoreAfter(conf, req, cookies, mint, params, store), LoginSession(req, cookies, mint);
            var nonce, state := PrepareKey(sid, "lti1p3-nonce-" + mint.nonce),
                PrepareKey(sid, "lti1p3-state-" + mint.stateUuid);
            && (!Mints(conf, req) ==> after == store)
            && (Mints(conf, req) ==>
                  && nonce in after && (nonce != state ==> after[nonce] == Mark)
                  && (params != EMPTY_BODY ==> state in after && after[state] == Dict(params))
                  && (key != nonce && (key != state || params == EMPTY_BODY) ==>
                        (key in after <==> key in store) && (key in store ==> after[key] == store[key])))
  {
    KeysAreSpelled(mint.nonce, "state-" + mint.stateUuid);
    assert "lti1p3-" + ("state-" + mint.stateUuid) == "lti1p3-state-" + mint.stateUuid;
    hide PrepareKey;
    hide Mints;
    hide NonceKey;
    hide ParamsKey;
  }

  // ---- The login as it is carried out. ----

  class OidcLogin {
    const conf: Launch.ToolConf
    const request: LoginRequest
    const cookies: map<string, string>
    const params: Body
    const session: SessionService
    var cookiesToSet: map<string, string>
    var registration: Option<Launch.Registration>

    constructor (conf: Launch.ToolConf, request: LoginRequest, cookies: map<string, string>, params: Body,
        session: SessionService)
      ensures this.conf == conf && this.request == request && this.cookies == cookies && this.params == params
      ensures this.session == session
      ensures cookiesToSet == map[] && registration == None
    {
      this.conf, this.request, this.cookies, this.params, this.session := conf, request, cookies, params, session;
      cookiesToSet, registration := map[], None;
    }

    method SetLaunchDataStorage(mint: Mint)
      requires session.storage.sessionId == None
      modifies this`cookiesToSet, session.storage`sessionId
      ensures session.storage.sessionId == LoginSession(request, cookies, mint)
      ensures cookiesToSet == old(cookiesToSet) +
                if request.secure && !(SESSION_COOKIE in cookies && cookies[SESSION_COOKIE] != "")
                then map[SESSION_COOKIE := mint.sessionUuid] else map[]
    {
      var name := session.storage.GetSessionCookieName(request.secure);
      if name.Some? {
        var sid := if name.value in cookies then cookies[name.value] else "";
        if sid == "" {
          sid := mint.sessionUuid;
          cookiesToSet := cookiesToSet[name.value := sid];
        }
        session.storage.SetSessionId(sid);
      }
    }

    /**
     Succeeds exactly with what the configuration knows of the issuer and client; the first missing thing is reported.
     */
    method ValidateOidcLogin() returns (r: Result<Launch.Registration, Error>)
      ensures r == FindRegistration(conf, request)
      ensures r.Ok? <==>
                && request.iss != "" && request.loginHint != ""
                && Launch.Lookup(conf, request.iss, Some(request.clientId)).Some?
      ensures r.Ok? ==> Launch.Lookup(conf, request.iss, Some(request.clientId)) == Some(r.value)
      ensures r.Err? ==> (r.error == NoIssuer <==> request.iss == "")
      ensures r.Err? ==> (r.error == NoLoginHint <==> request.iss != "" && request.loginHint == "")
      ensures r.Err? ==> (r.error == RegistrationNotFound <==> request.iss != "" && request.loginHint != "")
    {
      if request.iss == "" { return Err(NoIssuer); }
      if request.loginHint == "" { return Err(NoLoginHint); }
      var found := if conf.hasOneClient(request.iss) then conf.findByIssuer(request.iss)
                   else conf.findByParams(request.iss, Some(request.clientId));
      return if found.None? then Err(RegistrationNotFound) else Ok(found.value);
    }

    /**
     The redirect carries the state whose cookie is set and the nonce that is saved in the same session. Even
     when the registration lacks what the redirect needs, state and nonce have been minted by then.
     */
    method PrepareRedirectUrl(mint: Mint) returns (r: Result<AuthRequest, Error>)
      requires session.storage.sessionId == None && cookiesToSet == map[]
      modifies this, session.storage`sessionId, session.storage.cache
      ensures cookiesToSet == CookiesSet(conf, request, cookies, mint)
      ensures session.storage.cache.entries ==
                StoreAfter(conf, request, cookies, mint, params, old(session.storage.cache.entries))
      ensures r.Ok? <==>
                && Mints(conf, request)
                && FindRegistration(conf, request).value.clientId.Some?
                     && FindRegistration(conf, request).value.authLoginUrl.Some?
      ensures r.Ok? ==>
                && r.value.state in cookiesToSet && cookiesToSet[r.value.state] == r.value.state
                && Read(session.storage.cache.entries, LoginSession(request, cookies, mint),
                     NonceKey(r.value.nonce)).Some?
                && r.value == AuthRequest(
                     FindRegistration(conf, request).value.authLoginUrl.value,
                     "openid", "id_token", "form_post", "none",
                     FindRegistration(conf, request).value.clientId.value, request.launchUrl, StateOf(mint.stateUuid),
                       mint.nonce,
                     request.loginHint, if request.messageHint != "" then Some(request.messageHint) else None)
      ensures request.launchUrl == "" ==> r == Err(NoLaunchUrl) && registration == old(registration)
      ensures request.launchUrl != "" ==>
                match FindRegistration(conf, request)
                case Err(e) => r == Err(e)
                case Ok(reg) =>
                  && registration == Some(reg)
                  && (reg.clientId.None? || reg.authLoginUrl.None? ==> r == Err(Crash))
    {
      hide FindRegistration;
      if request.launchUrl == "" { return Err(NoLaunchUrl); }
      SetLaunchDataStorage(mint);
      var reg :- ValidateOidcLogin();
      registration := Some(reg);
      var state := "state-" + mint.stateUuid;
      cookiesToSet := cookiesToSet[state := state];
      session.SaveNonce(mint.nonce);
      if params != EMPTY_BODY { session.SaveStateParams(state, params); }
      if reg.clientId.None? || reg.authLoginUrl.None? { return Err(Crash); }
      var hint := if request.messageHint != "" then Some(request.messageHint) else None;
      return Ok(AuthRequest(reg.authLoginUrl.value, "openid", "id_token", "form_post", "none",
                            reg.clientId.value, request.launchUrl, state, mint.nonce, request.loginHint, hint));
    }
  }
}
