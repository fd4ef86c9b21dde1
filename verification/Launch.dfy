/**
 The validation chain of a message launch, as functions of the request, the tool's configuration,
 the outside world's answers, and the cache as it is when validation starts.
 The chain follows section 5.1.3 of the 1EdTech Security Framework 1.0.
 */
module Launch {
  import opened Wrappers
  import opened LtiData
  import opened Storage
  import Jwt

  datatype Error =
    | MissingState | MissingIdToken | StateNotFound
    | NotThreeParts | Undecodable
    | NonceEmpty | InvalidNonce
    | IssEmpty | RegistrationNotFound | ClientIdMismatch
    | InvalidUrl | FetchFailed | InvalidKeyResponse
    | KidNotFound | AlgNotFound | KeyNotConvertible | KeyNotFound | BadSignature
    | DeploymentIdMissing | DeploymentNotFound
    | MessageTypeMissing | ValidatorConflict | MessageInvalid | MessageTypeUnknown
    | Restored | LaunchDataNotFound | MissingCookie
    | Crash // an exception that is not one of the library's own

  datatype Registration = Registration(clientId: Option<string>, authLoginUrl: Option<string>, keySet: Option<KeySet>,
    keySetUrl: Option<string>)

  /** The tool's configuration as the launch asks it; a lookup that raises finds nothing. */
  datatype ToolConf = ToolConf(
    hasOneClient: string -> bool,
    findByIssuer: string -> Option<Registration>,
    findByParams: (string, Option<string>) -> Option<Registration>,
    findDeployment: (string, string) -> bool,
    findDeploymentByParams: (string, string, Option<string>) -> bool)

  /** The library functions that are the same at all times: the digest, and parsing of decoded texts. */
  datatype Crypto = Crypto(
    md5: string -> string,
    parseHeader: seq<Jwt.Byte> -> Json<Header>,
    parseBody: seq<Jwt.Byte> -> Json<Body>)

  datatype FetchReply = NetworkError | NotJson | Served(keySet: KeySet)

  /** What the outside world answers during one request. */
  datatype Oracle = Oracle(
    fetch: string -> FetchReply,
    toPem: Jwk -> Option<string>,
    verify: (string, string, string) -> bool,
    accepts: (string, Body) -> bool)

  datatype Request = Request(state: string, idToken: string)

  /** Everything that is fixed while one launch is validated. */
  datatype Context = Context(
    crypto: Crypto, conf: ToolConf, sid: Option<string>, cookies: map<string, string>, request: Request,
    launchId: string, caching: bool)

  function HashOf(c: Context): string { c.crypto.md5(c.request.idToken) }

  // ---- State. ----

  ghost predicate MarkerFound(c: Context, store: Store) {
    Read(store, c.sid, MarkerKey(c.request.state)) == Some(Hash(c.crypto.md5(c.request.idToken)))
  }

  predicate CookiePresented(c: Context) {
    c.request.state in c.cookies && c.cookies[c.request.state] == c.request.state
  }

  ghost function CheckState(c: Context, store: Store): Result<(), Error> {
    if c.request.state == "" then Err(MissingState)
    else if c.request.idToken == "" then Err(MissingIdToken)
    else if MarkerFound(c, store) || CookiePresented(c) then Ok(())
    else Err(StateNotFound)
  }

  // ---- Token format. ----

  function DecodeHeader(crypto: Crypto, part: string): Result<Json<Header>, Error> {
    match Jwt.UrlsafeB64Decode(part)
    case None => Err(Undecodable)
    case Some(bytes) => var h := crypto.parseHeader(bytes); if h.Malformed? then Err(Undecodable) else Ok(h)
  }

  function DecodeBody(crypto: Crypto, part: string): Result<Json<Body>, Error> {
    match Jwt.UrlsafeB64Decode(part)
    case None => Err(Undecodable)
    case Some(bytes) => var b := crypto.parseBody(bytes); if b.Malformed? then Err(Undecodable) else Ok(b)
  }

  function Decode(crypto: Crypto, idToken: string): Result<(Json<Header>, Json<Body>), Error> {
    match Jwt.Parts(idToken)
    case None => Err(NotThreeParts)
    case Some(parts) =>
      var header :- DecodeHeader(crypto, parts.0);
      var body :- DecodeBody(crypto, parts.1);
      Ok((header, body))
  }

  /** The body of the decoded token as a dictionary; anything else raises when a claim is read. */
  function AsBody(jwtBody: Option<Json<Body>>): Result<Body, Error> {
    match jwtBody
    case None => Ok(EMPTY_BODY)
    case Some(Object(body)) => Ok(body)
    case Some(_) => Err(Crash)
  }

  // ---- Nonce, registration, deployment, message. ----

  function CheckNonce(sid: Option<string>, store: Store, body: Body): Result<(), Error> {
    if body.nonce == "" then Err(NonceEmpty)
    else if Read(store, sid, NonceKey(body.nonce)).None? then Err(InvalidNonce)
    else Ok(())
  }

  function ClientId(body: Body): Result<Option<string>, Error> {
    match body.aud
    case NoAudience => Ok(None)
    case One(id) => Ok(Some(id))
    case Many(ids) => if ids == [] then Err(Crash) else Ok(Some(ids[0]))
  }

  function Lookup(conf: ToolConf, iss: string, clientId: Option<string>): Option<Registration> {
    if conf.hasOneClient(iss) then conf.findByIssuer(iss) else conf.findByParams(iss, clientId)
  }

  function FindRegistration(conf: ToolConf, body: Body): Result<Registration, Error> {
    if body.iss == "" then Err(IssEmpty)
    else
      var clientId :- ClientId(body);
      match Lookup(conf, body.iss, clientId)
      case None => Err(RegistrationNotFound)
      case Some(reg) => if clientId != reg.clientId then Err(ClientIdMismatch) else Ok(reg)
  }

  predicate HasDeployment(conf: ToolConf, body: Body, clientId: Option<string>) {
    if conf.hasOneClient(body.iss) then conf.findDeployment(body.iss, body.deploymentId)
    else conf.findDeploymentByParams(body.iss, body.deploymentId, clientId)
  }

  function CheckDeployment(conf: ToolConf, body: Body): Result<(), Error> {
    if body.iss == "" then Err(IssEmpty)
    else
      var clientId :- ClientId(body);
      if body.deploymentId == "" then Err(DeploymentIdMissing)
      else if HasDeployment(conf, body, clientId) then Ok(())
      else Err(DeploymentNotFound)
  }

  const VALIDATORS :=
    ["LtiDeepLinkingRequest", "LtiResourceLinkRequest", "DataPrivacyLaunchRequest", "LtiSubmissionReviewRequest"]

  /** The loop over the remaining validators, given whether one has already accepted. */
  function RunValidators(o: Oracle, body: Body, validators: seq<string>, validated: bool): Result<bool, Error> {
    if validators == [] then Ok(validated)
    else if body.messageType != validators[0] then RunValidators(o, body, validators[1..], validated)
    else if validated then Err(ValidatorConflict)
    else if !o.accepts(validators[0], body) then Err(MessageInvalid)
    else RunValidators(o, body, validators[1..], true)
  }

  function CheckMessage(o: Oracle, body: Body): Result<(), Error> {
    if body.messageType == "" then Err(MessageTypeMissing)
    else
      var validated :- RunValidators(o, body, VALIDATORS, false);
      if validated then Ok(()) else Err(MessageTypeUnknown)
  }

  // ---- Keys. ----

  function AlgOf(key: Jwk): string {
    match key.alg case None => "RS256" case Some(alg) => alg
  }

  predicate Fits(key: Jwk, kid: string, alg: string) {
    key.kid != "" && key.kid == kid && AlgOf(key) == alg
  }

  /** The first key that fits, as a public key in PEM form. */
  function FindKey(o: Oracle, keys: seq<Jwk>, kid: string, alg: string): Result<(string, string), Error> {
    if keys == [] then Err(KeyNotFound)
    else if Fits(keys[0], kid, alg) then
      match o.toPem(keys[0]) case None => Err(KeyNotConvertible) case Some(pem) => Ok((pem, alg))
    else FindKey(o, keys[1..], kid, alg)
  }

  function SelectKey(o: Oracle, keySet: KeySet, header: Json<Header>): Result<(string, string), Error> {
    if !header.Object? then Err(Crash)
    else if header.value.kid == "" then Err(KidNotFound)
    else if header.value.alg == "" then Err(AlgNotFound)
    else if !keySet.Keys? then Err(Crash)
    else FindKey(o, keySet.keys, header.value.kid, header.value.alg)
  }

  /** Fetching a key set by its address, through the cache when there is one; session ids play no part. */
  function FetchKeys(md5: string -> string, fetch: string -> FetchReply, caching: bool, store: Store,
      url: string): (Result<KeySet, Error>, Store) {
    var cached := if caching then Read(store, None, KeySetKey(md5(url))) else None;
    if cached.Some? && cached.value.Jwks? && cached.value.keySet != EmptyDoc then (Ok(cached.value.keySet), store)
    else if cached.Some? && !cached.value.Jwks? then (Err(Crash), store)
    else
      match fetch(url)
      case NetworkError => (Err(FetchFailed), store)
      case NotJson => (Err(InvalidKeyResponse), store)
      case Served(keySet) =>
        (Ok(keySet), if caching then Write(store, None, KeySetKey(md5(url)), Jwks(keySet)) else store)
  }

  predicate IsHttpUrl(url: string) { "http://" <= url || "https://" <= url }

  predicate OwnKeys(reg: Registration) { reg.keySet.Some? && reg.keySet.value != EmptyDoc }

  function KeySetFor(c: Context, o: Oracle, store: Store, reg: Registration): (Result<KeySet, Error>, Store) {
    if OwnKeys(reg) then (Ok(reg.keySet.value), store)
    else if reg.keySetUrl.None? then (Err(Crash), store)
    else if !IsHttpUrl(reg.keySetUrl.value) then (Err(InvalidUrl), store)
    else FetchKeys(c.crypto.md5, o.fetch, c.caching, store, reg.keySetUrl.value)
  }

  // ---- The chain. ----

  /** The steps before the signature, which only read. */
  ghost function BeforeSignature(c: Context, store: Store): Result<(Json<Header>, Body, Registration), Error> {
    var _ :- CheckState(c, store);
    var decoded :- Decode(c.crypto, c.request.idToken);
    var body :- AsBody(Some(decoded.1));
    var _ :- CheckNonce(c.sid, store, body);
    var reg :- FindRegistration(c.conf, body);
    Ok((decoded.0, body, reg))
  }

  function CheckSignature(o: Oracle, idToken: string, keySet: KeySet, header: Json<Header>): Result<(), Error> {
    var key :- SelectKey(o, keySet, header);
    if o.verify(idToken, key.0, key.1) then Ok(()) else Err(BadSignature)
  }

  function AfterSignature(c: Context, o: Oracle, body: Body): Result<(), Error> {
    var _ :- CheckDeployment(c.conf, body);
    CheckMessage(o, body)
  }

  function SaveLaunch(c: Context, store: Store, body: Body): Store {
    Write(Write(store, c.sid, RecordKey(c.launchId), Dict(body)), c.sid, MarkerKey(c.request.state), Hash(HashOf(c)))
  }

  /** The whole chain: the launch's body or the first error, and the cache afterwards. */
  ghost function Validate(c: Context, o: Oracle, store: Store): (Result<Body, Error>, Store) {
    match BeforeSignature(c, store)
    case Err(e) => (Err(e), store)
    case Ok((header, body, reg)) =>
      var (keySet, fetched) := KeySetFor(c, o, store, reg);
      if keySet.Err? then (Err(keySet.error), fetched)
      else
        var signed := CheckSignature(o, c.request.idToken, keySet.value, header);
        if signed.Err? then (Err(signed.error), fetched)
        else
          var rest := AfterSignature(c, o, body);
          if rest.Err? then (Err(rest.error), fetched)
          else (Ok(body), SaveLaunch(c, fetched, body))
  }

  // ---- What a successful chain means, without its order of steps and without its own functions. ----

  /** The token's two first parts decode to these objects. */
  ghost predicate DecodesTo(crypto: Crypto, idToken: string, header: Header, body: Body) {
    && Jwt.Parts(idToken).Some?
    && var parts := Jwt.Parts(idToken).value;
    && Jwt.UrlsafeB64Decode(parts.0).Some? && crypto.parseHeader(Jwt.UrlsafeB64Decode(parts.0).value) == Object(header)
    && Jwt.UrlsafeB64Decode(parts.1).Some? && crypto.parseBody(Jwt.UrlsafeB64Decode(parts.1).value) == Object(body)
  }

  /** The key has this id and algorithm; a key that names no algorithm has RS256. */
  ghost predicate KeyIs(key: Jwk, kid: string, alg: string) {
    key.kid == kid && (key.alg == Some(alg) || (key.alg == None && alg == "RS256"))
  }

  /** A key of the set has the header's id and algorithm, none before it has, and it verifies the token. */
  ghost predicate VerifiedBy(o: Oracle, idToken: string, keys: seq<Jwk>, header: Header, i: int) {
    && 0 <= i < |keys| && KeyIs(keys[i], header.kid, header.alg) && header.kid != "" && header.alg != ""
    && (forall j :: 0 <= j < i ==> !KeyIs(keys[j], header.kid, header.alg))
    && o.toPem(keys[i]).Some? && o.verify(idToken, o.toPem(keys[i]).value, header.alg)
  }

  /** The client a token is for: none, the one named, or the first of several. */
  ghost predicate AudienceIs(aud: Audience, client: Option<string>) {
    || (aud == NoAudience && client == None)
    || (aud.One? && client == Some(aud.id))
    || (aud.Many? && aud.ids != [] && client == Some(aud.ids[0]))
  }

  /**
   The configuration knows this registration of the issuer, for this client unless it has only one, and it is the
   client's.
   */
  ghost predicate RegistrationIs(conf: ToolConf, iss: string, client: Option<string>, reg: Registration) {
    && iss != "" && reg.clientId == client
    && (conf.hasOneClient(iss) ==> conf.findByIssuer(iss) == Some(reg))
    && (!conf.hasOneClient(iss) ==> conf.findByParams(iss, client) == Some(reg))
  }

  /** The configuration knows the deployment of the issuer, for this client unless it has only one. */
  ghost predicate DeploymentIs(conf: ToolConf, iss: string, deploymentId: string, client: Option<string>) {
    && deploymentId != ""
    && (conf.hasOneClient(iss) ==> conf.findDeployment(iss, deploymentId))
    && (!conf.hasOneClient(iss) ==> conf.findDeploymentByParams(iss, deploymentId, client))
  }

  ghost predicate ClaimsResolve(c: Context, body: Body, reg: Registration) {
    && AudienceIs(body.aud, reg.clientId)
    && RegistrationIs(c.conf, body.iss, reg.clientId, reg)
    && DeploymentIs(c.conf, body.iss, body.deploymentId, reg.clientId)
  }

  lemma ClaimsResolveIff(conf: ToolConf, body: Body, reg: Registration)
    ensures FindRegistration(conf, body) == Ok(reg) <==>
            AudienceIs(body.aud, reg.clientId) && RegistrationIs(conf, body.iss, reg.clientId, reg)
    ensures FindRegistration(conf, body) == Ok(reg) ==>
              (CheckDeployment(conf, body).Ok? <==> DeploymentIs(conf, body.iss, body.deploymentId, reg.clientId))
  {
  }

  /** The message is of one of the four types there are, and the validator of that type accepts it. */
  ghost predicate OneValidatorAccepts(o: Oracle, body: Body) {
    && body.messageType in {"LtiDeepLinkingRequest", "LtiResourceLinkRequest", "DataPrivacyLaunchRequest",
                            "LtiSubmissionReviewRequest"}
    && o.accepts(body.messageType, body)
  }

  /** Only the validator at `i` recognises the message, and it accepts it. */
  ghost predicate OnlyAccepts(o: Oracle, body: Body, validators: seq<string>, i: int) {
    && 0 <= i < |validators| && body.messageType == validators[i] && o.accepts(validators[i], body)
    && forall j :: 0 <= j < |validators| && j != i ==> body.messageType != validators[j]
  }

  /** The key set that is cached under an address, when key sets are cached. */
  ghost predicate CachedIs(c: Context, store: Store, url: string, value: Option<Value>) {
    value == if c.caching then Read(store, None, "key-set-url-" + c.crypto.md5(url)) else None
  }

  /**
   The registration's own key set, unless that is empty; else the one cached under its address, unless that is
   empty; else the one served there, when the address is one of HTTP.
   */
  ghost predicate KeySetIs(c: Context, o: Oracle, store: Store, reg: Registration, keySet: KeySet) {
    if reg.keySet.Some? && reg.keySet != Some(EmptyDoc) then reg.keySet == Some(keySet)
    else
      && reg.keySetUrl.Some? && ("http://" <= reg.keySetUrl.value || "https://" <= reg.keySetUrl.value)
      && exists cached :: CachedIs(c, store, reg.keySetUrl.value, cached) &&
           if cached == None || cached == Some(Jwks(EmptyDoc)) then o.fetch(reg.keySetUrl.value) == Served(keySet)
           else cached == Some(Jwks(keySet))
  }

  /** The keys of the key set the registration resolves to. */
  ghost predicate KeysOf(c: Context, o: Oracle, store: Store, reg: Registration, keys: seq<Jwk>) {
    exists claims :: KeySetIs(c, o, store, reg, Keys(keys, claims))
  }

  /** Which key set is used, from where, and what is cached of it. */
  lemma KeySetForIs(c: Context, o: Oracle, store: Store, reg: Registration, keySet: KeySet)
    ensures KeySetFor(c, o, store, reg).0 == Ok(keySet) <==> KeySetIs(c, o, store, reg, keySet)
    ensures KeySetFor(c, o, store, reg).0 == Ok(keySet) ==>
              var after := KeySetFor(c, o, store, reg).1;
              after == store
              || (c.caching && reg.keySetUrl.Some? && o.fetch(reg.keySetUrl.value) == Served(keySet)
                  && after == Write(store, None, "key-set-url-" + c.crypto.md5(reg.keySetUrl.value), Jwks(keySet)))
  {
    hide PrepareKey;
    if reg.keySetUrl.Some? {
      var url := reg.keySetUrl.value;
      var cached := if c.caching then Read(store, None, "key-set-url-" + c.crypto.md5(url)) else None;
      assert CachedIs(c, store, url, cached);
    }
  }

  /** Fetching asks the address only when nothing is cached for it, and caches what is served, if there is a cache. */
  lemma FetchingCaches(c: Context, o: Oracle, store: Store, url: string, keySet: KeySet)
    requires CachedIs(c, store, url, None) && o.fetch(url) == Served(keySet)
    ensures FetchKeys(c.crypto.md5, o.fetch, c.caching, store, url) ==
            (Ok(keySet), if c.caching then Write(store, None, "key-set-url-" + c.crypto.md5(url), Jwks(keySet))
              else store)
  {
    hide PrepareKey;
  }

  ghost predicate Verified(c: Context, o: Oracle, store: Store, header: Header, reg: Registration) {
    exists keys, i :: KeysOf(c, o, store, reg, keys) && VerifiedBy(o, c.request.idToken, keys, header, i)
  }

  ghost predicate PassedWith(c: Context, o: Oracle, store: Store, header: Header, body: Body, reg: Registration) {
    && c.request.state != "" && c.request.idToken != "" && (MarkerFound(c, store) || CookiePresented(c))
    && DecodesTo(c.crypto, c.request.idToken, header, body)
    && body.nonce != "" && Read(store, c.sid, NonceKey(body.nonce)).Some?
    && ClaimsResolve(c, body, reg)
    && Verified(c, o, store, header, reg)
    && OneValidatorAccepts(o, body)
  }

  ghost predicate Passed(c: Context, o: Oracle, store: Store, body: Body) {
    exists header, reg :: PassedWith(c, o, store, header, body, reg)
  }

  lemma {:induction false} FindKeyIff(o: Oracle, idToken: string, keys: seq<Jwk>, header: Header)
    requires header.kid != "" && header.alg != ""
    ensures (var k := FindKey(o, keys, header.kid, header.alg); k.Ok? && o.verify(idToken, k.value.0, k.value.1)) <==>
            exists i :: VerifiedBy(o, idToken, keys, header, i)
  {
    if keys != [] {
      FindKeyIff(o, idToken, keys[1..], header);
      if Fits(keys[0], header.kid, header.alg) {
        if o.toPem(keys[0]).Some? && o.verify(idToken, o.toPem(keys[0]).value, header.alg) {
          assert VerifiedBy(o, idToken, keys, header, 0);
        }
      } else {
        forall i | VerifiedBy(o, idToken, keys[1..], header, i) ensures VerifiedBy(o, idToken, keys, header, i + 1) {
          forall j | 0 <= j < i + 1 ensures !KeyIs(keys[j], header.kid, header.alg) {
            if j > 0 { assert keys[1..][j - 1] == keys[j]; }
          }
        }
        forall i | VerifiedBy(o, idToken, keys, header, i) ensures VerifiedBy(o, idToken, keys[1..], header, i - 1) {
          forall j | 0 <= j < i - 1 ensures !KeyIs(keys[1..][j], header.kid, header.alg) {
            assert keys[1..][j] == keys[j + 1];
          }
        }
      }
    }
  }

  lemma SignatureIff(o: Oracle, idToken: string, keySet: KeySet, header: Header)
    ensures CheckSignature(o, idToken, keySet, Object(header)).Ok? <==>
            keySet.Keys? && exists i :: VerifiedBy(o, idToken, keySet.keys, header, i)
  {
    if header.kid != "" && header.alg != "" && keySet.Keys? {
      FindKeyIff(o, idToken, keySet.keys, header);
    }
  }

  lemma {:induction false} RunValidatorsIff(o: Oracle, body: Body, validators: seq<string>)
    ensures RunValidators(o, body, validators, true).Ok? <==> forall j :: 0 <= j < |validators| ==>
              body.messageType != validators[j]
    ensures RunValidators(o, body, validators, true).Ok? ==> RunValidators(o, body, validators, true).value
    ensures RunValidators(o, body, validators, false) == Ok(true) <==> exists i :: OnlyAccepts(o, body, validators, i)
  {
    if validators != [] {
      var rest := validators[1..];
      RunValidatorsIff(o, body, rest);
      assert forall j :: 0 < j < |validators| ==> validators[j] == rest[j - 1];
      if body.messageType == validators[0] {
        if RunValidators(o, body, validators, false) == Ok(true) { assert OnlyAccepts(o, body, validators, 0); }
      } else {
        forall i | OnlyAccepts(o, body, rest, i) ensures OnlyAccepts(o, body, validators, i + 1) {}
        forall i | OnlyAccepts(o, body, validators, i) ensures OnlyAccepts(o, body, rest, i - 1) {}
      }
    }
  }

  lemma MessageIff(o: Oracle, body: Body)
    ensures CheckMessage(o, body).Ok? <==> OneValidatorAccepts(o, body)
  {
    RunValidatorsIff(o, body, VALIDATORS);
    if OneValidatorAccepts(o, body) {
      var i := if body.messageType == VALIDATORS[0] then 0 else if body.messageType == VALIDATORS[1] then 1
               else if body.messageType == VALIDATORS[2] then 2 else 3;
      assert OnlyAccepts(o, body, VALIDATORS, i);
    }
  }

  lemma BeforeSignatureIff(c: Context, store: Store, header: Json<Header>, body: Body, reg: Registration)
    ensures BeforeSignature(c, store) == Ok((header, body, reg)) <==>
            && c.request.state != "" && c.request.idToken != "" && (MarkerFound(c, store) || CookiePresented(c))
            && Decode(c.crypto, c.request.idToken) == Ok((header, Object(body)))
            && body.nonce != "" && Read(store, c.sid, NonceKey(body.nonce)).Some?
            && FindRegistration(c.conf, body) == Ok(reg)
  {
    hide Decode;
    hide FindRegistration;
    hide MarkerFound;
    hide CookiePresented;
    hide Read;
  }

  lemma DecodeIff(crypto: Crypto, idToken: string, header: Header, body: Body)
    ensures Decode(crypto, idToken) == Ok((Object(header), Object(body))) <==> DecodesTo(crypto, idToken, header, body)
  {
  }

  lemma ValidatedMeansPassed(c: Context, o: Oracle, store: Store, body: Body)
    requires Validate(c, o, store).0 == Ok(body)
    ensures Passed(c, o, store, body)
  {
    MessageIff(o, body);
    var (header, b, reg) := BeforeSignature(c, store).value;
    BeforeSignatureIff(c, store, header, b, reg);
    assert header.Object?;
    DecodeIff(c.crypto, c.request.idToken, header.value, body);
    hide Decode;
    hide DecodesTo;
    hide CheckState;
    hide CheckNonce;
    var keySet := KeySetFor(c, o, store, reg).0.value;
    SignatureIff(o, c.request.idToken, keySet, header.value);
    ClaimsResolveIff(c.conf, body, reg);
    KeySetForIs(c, o, store, reg, keySet);
    hide VerifiedBy;
    hide CheckMessage;
    hide OneValidatorAccepts;
    hide FindRegistration;
    hide CheckDeployment;
    hide RegistrationIs;
    hide DeploymentIs;
    hide KeySetIs;
    assert KeysOf(c, o, store, reg, keySet.keys) by {
      assert KeySetIs(c, o, store, reg, Keys(keySet.keys, keySet.claims));
    }
    assert PassedWith(c, o, store, header.value, body, reg);
  }

  lemma PassedMeansValidated(c: Context, o: Oracle, store: Store, body: Body)
    requires Passed(c, o, store, body)
    ensures Validate(c, o, store).0 == Ok(body)
  {
    MessageIff(o, body);
    var header, reg :| PassedWith(c, o, store, header, body, reg);
    var keys, i :| KeysOf(c, o, store, reg, keys) && VerifiedBy(o, c.request.idToken, keys, header, i);
    DecodeIff(c.crypto, c.request.idToken, header, body);
    BeforeSignatureIff(c, store, Object(header), body, reg);
    var claims :| KeySetIs(c, o, store, reg, Keys(keys, claims));
    KeySetForIs(c, o, store, reg, Keys(keys, claims));
    ClaimsResolveIff(c.conf, body, reg);
    SignatureIff(o, c.request.idToken, Keys(keys, claims), header);
    hide FindRegistration;
    hide CheckDeployment;
    hide RegistrationIs;
    hide DeploymentIs;
    hide KeySetIs;
    hide VerifiedBy;
    hide DecodesTo;
  }

  /** The chain succeeds with a body exactly when all its conditions hold of it together. */
  lemma ValidateIffPassed(c: Context, o: Oracle, store: Store, body: Body)
    ensures Validate(c, o, store).0 == Ok(body) <==> Passed(c, o, store, body)
  {
    if Validate(c, o, store).0 == Ok(body) { ValidatedMeansPassed(c, o, store, body); }
    hide Validate;
    if Passed(c, o, store, body) { PassedMeansValidated(c, o, store, body); }
  }

  /** The cache once the key set, if the chain gets that far, has been looked up. */
  ghost function Fetched(c: Context, o: Oracle, store: Store): Store {
    match BeforeSignature(c, store)
    case Err(_) => store
    case Ok((_, _, reg)) => KeySetFor(c, o, store, reg).1
  }

  lemma KeySetForWrites(c: Context, o: Oracle, store: Store, reg: Registration)
    ensures var after := KeySetFor(c, o, store, reg).1;
            after == store || exists url, keySet :: KeySetWritten(c, o, store, url, keySet, after)
  {
    var after := KeySetFor(c, o, store, reg).1;
    if after != store {
      var url := reg.keySetUrl.value;
      assert KeySetWritten(c, o, store, url, o.fetch(url).keySet, after);
    }
  }

  /** What the chain does to the cache: it may add a key set, and on success the launch's two entries. */
  lemma ValidateWrites(c: Context, o: Oracle, store: Store)
    ensures var fetched := Fetched(c, o, store);
            && (fetched == store || exists url, keySet :: KeySetWritten(c, o, store, url, keySet, fetched))
            && var (r, after) := Validate(c, o, store);
               after == if r.Ok? then SaveLaunch(c, fetched, r.value) else fetched
  {
    if BeforeSignature(c, store).Ok? {
      KeySetForWrites(c, o, store, BeforeSignature(c, store).value.2);
    }
  }

  /** A key set served during this request has been cached under its address. */
  ghost predicate KeySetWritten(c: Context, o: Oracle, store: Store, url: string, keySet: KeySet, after: Store) {
    o.fetch(url) == Served(keySet) && after == Write(store, None, KeySetKey(c.crypto.md5(url)), Jwks(keySet))
  }
}
