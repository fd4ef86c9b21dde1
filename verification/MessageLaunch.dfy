/**
 The launch object: its fields are filled step by step by the validation chain, and reading the
 token's body validates the launch first when that has not happened yet.
 */
module MessageLaunches {
  import opened Wrappers
  import opened LtiData
  import opened Storage
  import opened Launch
  import Jwt

  /** A completed chain: the context, the answers and the cache with which it ran. */
  datatype Evidence = Evidence(c: Context, o: Oracle, store: Store)

  /** The chain, run with this, leaves this cache. */
  ghost predicate LeftBy(m: Evidence, after: Store) {
    after == Launch.Validate(m.c, m.o, m.store).1
  }

  function HeaderOf(jwtHeader: Option<Json<Header>>): Json<Header> {
    match jwtHeader case None => Object(Header("", "")) case Some(h) => h
  }

  class MessageLaunch {
    const crypto: Crypto
    const conf: ToolConf
    const cookies: map<string, string>
    const request: Request
    const session: SessionService

    var launchId: string
    var jwtHeader: Option<Json<Header>>
    var jwtBody: Option<Json<Body>>
    var registration: Option<Registration>
    var validated: bool
    var autoValidation: bool
    var restored: bool
    var idTokenHash: Option<string>
    var keyCaching: bool

    // Whether a chain is under way, whether the token was never set from outside, and the last completed chain.
    ghost var running: bool
    ghost var untouched: bool
    ghost var proof: Option<Evidence>

    ghost function Ctx(): Context
      reads this, session.storage
    {
      Context(crypto, conf, session.storage.sessionId, cookies, request, launchId, keyCaching)
    }

    ghost function Entries(): Store
      reads session.storage.cache
    {
      session.storage.cache.entries
    }

    /** The chain that last completed was this request's, and the token's body is the one it accepted. */
    ghost predicate Certified()
      reads this
    {
      && proof.Some?
      && var e := proof.value;
      && e.c.crypto == crypto && e.c.conf == conf && e.c.cookies == cookies && e.c.request == request
      && jwtBody.Some? && jwtBody.value.Object?
      && Passed(e.c, e.o, e.store, jwtBody.value.value)
    }

    ghost predicate Valid()
      reads this, session.storage
    {
      && (idTokenHash.Some? ==> request.idToken != "" && idTokenHash.value == crypto.md5(request.idToken))
      && (session.storage.sessionId.Some? ==> session.storage.sessionId.value != "")
      && (running ==> validated)
      && (restored ==> !untouched)
      && (validated && !running && untouched ==> Certified())
    }

    /** What a chain that starts now has to go by. */
    ghost function Now(o: Oracle): Evidence
      reads this, session.storage, session.storage.cache
    {
      Evidence(Ctx(), o, Entries())
    }

    /** Reading the body starts no validation. */
    ghost predicate Settled()
      reads this
    {
      validated || !autoValidation
    }

    /** What reading the body comes to, and the cache afterwards: the body as it is, a refusal, or what a chain says. */
    ghost function Reading(o: Oracle): (Result<Body, Error>, Store)
      reads this, session.storage, session.storage.cache
    {
      if Settled() then (AsBody(jwtBody), Entries())
      else if restored then (Err(Restored), Entries())
      else Launch.Validate(Ctx(), o, Entries())
    }

    /** The certificate is the one before, or that of a chain that ran just now and left the cache as it is. */
    ghost predicate Recorded(before: Option<Evidence>, now: Evidence)
      reads this, session.storage.cache
    {
      proof == before || (proof == Some(now) && LeftBy(now, Entries()))
    }

    ghost function Pending(): nat
      reads this
    {
      if validated || !autoValidation then 0 else 1
    }

    constructor (crypto: Crypto, conf: ToolConf, cookies: map<string, string>, request: Request,
        session: SessionService, launchId: string)
      requires session.storage.sessionId.Some? ==> session.storage.sessionId.value != ""
      ensures Valid() && !validated && autoValidation && !restored && untouched && !running && !keyCaching
      ensures proof == None
      ensures this.crypto == crypto && this.conf == conf && this.cookies == cookies && this.request == request
      ensures this.session == session && this.launchId == launchId
    {
      this.crypto, this.conf, this.cookies, this.request, this.session := crypto, conf, cookies, request, session;
      this.launchId := launchId;
      jwtHeader, jwtBody, registration, idTokenHash := None, None, None, None;
      validated, autoValidation, restored, keyCaching := false, true, false, false;
      running, untouched, proof := false, true, None;
    }

    method SetAutoValidation(enable: bool)
      requires Valid()
      modifies this`autoValidation
      ensures Valid() && autoValidation == enable
    {
      autoValidation := enable;
    }

    method SetPublicKeyCaching()
      requires Valid()
      modifies this`keyCaching
      ensures Valid() && keyCaching
    {
      keyCaching := true;
    }

    method SetJwt(body: Body)
      requires Valid()
      modifies this`jwtHeader, this`jwtBody, this`untouched
      ensures Valid() && !untouched && jwtHeader == None && jwtBody == Some(Object(body))
    {
      jwtHeader, jwtBody := None, Some(Object(body));
      untouched := false;
    }

    method SetLaunchId(id: string)
      requires Valid()
      modifies this`launchId
      ensures Valid() && launchId == id
    {
      launchId := id;
    }

    /** A restored launch carries a token that was set from outside. */
    method SetRestored()
      requires Valid() && !untouched
      modifies this`restored
      ensures Valid() && restored
    {
      restored := true;
    }

    // ---- Reading the body: validation on demand. ----

    /**
     The token's body. On a launch that validates by itself and was neither restored nor given a token
     from outside, a body comes back only after a chain of this request has passed with that very body: the
     last one that completed, or the one this call runs on the cache as it finds it.
     */
    method GetJwtBody(o: Oracle) returns (r: Result<Body, Error>)
      requires Valid()
      modifies this`validated, this`jwtHeader, this`jwtBody, this`registration, this`idTokenHash, this`running
      modifies this`proof
      modifies session.storage`sessionId, session.storage.cache
      ensures Valid() && running == old(running)
      ensures session.storage.sessionId == old(session.storage.sessionId)
      ensures (r, Entries()) == old(Reading(o))
      ensures old(Settled()) ==> unchanged(this) && unchanged(session.storage.cache)
      ensures old(!Settled()) && !old(restored) ==> validated == r.Ok? && (r.Ok? ==> jwtBody == Some(Object(r.value)))
      ensures Recorded(old(proof), old(Now(o)))
      ensures r.Ok? && autoValidation && untouched && !running ==> Certified() && jwtBody == Some(Object(r.value))
      decreases Pending(), 1
    {
      hide Launch.Validate;
      hide Passed;
      if !validated && autoValidation {
        var _ :- Validate(o);
      }
      return AsBody(jwtBody);
    }

    method GetLaunchData(o: Oracle) returns (r: Result<Body, Error>)
      requires Valid()
      modifies this`validated, this`jwtHeader, this`jwtBody, this`registration, this`idTokenHash, this`running
      modifies this`proof
      modifies session.storage`sessionId, session.storage.cache
      ensures Valid() && running == old(running)
      ensures session.storage.sessionId == old(session.storage.sessionId)
      ensures old(Settled()) ==> unchanged(this) && unchanged(session.storage.cache)
      ensures (r, Entries()) == old(Reading(o))
      ensures Recorded(old(proof), old(Now(o)))
      ensures r.Ok? && autoValidation && untouched && !running ==> Certified() && jwtBody == Some(Object(r.value))
    {
      r := GetJwtBody(o);
    }

    /** Runs the chain; afterwards the launch counts as validated exactly if every step succeeded. */
    method Validate(o: Oracle) returns (r: Result<(), Error>)
      requires Valid() && !running
      modifies this`validated, this`jwtHeader, this`jwtBody, this`registration, this`idTokenHash, this`running
      modifies this`proof
      modifies session.storage`sessionId, session.storage.cache
      ensures Valid() && !running
      ensures session.storage.sessionId == old(session.storage.sessionId)
      ensures old(restored) ==> unchanged(this) && unchanged(session.storage.cache) && r == Err(Restored)
      ensures !old(restored) ==>
                var v := Launch.Validate(old(Ctx()), o, old(Entries()));
                && Entries() == v.1 && validated == r.Ok? && r.Ok? == v.0.Ok?
                && (r.Err? ==> r.error == v.0.error)
                && (r.Ok? ==> Certified() && jwtBody == Some(Object(v.0.value)))
      ensures proof == if r.Ok? then Some(old(Now(o))) else old(proof)
      ensures !old(restored) ==> LeftBy(old(Now(o)), Entries())
      decreases 1, 0
    {
      if restored { return Err(Restored); }
      ghost var c, store := Ctx(), Entries();
      validated := true;
      running := true;
      r := RunChain(o);
      running := false;
      if r.Err? {
        validated := false;
      } else {
        proof := Some(Evidence(c, o, store));
        ValidateIffPassed(c, o, store, jwtBody.value.value);
      }
    }

    method RunChain(o: Oracle) returns (r: Result<(), Error>)
      requires Valid() && running
      modifies this`validated, this`jwtHeader, this`jwtBody, this`registration, this`idTokenHash, this`running
      modifies this`proof
      modifies session.storage`sessionId, session.storage.cache
      ensures Valid() && running
      ensures session.storage.sessionId == old(session.storage.sessionId)
      ensures var v := Launch.Validate(old(Ctx()), o, old(Entries()));
              && Entries() == v.1 && r.Ok? == v.0.Ok?
              && (r.Err? ==> r.error == v.0.error)
              && (r.Ok? ==> jwtBody == Some(Object(v.0.value)))
      ensures proof == old(proof)
      decreases 0, 4
    {
      hide BeforeSignature;
      hide KeySetFor;
      hide CheckSignature;
      hide CheckDeployment;
      hide CheckMessage;
      hide SaveLaunch;
      hide Passed;
      var _ :- RunReadingSteps(o);
      var _ :- ValidateJwtSignature(o);
      var _ :- ValidateDeployment(o);
      var _ :- ValidateMessage(o);
      r := SaveLaunchData();
    }

    /** The steps of the chain before the signature. */
    method RunReadingSteps(o: Oracle) returns (r: Result<(), Error>)
      requires Valid() && running
      modifies this`validated, this`jwtHeader, this`jwtBody, this`registration, this`idTokenHash, this`running
      modifies this`proof
      modifies session.storage`sessionId, session.storage.cache
      ensures Valid() && running
      ensures session.storage.sessionId == old(session.storage.sessionId) && unchanged(session.storage.cache)
      ensures var b := BeforeSignature(old(Ctx()), old(Entries()));
              && r.Ok? == b.Ok?
              && (r.Err? ==> r.error == b.error)
              && (r.Ok? ==>
                    && request.idToken != "" && jwtHeader == Some(b.value.0) && jwtBody == Some(Object(b.value.1))
                    && registration == Some(b.value.2))
      ensures proof == old(proof)
      decreases 0, 3
    {
      hide Decode;
      hide CheckNonce;
      hide FindRegistration;
      hide Passed;
      var _ :- ValidateState();
      var _ :- ValidateJwtFormat();
      var _ :- ValidateNonce(o);
      r := ValidateRegistration(o);
    }

    // ---- The steps. ----

    method ValidateState() returns (r: Result<(), Error>)
      requires Valid()
      modifies this`idTokenHash
      ensures Valid() && r == CheckState(Ctx(), Entries())
    {
      hide Passed;
      if request.state == "" { return Err(MissingState); }
      if idTokenHash.None? {
        if request.idToken == "" { return Err(MissingIdToken); }
        idTokenHash := Some(crypto.md5(request.idToken));
      }
      var known := session.CheckStateIsValid(request.state, idTokenHash.value);
      if !known {
        if request.state !in cookies || cookies[request.state] != request.state { return Err(StateNotFound); }
      }
      return Ok(());
    }

    /** Decodes header and body; a header that decodes stays even when the body does not. */
    method ValidateJwtFormat() returns (r: Result<(), Error>)
      requires Valid()
      modifies this`jwtHeader, this`jwtBody
      ensures Valid()
      ensures request.idToken != "" ==>
                var d := Decode(crypto, request.idToken);
                && r.Ok? == d.Ok? && (r.Err? ==> r.error == d.error)
                && (r.Ok? ==> jwtHeader == Some(d.value.0) && jwtBody == Some(d.value.1))
      ensures request.idToken == "" ==> r == Err(MissingIdToken) && jwtHeader == old(jwtHeader)
      ensures r.Err? ==> jwtBody == old(jwtBody)
    {
      if request.idToken == "" { return Err(MissingIdToken); }
      var parts := Jwt.Parts(request.idToken);
      if parts.None? { return Err(NotThreeParts); }
      var header :- DecodeHeader(crypto, parts.value.0);
      jwtHeader := Some(header);
      var body :- DecodeBody(crypto, parts.value.1);
      jwtBody := Some(body);
      return Ok(());
    }

    method ValidateNonce(o: Oracle) returns (r: Result<(), Error>)
      requires Valid()
      modifies this`validated, this`jwtHeader, this`jwtBody, this`registration, this`idTokenHash, this`running
      modifies this`proof
      modifies session.storage`sessionId, session.storage.cache
      ensures Valid() && running == old(running)
      ensures session.storage.sessionId == old(session.storage.sessionId)
      ensures old(Settled()) ==> unchanged(this) && unchanged(session.storage.cache)
      ensures var (body, store) := old(Reading(o));
              && Entries() == store
              && r == match body { case Err(e) => Err(e) case Ok(b) => CheckNonce(session.storage.sessionId, store, b) }
      ensures Recorded(old(proof), old(Now(o)))
      decreases Pending(), 2
    {
      hide Launch.Validate;
      hide Passed;
      var body :- GetJwtBody(o);
      if body.nonce == "" { return Err(NonceEmpty); }
      var known := session.CheckNonce(body.nonce);
      return if known then Ok(()) else Err(InvalidNonce);
    }

    method ValidateRegistration(o: Oracle) returns (r: Result<(), Error>)
      requires Valid()
      modifies this`validated, this`jwtHeader, this`jwtBody, this`registration, this`idTokenHash, this`running
      modifies this`proof
      modifies session.storage`sessionId, session.storage.cache
      ensures Valid() && running == old(running)
      ensures old(Settled()) ==> unchanged(`validated) && unchanged(`jwtHeader) && unchanged(`jwtBody)
      ensures old(Settled()) ==> unchanged(`idTokenHash) && unchanged(`proof)
      ensures session.storage.sessionId == old(session.storage.sessionId)
      ensures old(Settled()) ==> unchanged(session.storage.cache)
      ensures var (body, store) := old(Reading(o));
              && Entries() == store
              && match body {
                 case Err(e) => r == Err(e)
                 case Ok(b) =>
                   var reg := FindRegistration(conf, b);
                   r.Ok? == reg.Ok? && (r.Err? ==> r.error == reg.error) && (r.Ok? ==> registration == Some(reg.value))
                 }
      ensures Recorded(old(proof), old(Now(o)))
      decreases Pending(), 2
    {
      hide Launch.Validate;
      hide Passed;
      var first :- GetJwtBody(o);
      if first.iss == "" { return Err(IssEmpty); }
      var second := GetJwtBody(o);
      var clientId :- ClientId(second.value);
      registration := Launch.Lookup(conf, first.iss, clientId);
      if registration.None? { return Err(RegistrationNotFound); }
      if clientId != registration.value.clientId { return Err(ClientIdMismatch); }
      return Ok(());
    }

    method ValidateDeployment(o: Oracle) returns (r: Result<(), Error>)
      requires Valid()
      modifies this`validated, this`jwtHeader, this`jwtBody, this`registration, this`idTokenHash, this`running
      modifies this`proof
      modifies session.storage`sessionId, session.storage.cache
      ensures Valid() && running == old(running)
      ensures session.storage.sessionId == old(session.storage.sessionId)
      ensures old(Settled()) ==> unchanged(this) && unchanged(session.storage.cache)
      ensures var (body, store) := old(Reading(o));
              Entries() == store && r == match body { case Err(e) => Err(e) case Ok(b) => CheckDeployment(conf, b) }
      ensures Recorded(old(proof), old(Now(o)))
      decreases Pending(), 2
    {
      hide Launch.Validate;
      hide Passed;
      var body :- GetJwtBody(o);
      if body.iss == "" { return Err(IssEmpty); }
      var clientId :- ClientId(body);
      if body.deploymentId == "" { return Err(DeploymentIdMissing); }
      var found := if conf.hasOneClient(body.iss) then conf.findDeployment(body.iss, body.deploymentId)
                   else conf.findDeploymentByParams(body.iss, body.deploymentId, clientId);
      return if found then Ok(()) else Err(DeploymentNotFound);
    }

    method ValidateMessage(o: Oracle) returns (r: Result<(), Error>)
      requires Valid()
      modifies this`validated, this`jwtHeader, this`jwtBody, this`registration, this`idTokenHash, this`running
      modifies this`proof
      modifies session.storage`sessionId, session.storage.cache
      ensures Valid() && running == old(running)
      ensures session.storage.sessionId == old(session.storage.sessionId)
      ensures old(Settled()) ==> unchanged(this) && unchanged(session.storage.cache)
      ensures var (body, store) := old(Reading(o));
              Entries() == store && r == match body { case Err(e) => Err(e) case Ok(b) => CheckMessage(o, b) }
      ensures Recorded(old(proof), old(Now(o)))
      decreases Pending(), 2
    {
      hide Launch.Validate;
      hide Passed;
      var body :- GetJwtBody(o);
      if body.messageType == "" { return Err(MessageTypeMissing); }
      var accepted := false;
      for i := 0 to |VALIDATORS|
        invariant RunValidators(o, body, VALIDATORS, false) == RunValidators(o, body, VALIDATORS[i..], accepted)
      {
        assert VALIDATORS[i..][0] == VALIDATORS[i] && VALIDATORS[i..][1..] == VALIDATORS[i + 1..];
        if body.messageType == VALIDATORS[i] {
          if accepted { return Err(ValidatorConflict); }
          accepted := true;
          if !o.accepts(VALIDATORS[i], body) { return Err(MessageInvalid); }
        }
      }
      return if accepted then Ok(()) else Err(MessageTypeUnknown);
    }

    method ValidateJwtSignature(o: Oracle) returns (r: Result<(), Error>)
      requires Valid()
      modifies this`registration, session.storage`sessionId, session.storage.cache
      ensures Valid() && session.storage.sessionId == old(session.storage.sessionId)
      ensures request.idToken != "" && old(registration.Some?) ==>
                var ks := KeySetFor(old(Ctx()), o, old(Entries()), old(registration).value);
                && Entries() == ks.1
                && r == if ks.0.Err? then Err(ks.0.error)
                     else CheckSignature(o, request.idToken, ks.0.value, HeaderOf(jwtHeader))
      ensures request.idToken == "" || old(registration.None?) ==>
                && unchanged(session.storage.cache)
                && r == if request.idToken == "" then Err(MissingIdToken) else Err(Crash)
    {
      hide Passed;
      if request.idToken == "" { return Err(MissingIdToken); }
      var key :- GetPublicKey(o);
      return if o.verify(request.idToken, key.0, key.1) then Ok(()) else Err(BadSignature);
    }

    method GetPublicKey(o: Oracle) returns (r: Result<(string, string), Error>)
      requires Valid()
      modifies this`registration, session.storage`sessionId, session.storage.cache
      ensures Valid() && session.storage.sessionId == old(session.storage.sessionId)
      ensures old(registration.Some?) ==>
                var ks := KeySetFor(old(Ctx()), o, old(Entries()), old(registration).value);
                && Entries() == ks.1
                && r == if ks.0.Err? then Err(ks.0.error) else SelectKey(o, ks.0.value, HeaderOf(jwtHeader))
      ensures old(registration.None?) ==> r == Err(Crash) && unchanged(session.storage.cache)
      ensures r.Ok? ==>
                var ks := KeySetFor(old(Ctx()), o, old(Entries()), old(registration).value).0;
                ks.Ok? && registration == Some(old(registration).value.(keySet := Some(ks.value)))
    {
      hide Passed;
      hide SelectKey;
      var keySet :- ObtainKeySet(o);
      r := PickKey(o, keySet, HeaderOf(jwtHeader));
    }

    /** The registration's own key set, or the one at its address, which the registration then keeps. */
    method ObtainKeySet(o: Oracle) returns (r: Result<KeySet, Error>)
      requires Valid()
      modifies this`registration, session.storage`sessionId, session.storage.cache
      ensures Valid() && session.storage.sessionId == old(session.storage.sessionId)
      ensures old(registration.None?) ==> r == Err(Crash) && unchanged(session.storage.cache)
      ensures old(registration.Some?) ==>
                (r, Entries()) == KeySetFor(old(Ctx()), o, old(Entries()), old(registration).value)
      ensures r.Ok? ==> registration == Some(old(registration).value.(keySet := Some(r.value)))
      ensures r.Err? ==> registration == old(registration)
    {
      hide Passed;
      if registration.None? { return Err(Crash); }
      if registration.value.keySet.Some? && registration.value.keySet.value != EmptyDoc {
        return Ok(registration.value.keySet.value);
      }
      if registration.value.keySetUrl.None? { return Err(Crash); }
      var url := registration.value.keySetUrl.value;
      if !IsHttpUrl(url) { return Err(InvalidUrl); }
      r := FetchPublicKey(if keyCaching then session.storage else null, crypto.md5, o.fetch, url);
      if r.Ok? {
        registration := Some(registration.value.(keySet := Some(r.value)));
      }
    }

    method SaveLaunchData() returns (r: Result<(), Error>)
      requires Valid()
      modifies this`idTokenHash, session.storage.cache
      ensures Valid()
      ensures request.idToken != "" && jwtBody.Some? && jwtBody.value.Object? ==>
                r == Ok(()) && Entries() == SaveLaunch(Ctx(), old(Entries()), jwtBody.value.value)
      ensures request.idToken == "" ==> r == Err(MissingIdToken)
      ensures request.idToken != "" && !(jwtBody.Some? && jwtBody.value.Object?) ==> r == Err(Crash)
      ensures r.Err? ==> unchanged(session.storage.cache)
    {
      hide Passed;
      if idTokenHash.None? {
        if request.idToken == "" { return Err(MissingIdToken); }
        idTokenHash := Some(crypto.md5(request.idToken));
      }
      if jwtBody.None? || !jwtBody.value.Object? { return Err(Crash); }
      session.SaveLaunchData(launchId, jwtBody.value.value);
      session.SetStateValid(request.state, idTokenHash.value);
      return Ok(());
    }
  }

  // ---- Any sequence of calls on one launch. ----

  datatype Call =
    | CallValidate | CallGetLaunchData
    | CallValidateState | CallValidateJwtFormat | CallValidateNonce | CallValidateRegistration
    | CallValidateJwtSignature | CallValidateDeployment | CallValidateMessage
    | CallSaveLaunchData | CallSetPublicKeyCaching

  /** What one call can do to the cache it finds. */
  ghost predicate Changes(m: Evidence, call: Call, after: Store) {
    match call
    case CallValidate => after == Launch.Validate(m.c, m.o, m.store).1
    case CallValidateJwtSignature => after == m.store || exists reg :: after == KeySetFor(m.c, m.o, m.store, reg).1
    case CallSaveLaunchData => after == m.store || exists body :: after == SaveLaunch(m.c, m.store, body)
    case CallValidateState => after == m.store
    case CallValidateJwtFormat => after == m.store
    case CallSetPublicKeyCaching => after == m.store
    case _ => after == m.store || after == Launch.Validate(m.c, m.o, m.store).1
  }

  /** Whether key sets are cached by the time of call `n`. */
  ghost predicate CachingBy(caching: bool, calls: seq<(Call, Oracle)>, n: nat)
    requires n <= |calls|
  {
    caching || exists j :: 0 <= j < n && calls[j].0 == CallSetPublicKeyCaching
  }

  /** What call `k` has to go by: the launch's context, this call's answers from outside, and the cache before it. */
  ghost function MomentAt(c: Context, calls: seq<(Call, Oracle)>, stores: seq<Store>, k: nat): Evidence
    requires k < |calls| && k < |stores|
  {
    Evidence(c.(caching := CachingBy(c.caching, calls, k)), calls[k].1, stores[k])
  }

  /** The caches before, between and after the first `n` calls: each is what a call made of the one before. */
  ghost predicate Timeline(c: Context, calls: seq<(Call, Oracle)>, stores: seq<Store>, n: nat)
    requires n <= |calls|
  {
    && |stores| == n + 1
    && forall k: nat :: k < n ==> Changes(MomentAt(c, calls, stores, k), calls[k].0, stores[k + 1])
  }

  /** At one of the calls up to `i` a chain ran, with what that call had to go by, and accepted the body. */
  ghost predicate PassedBy(c: Context, calls: seq<(Call, Oracle)>, stores: seq<Store>, i: nat, body: Body)
    requires i < |calls| && i + 1 < |stores|
  {
    exists k: nat :: k <= i && PassedWithin(MomentAt(c, calls, stores, k), body)
                     && LeftBy(MomentAt(c, calls, stores, k), stores[k + 1])
  }

  ghost predicate PassedWithin(m: Evidence, body: Body) {
    Passed(m.c, m.o, m.store, body)
  }

  /**
   Whatever calls are made on a launch that validates by itself, in any order and with any answers from outside,
   failed validations among them: every body its accessor hands out was accepted by a whole chain that ran at
   this or an earlier call, in the launch's session, with that call's answers, on the cache as it was then.
   */
  method CallAll(launch: MessageLaunch, calls: seq<(Call, Oracle)>)
    returns (answers: seq<Option<Body>>, ghost stores: seq<Store>)
    requires launch.Valid() && launch.autoValidation && launch.untouched && !launch.running && launch.proof == None
    modifies launch, launch.session.storage`sessionId, launch.session.storage.cache
    ensures |answers| == |calls| && Timeline(old(launch.Ctx()), calls, stores, |calls|)
    ensures stores[0] == old(launch.Entries()) && stores[|calls|] == launch.Entries()
    ensures forall i: nat :: i < |calls| && answers[i].Some? ==>
              PassedBy(old(launch.Ctx()), calls, stores, i, answers[i].value)
  {
    hide PassedWithin;
    hide Changes;
    hide LeftBy;
    ghost var c := launch.Ctx();
    answers, stores := [], [launch.Entries()];
    for i := 0 to |calls|
      invariant launch.Valid() && launch.autoValidation && launch.untouched && !launch.running
      invariant launch.Ctx() == c.(caching := CachingBy(c.caching, calls, i))
      invariant |answers| == i && Timeline(c, calls, stores, i)
      invariant stores[0] == old(launch.Entries()) && stores[i] == launch.Entries()
      invariant launch.proof.Some? ==>
                  exists k: nat :: k < i && launch.proof.value == MomentAt(c, calls, stores, k)
                                   && LeftBy(launch.proof.value, stores[k + 1])
      invariant forall k: nat :: k < i && answers[k].Some? ==> PassedBy(c, calls, stores, k, answers[k].value)
    {
      assert launch.Now(calls[i].1) == MomentAt(c, calls, stores, i);
      ghost var before := stores;
      var body := CallOne(launch, calls[i].0, calls[i].1);
      answers, stores := answers + [body], stores + [launch.Entries()];
      TimelineGrows(c, calls, before, launch.Entries(), i);
      CachingGrows(c.caching, calls, i);
      hide MomentAt;
      hide Timeline;
      hide CachingBy;
      if body.Some? {
        ghost var n: nat :| n <= i && launch.proof.value == MomentAt(c, calls, stores, n)
                            && LeftBy(launch.proof.value, stores[n + 1]);
        assert PassedWithin(MomentAt(c, calls, stores, n), body.value);
      }
    }
  }

  /** A launch as it is made, and any calls on it. */
  method MakeAndCall(crypto: Crypto, conf: ToolConf, cookies: map<string, string>, request: Request,
                     session: SessionService, launchId: string, calls: seq<(Call, Oracle)>)
    returns (answers: seq<Option<Body>>, ghost stores: seq<Store>)
    requires session.storage.sessionId.Some? ==> session.storage.sessionId.value != ""
    modifies session.storage`sessionId, session.storage.cache
    ensures var c := Context(crypto, conf, old(session.storage.sessionId), cookies, request, launchId, false);
            && |answers| == |calls| && Timeline(c, calls, stores, |calls|)
            && stores[0] == old(session.storage.cache.entries) && stores[|calls|] == session.storage.cache.entries
            && forall i: nat :: i < |calls| && answers[i].Some? ==> PassedBy(c, calls, stores, i, answers[i].value)
  {
    hide Timeline;
    hide PassedBy;
    hide Passed;
    var launch := new MessageLaunch(crypto, conf, cookies, request, session, launchId);
    answers, stores := CallAll(launch, calls);
  }

  lemma TimelineGrows(c: Context, calls: seq<(Call, Oracle)>, stores: seq<Store>, next: Store, n: nat)
    requires n < |calls| && Timeline(c, calls, stores, n) && Changes(MomentAt(c, calls, stores, n), calls[n].0, next)
    ensures Timeline(c, calls, stores + [next], n + 1)
    ensures forall k: nat :: k <= n ==> MomentAt(c, calls, stores + [next], k) == MomentAt(c, calls, stores, k)
    ensures forall k: nat, body: Body :: k < n && PassedBy(c, calls, stores, k, body) ==>
              PassedBy(c, calls, stores + [next], k, body)
  {
    hide Changes;
    hide PassedWithin;
    hide LeftBy;
    forall k: nat, body: Body | k < n && PassedBy(c, calls, stores, k, body)
      ensures PassedBy(c, calls, stores + [next], k, body)
    {
      var j: nat :| j <= k && PassedWithin(MomentAt(c, calls, stores, j), body)
                    && LeftBy(MomentAt(c, calls, stores, j), stores[j + 1]);
      assert PassedWithin(MomentAt(c, calls, stores + [next], j), body);
    }
  }

  lemma CachingGrows(caching: bool, calls: seq<(Call, Oracle)>, n: nat)
    requires n < |calls|
    ensures CachingBy(caching, calls, n + 1) <==> CachingBy(caching, calls, n) || calls[n].0 == CallSetPublicKeyCaching
  {
  }

  /** One call: what it does to the cache, and the certificate it leaves when it hands out a body. */
  method CallOne(launch: MessageLaunch, call: Call, o: Oracle) returns (body: Option<Body>)
    requires launch.Valid() && launch.autoValidation && launch.untouched && !launch.running
    modifies launch, launch.session.storage`sessionId, launch.session.storage.cache
    ensures launch.Valid() && launch.autoValidation && launch.untouched && !launch.running
    ensures launch.Ctx() == old(launch.Ctx()).(caching := old(launch.keyCaching) || call == CallSetPublicKeyCaching)
    ensures Changes(old(launch.Now(o)), call, launch.Entries())
    ensures launch.Recorded(old(launch.proof), old(launch.Now(o)))
    ensures body.Some? ==> launch.proof.Some? && PassedWithin(launch.proof.value, body.value)
    ensures body.Some? ==> call == CallGetLaunchData && Ok(body.value) == old(launch.Reading(o)).0
  {
    hide Passed;
    hide Launch.Validate;
    hide SaveLaunch;
    hide CheckState;
    hide CheckNonce;
    hide FindRegistration;
    hide CheckDeployment;
    hide CheckMessage;
    hide CheckSignature;
    hide Decode;
    hide KeySetFor;
    body := None;
    match call {
      case CallValidate => var _ := launch.Validate(o);
      case CallGetLaunchData =>
        var r := launch.GetLaunchData(o);
        if r.Ok? { body := Some(r.value); }
      case CallValidateState => var _ := launch.ValidateState();
      case CallValidateJwtFormat => var _ := launch.ValidateJwtFormat();
      case CallValidateNonce => var _ := launch.ValidateNonce(o);
      case CallValidateRegistration => var _ := launch.ValidateRegistration(o);
      case CallValidateJwtSignature => var _ := launch.ValidateJwtSignature(o);
      case CallValidateDeployment => var _ := launch.ValidateDeployment(o);
      case CallValidateMessage => var _ := launch.ValidateMessage(o);
      case CallSaveLaunchData => var _ := launch.SaveLaunchData();
      case CallSetPublicKeyCaching => launch.SetPublicKeyCaching();
    }
  }

  // ---- Restoring a launch. ----

  /** The session a launch request belongs to: over a secure scheme, the one its cookie names. */
  function LaunchSession(secure: bool, cookies: map<string, string>): Result<Option<string>, Error> {
    if !secure then Ok(None)
    else if SESSION_COOKIE in cookies && cookies[SESSION_COOKIE] != "" then Ok(Some(cookies[SESSION_COOKIE]))
    else Err(MissingCookie)
  }

  method OpenStorage(cache: FlatCache, secure: bool, cookies: map<string, string>)
    returns (r: Result<SessionService, Error>)
    ensures r.Ok? == LaunchSession(secure, cookies).Ok?
    ensures r.Err? ==> r.error == MissingCookie
    ensures r.Ok? ==>
              && fresh(r.value) && fresh(r.value.storage) && r.value.storage.cache == cache
              && r.value.storage.sessionId == LaunchSession(secure, cookies).value
  {
    var storage := new CacheDataStorage(cache);
    var name := storage.GetSessionCookieName(secure);
    if name.Some? {
      if name.value !in cookies || cookies[name.value] == "" { return Err(MissingCookie); }
      storage.SetSessionId(cookies[name.value]);
    }
    var session := new SessionService(storage);
    return Ok(session);
  }

  /** A stored value as the claims of a launch: a key set document may hold claims as well. */
  function AsLaunchData(value: Value): Result<Body, Error> {
    match value
    case Dict(body) => if body == EMPTY_BODY then Err(LaunchDataNotFound) else Ok(body)
    case Mark => Err(Crash)
    case Hash(s) => if s == "" then Err(LaunchDataNotFound) else Err(Crash)
    case Jwks(EmptyDoc) => Err(LaunchDataNotFound)
    case Jwks(NotDict) => Err(Crash)
    case Jwks(NoKeys(claims)) => Ok(claims)
    case Jwks(Keys(_, claims)) => Ok(claims)
  }

  /** The body restored from the record under an id; the registration is looked up again. */
  function Restore(conf: ToolConf, store: Store, sid: Option<string>, launchId: string): Result<Body, Error> {
    match Read(store, sid, RecordKey(launchId))
    case None => Err(LaunchDataNotFound)
    case Some(value) =>
      var body :- AsLaunchData(value);
      var _ :- FindRegistration(conf, body);
      Ok(body)
  }

  /** Before a token has been decoded there are neither claims nor a key id to go by. */
  lemma NothingDecodedYet(o: Oracle, keySet: KeySet, store: Store, sid: Option<string>)
    ensures AsBody(None) == Ok(Body("", NoAudience, "", "", "", map[])) && AsBody(Some(NotObject)) == Err(Crash)
    ensures CheckNonce(sid, store, AsBody(None).value) == Err(NonceEmpty)
    ensures SelectKey(o, keySet, HeaderOf(None)) == Err(KidNotFound)
  {
  }

  /** Over a secure scheme a launch belongs to the session its cookie names, or is refused; otherwise to none. */
  lemma LaunchSessionIs(secure: bool, cookies: map<string, string>)
    ensures !secure ==> LaunchSession(secure, cookies) == Ok(None)
    ensures secure && "session-id" in cookies && cookies["session-id"] != "" ==>
              LaunchSession(secure, cookies) == Ok(Some(cookies["session-id"]))
    ensures secure && ("session-id" !in cookies || cookies["session-id"] == "") ==>
              LaunchSession(secure, cookies) == Err(MissingCookie)
  {
  }

  /** The value holds these claims: it is a dictionary that is not empty, or a key set document that is one. */
  ghost predicate HoldsClaims(value: Value, body: Body) {
    || (value == Dict(body) && body != EMPTY_BODY)
    || value == Jwks(NoKeys(body))
    || (value.Jwks? && value.keySet.Keys? && value.keySet.claims == body)
  }

  /**
   Restoring succeeds exactly with the claims under the id, when the registration of their issuer and client is known.
   */
  lemma RestoresIff(conf: ToolConf, store: Store, sid: Option<string>, launchId: string, body: Body)
    ensures var key := PrepareKey(sid, launchId);
            && (Restore(conf, store, sid, launchId) == Ok(body) <==>
                  && key in store && HoldsClaims(store[key], body)
                  && exists reg: Registration :: AudienceIs(body.aud, reg.clientId)
                       && RegistrationIs(conf, body.iss, reg.clientId, reg))
            && (key !in store || store[key] == Dict(EMPTY_BODY) || store[key] == Hash("")
                 || store[key] == Jwks(EmptyDoc) ==>
                  Restore(conf, store, sid, launchId) == Err(LaunchDataNotFound))
  {
    KeysAreSpelled("", launchId);
    hide PrepareKey;
    hide RecordKey;
    if FindRegistration(conf, body).Ok? {
      ClaimsResolveIff(conf, body, FindRegistration(conf, body).value);
    }
    if reg: Registration :| AudienceIs(body.aud, reg.clientId) && RegistrationIs(conf, body.iss, reg.clientId, reg) {
      ClaimsResolveIff(conf, body, reg);
    }
    hide FindRegistration;
    hide RegistrationIs;
  }

  /** A launch rebuilt from its record; it never validates, and hands out the recorded body. */
  method FromCache(launchId: string, crypto: Crypto, conf: ToolConf, cookies: map<string, string>, request: Request,
                   session: SessionService, o: Oracle) returns (r: Result<MessageLaunch, Error>)
    requires session.storage.sessionId.Some? ==> session.storage.sessionId.value != ""
    modifies session.storage`sessionId, session.storage.cache
    ensures session.storage.sessionId == old(session.storage.sessionId)
    ensures unchanged(session.storage.cache)
    ensures var restore := Restore(conf, session.storage.cache.entries, session.storage.sessionId, launchId);
            && r.Ok? == restore.Ok?
            && (r.Err? ==> r.error == restore.error)
            && (r.Ok? ==>
                  && fresh(r.value) && r.value.Valid() && r.value.restored && !r.value.autoValidation
                       && r.value.session == session
                  && r.value.launchId == launchId && r.value.jwtBody == Some(Object(restore.value))
                       && r.value.registration.Some?
                  && FindRegistration(conf, restore.value) == Ok(r.value.registration.value))
  {
    hide Passed;
    hide FindRegistration;
    var data := session.GetLaunchData(launchId);
    if data.None? { return Err(LaunchDataNotFound); }
    var body :- AsLaunchData(data.value);
    r := Rebuild(launchId, body, crypto, conf, cookies, request, session, o);
  }

  method Rebuild(launchId: string, body: Body, crypto: Crypto, conf: ToolConf, cookies: map<string, string>,
      request: Request,
                 session: SessionService, o: Oracle) returns (r: Result<MessageLaunch, Error>)
    requires session.storage.sessionId.Some? ==> session.storage.sessionId.value != ""
    modifies session.storage`sessionId, session.storage.cache
    ensures session.storage.sessionId == old(session.storage.sessionId)
    ensures unchanged(session.storage.cache)
    ensures var reg := FindRegistration(conf, body);
            && r.Ok? == reg.Ok?
            && (r.Err? ==> r.error == reg.error)
            && (r.Ok? ==>
                  && fresh(r.value) && r.value.Valid() && r.value.restored && !r.value.autoValidation
                       && r.value.session == session
                  && r.value.launchId == launchId && r.value.jwtBody == Some(Object(body))
                       && r.value.registration == Some(reg.value))
  {
    hide Launch.Validate;
    hide LeftBy;
    hide Passed;
    hide FindRegistration;
    var obj := new MessageLaunch(crypto, conf, cookies, request, session, "");
    obj.SetLaunchId(launchId);
    obj.SetAutoValidation(false);
    obj.SetJwt(body);
    obj.SetRestored();
    var _ :- obj.ValidateRegistration(o);
    return Ok(obj);
  }

  /** The first key of a set that fits the token's header. */
  method PickKey(o: Oracle, keySet: KeySet, header: Json<Header>) returns (r: Result<(string, string), Error>)
    ensures r == SelectKey(o, keySet, header)
  {
    if !header.Object? { return Err(Crash); }
    if header.value.kid == "" { return Err(KidNotFound); }
    if header.value.alg == "" { return Err(AlgNotFound); }
    if !keySet.Keys? { return Err(Crash); }
    var kid, alg := header.value.kid, header.value.alg;
    for i := 0 to |keySet.keys|
      invariant FindKey(o, keySet.keys, kid, alg) == FindKey(o, keySet.keys[i..], kid, alg)
    {
      assert keySet.keys[i..][0] == keySet.keys[i] && keySet.keys[i..][1..] == keySet.keys[i + 1..];
      if Fits(keySet.keys[i], kid, alg) {
        var pem := o.toPem(keySet.keys[i]);
        return if pem.None? then Err(KeyNotConvertible) else Ok((pem.value, alg));
      }
    }
    return Err(KeyNotFound);
  }

  // ---- Key sets, fetched outside every session. ----

  /**
   Fetches a key set through a storage from which the session id is taken away for the time being. On
   every path, errors included, the storage afterwards builds the same keys as before.
   */
  method FetchPublicKey(keyStorage: CacheDataStorage?, md5: string -> string, fetch: string -> FetchReply, url: string)
    returns (r: Result<KeySet, Error>)
    modifies (if keyStorage != null then {keyStorage} else {})`sessionId
    modifies if keyStorage != null then {keyStorage.cache} else {}
    ensures keyStorage != null ==>
              && (r, keyStorage.cache.entries) == FetchKeys(md5, fetch, true, old(keyStorage.cache.entries), url)
              && (forall key :: PrepareKey(keyStorage.sessionId, key) == PrepareKey(old(keyStorage.sessionId), key))
              && (Truthy(old(keyStorage.sessionId)) || old(keyStorage.sessionId).None? ==>
                   keyStorage.sessionId == old(keyStorage.sessionId))
    ensures keyStorage == null ==> r == FetchKeys(md5, fetch, false, map[], url).0
  {
    var saved := None;
    if keyStorage != null {
      saved := keyStorage.sessionId;
      keyStorage.RemoveSessionId();
    }
    r := FetchWithoutSession(keyStorage, md5, fetch, url);
    if keyStorage != null && Truthy(saved) {
      keyStorage.SetSessionId(saved.value);
    }
  }

  method FetchWithoutSession(keyStorage: CacheDataStorage?, md5: string -> string, fetch: string -> FetchReply,
      url: string)
    returns (r: Result<KeySet, Error>)
    requires keyStorage != null ==> keyStorage.sessionId == None
    modifies if keyStorage != null then {keyStorage.cache} else {}
    ensures keyStorage != null ==>
              (r, keyStorage.cache.entries) == FetchKeys(md5, fetch, true, old(keyStorage.cache.entries), url)
    ensures keyStorage == null ==> r == FetchKeys(md5, fetch, false, map[], url).0
  {
    if keyStorage != null {
      var cached := keyStorage.GetValue(KeySetKey(md5(url)));
      if cached.Some? && cached.value != Jwks(EmptyDoc) {
        return if cached.value.Jwks? then Ok(cached.value.keySet) else Err(Crash);
      }
    }
    match fetch(url)
    case NetworkError => return Err(FetchFailed);
    case NotJson => return Err(InvalidKeyResponse);
    case Served(keySet) =>
      if keyStorage != null { keyStorage.SetValue(KeySetKey(md5(url)), Jwks(keySet)); }
      return Ok(keySet);
  }
}
