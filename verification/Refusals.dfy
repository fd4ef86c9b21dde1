/**
 Why a launch is refused: the first of its conditions that fails gives the error. Each result names the inputs of
 the step that fails, and takes the steps before it to hold.
 */
module Refusals {
  import opened Wrappers
  import opened LtiData
  import opened Storage
  import opened Launch
  import Jwt
  import Text

  /** Answers with an error and leaves the cache as it was. */
  ghost predicate Refuses(c: Context, o: Oracle, store: Store, e: Error) {
    Validate(c, o, store) == (Err(e), store)
  }

  ghost predicate StateIsKnown(c: Context, store: Store) {
    && c.request.state != "" && c.request.idToken != ""
    && (MarkerFound(c, store) || (c.request.state in c.cookies && c.cookies[c.request.state] == c.request.state))
  }

  ghost predicate NonceIsKnown(c: Context, store: Store, body: Body) {
    body.nonce != "" && Read(store, c.sid, NonceKey(body.nonce)).Some?
  }

  /** Without a state, then without a token, then with a state that has neither its marker nor its cookie. */
  lemma UnknownStates(c: Context, o: Oracle, store: Store)
    ensures c.request.state == "" ==> Refuses(c, o, store, MissingState)
    ensures c.request.state != "" && c.request.idToken == "" ==> Refuses(c, o, store, MissingIdToken)
    ensures c.request.state != "" && c.request.idToken != "" && !StateIsKnown(c, store) ==>
              Refuses(c, o, store, StateNotFound)
  {
  }

  /** A token that does not have exactly two full stops, then one whose parts do not decode to JSON. */
  lemma MalformedTokens(c: Context, o: Oracle, store: Store)
    requires StateIsKnown(c, store)
    ensures Text.Count(c.request.idToken, '.') != 2 ==> Refuses(c, o, store, NotThreeParts)
    ensures Text.Count(c.request.idToken, '.') == 2 && Undecoded(c.crypto, c.request.idToken) ==>
              Refuses(c, o, store, Undecodable)
  {
    Jwt.PartsIffTwoStops(c.request.idToken);
    hide MarkerFound;
    hide Jwt.UrlsafeB64Decode;
    hide Jwt.Parts;
  }

  /** A token whose payload is JSON but no object cannot be asked for a nonce. */
  lemma PayloadsThatAreNoObjects(c: Context, o: Oracle, store: Store)
    requires StateIsKnown(c, store) && Jwt.Parts(c.request.idToken).Some? && !Undecoded(c.crypto, c.request.idToken)
    requires var parts := Jwt.Parts(c.request.idToken).value;
             c.crypto.parseBody(Jwt.UrlsafeB64Decode(parts.1).value) == NotObject
    ensures Refuses(c, o, store, Crash)
  {
    hide MarkerFound;
    hide Jwt.UrlsafeB64Decode;
    hide Jwt.Parts;
  }

  ghost predicate Undecoded(crypto: Crypto, idToken: string) {
    && Jwt.Parts(idToken).Some?
    && var header := Jwt.UrlsafeB64Decode(Jwt.Parts(idToken).value.0);
    && var body := Jwt.UrlsafeB64Decode(Jwt.Parts(idToken).value.1);
    || header == None || crypto.parseHeader(header.value) == Malformed
    || body == None || crypto.parseBody(body.value) == Malformed
  }

  /** A token without a nonce, then with one that is not in the session. */
  lemma UnknownNonces(c: Context, o: Oracle, store: Store, header: Header, body: Body)
    requires StateIsKnown(c, store) && DecodesTo(c.crypto, c.request.idToken, header, body)
    ensures body.nonce == "" ==> Refuses(c, o, store, NonceEmpty)
    ensures body.nonce != "" && !NonceIsKnown(c, store, body) ==> Refuses(c, o, store, InvalidNonce)
  {
    DecodeIff(c.crypto, c.request.idToken, header, body);
    hide Decode;
    hide DecodesTo;
    hide MarkerFound;
  }

  /** A token without an issuer, then with an empty list of clients, then of a client unknown or of another client. */
  lemma UnknownRegistrations(c: Context, o: Oracle, store: Store, header: Header, body: Body, client: Option<string>)
    requires StateIsKnown(c, store) && DecodesTo(c.crypto, c.request.idToken, header, body)
    requires NonceIsKnown(c, store, body)
    ensures body.iss == "" ==> Refuses(c, o, store, IssEmpty)
    ensures body.iss != "" && body.aud == Many([]) ==> Refuses(c, o, store, Crash)
    ensures body.iss != "" && AudienceIs(body.aud, client) ==>
              var found := if c.conf.hasOneClient(body.iss) then c.conf.findByIssuer(body.iss)
                           else c.conf.findByParams(body.iss, client);
              && (found == None ==> Refuses(c, o, store, RegistrationNotFound))
              && (found.Some? && found.value.clientId != client ==> Refuses(c, o, store, ClientIdMismatch))
  {
    DecodeIff(c.crypto, c.request.idToken, header, body);
    hide Decode;
    hide DecodesTo;
    hide MarkerFound;
  }

  /** The conditions up to the registration hold, with this client and registration. */
  ghost predicate Registered(c: Context, store: Store, header: Header, body: Body, reg: Registration) {
    && StateIsKnown(c, store) && DecodesTo(c.crypto, c.request.idToken, header, body) && NonceIsKnown(c, store, body)
    && AudienceIs(body.aud, reg.clientId) && RegistrationIs(c.conf, body.iss, reg.clientId, reg)
  }

  lemma RegisteredPasses(c: Context, store: Store, header: Header, body: Body, reg: Registration)
    requires Registered(c, store, header, body, reg)
    ensures BeforeSignature(c, store) == Ok((Object(header), body, reg))
  {
    DecodeIff(c.crypto, c.request.idToken, header, body);
    ClaimsResolveIff(c.conf, body, reg);
    BeforeSignatureIff(c, store, Object(header), body, reg);
    hide Decode;
    hide DecodesTo;
    hide MarkerFound;
    hide FindRegistration;
    hide RegistrationIs;
  }

  /**
   A registration without keys that are its own, whose address is missing, not of HTTP, or does not serve a key set.
   */
  lemma UnobtainableKeys(c: Context, o: Oracle, store: Store, header: Header, body: Body, reg: Registration)
    requires Registered(c, store, header, body, reg) && (reg.keySet == None || reg.keySet == Some(EmptyDoc))
    ensures reg.keySetUrl == None ==> Refuses(c, o, store, Crash)
    ensures reg.keySetUrl.Some? && !("http://" <= reg.keySetUrl.value) && !("https://" <= reg.keySetUrl.value) ==>
              Refuses(c, o, store, InvalidUrl)
    ensures reg.keySetUrl.Some? && ("http://" <= reg.keySetUrl.value || "https://" <= reg.keySetUrl.value) ==>
              forall cached :: CachedIs(c, store, reg.keySetUrl.value, cached) ==>
                if cached == None || cached == Some(Jwks(EmptyDoc)) then
                  && (o.fetch(reg.keySetUrl.value) == NetworkError ==> Refuses(c, o, store, FetchFailed))
                  && (o.fetch(reg.keySetUrl.value) == NotJson ==> Refuses(c, o, store, InvalidKeyResponse))
                else !cached.value.Jwks? ==> Refuses(c, o, store, Crash)
  {
    RegisteredPasses(c, store, header, body, reg);
    hide BeforeSignature;
    hide Registered;
    hide PrepareKey;
  }

  /**
   A token without a key id or an algorithm, then one whose key is not in the set, cannot be converted or does not
   verify it.
   */
  lemma UnverifiedTokens(c: Context, o: Oracle, store: Store, header: Header, body: Body, reg: Registration,
      keys: seq<Jwk>)
    requires Registered(c, store, header, body, reg) && KeysOf(c, o, store, reg, keys)
    ensures var answer := Validate(c, o, store).0;
            && (header.kid == "" ==> answer == Err(KidNotFound))
            && (header.kid != "" && header.alg == "" ==> answer == Err(AlgNotFound))
            && (header.kid != "" && header.alg != "" ==>
                  && ((forall j :: 0 <= j < |keys| ==> !KeyIs(keys[j], header.kid, header.alg)) ==>
                       answer == Err(KeyNotFound))
                  && (forall i :: FirstKeyIs(keys, header, i) ==>
                        && (o.toPem(keys[i]) == None ==> answer == Err(KeyNotConvertible))
                        && (o.toPem(keys[i]).Some?
                             && !o.verify(c.request.idToken, o.toPem(keys[i]).value, header.alg) ==>
                              answer == Err(BadSignature))))
  {
    RegisteredPasses(c, store, header, body, reg);
    var claims :| KeySetIs(c, o, store, reg, Keys(keys, claims));
    KeySetForIs(c, o, store, reg, Keys(keys, claims));
    if header.kid != "" { KeyFoundIsFirst(o, keys, header); }
    hide BeforeSignature;
    hide Registered;
    hide KeySetFor;
    hide KeySetIs;
    hide FindKey;
  }

  /** A key set document without a list of keys, in which no key can be looked up. */
  lemma KeySetsWithoutKeys(c: Context, o: Oracle, store: Store, header: Header, body: Body, reg: Registration,
      keySet: KeySet)
    requires Registered(c, store, header, body, reg) && KeySetIs(c, o, store, reg, keySet) && !keySet.Keys?
    requires header.kid != "" && header.alg != ""
    ensures Validate(c, o, store).0 == Err(Crash)
  {
    RegisteredPasses(c, store, header, body, reg);
    KeySetForIs(c, o, store, reg, keySet);
    hide BeforeSignature;
    hide Registered;
    hide KeySetFor;
    hide KeySetIs;
  }

  /** A header that is JSON but no object cannot be asked for a key id, once a key set has been obtained. */
  lemma HeadersThatAreNoObjects(c: Context, o: Oracle, store: Store, body: Body, reg: Registration, keySet: KeySet)
    requires StateIsKnown(c, store) && Jwt.Parts(c.request.idToken).Some? && !Undecoded(c.crypto, c.request.idToken)
    requires var parts := Jwt.Parts(c.request.idToken).value;
             && c.crypto.parseHeader(Jwt.UrlsafeB64Decode(parts.0).value) == NotObject
             && c.crypto.parseBody(Jwt.UrlsafeB64Decode(parts.1).value) == Object(body)
    requires NonceIsKnown(c, store, body) && AudienceIs(body.aud, reg.clientId)
    requires RegistrationIs(c.conf, body.iss, reg.clientId, reg) && KeySetIs(c, o, store, reg, keySet)
    ensures Validate(c, o, store).0 == Err(Crash)
  {
    ClaimsResolveIff(c.conf, body, reg);
    KeySetForIs(c, o, store, reg, keySet);
    assert Decode(c.crypto, c.request.idToken) == Ok((NotObject, Object(body))) by {
      hide Jwt.UrlsafeB64Decode;
      hide Jwt.Parts;
    }
    hide Decode;
    hide Undecoded;
    hide FindRegistration;
    hide RegistrationIs;
    hide KeySetFor;
    hide KeySetIs;
    hide MarkerFound;
    BeforeSignatureIff(c, store, NotObject, body, reg);
    hide BeforeSignature;
  }

  /** The first key of the set with the header's id and algorithm. */
  ghost predicate FirstKeyIs(keys: seq<Jwk>, header: Header, i: int) {
    && 0 <= i < |keys| && KeyIs(keys[i], header.kid, header.alg)
    && forall j :: 0 <= j < i ==> !KeyIs(keys[j], header.kid, header.alg)
  }

  lemma {:induction false} KeyFoundIsFirst(o: Oracle, keys: seq<Jwk>, header: Header)
    requires header.kid != ""
    ensures (forall j :: 0 <= j < |keys| ==> !KeyIs(keys[j], header.kid, header.alg)) ==>
              FindKey(o, keys, header.kid, header.alg) == Err(KeyNotFound)
    ensures forall i :: FirstKeyIs(keys, header, i) ==>
              FindKey(o, keys, header.kid, header.alg) ==
              match o.toPem(keys[i]) case None => Err(KeyNotConvertible) case Some(pem) => Ok((pem, header.alg))
  {
    if keys != [] {
      var rest := keys[1..];
      KeyFoundIsFirst(o, rest, header);
      if !KeyIs(keys[0], header.kid, header.alg) {
        assert forall j :: 0 < j < |keys| ==> keys[j] == rest[j - 1];
        forall i | FirstKeyIs(keys, header, i) ensures FirstKeyIs(rest, header, i - 1) {}
      }
    }
  }

  /** Without a deployment id, and with a deployment that the configuration does not know for issuer and client. */
  lemma UnknownDeployments(c: Context, o: Oracle, store: Store, header: Header, body: Body, reg: Registration)
    requires Registered(c, store, header, body, reg) && Verified(c, o, store, header, reg)
    ensures body.deploymentId == "" ==> Validate(c, o, store).0 == Err(DeploymentIdMissing)
    ensures body.deploymentId != "" ==>
              var known := if c.conf.hasOneClient(body.iss) then c.conf.findDeployment(body.iss, body.deploymentId)
                           else c.conf.findDeploymentByParams(body.iss, body.deploymentId, reg.clientId);
              !known ==> Validate(c, o, store).0 == Err(DeploymentNotFound)
  {
    VerifiedPasses(c, o, store, header, body, reg);
    hide BeforeSignature;
    hide CheckSignature;
    hide KeySetFor;
  }

  /** Without a type, of a type there is no validator for, and of one whose validator does not accept the message. */
  lemma UnknownMessages(c: Context, o: Oracle, store: Store, header: Header, body: Body, reg: Registration)
    requires Registered(c, store, header, body, reg) && Verified(c, o, store, header, reg)
    requires DeploymentIs(c.conf, body.iss, body.deploymentId, reg.clientId)
    ensures var answer := Validate(c, o, store).0;
            var types := {"LtiDeepLinkingRequest", "LtiResourceLinkRequest", "DataPrivacyLaunchRequest",
                          "LtiSubmissionReviewRequest"};
            && (body.messageType == "" ==> answer == Err(MessageTypeMissing))
            && (body.messageType != "" && body.messageType !in types ==> answer == Err(MessageTypeUnknown))
            && (body.messageType in types && !o.accepts(body.messageType, body) ==> answer == Err(MessageInvalid))
  {
    VerifiedPasses(c, o, store, header, body, reg);
    ClaimsResolveIff(c.conf, body, reg);
    MessagesRefused(o, body);
    hide BeforeSignature;
    hide CheckSignature;
    hide KeySetFor;
    hide CheckDeployment;
    hide CheckMessage;
    hide FindRegistration;
  }

  lemma VerifiedPasses(c: Context, o: Oracle, store: Store, header: Header, body: Body, reg: Registration)
    requires Registered(c, store, header, body, reg) && Verified(c, o, store, header, reg)
    ensures BeforeSignature(c, store) == Ok((Object(header), body, reg)) && FindRegistration(c.conf, body) == Ok(reg)
    ensures var keySet := KeySetFor(c, o, store, reg).0;
            keySet.Ok? && CheckSignature(o, c.request.idToken, keySet.value, Object(header)) == Ok(())
  {
    RegisteredPasses(c, store, header, body, reg);
    ClaimsResolveIff(c.conf, body, reg);
    hide Registered;
    hide BeforeSignature;
    var keys, i :| KeysOf(c, o, store, reg, keys) && VerifiedBy(o, c.request.idToken, keys, header, i);
    var claims :| KeySetIs(c, o, store, reg, Keys(keys, claims));
    KeySetForIs(c, o, store, reg, Keys(keys, claims));
    SignatureIff(o, c.request.idToken, Keys(keys, claims), header);
    hide KeySetFor;
    hide KeySetIs;
    hide FindRegistration;
    hide RegistrationIs;
  }

  lemma MessagesRefused(o: Oracle, body: Body)
    ensures var answer := CheckMessage(o, body);
            var types := {"LtiDeepLinkingRequest", "LtiResourceLinkRequest", "DataPrivacyLaunchRequest",
                          "LtiSubmissionReviewRequest"};
            && (body.messageType == "" ==> answer == Err(MessageTypeMissing))
            && (body.messageType != "" && body.messageType !in types ==> answer == Err(MessageTypeUnknown))
            && (body.messageType in types && !o.accepts(body.messageType, body) ==> answer == Err(MessageInvalid))
  {
    hide RunValidators;
    var t := body.messageType;
    if t in VALIDATORS {
      var i :| 0 <= i < |VALIDATORS| && t == VALIDATORS[i];
      if !o.accepts(t, body) { FirstValidatorRefuses(o, body, VALIDATORS, i); }
    } else {
      NoValidatorRecognises(o, body, VALIDATORS);
    }
    assert forall type_ :: type_ in VALIDATORS <==> type_ == VALIDATORS[0] || type_ == VALIDATORS[1]
                                                    || type_ == VALIDATORS[2] || type_ == VALIDATORS[3];
  }

  lemma {:induction false} NoValidatorRecognises(o: Oracle, body: Body, validators: seq<string>)
    requires body.messageType !in validators
    ensures RunValidators(o, body, validators, false) == Ok(false)
  {
    if validators != [] { NoValidatorRecognises(o, body, validators[1..]); }
  }

  lemma {:induction false} FirstValidatorRefuses(o: Oracle, body: Body, validators: seq<string>, i: nat)
    requires i < |validators| && body.messageType == validators[i] && !o.accepts(validators[i], body)
    ensures RunValidators(o, body, validators, false) == Err(MessageInvalid)
  {
    if body.messageType != validators[0] { FirstValidatorRefuses(o, body, validators[1..], i - 1); }
  }
}
