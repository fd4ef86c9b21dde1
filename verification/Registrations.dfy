/**
 Dynamic registration: the handshake that records a platform, the store it is recorded in, and the
 tool configuration that later launches resolve issuers, clients and deployments against.
 */
module Registrations {
  import opened Wrappers

  // ---- Documents. The empty string stands for an absent or empty field. ----

  datatype PlatformDoc = PlatformDoc(
    issuer: string, authorizationEndpoint: string, tokenEndpoint: string, jwksUri: string,
    registrationEndpoint: string, authorizationServer: string)

  /** A client id as it occurs in the platform's JSON reply. */
  datatype JsonId = Missing | Text(s: string) | Number(n: int)

  datatype RegistrationDoc = RegistrationDoc(clientId: JsonId, deploymentId: string)

  /** What an HTTP exchange comes to. */
  datatype Reply<D> = TimedOut | RequestFailed | Rejected | NotJson | Document(doc: D)

  datatype ToolRegistration = ToolRegistration(
    issuer: string, clientId: string, authLoginUrl: string, authTokenUrl: string, keySetUrl: string,
    authAudience: string, deploymentIds: seq<string>)

  datatype Error = ExternalRequestError | LtiException

  function Digits(n: nat): string {
    (if n < 10 then "" else Digits(n / 10)) + [(n % 10 + '0' as int) as char]
  }

  /** Python's `str` of a client id. */
  function IdText(id: JsonId): string {
    match id
    case Missing => ""
    case Text(s) => s
    case Number(n) => if n < 0 then "-" + Digits(-n) else Digits(n)
  }

  predicate Truthy(id: JsonId) {
    match id case Missing => false case Text(s) => s != "" case Number(n) => n != 0
  }

  predicate CompletePlatform(d: PlatformDoc) {
    d.issuer != "" && d.authorizationEndpoint != "" && d.tokenEndpoint != "" && d.jwksUri != ""
      && d.registrationEndpoint != ""
  }

  // ---- The store. ----

  type Key = (string, string)

  /** A dictionary remembers the order in which its keys were first inserted. */
  class InMemoryRegistrationStore {
    var byKey: map<Key, ToolRegistration>
    var order: seq<Key>

    ghost predicate Valid()
      reads this
    {
      && (forall i, j :: 0 <= i < j < |order| ==> order[i] != order[j])
      && (forall k :: k in order <==> k in byKey)
      && (forall k :: k in byKey ==> byKey[k].issuer == k.0 && byKey[k].clientId == k.1)
    }

    /** The store holds what saving `history` in order leaves behind. */
    ghost predicate Holds(history: seq<ToolRegistration>)
      reads this
    {
      && Valid()
      && order == KeysInOrder(history)
      && (forall k :: k in byKey ==> Latest(history, k.0, k.1) == Some(byKey[k]))
    }

    constructor ()
      ensures Holds([])
    {
      byKey, order := map[], [];
    }

    method Save(r: ToolRegistration, ghost history: seq<ToolRegistration>)
      requires Holds(history)
      modifies this
      ensures Holds(history + [r])
    {
      var k := (r.issuer, r.clientId);
      KeysAfterSave(history, r);
      forall key: Key { LatestAfterSave(history, r, key); }
      hide Latest;
      hide KeysInOrder;
      if k !in byKey { order := order + [k]; }
      byKey := byKey[k := r];
    }

    method Get(issuer: string, clientId: string, ghost history: seq<ToolRegistration>)
      returns (r: Option<ToolRegistration>)
      requires Holds(history)
      ensures r == Latest(history, issuer, clientId)
    {
      var k := (issuer, clientId);
      KeysAreThoseSaved(history, k);
      return if k in byKey then Some(byKey[k]) else None;
    }

    method FindByIssuer(issuer: string, ghost history: seq<ToolRegistration>) returns (found: seq<ToolRegistration>)
      requires Holds(history)
      ensures found == OfIssuer(KeysInOrder(history), history, issuer)
    {
      found := [];
      for i := 0 to |order|
        invariant found == OfIssuer(order[..i], history, issuer)
      {
        assert order[..i + 1][..i] == order[..i];
        assert order[i] in order;
        if order[i].0 == issuer { found := found + [byKey[order[i]]]; }
      }
      assert order[..|order|] == order;
    }
  }

  // ---- What a history of successful registrations means. ----

  /** The latest registration saved for an issuer and client. */
  function Latest(history: seq<ToolRegistration>, issuer: string, clientId: string): Option<ToolRegistration> {
    if history == [] then None
    else
      var r := history[|history| - 1];
      if r.issuer == issuer && r.clientId == clientId then Some(r)
      else Latest(history[..|history| - 1], issuer, clientId)
  }

  /** The distinct keys of a history, each where it first occurs. */
  function KeysInOrder(history: seq<ToolRegistration>): seq<Key> {
    if history == [] then []
    else
      var before, r := KeysInOrder(history[..|history| - 1]), history[|history| - 1];
      if (r.issuer, r.clientId) in before then before else before + [(r.issuer, r.clientId)]
  }

  function OfIssuer(keys: seq<Key>, history: seq<ToolRegistration>, issuer: string): seq<ToolRegistration> {
    if keys == [] then []
    else
      var k := keys[|keys| - 1];
      var latest := Latest(history, k.0, k.1);
      OfIssuer(keys[..|keys| - 1], history, issuer) + (if k.0 == issuer && latest.Some? then [latest.value] else [])
  }

  /** The client an issuer was first registered with. */
  function FirstClient(history: seq<ToolRegistration>, issuer: string): Option<string> {
    if history == [] then None
    else if history[0].issuer == issuer then Some(history[0].clientId)
    else FirstClient(history[1..], issuer)
  }

  /** The registration a launch resolves to: its client's latest, or that of the issuer's first client. */
  function Resolved(history: seq<ToolRegistration>, issuer: string, clientId: string): Option<ToolRegistration> {
    if clientId != "" then Latest(history, issuer, clientId)
    else
      match FirstClient(history, issuer)
      case None => None
      case Some(first) => Latest(history, issuer, first)
  }

  lemma KeysAfterSave(history: seq<ToolRegistration>, r: ToolRegistration)
    ensures var k := (r.issuer, r.clientId);
            KeysInOrder(history + [r]) == if k in KeysInOrder(history) then KeysInOrder(history)
              else KeysInOrder(history) + [k]
  {
    assert (history + [r])[..|history + [r]| - 1] == history;
  }

  lemma LatestAfterSave(history: seq<ToolRegistration>, r: ToolRegistration, k: Key)
    ensures Latest(history + [r], k.0, k.1) == if k == (r.issuer, r.clientId) then Some(r)
              else Latest(history, k.0, k.1)
  {
    assert (history + [r])[..|history + [r]| - 1] == history;
  }

  lemma {:induction false} KeysAreThoseSaved(history: seq<ToolRegistration>, k: Key)
    ensures k in KeysInOrder(history) <==> Latest(history, k.0, k.1).Some?
  {
    if history != [] {
      KeysAreThoseSaved(history[..|history| - 1], k);
    }
  }

  lemma {:induction false} FirstClientAfterSave(history: seq<ToolRegistration>, r: ToolRegistration, issuer: string)
    ensures FirstClient(history + [r], issuer) ==
            if FirstClient(history, issuer).Some? then FirstClient(history, issuer)
            else if r.issuer == issuer then Some(r.clientId) else None
  {
    if history == [] {
      assert ([] + [r])[1..] == [];
    } else {
      FirstClientAfterSave(history[1..], r, issuer);
      assert (history + [r])[1..] == history[1..] + [r];
    }
  }

  /** The first of the issuer's keys is that of the client it was first registered with. */
  lemma {:induction false} FirstKeyIsFirstClient(history: seq<ToolRegistration>, issuer: string)
    ensures match FirstClient(history, issuer)
            case None => forall k :: k in KeysInOrder(history) ==> k.0 != issuer
            case Some(first) => FirstOf(KeysInOrder(history), issuer, first)
  {
    if history != [] {
      var before, r := history[..|history| - 1], history[|history| - 1];
      assert history == before + [r];
      FirstKeyIsFirstClient(before, issuer);
      FirstClientAfterSave(before, r, issuer);
      if FirstClient(before, issuer).Some? {
        var i :| 0 <= i < |KeysInOrder(before)| && KeysInOrder(before)[i] == (issuer, FirstClient(before, issuer).value)
                 && forall j :: 0 <= j < i ==> KeysInOrder(before)[j].0 != issuer;
        assert KeysInOrder(history)[i] == KeysInOrder(before)[i];
      } else if r.issuer == issuer {
        assert KeysInOrder(history)[|KeysInOrder(before)|] == (issuer, r.clientId);
      }
    }
  }

  ghost predicate FirstOf(keys: seq<Key>, issuer: string, clientId: string) {
    exists i :: 0 <= i < |keys| && keys[i] == (issuer, clientId) && forall j :: 0 <= j < i ==> keys[j].0 != issuer
  }

  lemma {:induction false} NoneFound(keys: seq<Key>, history: seq<ToolRegistration>, issuer: string)
    requires forall k :: k in keys ==> k.0 != issuer
    ensures OfIssuer(keys, history, issuer) == []
  {
    if keys != [] { NoneFound(keys[..|keys| - 1], history, issuer); }
  }

  lemma {:induction false} FirstFound(keys: seq<Key>, history: seq<ToolRegistration>, issuer: string, i: nat)
    requires forall k :: k in keys ==> Latest(history, k.0, k.1).Some?
    requires i < |keys| && keys[i].0 == issuer && forall j :: 0 <= j < i ==> keys[j].0 != issuer
    ensures var found := OfIssuer(keys, history, issuer);
            found != [] && Latest(history, issuer, keys[i].1) == Some(found[0])
    decreases |keys|
  {
    var front := keys[..|keys| - 1];
    if i < |front| {
      FirstFound(front, history, issuer, i);
      assert front[i] == keys[i];
    } else {
      NoneFound(front, history, issuer);
      assert keys[i] in keys;
    }
  }

  // ---- The handshake. ----

  class DynamicRegistrationService {
    const store: InMemoryRegistrationStore

    constructor (store: InMemoryRegistrationStore)
      ensures this.store == store
    {
      this.store := store;
    }

    /** Runs the handshake with the given replies; only a complete exchange reaches the store. */
    method Register(config: Reply<PlatformDoc>, posted: Reply<RegistrationDoc>, ghost history: seq<ToolRegistration>)
      returns (r: Result<ToolRegistration, Error>)
      requires store.Holds(history)
      modifies store
      ensures store.Holds(Extend(history, config, posted))
      ensures r == match Registered(config, posted) case None => Err(ExternalRequestError) case Some(reg) => Ok(reg)
    {
      if !config.Document? || !CompletePlatform(config.doc) { return Err(ExternalRequestError); }
      if !posted.Document? { return Err(ExternalRequestError); }
      var platform := config.doc;
      if !Truthy(posted.doc.clientId) { return Err(ExternalRequestError); }
      var deploymentIds := if posted.doc.deploymentId != "" then [posted.doc.deploymentId] else [];
      var registration := ToolRegistration(
        platform.issuer, IdText(posted.doc.clientId), platform.authorizationEndpoint, platform.tokenEndpoint,
        platform.jwksUri, platform.authorizationServer, deploymentIds);
      store.Save(registration, history);
      return Ok(registration);
    }
  }

  /** The registration that a pair of replies establishes, if they establish one. */
  function Registered(config: Reply<PlatformDoc>, posted: Reply<RegistrationDoc>): (r: Option<ToolRegistration>)
    ensures r.Some? <==>
              && config.Document? && CompletePlatform(config.doc)
              && posted.Document? && Truthy(posted.doc.clientId)
    ensures r.Some? ==> r.value.issuer != "" && r.value.clientId != ""
  {
    if config.Document? && CompletePlatform(config.doc) && posted.Document? && Truthy(posted.doc.clientId) then
      Some(ToolRegistration(
        config.doc.issuer, IdText(posted.doc.clientId), config.doc.authorizationEndpoint, config.doc.tokenEndpoint,
        config.doc.jwksUri, config.doc.authorizationServer,
        if posted.doc.deploymentId == "" then [] else [posted.doc.deploymentId]))
    else None
  }

  function Extend(history: seq<ToolRegistration>, config: Reply<PlatformDoc>,
      posted: Reply<RegistrationDoc>): seq<ToolRegistration> {
    match Registered(config, posted) case None => history case Some(r) => history + [r]
  }

  // ---- The tool configuration over the store. ----

  /** A resolved registration, with the tool's own keys attached; "" stands for a value never set. */
  datatype Registration = Registration(
    issuer: string, clientId: string, authLoginUrl: string, authTokenUrl: string, keySetUrl: string,
    authAudience: string, toolPrivateKey: string, toolPublicKey: string)

  class StoredToolConf {
    const store: InMemoryRegistrationStore
    const privateKey: string
    const publicKey: string

    constructor (store: InMemoryRegistrationStore, privateKey: string, publicKey: string)
      ensures this.store == store && this.privateKey == privateKey && this.publicKey == publicKey
    {
      this.store, this.privateKey, this.publicKey := store, privateKey, publicKey;
    }

    method BuildRegistration(record: ToolRegistration) returns (r: Registration)
      ensures r == Registration(record.issuer, record.clientId, record.authLoginUrl, record.authTokenUrl,
                record.keySetUrl,
                                record.authAudience, privateKey, publicKey)
    {
      r := Registration(record.issuer, record.clientId, record.authLoginUrl, record.authTokenUrl, record.keySetUrl, "",
        privateKey, "");
      if record.authAudience != "" { r := r.(authAudience := record.authAudience); }
      if publicKey != "" { r := r.(toolPublicKey := publicKey); }
    }

    method Lookup(issuer: string, clientId: string, ghost history: seq<ToolRegistration>)
      returns (r: Result<ToolRegistration, Error>)
      requires store.Holds(history)
      ensures r ==
                match Resolved(history, issuer, clientId)
                case None => Err(LtiException)
                case Some(record) => Ok(record)
    {
      var record;
      if clientId != "" {
        record := store.Get(issuer, clientId, history);
      } else {
        var candidates := store.FindByIssuer(issuer, history);
        FirstCandidate(history, issuer);
        record := if candidates != [] then Some(candidates[0]) else None;
      }
      return if record.None? then Err(LtiException) else Ok(record.value);
    }

    method FindRegistrationByParams(issuer: string, clientId: string, ghost history: seq<ToolRegistration>)
      returns (r: Result<Registration, Error>)
      requires store.Holds(history)
      ensures r == match Resolved(history, issuer, clientId)
                   case None => Err(LtiException)
                   case Some(record) => Ok(Registration(record.issuer, record.clientId, record.authLoginUrl,
                       record.authTokenUrl,
                                                        record.keySetUrl, record.authAudience, privateKey, publicKey))
    {
      var record := Lookup(issuer, clientId, history);
      if record.Err? { return Err(record.error); }
      var built := BuildRegistration(record.value);
      return Ok(built);
    }

    /** The deployment, when the record exists and does not list other deployments only. */
    method FindDeploymentByParams(issuer: string, deploymentId: string, clientId: string,
        ghost history: seq<ToolRegistration>)
      returns (r: Option<string>)
      requires store.Holds(history)
      ensures var record := Resolved(history, issuer, clientId);
              r == if record.Some? && (record.value.deploymentIds == [] || deploymentId in record.value.deploymentIds)
                   then Some(deploymentId) else None
    {
      var record := Lookup(issuer, clientId, history);
      if record.Err? { return None; }
      if record.value.deploymentIds != [] && deploymentId !in record.value.deploymentIds { return None; }
      return Some(deploymentId);
    }
  }

  /** The first candidate for an issuer is the latest registration of its first client. */
  lemma FirstCandidate(history: seq<ToolRegistration>, issuer: string)
    ensures var candidates := OfIssuer(KeysInOrder(history), history, issuer);
            Resolved(history, issuer, "") == if candidates == [] then None else Some(candidates[0])
  {
    forall k | k in KeysInOrder(history) ensures Latest(history, k.0, k.1).Some? { KeysAreThoseSaved(history, k); }
    FirstKeyIsFirstClient(history, issuer);
    var keys := KeysInOrder(history);
    match FirstClient(history, issuer)
    case None => NoneFound(keys, history, issuer);
    case Some(first) =>
      var i :| 0 <= i < |keys| && keys[i] == (issuer, first) && forall j :: 0 <= j < i ==> keys[j].0 != issuer;
      FirstFound(keys, history, issuer, i);
  }

  // ---- Sequences of registrations. ----

  datatype Exchange = Exchange(config: Reply<PlatformDoc>, posted: Reply<RegistrationDoc>)

  /** The registrations established by a sequence of exchanges, successes and failures alike. */
  function History(exchanges: seq<Exchange>): seq<ToolRegistration> {
    if exchanges == [] then []
    else
      var last := exchanges[|exchanges| - 1];
      Extend(History(exchanges[..|exchanges| - 1]), last.config, last.posted)
  }

  /** The store after `register` has been called for each exchange in turn. */
  method RegisterAll(exchanges: seq<Exchange>) returns (store: InMemoryRegistrationStore)
    ensures fresh(store) && store.Holds(History(exchanges))
  {
    store := new InMemoryRegistrationStore();
    var service := new DynamicRegistrationService(store);
    for i := 0 to |exchanges|
      invariant service.store == store && fresh(store) && store.Holds(History(exchanges[..i]))
    {
      assert exchanges[..i + 1][..i] == exchanges[..i];
      var _ := service.Register(exchanges[i].config, exchanges[i].posted, History(exchanges[..i]));
    }
    assert exchanges[..|exchanges|] == exchanges;
  }

  // ---- What an exchange registers, told of its two documents alone. ----

  function DigitValue(c: char): int { c as int - '0' as int }

  function ValueOf(text: string): int {
    if text == "" then 0 else 10 * ValueOf(text[..|text| - 1]) + DigitValue(text[|text| - 1])
  }

  /** The text writes the number in decimal digits, without leading zeros. */
  ghost predicate Writes(text: string, n: int) {
    if n < 0 then text != "" && text[0] == '-' && WritesNat(text[1..], -n) else WritesNat(text, n)
  }

  ghost predicate WritesNat(text: string, n: nat) {
    && text != "" && (forall i :: 0 <= i < |text| ==> '0' <= text[i] <= '9')
    && (|text| > 1 ==> text[0] != '0') && ValueOf(text) == n
  }

  lemma {:induction false} DigitsWrite(n: nat)
    ensures WritesNat(Digits(n), n) && (n > 0 ==> Digits(n)[0] != '0')
  {
    if n >= 10 {
      DigitsWrite(n / 10);
      assert Digits(n)[..|Digits(n)| - 1] == Digits(n / 10);
    } else {
      assert Digits(n)[..0] == "";
    }
  }

  lemma {:induction false} OnlyDigitsWrite(text: string, n: nat)
    requires WritesNat(text, n)
    ensures text == Digits(n)
  {
    var front, last := text[..|text| - 1], DigitValue(text[|text| - 1]);
    assert text == front + [text[|text| - 1]];
    if front == "" {
      assert ValueOf(text) == last;
    } else {
      PositiveWhenLed(front);
      assert n / 10 == ValueOf(front) && n % 10 == last;
      OnlyDigitsWrite(front, n / 10);
    }
  }

  lemma {:induction false} PositiveWhenLed(text: string)
    requires text != "" && text[0] != '0' && forall i :: 0 <= i < |text| ==> '0' <= text[i] <= '9'
    ensures ValueOf(text) > 0
  {
    if |text| > 1 { PositiveWhenLed(text[..|text| - 1]); } else { assert text[..0] == ""; }
  }

  /** The client id in a reply, a text that is not empty or a number other than zero, reads so. */
  ghost predicate ClientIs(id: JsonId, clientId: string) {
    (id.Text? && id.s == clientId && clientId != "") || (id.Number? && id.n != 0 && Writes(clientId, id.n))
  }

  lemma WritesNatIff(text: string, n: nat)
    ensures WritesNat(text, n) <==> text == Digits(n)
  {
    DigitsWrite(n);
    if WritesNat(text, n) { OnlyDigitsWrite(text, n); }
  }

  lemma WritesIff(text: string, n: int)
    ensures Writes(text, n) <==> text == if n < 0 then "-" + Digits(-n) else Digits(n)
  {
    hide WritesNat;
    hide Digits;
    if n >= 0 {
      WritesNatIff(text, n);
    } else if text != "" {
      WritesNatIff(text[1..], -n);
      assert text == [text[0]] + text[1..];
      assert ("-" + Digits(-n))[1..] == Digits(-n);
    }
  }

  lemma ClientIsIff(id: JsonId, clientId: string)
    ensures ClientIs(id, clientId) <==> Truthy(id) && IdText(id) == clientId
  {
    hide Writes;
    hide Digits;
    if id.Number? { WritesIff(clientId, id.n); }
  }

  /** The exchange completed: the platform's document has all it must have, and its reply has a client id. */
  ghost predicate NamesIssuer(e: Exchange, issuer: string) {
    && e.config.Document? && e.config.doc.issuer == issuer && issuer != ""
    && e.config.doc.authorizationEndpoint != "" && e.config.doc.tokenEndpoint != ""
    && e.config.doc.jwksUri != "" && e.config.doc.registrationEndpoint != ""
    && e.posted.Document? && e.posted.doc.clientId != Missing
    && e.posted.doc.clientId != Text("") && e.posted.doc.clientId != Number(0)
  }

  ghost predicate Names(e: Exchange, issuer: string, clientId: string) {
    NamesIssuer(e, issuer) && ClientIs(e.posted.doc.clientId, clientId)
  }

  /** The record of an exchange: the platform's endpoints, and the one deployment the reply names, if it names one. */
  ghost function RecordOf(e: Exchange, clientId: string): ToolRegistration
    requires e.config.Document? && e.posted.Document?
  {
    var p := e.config.doc;
    ToolRegistration(p.issuer, clientId, p.authorizationEndpoint, p.tokenEndpoint, p.jwksUri, p.authorizationServer,
                     if e.posted.doc.deploymentId == "" then [] else [e.posted.doc.deploymentId])
  }

  lemma RegisteredIff(e: Exchange, issuer: string)
    ensures var r := Registered(e.config, e.posted);
            && (NamesIssuer(e, issuer) <==> r.Some? && r.value.issuer == issuer)
            && (forall clientId :: Names(e, issuer, clientId) <==>
                  r.Some? && r.value.issuer == issuer && r.value.clientId == clientId)
            && (forall clientId :: Names(e, issuer, clientId) ==> r == Some(RecordOf(e, clientId)))
  {
    if e.posted.Document? {
      forall clientId { ClientIsIff(e.posted.doc.clientId, clientId); }
    }
    hide ClientIs;
    hide IdText;
  }

  /** `i` is the last exchange that registered this issuer and client. */
  ghost predicate LastSuccess(exchanges: seq<Exchange>, issuer: string, clientId: string, i: int) {
    && 0 <= i < |exchanges| && Names(exchanges[i], issuer, clientId)
    && forall j :: i < j < |exchanges| ==> !Names(exchanges[j], issuer, clientId)
  }

  /**
   After any sequence of exchanges, a lookup by issuer and client finds the last one that registered the
   pair, with that platform's endpoints, and finds nothing exactly when no exchange registered it.
   */
  lemma {:induction false} LookupFindsLastSuccess(exchanges: seq<Exchange>, issuer: string, clientId: string)
    requires clientId != ""
    ensures forall i :: LastSuccess(exchanges, issuer, clientId, i) ==>
              Resolved(History(exchanges), issuer, clientId) == Some(RecordOf(exchanges[i], clientId))
    ensures Resolved(History(exchanges), issuer, clientId).None? <==>
            forall i :: 0 <= i < |exchanges| ==> !Names(exchanges[i], issuer, clientId)
  {
    hide Names;
    hide RecordOf;
    if exchanges != [] {
      var before, last := exchanges[..|exchanges| - 1], exchanges[|exchanges| - 1];
      LookupFindsLastSuccess(before, issuer, clientId);
      ResolvedAfter(History(before), last, issuer, clientId);
      forall i | LastSuccess(exchanges, issuer, clientId, i) && i < |before|
        ensures LastSuccess(before, issuer, clientId, i) {}
      if !Names(last, issuer, clientId) {
        assert forall i :: 0 <= i < |before| ==> before[i] == exchanges[i];
      } else {
        assert Names(exchanges[|before|], issuer, clientId);
      }
    }
  }

  lemma ResolvedAfter(history: seq<ToolRegistration>, e: Exchange, issuer: string, clientId: string)
    requires clientId != ""
    ensures Resolved(Extend(history, e.config, e.posted), issuer, clientId) ==
            if Names(e, issuer, clientId) then Some(RecordOf(e, clientId)) else Resolved(history, issuer, clientId)
  {
    RegisteredIff(e, issuer);
    hide Names;
    hide NamesIssuer;
    hide Registered;
    hide RecordOf;
    var r := Registered(e.config, e.posted);
    if r.Some? { assert (history + [r.value])[..|history + [r.value]| - 1] == history; }
  }

  /** `i` is the first exchange that registered a client of the issuer. */
  ghost predicate FirstSuccess(exchanges: seq<Exchange>, issuer: string, i: int) {
    && 0 <= i < |exchanges| && NamesIssuer(exchanges[i], issuer)
    && forall j :: 0 <= j < i ==> !NamesIssuer(exchanges[j], issuer)
  }

  /**
   After any sequence of exchanges, a lookup without a client id resolves as if the client of the first
   exchange that registered the issuer had been named, whatever was registered or re-registered since.
   */
  lemma LookupWithoutClientFindsFirst(exchanges: seq<Exchange>, issuer: string, i: int, client: string)
    requires FirstSuccess(exchanges, issuer, i) && ClientIs(exchanges[i].posted.doc.clientId, client)
    ensures client != "" && Resolved(History(exchanges), issuer, "") == Resolved(History(exchanges), issuer, client)
  {
    FirstClientOfHistory(exchanges, issuer, i, client);
    RegisteredIff(exchanges[i], issuer);
    assert Names(exchanges[i], issuer, client);
  }

  lemma {:induction false} FirstClientOfHistory(exchanges: seq<Exchange>, issuer: string, i: int, client: string)
    requires FirstSuccess(exchanges, issuer, i) && ClientIs(exchanges[i].posted.doc.clientId, client)
    ensures FirstClient(History(exchanges), issuer) == Some(client)
    decreases |exchanges|
  {
    var before, last := exchanges[..|exchanges| - 1], exchanges[|exchanges| - 1];
    RegisteredIff(last, issuer);
    hide Registered;
    hide RecordOf;
    hide ClientIs;
    if i < |before| {
      FirstClientOfHistory(before, issuer, i, client);
    } else {
      assert Names(last, issuer, client);
      NoFirstClient(before, issuer);
    }
    hide NamesIssuer;
    hide Names;
    var r := Registered(last.config, last.posted);
    if r.Some? { FirstClientAfterSave(History(before), r.value, issuer); }
  }

  lemma {:induction false} NoFirstClient(exchanges: seq<Exchange>, issuer: string)
    requires forall i :: 0 <= i < |exchanges| ==> !NamesIssuer(exchanges[i], issuer)
    ensures FirstClient(History(exchanges), issuer) == None
  {
    if exchanges != [] {
      var before, last := exchanges[..|exchanges| - 1], exchanges[|exchanges| - 1];
      assert forall i :: 0 <= i < |before| ==> before[i] == exchanges[i];
      NoFirstClient(before, issuer);
      RegisteredIff(last, issuer);
      assert !NamesIssuer(last, issuer);
      hide NamesIssuer;
      hide Names;
      hide Registered;
      var r := Registered(last.config, last.posted);
      if r.Some? { FirstClientAfterSave(History(before), r.value, issuer); }
    }
  }

  // ---- From the handshakes to the launch that follows. ----

  /**
   The tool registers with platforms, and then a launch asks for a registration and a deployment by issuer and
   client: they are those of the last exchange that registered the pair, and any deployment is known unless that
   exchange named one.
   */
  method RegisterThenResolve(exchanges: seq<Exchange>, privateKey: string, publicKey: string, issuer: string,
      clientId: string,
      deploymentId: string) returns (registration: Result<Registration, Error>, deployment: Option<string>)
    requires clientId != ""
    ensures forall i :: LastSuccess(exchanges, issuer, clientId, i) ==>
              var platform, named := exchanges[i].config.doc, exchanges[i].posted.doc.deploymentId;
              && registration ==
                   Ok(Registration(issuer, clientId, platform.authorizationEndpoint, platform.tokenEndpoint,
                                                 platform.jwksUri, platform.authorizationServer, privateKey, publicKey))
              && deployment == if named == "" || named == deploymentId then Some(deploymentId) else None
    ensures (forall i :: 0 <= i < |exchanges| ==> !Names(exchanges[i], issuer, clientId)) ==>
              registration == Err(LtiException) && deployment == None
  {
    var store := RegisterAll(exchanges);
    var conf := new StoredToolConf(store, privateKey, publicKey);
    registration := conf.FindRegistrationByParams(issuer, clientId, History(exchanges));
    deployment := conf.FindDeploymentByParams(issuer, deploymentId, clientId, History(exchanges));
    LookupFindsLastSuccess(exchanges, issuer, clientId);
    hide Resolved;
    hide ClientIs;
  }

  /**
   Without a client id they are those of the last exchange of the client that the issuer was first registered with.
   */
  method RegisterThenResolveIssuer(exchanges: seq<Exchange>, privateKey: string, publicKey: string, issuer: string,
      deploymentId: string, ghost first: int, ghost client: string, ghost last: int)
    returns (registration: Result<Registration, Error>, deployment: Option<string>)
    requires FirstSuccess(exchanges, issuer, first) && ClientIs(exchanges[first].posted.doc.clientId, client)
    requires LastSuccess(exchanges, issuer, client, last)
    ensures var platform, named := exchanges[last].config.doc, exchanges[last].posted.doc.deploymentId;
            && registration == Ok(Registration(issuer, client, platform.authorizationEndpoint, platform.tokenEndpoint,
                                               platform.jwksUri, platform.authorizationServer, privateKey, publicKey))
            && deployment == if named == "" || named == deploymentId then Some(deploymentId) else None
  {
    var store := RegisterAll(exchanges);
    var conf := new StoredToolConf(store, privateKey, publicKey);
    registration := conf.FindRegistrationByParams(issuer, "", History(exchanges));
    deployment := conf.FindDeploymentByParams(issuer, deploymentId, "", History(exchanges));
    LookupWithoutClientFindsFirst(exchanges, issuer, first, client);
    LookupFindsLastSuccess(exchanges, issuer, client);
    hide Resolved;
    hide ClientIs;
  }
}
