/**
 The flat cache shared by all sessions, the per-session keys that the storage objects build for it,
 and the keys that the session service builds for them.
 */
module Storage {
  import opened Wrappers
  import opened LtiData

  const PREFIX := "lti1p3-"
  const SESSION_COOKIE := "session-id"

  // ---- Keys. ----

  predicate Truthy(sid: Option<string>) { sid.Some? && sid.value != "" }

  /** A key without one leading prefix. */
  function Strip(key: string): string {
    if PREFIX <= key then key[|PREFIX|..] else key
  }

  function PrepareKey(sid: Option<string>, key: string): string {
    if Truthy(sid) then PREFIX + sid.value + "-" + Strip(key)
    else if PREFIX <= key then key
    else PREFIX + key
  }

  /** What a session puts between the common prefix and the rest of a key. */
  function Lead(sid: Option<string>): string {
    if Truthy(sid) then sid.value + "-" else ""
  }

  lemma PrepareKeyForm(sid: Option<string>, key: string)
    ensures PrepareKey(sid, key) == PREFIX + Lead(sid) + Strip(key)
  {
    if PREFIX <= key { assert key == PREFIX + Strip(key); }
  }

  lemma AppendCancels(a: string, b: string, c: string, d: string)
    requires |a| == |c| || |b| == |d|
    requires a + b == c + d
    ensures a == c && b == d
  {
    assert |a + b| == |c + d|;
    assert a == (a + b)[..|a|] && c == (c + d)[..|c|];
    assert b == (a + b)[|a|..] && d == (c + d)[|c|..];
  }

  lemma PreparedKeysEqual(s: Option<string>, a: string, t: Option<string>, b: string)
    ensures PrepareKey(s, a) == PrepareKey(t, b) <==> Lead(s) + Strip(a) == Lead(t) + Strip(b)
  {
    PrepareKeyForm(s, a);
    PrepareKeyForm(t, b);
    hide PrepareKey;
    hide Strip;
    hide Lead;
    assert PREFIX + Lead(s) + Strip(a) == PREFIX + (Lead(s) + Strip(a));
    assert PREFIX + Lead(t) + Strip(b) == PREFIX + (Lead(t) + Strip(b));
    if PrepareKey(s, a) == PrepareKey(t, b) {
      AppendCancels(PREFIX, Lead(s) + Strip(a), PREFIX, Lead(t) + Strip(b));
    }
  }

  /** One id, followed by a hyphen, begins the other. */
  predicate Overlap(s: string, t: string) {
    s + "-" <= t || t + "-" <= s
  }

  /** The session that keys are prepared for: an empty id counts as none. */
  function Session(sid: Option<string>): Option<string> {
    if Truthy(sid) then sid else None
  }

  /** Two different ids do not overlap, and a key without a session does not spell the other key's session. */
  predicate Apart(s: Option<string>, a: string, t: Option<string>, b: string) {
    if Truthy(s) && Truthy(t) then s == t || !Overlap(s.value, t.value)
    else (Truthy(s) ==> !(Lead(s) <= Strip(b))) && (Truthy(t) ==> !(Lead(t) <= Strip(a)))
  }

  /** Keys that are kept apart in this way are equal exactly when session and key without one leading prefix are. */
  lemma PreparedKeysEqualIff(s: Option<string>, a: string, t: Option<string>, b: string)
    requires Apart(s, a, t, b)
    ensures PrepareKey(s, a) == PrepareKey(t, b) <==> Session(s) == Session(t) && Strip(a) == Strip(b)
  {
    PreparedKeysEqual(s, a, t, b);
    hide PrepareKey;
    hide Strip;
    var x, y := Strip(a), Strip(b);
    if Lead(s) + x == Lead(t) + y {
      if Truthy(s) && Truthy(t) {
        LeadsCancel(s.value, x, t.value, y);
      } else {
        assert "" + x == x && "" + y == y;
        assert Truthy(s) ==> Lead(s) <= Lead(s) + x;
        assert Truthy(t) ==> Lead(t) <= Lead(t) + y;
      }
    }
  }

  lemma LeadsCancel(s: string, x: string, t: string, y: string)
    requires s + "-" + x == t + "-" + y
    ensures (s == t && x == y) || Overlap(s, t)
  {
    var whole := s + "-" + x;
    assert whole[..|s| + 1] == s + "-" && whole[..|t| + 1] == t + "-";
    if |s| == |t| {
      AppendCancels(s + "-", x, t + "-", y);
      AppendCancels(s, "-", t, "-");
    } else if |s| < |t| {
      assert t == whole[..|t|] && t[..|s| + 1] == s + "-";
    } else {
      assert s == whole[..|s|] && s[..|t| + 1] == t + "-";
    }
  }

  /** Two sessions share some key exactly when one id, followed by a hyphen, begins the other. */
  lemma SessionsAliasIff(s: string, t: string)
    requires s != "" && t != "" && s != t
    ensures (exists a, b :: PrepareKey(Some(s), a) == PrepareKey(Some(t), b)) <==> Overlap(s, t)
  {
    if Overlap(s, t) {
      if s + "-" <= t {
        ExtendedIdAliases(s, t);
      } else {
        ExtendedIdAliases(t, s);
      }
    } else {
      forall a,
          b ensures PrepareKey(Some(s), a) != PrepareKey(Some(t), b) { PreparedKeysEqualIff(Some(s), a, Some(t), b); }
    }
  }

  /** The key that the longer id's session spells out in the shorter one's. */
  lemma ExtendedIdAliases(s: string, t: string)
    requires s != "" && s + "-" <= t
    ensures PrepareKey(Some(s), PREFIX + (t[|s| + 1..] + "-")) == PrepareKey(Some(t), "")
  {
    var rest := t[|s| + 1..] + "-";
    StripPrefixed(rest);
    PreparedKeysEqual(Some(s), PREFIX + rest, Some(t), "");
    assert t == s + "-" + t[|s| + 1..];
  }

  /** A key without a session is a session's key exactly when it spells that session's id itself. */
  lemma SchemesAliasIff(key: string, sid: string, other: string)
    requires sid != ""
    ensures PrepareKey(None, key) == PrepareKey(Some(sid), other) <==> Strip(key) == sid + "-" + Strip(other)
  {
    PreparedKeysEqual(None, key, Some(sid), other);
    assert "" + Strip(key) == Strip(key);
  }

  // ---- The cache and the storage over it. ----

  class FlatCache {
    var entries: Store

    constructor ()
      ensures entries == map[]
    {
      entries := map[];
    }

    method Get(key: string) returns (r: Option<Value>)
      ensures r == if key in entries then Some(entries[key]) else None
    {
      r := if key in entries then Some(entries[key]) else None;
    }

    method Set(key: string, value: Value)
      modifies this
      ensures entries == old(entries)[key := value]
    {
      entries := entries[key := value];
    }

    /** An entry expires. */
    method Drop(key: string)
      modifies this
      ensures entries == old(entries) - {key}
    {
      entries := entries - {key};
    }
  }

  function Read(store: Store, sid: Option<string>, key: string): Option<Value> {
    var k := PrepareKey(sid, key);
    if k in store then Some(store[k]) else None
  }

  function Write(store: Store, sid: Option<string>, key: string, value: Value): Store {
    store[PrepareKey(sid, key) := value]
  }

  class CacheDataStorage {
    const cache: FlatCache
    var sessionId: Option<string>

    constructor (cache: FlatCache)
      ensures this.cache == cache && sessionId == None
    {
      this.cache := cache;
      sessionId := None;
    }

    /** Over plain HTTP no session cookie is used. */
    method GetSessionCookieName(secure: bool) returns (r: Option<string>)
      ensures r == if secure then Some(SESSION_COOKIE) else None
    {
      if !secure { return None; }
      return Some(SESSION_COOKIE);
    }

    method SetSessionId(sid: string)
      modifies this`sessionId
      ensures sessionId == Some(sid)
    {
      sessionId := Some(sid);
    }

    method RemoveSessionId()
      modifies this`sessionId
      ensures sessionId == None
    {
      sessionId := None;
    }

    method GetValue(key: string) returns (r: Option<Value>)
      ensures r == Read(cache.entries, sessionId, key)
    {
      r := cache.Get(PrepareKey(sessionId, key));
    }

    method SetValue(key: string, value: Value)
      modifies cache
      ensures cache.entries == Write(old(cache.entries), sessionId, key, value)
    {
      cache.Set(PrepareKey(sessionId, key), value);
    }

    method CheckValue(key: string) returns (found: bool)
      ensures found == Read(cache.entries, sessionId, key).Some?
    {
      var value := cache.Get(PrepareKey(sessionId, key));
      found := value.Some?;
    }
  }

  // ---- The one flat cache refines a separate map per session. ----

  datatype Op = SetOp(sid: Option<string>, key: string, value: Value) | ExpireOp(sid: Option<string>, key: string)

  /** The flat cache after a sequence of operations, each made in some session or in none. */
  function Flat(ops: seq<Op>): Store {
    if ops == [] then map[]
    else
      var before := Flat(ops[..|ops| - 1]);
      match ops[|ops| - 1]
      case SetOp(sid, key, value) => Write(before, sid, key, value)
      case ExpireOp(sid, key) => before - {PrepareKey(sid, key)}
  }

  /** The same operations on a map from a session, or none, and a key without its prefix. */
  function PerSession(ops: seq<Op>): map<(Option<string>, string), Value> {
    if ops == [] then map[]
    else
      var before := PerSession(ops[..|ops| - 1]);
      match ops[|ops| - 1]
      case SetOp(sid, key, value) => before[(Session(sid), Strip(key)) := value]
      case ExpireOp(sid, key) => before - {(Session(sid), Strip(key))}
  }

  /** After any operations kept apart from a key of a session, that session reads the key in its own map. */
  lemma {:induction false} FlatCacheRefinesSessionMaps(ops: seq<Op>, sid: Option<string>, key: string)
    requires forall i :: 0 <= i < |ops| ==> Apart(ops[i].sid, ops[i].key, sid, key)
    ensures Read(Flat(ops), sid, key) ==
            var k := (Session(sid), Strip(key));
            if k in PerSession(ops) then Some(PerSession(ops)[k]) else None
  {
    if ops != [] {
      var before, op := ops[..|ops| - 1], ops[|ops| - 1];
      FlatCacheRefinesSessionMaps(before, sid, key);
      assert Apart(op.sid, op.key, sid, key);
      PreparedKeysEqualIff(op.sid, op.key, sid, key);
    }
  }

  /** A session is a minted one, or there is none, whatever the scheme. */
  ghost predicate MintedSession(sid: Option<string>) {
    sid.Some? ==> IsUuid(sid.value)
  }

  /** Minted sessions are apart from one another, and from keys outside every session that begin with no digit. */
  lemma MintedSessionsAreApart(s: Option<string>, a: string, t: Option<string>, b: string)
    requires MintedSession(s) && MintedSession(t)
    requires s.None? ==> Strip(a) == "" || !IsHex(Strip(a)[0])
    requires t.None? ==> Strip(b) == "" || !IsHex(Strip(b)[0])
    ensures Apart(s, a, t, b)
  {
    hide Strip;
    assert s.Some? ==> Lead(s)[0] == s.value[0];
    assert t.Some? ==> Lead(t)[0] == t.value[0];
  }

  // ---- The keys of the session service. ----

  const SESSION_PREFIX := "lti1p3"

  function GetKey(key: string, nonce: string, addPrefix: bool): string {
    (if addPrefix then SESSION_PREFIX + "-" else "") + key + (if nonce != "" then "-" + nonce else "")
  }

  function NonceKey(nonce: string): string { GetKey("nonce", nonce, true) }

  function ParamsKey(state: string): string { GetKey(state, "", true) }

  function MarkerKey(state: string): string { GetKey(state + "-id-token-hash", "", true) }

  function RecordKey(launchId: string): string { GetKey(launchId, "", false) }

  /** How the keys read before the session is added. */
  lemma KeysAreSpelled(nonce: string, state: string)
    ensures NonceKey("") == "lti1p3-nonce" && (nonce != "" ==> NonceKey(nonce) == "lti1p3-nonce-" + nonce)
    ensures ParamsKey(state) == "lti1p3-" + state
    ensures MarkerKey(state) == "lti1p3-" + state + "-id-token-hash"
    ensures RecordKey(state) == state
    ensures LaunchIdOf(state) == "lti1p3-launch-" + state
    ensures StateOf(state) == "state-" + state && KeySetKey(state) == "key-set-url-" + state
  {
  }

  /**
   How the keys read in the cache: one common prefix, the session if there is one, and the key without that prefix.
   */
  lemma PreparedKeysAreSpelled(sid: string, rest: string)
    ensures sid != "" ==> PrepareKey(Some(sid), "lti1p3-" + rest) == "lti1p3-" + sid + "-" + rest
    ensures PrepareKey(None, "lti1p3-" + rest) == PrepareKey(Some(""), "lti1p3-" + rest) == "lti1p3-" + rest
    ensures !("lti1p3-" <= rest) ==>
              && (sid != "" ==> PrepareKey(Some(sid), rest) == "lti1p3-" + sid + "-" + rest)
              && PrepareKey(None, rest) == "lti1p3-" + rest
  {
    assert ("lti1p3-" + rest)[7..] == rest;
  }

  class SessionService {
    const storage: CacheDataStorage

    constructor (storage: CacheDataStorage)
      ensures this.storage == storage
    {
      this.storage := storage;
    }

    method SaveLaunchData(launchId: string, body: Body)
      modifies storage.cache
      ensures storage.cache.entries == Write(old(storage.cache.entries), storage.sessionId, RecordKey(launchId),
                Dict(body))
    {
      storage.SetValue(GetKey(launchId, "", false), Dict(body));
    }

    method GetLaunchData(launchId: string) returns (r: Option<Value>)
      ensures r == Read(storage.cache.entries, storage.sessionId, RecordKey(launchId))
    {
      r := storage.GetValue(GetKey(launchId, "", false));
    }

    method SaveNonce(nonce: string)
      modifies storage.cache
      ensures storage.cache.entries == Write(old(storage.cache.entries), storage.sessionId, NonceKey(nonce), Mark)
    {
      storage.SetValue(GetKey("nonce", nonce, true), Mark);
    }

    method CheckNonce(nonce: string) returns (found: bool)
      ensures found == Read(storage.cache.entries, storage.sessionId, NonceKey(nonce)).Some?
    {
      found := storage.CheckValue(GetKey("nonce", nonce, true));
    }

    method SaveStateParams(state: string, params: Body)
      modifies storage.cache
      ensures storage.cache.entries == Write(old(storage.cache.entries), storage.sessionId, ParamsKey(state),
                Dict(params))
    {
      storage.SetValue(GetKey(state, "", true), Dict(params));
    }

    method SetStateValid(state: string, idTokenHash: string)
      modifies storage.cache
      ensures storage.cache.entries == Write(old(storage.cache.entries), storage.sessionId, MarkerKey(state),
                Hash(idTokenHash))
    {
      storage.SetValue(GetKey(state + "-id-token-hash", "", true), Hash(idTokenHash));
    }

    method CheckStateIsValid(state: string, idTokenHash: string) returns (valid: bool)
      ensures valid == (Read(storage.cache.entries, storage.sessionId, MarkerKey(state)) == Some(Hash(idTokenHash)))
    {
      var value := storage.GetValue(GetKey(state + "-id-token-hash", "", true));
      valid := value == Some(Hash(idTokenHash));
    }
  }

  // ---- Keys built from minted values never collide. ----

  /** The five kinds of entries, each with the value its key is built from. */
  datatype Kind =
    | NonceOf(nonce: string)
    | ParamsOf(uuid: string)
    | MarkerOf(uuid: string)
    | RecordOf(uuid: string)
    | KeySetOf(hash: string)

  ghost predicate Minted(k: Kind) {
    match k
    case NonceOf(nonce) => IsNonce(nonce)
    case ParamsOf(uuid) => IsUuid(uuid)
    case MarkerOf(uuid) => IsUuid(uuid)
    case RecordOf(uuid) => IsUuid(uuid)
    case KeySetOf(_) => true
  }

  function StateOf(uuid: string): string { "state-" + uuid }

  function LaunchIdOf(uuid: string): string { "lti1p3-launch-" + uuid }

  function KeySetKey(hash: string): string { "key-set-url-" + hash }

  /** The key an entry of each kind is stored under, before the session is added. */
  function KeyOf(k: Kind): string {
    match k
    case NonceOf(nonce) => NonceKey(nonce)
    case ParamsOf(uuid) => ParamsKey(StateOf(uuid))
    case MarkerOf(uuid) => MarkerKey(StateOf(uuid))
    case RecordOf(uuid) => RecordKey(LaunchIdOf(uuid))
    case KeySetOf(hash) => KeySetKey(hash)
  }

  function BareKey(k: Kind): string {
    match k
    case NonceOf(nonce) => "nonce" + (if nonce != "" then "-" + nonce else "")
    case ParamsOf(uuid) => "state-" + uuid
    case MarkerOf(uuid) => "state-" + uuid + "-id-token-hash"
    case RecordOf(uuid) => "launch-" + uuid
    case KeySetOf(hash) => "key-set-url-" + hash
  }

  lemma StripPrefixed(rest: string)
    ensures Strip(PREFIX + rest) == rest
  {
  }

  lemma KeysStripToBareKeys(k: Kind)
    ensures Strip(KeyOf(k)) == BareKey(k)
  {
    assert SESSION_PREFIX + "-" == PREFIX;
    if k.KeySetOf? {
      assert KeyOf(k)[0] == 'k';
    } else {
      PrefixedKey(k);
      hide KeyOf;
      hide BareKey;
      StripPrefixed(BareKey(k));
    }
  }

  lemma PrefixedKey(k: Kind)
    requires !k.KeySetOf?
    ensures KeyOf(k) == PREFIX + BareKey(k)
  {
    assert SESSION_PREFIX + "-" == PREFIX;
    if k.MarkerOf? {
      assert MarkerKey(StateOf(k.uuid)) == PREFIX + (StateOf(k.uuid) + "-id-token-hash") + "";
    } else if k.RecordOf? {
      assert "lti1p3-launch-" == PREFIX + "launch-";
      assert KeyOf(k) == PREFIX + "launch-" + k.uuid + "";
    }
  }

  /** The kind of a bare key shows in its first character and, between parameters and markers, in its length. */
  lemma BareKeysTellKinds(j: Kind, k: Kind)
    requires Minted(j) && Minted(k) && BareKey(j) == BareKey(k)
    ensures j.NonceOf? == k.NonceOf? && j.ParamsOf? == k.ParamsOf? && j.MarkerOf? == k.MarkerOf?
    ensures j.RecordOf? == k.RecordOf? && j.KeySetOf? == k.KeySetOf?
  {
    BareKeyShape(j);
    BareKeyShape(k);
    hide BareKey;
    hide Minted;
  }

  lemma BareKeyShape(k: Kind)
    requires Minted(k)
    ensures |BareKey(k)| > 6
    ensures BareKey(k)[0] ==
              match k { case NonceOf(_) => 'n' case RecordOf(_) => 'l' case KeySetOf(_) => 'k' case _ => 's' }
    ensures k.ParamsOf? ==> |BareKey(k)| == 42
    ensures k.MarkerOf? ==> |BareKey(k)| == 56
  {
  }

  lemma MintedNoncesAreFull(j: Kind, k: Kind)
    requires Minted(j) && Minted(k) && j.NonceOf? && k.NonceOf?
    ensures BareKey(j) == "nonce-" + j.nonce && BareKey(k) == "nonce-" + k.nonce
  {
  }

  lemma BareKeysEqualIff(j: Kind, k: Kind)
    requires Minted(j) && Minted(k)
    ensures BareKey(j) == BareKey(k) <==> j == k
  {
    if BareKey(j) == BareKey(k) {
      BareKeysTellKinds(j, k);
      if j.NonceOf? { MintedNoncesAreFull(j, k); }
      hide Minted;
      match j
      case NonceOf(nonce) =>
        AppendCancels("nonce-", nonce, "nonce-", k.nonce);
      case ParamsOf(uuid) => AppendCancels("state-", uuid, "state-", k.uuid);
      case MarkerOf(uuid) =>
        AppendCancels("state-" + uuid, "-id-token-hash", "state-" + k.uuid, "-id-token-hash");
        AppendCancels("state-", uuid, "state-", k.uuid);
      case RecordOf(uuid) => AppendCancels("launch-", uuid, "launch-", k.uuid);
      case KeySetOf(hash) => AppendCancels("key-set-url-", hash, "key-set-url-", k.hash);
    }
  }

  /** The key of an entry in the cache; key sets are shared by all sessions. */
  function StoreKey(sid: Option<string>, k: Kind): string {
    PrepareKey(if k.KeySetOf? then None else sid, KeyOf(k))
  }

  /** A key set's key is no key of a session: no session id begins with its first letter. */
  lemma KeySetsAreNoSessionKeys(hash: string, sid: string, key: string)
    requires IsUuid(sid)
    ensures PrepareKey(None, KeySetKey(hash)) != PrepareKey(Some(sid), key)
  {
    SchemesAliasIff(KeySetKey(hash), sid, key);
    KeysStripToBareKeys(KeySetOf(hash));
    assert (sid + "-" + Strip(key))[0] == sid[0];
  }

  lemma BareKeysBeginWithNoDigit(k: Kind)
    ensures BareKey(k) != "" && !IsHex(BareKey(k)[0])
  {
  }

  /**
   Two entries built from minted values, in minted sessions or in none, share a key exactly when they are of
   the same kind and value and, unless they are key sets, of the same session.
   */
  lemma MintedKeysNeverCollide(s: Option<string>, j: Kind, t: Option<string>, k: Kind)
    requires MintedSession(s) && MintedSession(t) && Minted(j) && Minted(k)
    ensures StoreKey(s, j) == StoreKey(t, k) <==> j == k && (s == t || j.KeySetOf?)
  {
    var s', t' := if j.KeySetOf? then None else s, if k.KeySetOf? then None else t;
    KeysStripToBareKeys(j);
    KeysStripToBareKeys(k);
    BareKeysBeginWithNoDigit(j);
    BareKeysBeginWithNoDigit(k);
    BareKeysEqualIff(j, k);
    hide KeyOf;
    hide BareKey;
    MintedSessionsAreApart(s', KeyOf(j), t', KeyOf(k));
    PreparedKeysEqualIff(s', KeyOf(j), t', KeyOf(k));
  }
}
