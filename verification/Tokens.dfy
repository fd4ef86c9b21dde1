/**
 The access-token service (the grant of section 4.4 of RFC 6749): a cache of tokens keyed by the
 digest of the sorted scopes, reused until a token nears its expiry. Times are real seconds.
 */
module Tokens {
  import opened Wrappers
  import opened Text

  const DEFAULT_TOKEN_LIFETIME := 3600.0

  // ---- Sorting, as Python orders strings. ----

  predicate Less(a: string, b: string) {
    if b == "" then false
    else if a == "" then true
    else if a[0] != b[0] then a[0] < b[0]
    else Less(a[1..], b[1..])
  }

  predicate LessEq(a: string, b: string) {
    a == b || Less(a, b)
  }

  ghost predicate Ordered(s: seq<string>) {
    forall i, j :: 0 <= i < j < |s| ==> LessEq(s[i], s[j])
  }

  function Insert(x: string, s: seq<string>): seq<string> {
    if s == [] || LessEq(x, s[0]) then [x] + s else [s[0]] + Insert(x, s[1..])
  }

  function Sorted(s: seq<string>): seq<string> {
    if s == [] then [] else Insert(s[0], Sorted(s[1..]))
  }

  lemma {:induction false} LessTransitive(a: string, b: string, c: string)
    requires Less(a, b) && Less(b, c)
    ensures Less(a, c)
  {
    if a != "" && a[0] == b[0] && b[0] == c[0] { LessTransitive(a[1..], b[1..], c[1..]); }
  }

  lemma {:induction false} LessIrreflexive(a: string)
    ensures !Less(a, a)
  {
    if a != "" { LessIrreflexive(a[1..]); }
  }

  lemma {:induction false} LessTotal(a: string, b: string)
    ensures a == b || Less(a, b) || Less(b, a)
    ensures !(Less(a, b) && Less(b, a))
  {
    if a != "" && b != "" && a[0] == b[0] {
      LessTotal(a[1..], b[1..]);
      assert a == [a[0]] + a[1..] && b == [b[0]] + b[1..];
    }
  }

  lemma {:induction false} InsertKeeps(x: string, s: seq<string>)
    requires Ordered(s)
    ensures Ordered(Insert(x, s)) && multiset(Insert(x, s)) == multiset([x] + s)
  {
    if s == [] {
    } else if LessEq(x, s[0]) {
      forall j | 0 <= j < |s| ensures LessEq(x, s[j]) {
        if j > 0 && x != s[0] && s[0] != s[j] { LessTransitive(x, s[0], s[j]); }
      }
    } else {
      LessTotal(x, s[0]);
      InsertKeeps(x, s[1..]);
      var rest := Insert(x, s[1..]);
      assert s == [s[0]] + s[1..];
      forall j | 0 <= j < |rest| ensures LessEq(s[0], rest[j]) {
        assert rest[j] in multiset(rest);
        if rest[j] != x {
          assert rest[j] in multiset(s[1..]);
          var k :| 0 <= k < |s[1..]| && s[1..][k] == rest[j];
          assert s[k + 1] == rest[j];
        }
      }
    }
  }

  lemma {:induction false} SortedSorts(s: seq<string>)
    ensures Ordered(Sorted(s)) && multiset(Sorted(s)) == multiset(s) && |Sorted(s)| == |s|
  {
    if s != [] {
      SortedSorts(s[1..]);
      InsertKeeps(s[0], Sorted(s[1..]));
      assert s == [s[0]] + s[1..];
    }
    assert |Sorted(s)| == |multiset(Sorted(s))| == |multiset(s)| == |s|;
  }

  lemma {:induction false} OrderedIsCanonical(a: seq<string>, b: seq<string>)
    requires Ordered(a) && Ordered(b) && multiset(a) == multiset(b)
    ensures a == b
  {
    assert |a| == |multiset(a)| == |multiset(b)| == |b|;
    if a != [] {
      SmallestFirst(a, b);
      SmallestFirst(b, a);
      LessTotal(a[0], b[0]);
      LessIrreflexive(a[0]);
      assert a == [a[0]] + a[1..] && b == [b[0]] + b[1..];
      assert multiset(a[1..]) == multiset(a) - multiset{a[0]};
      assert multiset(b[1..]) == multiset(b) - multiset{b[0]};
      OrderedIsCanonical(a[1..], b[1..]);
    }
  }

  lemma SmallestFirst(a: seq<string>, b: seq<string>)
    requires Ordered(a) && a != [] && b != [] && multiset(a) == multiset(b)
    ensures LessEq(a[0], b[0])
  {
    assert b[0] in multiset(b);
    var k :| 0 <= k < |a| && a[k] == b[0];
  }

  /** Sorting gives one representative of all arrangements of the same scopes. */
  lemma SortedIsCanonical(a: seq<string>, b: seq<string>)
    ensures Sorted(a) == Sorted(b) <==> multiset(a) == multiset(b)
  {
    SortedSorts(a);
    SortedSorts(b);
    if multiset(a) == multiset(b) { OrderedIsCanonical(Sorted(a), Sorted(b)); }
  }

  // ---- Keys. ----

  /** The settings of a service: the digest of a text, and how long before expiry a token is dropped. */
  datatype Settings = Settings(digest: string -> string, leeway: real)

  ghost predicate Injective(f: string -> string) {
    forall x, y :: f(x) == f(y) ==> x == y
  }

  function CacheKey(s: Settings, scopes: seq<string>): string {
    s.digest(Join(Sorted(scopes), '|'))
  }

  /** Two scope lists share a key exactly when, sorted, they break at '|' into the same pieces. */
  lemma KeysCollideIff(s: Settings, a: seq<string>, b: seq<string>)
    requires Injective(s.digest) && a != [] && b != []
    ensures CacheKey(s, a) == CacheKey(s, b) <==> SplitAll(Sorted(a), '|') == SplitAll(Sorted(b), '|')
  {
    SortedSorts(a);
    SortedSorts(b);
    JoinEqualIffSamePieces(Sorted(a), Sorted(b), '|');
  }

  lemma UniformSorted(a: seq<string>, c: char, n: nat)
    requires Uniform(a, c, n)
    ensures Uniform(Sorted(a), c, n)
  {
    SortedSorts(a);
    forall i | 0 <= i < |Sorted(a)| ensures |Split(Sorted(a)[i], c)| == n {
      assert Sorted(a)[i] in multiset(a);
      var k :| 0 <= k < |a| && a[k] == Sorted(a)[i];
    }
  }

  /** When all scopes contain the same number of '|', a shared key means the same scopes in some order. */
  lemma UniformKeysIdentifyScopes(s: Settings, a: seq<string>, b: seq<string>, n: nat)
    requires Injective(s.digest) && a != [] && b != []
    requires Uniform(a, '|', n) && Uniform(b, '|', n)
    ensures CacheKey(s, a) == CacheKey(s, b) <==> multiset(a) == multiset(b)
  {
    SortedIsCanonical(a, b);
    if CacheKey(s, a) == CacheKey(s, b) {
      UniformSorted(a, '|', n);
      UniformSorted(b, '|', n);
      SortedSorts(a);
      SortedSorts(b);
      JoinInjectiveWhenUniform(Sorted(a), Sorted(b), '|', n);
    }
  }

  // ---- One call. ----

  datatype AccessToken = AccessToken(value: string, scopes: seq<string>, expiresAt: real)

  predicate IsExpired(t: AccessToken, leeway: real, now: real) {
    now >= t.expiresAt - leeway
  }

  datatype Lifetime = Omitted | Unparsable | Seconds(seconds: real)

  /** What a token request comes to: an exception of any kind, or a token with its stated lifetime. */
  datatype Reply = Failed | Granted(accessToken: string, expiresIn: Lifetime)

  datatype TokenError = NoScopes | AccessTokenError

  /** A call: the clock when the cached token is judged, the reply to a request, the clock when it is dated. */
  datatype Call = Call(scopes: seq<string>, now: real, reply: Reply, received: real)

  /** A token obtained from the platform: for which scopes, under which key, and when. */
  datatype Mint = Mint(key: string, scopes: seq<string>, at: real, token: AccessToken)

  datatype State = State(cache: map<string, AccessToken>, mints: seq<Mint>)

  function LifetimeOf(l: Lifetime): real {
    match l case Omitted => DEFAULT_TOKEN_LIFETIME case Unparsable => DEFAULT_TOKEN_LIFETIME case Seconds(x) => x
  }

  predicate Serves(s: Settings, st: State, call: Call) {
    var key := CacheKey(s, call.scopes);
    key in st.cache && !IsExpired(st.cache[key], s.leeway, call.now)
  }

  function MintOf(s: Settings, call: Call): Mint
    requires call.reply.Granted?
  {
    Mint(CacheKey(s, call.scopes), call.scopes, call.received,
         AccessToken(call.reply.accessToken, Sorted(call.scopes), call.received + LifetimeOf(call.reply.expiresIn)))
  }

  function GetTokenResult(s: Settings, st: State, call: Call): Result<string, TokenError> {
    if call.scopes == [] then Err(NoScopes)
    else if Serves(s, st, call) then Ok(st.cache[CacheKey(s, call.scopes)].value)
    else if call.reply.Failed? then Err(AccessTokenError)
    else Ok(call.reply.accessToken)
  }

  function GetTokenState(s: Settings, st: State, call: Call): State {
    if call.scopes == [] || Serves(s, st, call) || call.reply.Failed? then st
    else
      var m := MintOf(s, call);
      State(st.cache[m.key := m.token], st.mints + [m])
  }

  class InMemoryTokenCache {
    var store: map<string, AccessToken>

    constructor ()
      ensures store == map[]
    {
      store := map[];
    }

    method Get(key: string) returns (r: Option<AccessToken>)
      ensures r == if key in store then Some(store[key]) else None
    {
      r := if key in store then Some(store[key]) else None;
    }

    method Set(key: string, token: AccessToken)
      modifies this
      ensures store == old(store)[key := token]
    {
      store := store[key := token];
    }
  }

  class AccessTokenService {
    const settings: Settings
    const cache: InMemoryTokenCache
    ghost var mints: seq<Mint>

    ghost function Now(): State
      reads this, cache
    {
      State(cache.store, mints)
    }

    constructor (settings: Settings)
      ensures this.settings == settings && fresh(cache) && Now() == State(map[], [])
    {
      this.settings := settings;
      cache := new InMemoryTokenCache();
      mints := [];
    }

    method GetToken(call: Call) returns (r: Result<string, TokenError>)
      modifies this, cache
      ensures r == GetTokenResult(settings, old(Now()), call)
      ensures Now() == GetTokenState(settings, old(Now()), call)
      ensures r.Err? ==> Now() == old(Now())
    {
      if call.scopes == [] { return Err(NoScopes); }
      var key := CacheKey(settings, call.scopes);
      var cached := cache.Get(key);
      if cached.Some? && !IsExpired(cached.value, settings.leeway, call.now) {
        return Ok(cached.value.value);
      }
      if call.reply.Failed? { return Err(AccessTokenError); }
      var token :=
          AccessToken(call.reply.accessToken, Sorted(call.scopes), call.received + LifetimeOf(call.reply.expiresIn));
      cache.Set(key, token);
      mints := mints + [Mint(key, call.scopes, call.received, token)];
      return Ok(token.value);
    }
  }

  // ---- Runs of calls. ----

  function After(s: Settings, calls: seq<Call>): State {
    if calls == [] then State(map[], [])
    else GetTokenState(s, After(s, calls[..|calls| - 1]), calls[|calls| - 1])
  }

  /** `i` is the latest mint under `key`. */
  ghost predicate Latest(mints: seq<Mint>, key: string, i: int) {
    && 0 <= i < |mints| && mints[i].key == key
    && forall j :: i < j < |mints| ==> mints[j].key != key
  }

  /** The cache holds, under each key ever minted and no other, the latest token minted for it. */
  ghost predicate CacheIsLatest(s: Settings, st: State) {
    && (forall i :: 0 <= i < |st.mints| ==> st.mints[i].key in st.cache)
    && (forall key :: key in st.cache ==> exists i :: Latest(st.mints, key, i) && st.mints[i].token == st.cache[key])
    && (forall i :: 0 <= i < |st.mints| ==>
          st.mints[i].scopes != [] && st.mints[i].key == CacheKey(s, st.mints[i].scopes))
  }

  lemma StepKeepsLatest(s: Settings, st: State, m: Mint)
    requires CacheIsLatest(s, st) && m.scopes != [] && m.key == CacheKey(s, m.scopes)
    ensures CacheIsLatest(s, State(st.cache[m.key := m.token], st.mints + [m]))
  {
    var st' := State(st.cache[m.key := m.token], st.mints + [m]);
    assert Latest(st'.mints, m.key, |st.mints|);
    forall key | key in st'.cache && key != m.key
      ensures exists i :: Latest(st'.mints, key, i) && st'.mints[i].token == st'.cache[key]
    {
      var i :| Latest(st.mints, key, i) && st.mints[i].token == st.cache[key];
      assert Latest(st'.mints, key, i);
    }
  }

  lemma {:induction false} RunsKeepLatest(s: Settings, calls: seq<Call>)
    ensures CacheIsLatest(s, After(s, calls))
  {
    if calls != [] {
      var before, call := calls[..|calls| - 1], calls[|calls| - 1];
      RunsKeepLatest(s, before);
      if After(s, calls) != After(s, before) {
        StepKeepsLatest(s, After(s, before), MintOf(s, call));
      }
    }
  }

  /** `m` is a mint of the run so far whose token is the one handed out. */
  ghost predicate HandedOut(s: Settings, calls: seq<Call>, call: Call, m: Mint, value: string) {
    && m in GetTokenState(s, After(s, calls), call).mints
    && m.token.value == value
  }

  /** What a mint's scopes have in common with the scopes of a call that is answered with its token. */
  ghost predicate SameScopes(minted: seq<string>, asked: seq<string>) {
    && SplitAll(Sorted(minted), '|') == SplitAll(Sorted(asked), '|')
    && (forall n: nat :: Uniform(minted, '|', n) && Uniform(asked, '|', n) ==> multiset(minted) == multiset(asked))
  }

  lemma SharedKeySharesScopes(s: Settings, minted: seq<string>, asked: seq<string>)
    requires Injective(s.digest) && minted != [] && asked != []
    requires CacheKey(s, minted) == CacheKey(s, asked)
    ensures SameScopes(minted, asked)
  {
    KeysCollideIff(s, minted, asked);
    forall n: nat | Uniform(minted, '|', n) && Uniform(asked, '|', n)
      ensures multiset(minted) == multiset(asked)
    {
      UniformKeysIdentifyScopes(s, minted, asked, n);
    }
  }

  /**
   After any run of calls, a token handed out was minted in that run for scopes that break into the
   same pieces; if the scopes all contain equally many '|', for exactly the scopes asked for. When no
   request was made the token is not yet within the leeway of its expiry.
   */
  lemma TokenIsForTheScopes(s: Settings, calls: seq<Call>, call: Call, value: string) returns (m: Mint)
    requires Injective(s.digest)
    requires GetTokenResult(s, After(s, calls), call) == Ok(value)
    ensures HandedOut(s, calls, call, m, value) && SameScopes(m.scopes, call.scopes)
    ensures GetTokenState(s, After(s, calls), call) == After(s, calls) ==> call.now < m.token.expiresAt - s.leeway
  {
    RunsKeepLatest(s, calls);
    var st := After(s, calls);
    if Serves(s, st, call) {
      var key := CacheKey(s, call.scopes);
      var i :| Latest(st.mints, key, i) && st.mints[i].token == st.cache[key];
      m := st.mints[i];
    } else {
      m := MintOf(s, call);
      assert GetTokenState(s, st, call).mints[|st.mints|] == m;
    }
    SharedKeySharesScopes(s, m.scopes, call.scopes);
  }

  /** With unequal numbers of '|' the claim fails: the token for one scope "a|b" serves the two scopes "a" and "b". */
  lemma MixedScopesShareAToken(s: Settings)
    ensures var first := Call(["a|b"], 0.0, Granted("token", Seconds(3600.0)), 0.0);
            var second := Call(["b", "a"], 1.0, Failed, 1.0);
            s.leeway <= 60.0 ==>
              && GetTokenResult(s, After(s, [first]), second) == Ok("token")
              && multiset(first.scopes) != multiset(second.scopes)
  {
    var first := Call(["a|b"], 0.0, Granted("token", Seconds(3600.0)), 0.0);
    var second := Call(["b", "a"], 1.0, Failed, 1.0);
    assert [first][..|[first]| - 1] == [];
    assert Sorted(["a|b"]) == ["a|b"] by { assert ["a|b"][1..] == []; }
    SortedPair();
    assert Join(["a", "b"], '|') == "a|b" by { assert ["a", "b"][1..] == ["b"]; }
    assert CacheKey(s, first.scopes) == CacheKey(s, second.scopes);
    assert multiset(first.scopes)["a"] == 0 && multiset(second.scopes)["a"] == 1;
  }

  lemma SortedPair()
    ensures Sorted(["b", "a"]) == ["a", "b"]
  {
  }

  // ---- When a token is reused, told of the calls alone. ----

  /** How many seconds a reply says its token lives; an hour, when it does not say. */
  ghost function StatedSeconds(reply: Reply): real
    requires reply.Granted?
  {
    if reply.expiresIn.Seconds? then reply.expiresIn.seconds else 3600.0
  }

  /** At call `k` nothing could be reused, and the platform granted a token. */
  ghost predicate GrantedAt(s: Settings, calls: seq<Call>, k: nat)
    decreases k
  {
    && k < |calls| && calls[k].scopes != [] && calls[k].reply.Granted?
    && !exists j: nat :: j < k && GrantedAt(s, calls, j) && Reusable(s, calls[j], calls[k])
                         && forall m: nat :: j < m < k && GrantedAt(s, calls, m) ==> !SameKey(s, calls[m], calls[k])
  }

  ghost predicate SameKey(s: Settings, a: Call, b: Call) {
    CacheKey(s, a.scopes) == CacheKey(s, b.scopes)
  }

  /** The token granted at the one call is for the scopes of the other, and more than the leeway from its end. */
  ghost predicate Reusable(s: Settings, granted: Call, call: Call)
    requires granted.reply.Granted?
  {
    SameKey(s, granted, call) && call.now < granted.received + StatedSeconds(granted.reply) - s.leeway
  }

  /** Of the first `n` calls, `j` is the last at which a token was granted under this key. */
  ghost predicate LastGrant(s: Settings, calls: seq<Call>, n: nat, key: string, j: nat) {
    && j < n && GrantedAt(s, calls, j) && CacheKey(s, calls[j].scopes) == key
    && forall m: nat :: j < m < n && GrantedAt(s, calls, m) ==> CacheKey(s, calls[m].scopes) != key
  }

  ghost predicate HasGrant(s: Settings, calls: seq<Call>, n: nat, key: string) {
    exists j: nat :: LastGrant(s, calls, n, key, j)
  }

  /** The cache holds what the last grant of this key said, if there was one. */
  ghost predicate HoldsLastGrant(s: Settings, calls: seq<Call>, n: nat, cache: map<string, AccessToken>, key: string) {
    && (key in cache ==> HasGrant(s, calls, n, key))
    && (forall j: nat :: LastGrant(s, calls, n, key, j) ==>
          && key in cache && cache[key].value == calls[j].reply.accessToken
          && cache[key].expiresAt == calls[j].received + StatedSeconds(calls[j].reply))
  }

  ghost predicate HoldsLastGrants(s: Settings, calls: seq<Call>, n: nat, cache: map<string, AccessToken>) {
    forall key :: HoldsLastGrant(s, calls, n, cache, key)
  }

  lemma {:induction false} RunsHoldLastGrants(s: Settings, calls: seq<Call>, n: nat)
    requires n <= |calls|
    ensures HoldsLastGrants(s, calls, n, After(s, calls[..n]).cache)
  {
    if n > 0 {
      RunsHoldLastGrants(s, calls, n - 1);
      assert calls[..n][..n - 1] == calls[..n - 1] && calls[..n][n - 1] == calls[n - 1];
      StepHoldsLastGrants(s, calls, n - 1, After(s, calls[..n - 1]));
    }
  }

  lemma RunHoldsLastGrants(s: Settings, calls: seq<Call>)
    ensures HoldsLastGrants(s, calls, |calls|, After(s, calls).cache)
  {
    RunsHoldLastGrants(s, calls, |calls|);
    assert calls[..|calls|] == calls;
  }

  /** A call is served from the cache exactly when the last grant of its key is reusable. */
  lemma ServedIffReusable(s: Settings, calls: seq<Call>, n: nat, st: State, call: Call)
    requires n <= |calls| && HoldsLastGrants(s, calls, n, st.cache)
    ensures Serves(s, st, call) <==>
            exists j: nat :: LastGrant(s, calls, n, CacheKey(s, call.scopes), j) && Reusable(s, calls[j], call)
    ensures forall j: nat :: LastGrant(s, calls, n, CacheKey(s, call.scopes), j) && Reusable(s, calls[j], call) ==>
              st.cache[CacheKey(s, call.scopes)].value == calls[j].reply.accessToken
  {
    hide CacheKey;
    hide GrantedAt;
    var key := CacheKey(s, call.scopes);
    assert HoldsLastGrant(s, calls, n, st.cache, key);
    if key in st.cache {
      assert HasGrant(s, calls, n, key);
      var j: nat :| LastGrant(s, calls, n, key, j);
      assert calls[j].reply.Granted? by { GrantsAreGranted(s, calls, j); }
      assert Serves(s, st, call) <==> Reusable(s, calls[j], call);
    }
  }

  lemma StepHoldsLastGrants(s: Settings, calls: seq<Call>, n: nat, st: State)
    requires n < |calls| && HoldsLastGrants(s, calls, n, st.cache)
    ensures HoldsLastGrants(s, calls, n + 1, GetTokenState(s, st, calls[n]).cache)
  {
    GrantedIff(s, calls, n, st);
    var granted, cache := CacheKey(s, calls[n].scopes), GetTokenState(s, st, calls[n]).cache;
    assert cache == if GrantedAt(s, calls, n)
                    then st.cache[granted := AccessToken(calls[n].reply.accessToken, Sorted(calls[n].scopes),
                                                         calls[n].received + StatedSeconds(calls[n].reply))]
                    else st.cache by { hide GrantedAt; }
    hide GetTokenState;
    hide GrantedAt;
    hide Serves;
    hide HoldsLastGrant;
    hide CacheKey;
    var m := n + 1;
    forall key ensures HoldsLastGrant(s, calls, m, cache, key) {
      KeyHoldsLastGrant(s, calls, n, m, st.cache, cache, key);
    }
  }

  lemma KeyHoldsLastGrant(s: Settings, calls: seq<Call>, n: nat, m: nat, before: map<string, AccessToken>,
      after: map<string, AccessToken>, key: string)
    requires n < |calls| && m == n + 1 && HoldsLastGrant(s, calls, n, before, key)
    requires if GrantedAt(s, calls, n) then
               calls[n].reply.Granted?
               && after == before[CacheKey(s, calls[n].scopes) :=
                                  AccessToken(calls[n].reply.accessToken, Sorted(calls[n].scopes),
                                              calls[n].received + StatedSeconds(calls[n].reply))]
             else after == before
    ensures HoldsLastGrant(s, calls, m, after, key)
  {
    LastGrantStep(s, calls, n, m, key);
    hide LastGrant;
    hide HasGrant;
    hide GrantedAt;
    hide CacheKey;
    hide Sorted;
  }

  lemma GrantsAreGranted(s: Settings, calls: seq<Call>, k: nat)
    requires GrantedAt(s, calls, k)
    ensures calls[k].reply.Granted?
  {
  }

  lemma LastGrantStep(s: Settings, calls: seq<Call>, n: nat, m: nat, key: string)
    requires n < |calls| && m == n + 1
    ensures var granted := GrantedAt(s, calls, n) && key == CacheKey(s, calls[n].scopes);
            && (forall j: nat :: LastGrant(s, calls, m, key, j) <==>
                  if granted then j == n else LastGrant(s, calls, n, key, j))
            && (HasGrant(s, calls, m, key) <==> granted || HasGrant(s, calls, n, key))
  {
    hide GrantedAt;
    hide CacheKey;
    var granted := GrantedAt(s, calls, n) && key == CacheKey(s, calls[n].scopes);
    forall j: nat
      ensures LastGrant(s, calls, m, key, j) <==> if granted then j == n else LastGrant(s, calls, n, key, j)
    {
      if j < n {
        assert LastGrant(s, calls, m, key, j) ==> LastGrant(s, calls, n, key, j);
        if LastGrant(s, calls, m, key, j) && GrantedAt(s, calls, n) { assert key != CacheKey(s, calls[n].scopes); }
      }
    }
    if granted {
      assert LastGrant(s, calls, m, key, n);
    } else if HasGrant(s, calls, n, key) {
      var j: nat :| LastGrant(s, calls, n, key, j);
      assert LastGrant(s, calls, m, key, j);
    }
  }

  /** A token is granted exactly when the call is not served from the cache and its reply grants one. */
  lemma GrantedIff(s: Settings, calls: seq<Call>, n: nat, st: State)
    requires n < |calls| && HoldsLastGrants(s, calls, n, st.cache)
    ensures GrantedAt(s, calls, n) <==> calls[n].scopes != [] && !Serves(s, st, calls[n]) && calls[n].reply.Granted?
  {
    ServedIffReusable(s, calls, n, st, calls[n]);
    hide CacheKey;
    hide Serves;
    var key := CacheKey(s, calls[n].scopes);
    if j: nat :| LastGrant(s, calls, n, key, j) && Reusable(s, calls[j], calls[n]) {
      assert j < n && GrantedAt(s, calls, j) && Reusable(s, calls[j], calls[n]);
    }
    if j: nat :| j < n && GrantedAt(s, calls, j) && Reusable(s, calls[j], calls[n])
                 && forall m: nat :: j < m < n && GrantedAt(s, calls, m) ==> !SameKey(s, calls[m], calls[n]) {
      assert LastGrant(s, calls, n, key, j);
    }
  }

  /**
   After any run, a call is answered from the cache, with the token of the last grant of its key, exactly while the
   stated lifetime of that token, less the leeway, has not run out since it was received; the state is then the
   same. Otherwise the platform is asked, and its token handed out, dated and remembered for the sorted scopes.
   */
  lemma TokensAreReusedForTheirLifetime(s: Settings, calls: seq<Call>, call: Call, j: nat)
    requires call.scopes != [] && LastGrant(s, calls, |calls|, CacheKey(s, call.scopes), j)
    ensures var st := After(s, calls);
            if call.now < calls[j].received + StatedSeconds(calls[j].reply) - s.leeway then
              GetTokenResult(s, st, call) == Ok(calls[j].reply.accessToken) && GetTokenState(s, st, call) == st
            else AsksPlatform(s, st, call)
  {
    RunHoldsLastGrants(s, calls);
    hide After;
    ServedIffReusable(s, calls, |calls|, After(s, calls), call);
    hide HoldsLastGrants;
    hide CacheKey;
    hide Serves;
    hide GrantedAt;
  }

  /** With no grant under the key there is nothing to reuse. */
  lemma UngrantedTokensAreAskedFor(s: Settings, calls: seq<Call>, call: Call)
    requires call.scopes != [] && !HasGrant(s, calls, |calls|, CacheKey(s, call.scopes))
    ensures AsksPlatform(s, After(s, calls), call)
  {
    RunHoldsLastGrants(s, calls);
    hide After;
    ServedIffReusable(s, calls, |calls|, After(s, calls), call);
    hide HoldsLastGrants;
    hide CacheKey;
    hide Serves;
    hide GrantedAt;
  }

  /** The platform's answer decides: nothing changes if it fails, else its token is handed out and remembered. */
  ghost predicate AsksPlatform(s: Settings, st: State, call: Call) {
    match call.reply
    case Failed => GetTokenResult(s, st, call) == Err(AccessTokenError) && GetTokenState(s, st, call) == st
    case Granted(value, _) =>
      && GetTokenResult(s, st, call) == Ok(value)
      && GetTokenState(s, st, call).cache ==
         st.cache[CacheKey(s, call.scopes) :=
                  AccessToken(value, Sorted(call.scopes), call.received + StatedSeconds(call.reply))]
  }

  /** No scopes, no token. */
  lemma NoScopesNoToken(s: Settings, st: State, call: Call)
    requires call.scopes == []
    ensures GetTokenResult(s, st, call) == Err(NoScopes) && GetTokenState(s, st, call) == st
  {
  }

  /** At place `k` the one string ends, or differs from the other by a smaller character, and before it they agree. */
  ghost predicate LessAt(a: string, b: string, k: nat) {
    k <= |a| && k < |b| && a[..k] == b[..k] && (k == |a| || a[k] < b[k])
  }

  /** Strings are ordered as dictionaries order words: by the first place where they differ. */
  lemma {:induction false} LessIsLexicographic(a: string, b: string)
    ensures Less(a, b) <==> exists k: nat :: LessAt(a, b, k)
  {
    if a != "" && b != "" {
      var x, y := a[1..], b[1..];
      LessIsLexicographic(x, y);
      if a[0] == b[0] {
        if k: nat :| LessAt(x, y, k) {
          assert a[..k + 1] == [a[0]] + x[..k] && b[..k + 1] == [b[0]] + y[..k];
          assert LessAt(a, b, k + 1);
        }
        if k: nat :| LessAt(a, b, k) {
          assert k > 0;
          assert x[..k - 1] == a[..k][1..] && y[..k - 1] == b[..k][1..];
          assert LessAt(x, y, k - 1);
        }
      } else {
        forall k: nat | 0 < k <= |a| && k < |b| ensures a[..k] != b[..k] { assert a[..k][0] != b[..k][0]; }
        assert a[0] < b[0] ==> LessAt(a, b, 0);
      }
    } else if b != "" {
      assert LessAt(a, b, 0);
    }
  }

  // ---- How often tokens are requested. ----

  /** The times of the mints under one key, in order. */
  function Times(mints: seq<Mint>, key: string): seq<real> {
    if mints == [] then []
    else
      var last := mints[|mints| - 1];
      Times(mints[..|mints| - 1], key) + (if last.key == key then [last.at] else [])
  }

  /** The clock does not go back while a call waits for its token. */
  ghost predicate Monotone(calls: seq<Call>) {
    forall i :: 0 <= i < |calls| ==> calls[i].now <= calls[i].received
  }

  /** Every granted lifetime is at least `e`. */
  ghost predicate LivesAtLeast(calls: seq<Call>, e: real) {
    forall i :: 0 <= i < |calls| && calls[i].reply.Granted? ==> LifetimeOf(calls[i].reply.expiresIn) >= e
  }

  ghost predicate Spaced(ts: seq<real>, d: real) {
    forall i :: 0 < i < |ts| ==> ts[i] - ts[i - 1] >= d
  }

  /** The mints of a key are spaced, and the cached token outlives the latest of them by `e`. */
  ghost predicate SpacedState(s: Settings, st: State, key: string, e: real) {
    var ts := Times(st.mints, key);
    && Spaced(ts, e - s.leeway)
    && (key in st.cache <==> ts != [])
    && (ts != [] ==> st.cache[key].expiresAt >= ts[|ts| - 1] + e)
  }

  lemma StepSpacesMints(s: Settings, st: State, m: Mint, key: string, e: real, now: real)
    requires SpacedState(s, st, key, e)
    requires m.token.expiresAt >= m.at + e && now <= m.at
    requires m.key in st.cache ==> IsExpired(st.cache[m.key], s.leeway, now)
    ensures SpacedState(s, State(st.cache[m.key := m.token], st.mints + [m]), key, e)
  {
  }

  lemma {:induction false} RunsSpaceMints(s: Settings, calls: seq<Call>, key: string, e: real)
    requires LivesAtLeast(calls, e) && Monotone(calls)
    ensures SpacedState(s, After(s, calls), key, e)
  {
    if calls != [] {
      var before, call := calls[..|calls| - 1], calls[|calls| - 1];
      RunsSpaceMints(s, before, key, e);
      if After(s, calls) != After(s, before) {
        StepSpacesMints(s, After(s, before), MintOf(s, call), key, e, call.now);
      }
    }
  }

  lemma {:induction false} SpacedApart(ts: seq<real>, d: real, i: nat, n: nat)
    requires Spaced(ts, d) && i + n < |ts|
    ensures n as real * d <= ts[i + n] - ts[i]
    decreases n
  {
    if n > 0 {
      SpacedApart(ts, d, i, n - 1);
      assert n as real * d == (n - 1) as real * d + d;
    }
  }

  /**
   With a clock that does not go back during a call and lifetimes of at least `e` > leeway, the mints of
   one key that fall in a window of length `w` number at most 1 + w / (e - leeway). Here they are the
   n + 1 mints from the `i`-th to the (i + n)-th.
   */
  lemma MintRateIsBounded(s: Settings, calls: seq<Call>, key: string, e: real, ts: seq<real>, i: nat, n: nat, w: real)
    requires LivesAtLeast(calls, e) && Monotone(calls)
    requires ts == Times(After(s, calls).mints, key)
    requires i + n < |ts| && ts[i + n] - ts[i] <= w
    requires e > s.leeway
    ensures (n + 1) as real <= 1.0 + w / (e - s.leeway)
  {
    var d := e - s.leeway;
    assert Spaced(ts, d) by { RunsSpaceMints(s, calls, key, e); }
    SpacedApart(ts, d, i, n);
    DivideBy(n as real, d, w);
  }

  lemma DivideBy(x: real, d: real, w: real)
    requires d > 0.0 && x * d <= w
    ensures x <= w / d
  {
    var q := w / d;
    assert q * d == w;
    assert (q - x) * d >= 0.0;
  }
}
