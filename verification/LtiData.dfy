/**
 The documents of a launch and the values kept between requests. In a document the empty string
 stands for a claim that is absent or empty, which the code never tells apart.
 */
module LtiData {
  import opened Wrappers

  datatype Audience = NoAudience | One(id: string) | Many(ids: seq<string>)

  datatype Body = Body(iss: string, aud: Audience, nonce: string, deploymentId: string, messageType: string,
    claims: map<string, string>)

  const EMPTY_BODY := Body("", NoAudience, "", "", "", map[])

  datatype Header = Header(kid: string, alg: string)

  /** What parsing a text as JSON comes to when an object is expected. */
  datatype Json<+T> = Malformed | NotObject | Object(value: T)

  datatype Jwk = Jwk(kid: string, alg: Option<string>, material: string)

  /** A key set document: empty, no dictionary, or a dictionary without or with a list of keys, and with any claims. */
  datatype KeySet = EmptyDoc | NotDict | NoKeys(claims: Body) | Keys(keys: seq<Jwk>, claims: Body)

  /** A value in the cache: the mark of a nonce, a token hash, a dictionary of claims or parameters, or a key set. */
  datatype Value = Mark | Hash(s: string) | Dict(body: Body) | Jwks(keySet: KeySet)

  type Store = map<string, Value>

  // ---- The shapes of minted values. ----

  predicate IsHex(c: char) { '0' <= c <= '9' || 'a' <= c <= 'f' }

  predicate IsVariant(c: char) { c == '8' || c == '9' || c == 'a' || c == 'b' }

  predicate IsHyphenPlace(i: int) { i == 8 || i == 13 || i == 18 || i == 23 }

  /** A random UUID in its hyphenated form, with the digits of its version and variant. */
  predicate IsUuid(s: string) {
    && |s| == 36
    && (forall i :: 0 <= i < 36 ==> if IsHyphenPlace(i) then s[i] == '-' else IsHex(s[i]))
    && s[14] == '4' && IsVariant(s[19])
  }

  /** A random UUID and a time-based one, both without hyphens, one after the other. */
  predicate IsNonce(s: string) {
    && |s| == 64 && (forall i :: 0 <= i < 64 ==> IsHex(s[i]))
    && s[12] == '4' && IsVariant(s[16]) && s[44] == '1' && IsVariant(s[48])
  }
}
