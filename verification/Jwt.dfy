/**
 The compact form of a JSON Web Token (section 7.1 of RFC 7515) and the base64url decoding
 that the launch code applies to its first two parts (section 5 of RFC 4648).
 */
module Jwt {
  import opened Wrappers
  import opened Text

  type Byte = b: int | 0 <= b < 256
  type Sextet = v: int | 0 <= v < 64

  // ---- The encoder: three bytes become four digits; no padding is written. ----

  function Digit(v: Sextet): (c: char) {
    if v < 26 then (v + 'A' as int) as char
    else if v < 52 then (v - 26 + 'a' as int) as char
    else if v < 62 then (v - 52 + '0' as int) as char
    else if v == 62 then '-' else '_'
  }

  function Encode(b: seq<Byte>): string {
    if |b| == 0 then ""
    else if |b| == 1 then [Digit(b[0] / 4), Digit(b[0] % 4 * 16)]
    else if |b| == 2 then [Digit(b[0] / 4), Digit(b[0] % 4 * 16 + b[1] / 16), Digit(b[1] % 16 * 4)]
    else Quad(b[0], b[1], b[2]) + Encode(b[3..])
  }

  function Quad(x: Byte, y: Byte, z: Byte): string {
    [Digit(x / 4), Digit(x % 4 * 16 + y / 16), Digit(y % 16 * 4 + z / 64), Digit(z % 64)]
  }

  /** The compact serialisation of header, payload and signature. */
  function Compact(header: seq<Byte>, payload: seq<Byte>, signature: seq<Byte>): string {
    Encode(header) + "." + Encode(payload) + "." + Encode(signature)
  }

  // ---- The decoder of the launch code. ----

  /** Restores the padding that base64url drops. */
  function Pad(val: string): string {
    var remainder := |val| % 4;
    if remainder > 0 then val + seq(4 - remainder, _ => '=') else val
  }

  function TranslateChar(c: char): char {
    if c == '-' then '+' else if c == '_' then '/' else c
  }

  function Translate(s: string): string {
    if s == "" then "" else [TranslateChar(s[0])] + Translate(s[1..])
  }

  /** The value of a digit of the standard alphabet. */
  function Value(c: char): Option<Sextet> {
    if 'A' <= c <= 'Z' then Some(c as int - 'A' as int)
    else if 'a' <= c <= 'z' then Some(c as int - 'a' as int + 26)
    else if '0' <= c <= '9' then Some(c as int - '0' as int + 52)
    else if c == '+' then Some(62)
    else if c == '/' then Some(63)
    else None
  }

  predicate Carry(quad: int, left: int) {
    (quad == 0 && left == 0) || (quad == 1 && 0 <= left < 64) || (quad == 2 && 0 <= left < 16)
      || (quad == 3 && 0 <= left < 4)
  }

  function Prepend(b: Byte, rest: Option<seq<Byte>>): Option<seq<Byte>> {
    match rest case None => None case Some(bs) => Some([b] + bs)
  }

  /**
   The lenient scanner behind `base64.b64decode`: characters outside the alphabet are skipped,
   padding that completes a group of four ends the input, and input that stops inside a group
   is an error. `quad` is the position in the group and `left` holds the bits not yet emitted.
   */
  function Scan(s: string, quad: int, left: int, pads: nat): Option<seq<Byte>>
    requires Carry(quad, left)
  {
    if s == "" then (if quad == 0 then Some([]) else None)
    else if s[0] == '=' then
      if quad >= 2 then (if quad + pads + 1 >= 4 then Some([]) else Scan(s[1..], quad, left, pads + 1))
      else Scan(s[1..], quad, left, pads)
    else
      match Value(s[0])
      case None => Scan(s[1..], quad, left, pads)
      case Some(v) =>
        if quad == 0 then Scan(s[1..], 1, v, 0)
        else if quad == 1 then Prepend(left * 4 + v / 16, Scan(s[1..], 2, v % 16, 0))
        else if quad == 2 then Prepend(left * 16 + v / 4, Scan(s[1..], 3, v % 4, 0))
        else Prepend(left * 64 + v, Scan(s[1..], 0, 0, 0))
  }

  predicate Ascii(s: string) {
    forall i :: 0 <= i < |s| ==> s[i] as int < 128
  }

  /** `urlsafe_b64decode` up to the bytes it yields; None stands for the exception it raises. */
  function UrlsafeB64Decode(val: string): Option<seq<Byte>> {
    var tmp := Translate(Pad(val));
    if Ascii(tmp) then Scan(tmp, 0, 0, 0) else None
  }

  /** The three parts of an id token, when there are exactly three. */
  function Parts(idToken: string): Option<(string, string, string)> {
    var parts := Split(idToken, '.');
    if |parts| != 3 then None else Some((parts[0], parts[1], parts[2]))
  }

  // ---- Decoding undoes encoding. ----

  ghost predicate UrlDigits(s: string) {
    forall i :: 0 <= i < |s| ==> exists v: Sextet :: s[i] == Digit(v)
  }

  lemma DigitFacts(v: Sextet)
    ensures Value(TranslateChar(Digit(v))) == Some(v)
    ensures TranslateChar(Digit(v)) != '=' && TranslateChar(Digit(v)) as int < 128 && Digit(v) != '.'
  {
  }

  lemma EncodeDigits(b: seq<Byte>)
    ensures UrlDigits(Encode(b)) && '.' !in Encode(b)
  {
  }

  lemma {:induction false} TranslateAppend(a: string, b: string)
    ensures Translate(a + b) == Translate(a) + Translate(b)
  {
    if a == "" {
      assert a + b == b;
    } else {
      TranslateAppend(a[1..], b);
      assert (a + b)[1..] == a[1..] + b && (a + b)[0] == a[0];
      assert [TranslateChar(a[0])] + (Translate(a[1..]) + Translate(b)) == Translate(a) + Translate(b);
    }
  }

  lemma {:induction false} TranslateAt(s: string)
    ensures |Translate(s)| == |s|
    ensures forall i :: 0 <= i < |s| ==> Translate(s)[i] == TranslateChar(s[i])
  {
    if s != "" { TranslateAt(s[1..]); }
  }

  lemma PadGroup(a: string, s: string)
    requires |a| == 4
    ensures Pad(a + s) == a + Pad(s)
  {
  }

  /** One digit moves the scanner one place on. */
  lemma ScanDigit(v: Sextet, s: string, quad: int, left: int, pads: nat)
    requires Carry(quad, left)
    ensures Scan([TranslateChar(Digit(v))] + s, quad, left, pads) ==
            if quad == 0 then Scan(s, 1, v, 0)
            else if quad == 1 then Prepend(left * 4 + v / 16, Scan(s, 2, v % 16, 0))
            else if quad == 2 then Prepend(left * 16 + v / 4, Scan(s, 3, v % 4, 0))
            else Prepend(left * 64 + v, Scan(s, 0, 0, 0))
  {
    DigitFacts(v);
    assert ([TranslateChar(Digit(v))] + s)[1..] == s;
  }

  /** The two halves of a group: from its start to its middle, and from its middle to its end. */
  lemma ScanFirstTwo(v0: Sextet, v1: Sextet, s: string)
    ensures Scan(Translate([Digit(v0), Digit(v1)]) + s, 0, 0, 0) == Prepend(v0 * 4 + v1 / 16, Scan(s, 2, v1 % 16, 0))
  {
    hide Scan;
    hide Digit;
    var s1 := [TranslateChar(Digit(v1))] + s;
    ScanDigit(v0, s1, 0, 0, 0);
    ScanDigit(v1, s, 1, v0, 0);
    TranslateAt([Digit(v0), Digit(v1)]);
    assert Translate([Digit(v0), Digit(v1)]) + s == [TranslateChar(Digit(v0))] + s1;
  }

  lemma ScanLastTwo(left: int, v2: Sextet, v3: Sextet, s: string)
    requires 0 <= left < 16
    ensures Scan(Translate([Digit(v2), Digit(v3)]) + s, 2, left, 0) ==
            Prepend(left * 16 + v2 / 4, Prepend(v2 % 4 * 64 + v3, Scan(s, 0, 0, 0)))
  {
    hide Scan;
    hide Digit;
    var s3 := [TranslateChar(Digit(v3))] + s;
    ScanDigit(v2, s3, 2, left, 0);
    ScanDigit(v3, s, 3, v2 % 4, 0);
    TranslateAt([Digit(v2), Digit(v3)]);
    assert Translate([Digit(v2), Digit(v3)]) + s == [TranslateChar(Digit(v2))] + s3;
  }

  /** A whole group of four digits yields three bytes and leaves the scanner as it started. */
  lemma ScanGroup(v0: Sextet, v1: Sextet, v2: Sextet, v3: Sextet, s: string)
    ensures Scan(Translate([Digit(v0), Digit(v1), Digit(v2), Digit(v3)]) + s, 0, 0, 0) ==
            Prepend(v0 * 4 + v1 / 16, Prepend(v1 % 16 * 16 + v2 / 4, Prepend(v2 % 4 * 64 + v3, Scan(s, 0, 0, 0))))
  {
    hide Scan;
    hide Digit;
    var front, back := Translate([Digit(v0), Digit(v1)]), Translate([Digit(v2), Digit(v3)]);
    TranslateAppend([Digit(v0), Digit(v1)], [Digit(v2), Digit(v3)]);
    assert [Digit(v0), Digit(v1)] + [Digit(v2), Digit(v3)] == [Digit(v0), Digit(v1), Digit(v2), Digit(v3)];
    assert (front + back) + s == front + (back + s);
    ScanFirstTwo(v0, v1, back + s);
    ScanLastTwo(v1 % 16, v2, v3, s);
  }

  /** Padding that completes a group ends the input; padding inside the first half does not. */
  lemma ScanPadding(left: int)
    ensures 0 <= left < 16 ==> Scan("==", 2, left, 0) == Some([])
    ensures 0 <= left < 4 ==> Scan("=", 3, left, 0) == Some([])
    ensures 0 <= left < 64 ==> Scan("===", 1, left, 0) == None
  {
    assert "==="[1..] == "==" && "=="[1..] == "=" && "="[1..] == "";
    if 0 <= left < 16 {
      assert Scan("=", 2, left, 1) == Some([]);
    }
    if 0 <= left < 64 {
      assert Scan("", 1, left, 0) == None;
      assert Scan("=", 1, left, 0) == None;
      assert Scan("==", 1, left, 0) == None;
    }
  }

  lemma ScanTailOfOne(v0: Sextet, v1: Sextet)
    ensures Scan(Translate([Digit(v0), Digit(v1)] + "=="), 0, 0, 0) == Some([v0 * 4 + v1 / 16])
  {
    hide Scan;
    hide Digit;
    ScanFirstTwo(v0, v1, "==");
    ScanPadding(v1 % 16);
    TranslateAppend([Digit(v0), Digit(v1)], "==");
    TranslateAt("==");
    assert Translate("==") == "==";
    var x: Byte := v0 * 4 + v1 / 16;
    assert [x] + [] == [x];
  }

  lemma ScanTailOfTwo(v0: Sextet, v1: Sextet, v2: Sextet)
    ensures Scan(Translate([Digit(v0), Digit(v1), Digit(v2)] + "="), 0, 0, 0) ==
            Some([v0 * 4 + v1 / 16, v1 % 16 * 16 + v2 / 4])
  {
    hide Scan;
    hide Digit;
    var tail := [TranslateChar(Digit(v2))] + "=";
    ScanFirstTwo(v0, v1, tail);
    ScanDigit(v2, "=", 2, v1 % 16, 0);
    ScanPadding(v2 % 4);
    TranslateAppend([Digit(v0), Digit(v1)], [Digit(v2)] + "=");
    assert [Digit(v0), Digit(v1), Digit(v2)] + "=" == [Digit(v0), Digit(v1)] + ([Digit(v2)] + "=");
    TranslateAt([Digit(v2)] + "=");
    assert Translate([Digit(v2)] + "=") == tail;
    var x: Byte, y: Byte := v0 * 4 + v1 / 16, v1 % 16 * 16 + v2 / 4;
    assert [x] + ([y] + []) == [x, y];
  }

  lemma PaddedDigitsAreAscii(s: string)
    requires UrlDigits(s)
    ensures Ascii(Translate(Pad(s)))
  {
    TranslateAt(Pad(s));
    forall i | 0 <= i < |Pad(s)| ensures Translate(Pad(s))[i] as int < 128 {
      if i < |s| {
        var v: Sextet :| s[i] == Digit(v);
        DigitFacts(v);
      }
    }
  }

  /** Three bytes survive being cut into four sextets. */
  lemma SextetArithmetic(x: Byte, y: Byte, z: Byte)
    ensures x / 4 * 4 + (x % 4 * 16 + y / 16) / 16 == x
    ensures (x % 4 * 16 + y / 16) % 16 * 16 + (y % 16 * 4 + z / 64) / 4 == y
    ensures (y % 16 * 4 + z / 64) % 4 * 64 + z % 64 == z
  {
    assert (x % 4 * 16 + y / 16) / 16 == x % 4 && (x % 4 * 16 + y / 16) % 16 == y / 16;
    assert (y % 16 * 4 + z / 64) / 4 == y % 16 && (y % 16 * 4 + z / 64) % 4 == z / 64;
  }

  lemma TailOfOneRoundTrip(x: Byte)
    ensures Scan(Translate(Pad(Encode([x]))), 0, 0, 0) == Some([x])
  {
    var v0: Sextet, v1: Sextet := x / 4, x % 4 * 16;
    SextetArithmetic(x, 0, 0);
    ScanTailOfOne(v0, v1);
    assert Pad(Encode([x])) == [Digit(v0), Digit(v1)] + "==";
  }

  lemma TailOfTwoRoundTrip(x: Byte, y: Byte)
    ensures Scan(Translate(Pad(Encode([x, y]))), 0, 0, 0) == Some([x, y])
  {
    var v0: Sextet, v1: Sextet, v2: Sextet := x / 4, x % 4 * 16 + y / 16, y % 16 * 4;
    SextetArithmetic(x, y, 0);
    ScanTailOfTwo(v0, v1, v2);
    assert Pad(Encode([x, y])) == [Digit(v0), Digit(v1), Digit(v2)] + "=";
  }

  lemma QuadRoundTrip(x: Byte, y: Byte, z: Byte, s: string)
    ensures Scan(Translate(Quad(x, y, z)) + s, 0, 0, 0) == Prepend(x, Prepend(y, Prepend(z, Scan(s, 0, 0, 0))))
  {
    var v0: Sextet, v1: Sextet, v2: Sextet, v3: Sextet := x / 4, x % 4 * 16 + y / 16, y % 16 * 4 + z / 64, z % 64;
    SextetArithmetic(x, y, z);
    ScanGroup(v0, v1, v2, v3, s);
  }

  lemma {:induction false} ScanEncoded(b: seq<Byte>)
    ensures Scan(Translate(Pad(Encode(b))), 0, 0, 0) == Some(b)
  {
    if |b| == 0 {
    } else if |b| == 1 {
      TailOfOneRoundTrip(b[0]);
      assert b == [b[0]];
    } else if |b| == 2 {
      TailOfTwoRoundTrip(b[0], b[1]);
      assert b == [b[0], b[1]];
    } else {
      ScanEncoded(b[3..]);
      ScanEncodedStep(b[0], b[1], b[2], b[3..]);
      assert b == [b[0], b[1], b[2]] + b[3..];
    }
  }

  lemma ScanEncodedStep(x: Byte, y: Byte, z: Byte, b: seq<Byte>)
    requires Scan(Translate(Pad(Encode(b))), 0, 0, 0) == Some(b)
    ensures Scan(Translate(Pad(Encode([x, y, z] + b))), 0, 0, 0) == Some([x, y, z] + b)
  {
    var rest := Pad(Encode(b));
    assert ([x, y, z] + b)[3..] == b;
    PadGroup(Quad(x, y, z), Encode(b));
    TranslateAppend(Quad(x, y, z), rest);
    QuadRoundTrip(x, y, z, Translate(rest));
    assert [x, y, z] + b == [x] + ([y] + ([z] + b));
  }

  /** The launch code's decoding recovers every byte string from its base64url form. */
  lemma DecodeEncode(b: seq<Byte>)
    ensures UrlsafeB64Decode(Encode(b)) == Some(b)
  {
    EncodeDigits(b);
    PaddedDigitsAreAscii(Encode(b));
    ScanEncoded(b);
  }

  /** Splitting a compact token gives its three parts. */
  lemma CompactParts(header: seq<Byte>, payload: seq<Byte>, signature: seq<Byte>)
    ensures Parts(Compact(header, payload, signature)) == Some((Encode(header), Encode(payload), Encode(signature)))
  {
    var h, p, s := Encode(header), Encode(payload), Encode(signature);
    EncodeDigits(header);
    EncodeDigits(payload);
    EncodeDigits(signature);
    assert Compact(header, payload, signature) == h + ['.'] + (p + ['.'] + s);
    hide Encode;
    hide UrlDigits;
    hide Compact;
    SplitWithoutSeparator(h, '.');
    SplitWithoutSeparator(p, '.');
    SplitWithoutSeparator(s, '.');
    SplitAtSeparator(p, '.', s);
    SplitAtSeparator(h, '.', p + ['.'] + s);
  }

  /** From a compact token the launch code recovers the header and the payload that were encoded. */
  lemma CompactRoundTrip(header: seq<Byte>, payload: seq<Byte>, signature: seq<Byte>)
    ensures var parts := Parts(Compact(header, payload, signature));
            parts.Some? && UrlsafeB64Decode(parts.value.0) == Some(header)
              && UrlsafeB64Decode(parts.value.1) == Some(payload)
  {
    CompactParts(header, payload, signature);
    DecodeEncode(header);
    DecodeEncode(payload);
  }

  /** A text has three parts exactly when it contains two full stops. */
  lemma PartsIffTwoStops(idToken: string)
    ensures Parts(idToken).Some? <==> Count(idToken, '.') == 2
  {
    PiecesAreBetweenSeparators(idToken, '.');
  }

  /** Distinct tokens have distinct parts: the parts determine the token. */
  lemma PartsDetermineToken(a: string, b: string)
    requires Parts(a).Some? && Parts(a) == Parts(b)
    ensures a == b
  {
    JoinSplit(a, '.');
    JoinSplit(b, '.');
    assert Split(a, '.') == Split(b, '.');
  }

  // ---- The leniency of the decoder. ----

  /** A digit of the standard alphabet. */
  ghost predicate InAlphabet(c: char) {
    'A' <= c <= 'Z' || 'a' <= c <= 'z' || '0' <= c <= '9' || c == '+' || c == '/'
  }

  /** The digits have the values they should, and the two that base64url replaces are still accepted. */
  lemma AlphabetIsStandard(c: char)
    ensures 65 <= c as int <= 90 ==> Value(c) == Some(c as int - 65)
    ensures 97 <= c as int <= 122 ==> Value(c) == Some(c as int - 71)
    ensures 48 <= c as int <= 57 ==> Value(c) == Some(c as int + 4)
    ensures Value('+') == Some(62) && Value('/') == Some(63) && (!InAlphabet(c) ==> Value(c) == None)
    ensures TranslateChar('-') == '+' && TranslateChar('_') == '/' && (c != '-' && c != '_' ==> TranslateChar(c) == c)
  {
  }

  /** The text without the characters that are neither digits nor padding. */
  ghost function Kept(s: string): string {
    if s == "" then "" else (if InAlphabet(s[0]) || s[0] == '=' then [s[0]] else "") + Kept(s[1..])
  }

  /** Two texts are scanned alike, from wherever the scan stands. */
  ghost predicate ScannedAlike(s: string, t: string) {
    forall quad, left, pads: nat :: Carry(quad, left) ==> Scan(s, quad, left, pads) == Scan(t, quad, left, pads)
  }

  /** Characters that are neither digits nor padding do not matter, wherever they stand. */
  lemma {:induction false} OtherCharactersAreSkipped(s: string)
    ensures ScannedAlike(s, Kept(s))
  {
    if s != "" {
      var c, tail := s[0], s[1..];
      OtherCharactersAreSkipped(tail);
      AlphabetIsStandard(c);
      assert s == [c] + tail;
      if InAlphabet(c) || c == '=' {
        BeginAlike(c, tail, Kept(tail));
      } else {
        assert Kept(s) == Kept(tail);
        SkippedAlike(c, tail);
      }
    }
  }

  lemma SkippedAlike(c: char, tail: string)
    requires Value(c) == None && c != '='
    ensures ScannedAlike([c] + tail, tail)
  {
    hide Value;
    assert ([c] + tail)[1..] == tail;
  }

  lemma BeginAlike(c: char, s: string, t: string)
    requires ScannedAlike(s, t)
    ensures ScannedAlike([c] + s, [c] + t)
  {
    forall quad, left, pads: nat | Carry(quad, left)
      ensures Scan([c] + s, quad, left, pads) == Scan([c] + t, quad, left, pads)
    {
      ScanHead(c, s, quad, left, pads);
      ScanHead(c, t, quad, left, pads);
      hide Scan;
      hide Value;
    }
  }

  /** What scanning a character comes to, in terms of scanning the rest. */
  lemma ScanHead(c: char, s: string, quad: int, left: int, pads: nat)
    requires Carry(quad, left)
    ensures Scan([c] + s, quad, left, pads) ==
            if c == '=' then
              if quad < 2 then Scan(s, quad, left, pads)
              else if quad + pads + 1 >= 4 then Some([]) else Scan(s, quad, left, pads + 1)
            else if Value(c) == None then Scan(s, quad, left, pads)
            else
              var v := Value(c).value;
              if quad == 0 then Scan(s, 1, v, 0)
              else if quad == 1 then Prepend(left * 4 + v / 16, Scan(s, 2, v % 16, 0))
              else if quad == 2 then Prepend(left * 16 + v / 4, Scan(s, 3, v % 4, 0))
              else Prepend(left * 64 + v, Scan(s, 0, 0, 0))
  {
    hide Value;
    assert ([c] + s)[1..] == s;
  }

  /** Padding that completes a group ends the input, whatever follows it; padding at the start of one is passed over. */
  lemma PaddingEndsTheInput(rest: string, left: int)
    ensures 0 <= left < 16 ==> Scan("==" + rest, 2, left, 0) == Some([])
    ensures 0 <= left < 4 ==> Scan("=" + rest, 3, left, 0) == Some([])
    ensures 0 <= left < 16 ==> Scan("=", 2, left, 0) == None
    ensures Scan("=" + rest, 0, 0, 0) == Scan(rest, 0, 0, 0)
    ensures 0 <= left < 64 ==> Scan("=" + rest, 1, left, 0) == Scan(rest, 1, left, 0)
  {
    assert ("==" + rest)[1..] == "=" + rest && ("=" + rest)[1..] == rest && "="[1..] == "";
  }

  /** Input that is not ASCII is refused, and so is input that stops inside a group. */
  lemma RefusedInput(val: string, i: nat, quad: int, left: int)
    ensures i < |val| && val[i] as int >= 128 ==> UrlsafeB64Decode(val) == None
    ensures Carry(quad, left) && quad != 0 ==> Scan("", quad, left, 0) == None
  {
    if i < |val| && val[i] as int >= 128 {
      assert Pad(val)[i] == val[i];
      TranslateAt(Pad(val));
    }
  }

  // ---- Which digit strings decode at all. ----

  lemma {:induction false} DigitsDecodeIffNotOneOver(s: string)
    requires UrlDigits(s)
    ensures UrlsafeB64Decode(s).Some? <==> |s| % 4 != 1
    decreases |s|
  {
    PaddedDigitsAreAscii(s);
    if |s| >= 4 {
      var v0: Sextet :| s[0] == Digit(v0);
      var v1: Sextet :| s[1] == Digit(v1);
      var v2: Sextet :| s[2] == Digit(v2);
      var v3: Sextet :| s[3] == Digit(v3);
      var group, rest := [Digit(v0), Digit(v1), Digit(v2), Digit(v3)], s[4..];
      assert s == group + rest;
      assert UrlDigits(rest) by {
        forall i | 0 <= i < |rest| ensures exists v: Sextet :: rest[i] == Digit(v) { assert rest[i] == s[i + 4]; }
      }
      DigitsDecodeIffNotOneOver(rest);
      PaddedDigitsAreAscii(rest);
      PadGroup(group, rest);
      TranslateAppend(group, Pad(rest));
      ScanGroup(v0, v1, v2, v3, Translate(Pad(rest)));
    } else {
      ShortDigitsDecode(s);
    }
  }

  lemma ShortDigitsDecode(s: string)
    requires UrlDigits(s) && |s| < 4
    ensures Scan(Translate(Pad(s)), 0, 0, 0).Some? <==> |s| != 1
  {
    if |s| == 1 {
      var v0: Sextet :| s[0] == Digit(v0);
      TranslateAt(Pad(s));
      assert Translate(Pad(s)) == [TranslateChar(Digit(v0))] + "===";
      ScanDigit(v0, "===", 0, 0, 0);
      ScanPadding(v0);
    } else if |s| == 2 {
      var v0: Sextet :| s[0] == Digit(v0);
      var v1: Sextet :| s[1] == Digit(v1);
      assert Pad(s) == [Digit(v0), Digit(v1)] + "==";
      ScanTailOfOne(v0, v1);
    } else if |s| == 3 {
      var v0: Sextet :| s[0] == Digit(v0);
      var v1: Sextet :| s[1] == Digit(v1);
      var v2: Sextet :| s[2] == Digit(v2);
      assert Pad(s) == [Digit(v0), Digit(v1), Digit(v2)] + "=";
      ScanTailOfTwo(v0, v1, v2);
    }
  }
}
