/** Splitting a string at a separator character and joining pieces with it. */
module Text {

  /** Python's `s.split(c)` for a one-character separator: always at least one piece. */
  function Split(s: string, c: char): (pieces: seq<string>)
    ensures |pieces| >= 1
  {
    if s == "" then [""]
    else
      var rest := Split(s[1..], c);
      if s[0] == c then [""] + rest else [[s[0]] + rest[0]] + rest[1..]
  }

  /** Python's `c.join(parts)`. */
  function Join(parts: seq<string>, c: char): string {
    if |parts| == 0 then ""
    else if |parts| == 1 then parts[0]
    else parts[0] + [c] + Join(parts[1..], c)
  }

  /** The pieces of all strings of a list, one after the other. */
  function SplitAll(parts: seq<string>, c: char): (pieces: seq<string>)
    ensures |pieces| >= |parts|
  {
    if |parts| == 0 then [] else Split(parts[0], c) + SplitAll(parts[1..], c)
  }

  lemma {:induction false} JoinSplit(s: string, c: char)
    ensures Join(Split(s, c), c) == s
  {
    if s != "" {
      JoinSplit(s[1..], c);
      var rest := Split(s[1..], c);
      if s[0] == c {
        assert ([""] + rest)[1..] == rest;
      } else {
        var all := [[s[0]] + rest[0]] + rest[1..];
        assert all[1..] == rest[1..];
        assert Join(all, c) == [s[0]] + Join(rest, c);
      }
      assert s == [s[0]] + s[1..];
    }
  }

  lemma SplitCons(x: char, s: string, c: char)
    ensures Split([x] + s, c) ==
            var rest := Split(s, c); if x == c then [""] + rest else [[x] + rest[0]] + rest[1..]
  {
    assert ([x] + s)[1..] == s;
  }

  lemma {:induction false} SplitAtSeparator(a: string, c: char, b: string)
    ensures Split(a + [c] + b, c) == Split(a, c) + Split(b, c)
  {
    if a == "" {
      assert a + [c] + b == [c] + b;
      SplitCons(c, b, c);
    } else {
      var tail := a[1..];
      SplitAtSeparator(tail, c, b);
      assert a + [c] + b == [a[0]] + (tail + [c] + b) && a == [a[0]] + tail;
      SplitCons(a[0], tail + [c] + b, c);
      PrefixFirstPiece(a[0], c, Split(tail, c), Split(b, c));
    }
  }

  lemma PrefixFirstPiece(x: char, c: char, front: seq<string>, back: seq<string>)
    requires |front| >= 1
    ensures (if x == c then [""] + (front + back) else [[x] + (front + back)[0]] + (front + back)[1..]) ==
            (if x == c then [""] + front else [[x] + front[0]] + front[1..]) + back
  {
    assert (front + back)[1..] == front[1..] + back;
  }

  lemma {:induction false} SplitWithoutSeparator(s: string, c: char)
    requires c !in s
    ensures Split(s, c) == [s]
  {
    if s != "" {
      SplitWithoutSeparator(s[1..], c);
      assert s == [s[0]] + s[1..];
    }
  }

  lemma {:induction false} SplitOfJoin(parts: seq<string>, c: char)
    requires |parts| >= 1
    ensures Split(Join(parts, c), c) == SplitAll(parts, c)
  {
    if |parts| == 1 {
      assert SplitAll(parts, c) == Split(parts[0], c) + SplitAll(parts[1..], c);
    } else {
      SplitAtSeparator(parts[0], c, Join(parts[1..], c));
      SplitOfJoin(parts[1..], c);
    }
  }

  /** Two joined lists read the same exactly when their strings have the same pieces in a row. */
  lemma JoinEqualIffSamePieces(a: seq<string>, b: seq<string>, c: char)
    requires |a| >= 1 && |b| >= 1
    ensures Join(a, c) == Join(b, c) <==> SplitAll(a, c) == SplitAll(b, c)
  {
    SplitOfJoin(a, c);
    SplitOfJoin(b, c);
    JoinSplit(Join(a, c), c);
    JoinSplit(Join(b, c), c);
  }

  ghost predicate Uniform(parts: seq<string>, c: char, n: nat) {
    forall i :: 0 <= i < |parts| ==> |Split(parts[i], c)| == n
  }

  lemma {:induction false} UniformPiecesDetermineList(a: seq<string>, b: seq<string>, c: char, n: nat)
    requires Uniform(a, c, n) && Uniform(b, c, n)
    requires SplitAll(a, c) == SplitAll(b, c)
    ensures a == b
  {
    if |a| > 0 && |b| > 0 {
      var pa, pb := Split(a[0], c), Split(b[0], c);
      assert SplitAll(a, c)[..n] == pa && SplitAll(b, c)[..n] == pb;
      assert SplitAll(a, c)[n..] == SplitAll(a[1..], c) && SplitAll(b, c)[n..] == SplitAll(b[1..], c);
      UniformPiecesDetermineList(a[1..], b[1..], c, n);
      JoinSplit(a[0], c);
      JoinSplit(b[0], c);
      assert a == [a[0]] + a[1..] && b == [b[0]] + b[1..];
    }
  }

  /** Joining is injective on lists whose strings all contain the same number of separators. */
  lemma JoinInjectiveWhenUniform(a: seq<string>, b: seq<string>, c: char, n: nat)
    requires |a| >= 1 && |b| >= 1
    requires Uniform(a, c, n) && Uniform(b, c, n)
    requires Join(a, c) == Join(b, c)
    ensures a == b
  {
    JoinEqualIffSamePieces(a, b, c);
    UniformPiecesDetermineList(a, b, c, n);
  }

  // ---- What the pieces are, however they are found. ----

  function Count(s: string, c: char): nat {
    if s == "" then 0 else (if s[0] == c then 1 else 0) + Count(s[1..], c)
  }

  /** There is one piece more than there are separators, and none contains a separator. */
  lemma {:induction false} PiecesAreBetweenSeparators(s: string, c: char)
    ensures |Split(s, c)| == Count(s, c) + 1
    ensures forall i :: 0 <= i < |Split(s, c)| ==> c !in Split(s, c)[i]
  {
    if s != "" { PiecesAreBetweenSeparators(s[1..], c); }
  }
}
