/**
 Which texts, as nonces, share their key with an entry that is not a nonce of the same session, when browsers
 choose their session ids and states freely.
 */
module OddNonces {
  import opened Wrappers
  import opened LtiData
  import opened Storage

  /** What the key of a marker, of parameters, of a record, or of a nonce of another session can end in. */
  predicate IsTail(t: string) {
    || t == "id-token-hash"
    || (|t| == 42 && t[..6] == "state-" && IsUuid(t[6..]))
    || (|t| == 43 && t[..7] == "launch-" && IsUuid(t[7..]))
    || (|t| == 70 && t[..6] == "nonce-" && IsNonce(t[6..]))
  }

  predicate TailAt(n: string, i: nat) {
    i < |n| && (i == 0 || n[i - 1] == '-') && IsTail(n[i..])
  }

  /** The text is such a tail, or ends in one after a hyphen. */
  predicate OddNonce(n: string) {
    exists i: nat :: i < |n| && TailAt(n, i)
  }

  lemma TailsBeginWithNoDigit(t: string)
    requires IsTail(t)
    ensures t != "" && !IsHex(t[0])
  {
    if |t| == 42 { assert t[..6][0] == t[0]; }
    if |t| == 43 { assert t[..7][0] == t[0]; }
    if |t| == 70 { assert t[..6][0] == t[0]; }
  }

  lemma MintedNoncesAreNotOdd(n: string)
    requires IsNonce(n)
    ensures !OddNonce(n)
  {
    forall i: nat | i < |n| ensures !TailAt(n, i) {
      assert n[i..][0] == n[i];
      if IsTail(n[i..]) { TailsBeginWithNoDigit(n[i..]); }
    }
  }

  predicate EndsLead(s: string) {
    s == "" || s[|s| - 1] == '-'
  }

  /** The key of a nonce, after the common prefix, as another key that ends in `tail`: where the tail begins. */
  lemma TailInKey(lead: string, n: string, other: string, tail: string)
    requires lead + "nonce-" + n == other + tail
    ensures |n| >= |tail| ==> n[|n| - |tail|..] == tail
    ensures |n| > |tail| ==> |other| > 0 && other[|other| - 1] == n[|n| - |tail| - 1]
    ensures |n| < |tail| ==> tail[|tail| - |n|..] == n && tail[|tail| - |n| - 1] == '-'
    ensures |n| + 1 < |tail| ==> tail[|tail| - |n| - 2] == 'e'
    ensures |n| + 2 < |tail| ==> tail[|tail| - |n| - 3] == 'c'
    ensures |n| + 3 < |tail| ==> tail[|tail| - |n| - 4] == 'n'
  {
    var w := lead + "nonce-" + n;
    var front := lead + "nonce-";
    assert |w| == |front| + |n| == |other| + |tail|;
    assert front[|front| - 1] == '-' && front[|front| - 2] == 'e' && front[|front| - 3] == 'c'
        && front[|front| - 4] == 'n';
    assert w[|front|..] == n && w[|other|..] == tail && w[..|other|] == other;
    if |n| >= |tail| {
      assert n[|n| - |tail|..] == w[|other|..];
    } else {
      assert tail[|tail| - |n|..] == w[|front|..];
    }
  }

  lemma UuidTailIsOdd(lead: string, n: string, other: string, tail: string)
    requires lead + "nonce-" + n == other + tail && EndsLead(other)
    requires n != "" && IsTail(tail) && (|tail| == 42 || |tail| == 43)
    ensures OddNonce(n)
  {
    TailInKey(lead, n, other, tail);
    if |n| >= |tail| {
      assert TailAt(n, |n| - |tail|);
    } else {
      TailLetters(tail, |tail| - |n| - 1);
      assert false;
    }
  }

  lemma TailLetters(tail: string, p: nat)
    requires IsTail(tail) && (|tail| == 42 || |tail| == 43) && p < |tail| && tail[p] == '-'
    ensures !(p >= 1 && tail[p - 1] == 'e' && (p >= 2 ==> tail[p - 2] == 'c') && (p >= 3 ==> tail[p - 3] == 'n'))
  {
    if |tail| == 42 {
      assert tail[..6] == "state-";
      assert tail[..6][0] == 's' && tail[..6][1] == 't' && tail[..6][2] == 'a' && tail[..6][3] == 't'
          && tail[..6][4] == 'e';
      assert forall k :: 6 <= k < 42 ==> tail[k] == tail[6..][k - 6];
    } else {
      assert tail[..7] == "launch-";
      assert tail[..7][0] == 'l' && tail[..7][1] == 'a' && tail[..7][2] == 'u' && tail[..7][3] == 'n'
          && tail[..7][4] == 'c' && tail[..7][5] == 'h';
      assert tail[..7][6] == '-';
      assert forall k :: 7 <= k < 43 ==> tail[k] == tail[7..][k - 7];
    }
  }

  /** The key of a minted nonce is shared by that nonce of that session, and by odd texts. */
  lemma NonceTailIsOddOrSame(lead: string, n: string, other: string, m: string)
    requires lead + "nonce-" + n == other + ("nonce-" + m) && EndsLead(other) && n != "" && IsNonce(m)
    ensures OddNonce(n) || (n == m && lead == other)
  {
    var tail := "nonce-" + m;
    TailInKey(lead, n, other, tail);
    assert tail[..6] == "nonce-" && tail[6..] == m;
    if |n| >= 70 {
      assert TailAt(n, |n| - 70);
    } else {
      assert forall p :: 0 <= p < 70 && tail[p] == '-' ==> p == 5 by {
        assert forall k :: 6 <= k < 70 ==> tail[k] == m[k - 6];
        assert tail[0] == 'n' && tail[1] == 'o' && tail[2] == 'n' && tail[3] == 'c' && tail[4] == 'e';
      }
      assert n == m;
      assert other + ("nonce-" + m) == other + "nonce-" + m;
      AppendCancels(lead + "nonce-", n, other + "nonce-", m);
      AppendCancels(lead, "nonce-", other, "nonce-");
    }
  }

  const MARK := "-id-token-hash"

  lemma MarkerLetters()
    ensures forall p :: 0 < p < |MARK| && MARK[p] == '-' ==> MARK[p - 1] != 'e'
    ensures |MARK| == 14 && MARK[1..] == "id-token-hash"
  {
  }

  lemma MarkerTailIsOdd(lead: string, n: string, other: string)
    requires lead + "nonce-" + n == other + MARK && n != ""
    ensures OddNonce(n)
  {
    MarkerLetters();
    TailInKey(lead, n, other, MARK);
    if |n| >= 14 {
      assert n[|n| - 13..] == n[|n| - 14..][1..];
      assert n[|n| - 14] == n[|n| - 14..][0];
      assert TailAt(n, |n| - 13);
    } else if |n| == 13 {
      assert n == "id-token-hash" && n[0..] == n;
      assert TailAt(n, 0);
    }
  }

  /** A key set's key is no nonce's, in whatever session: it has no letter n. */
  lemma KeySetsAreNoNonces(sid: Option<string>, n: string, hash: string)
    requires |hash| == 32 && forall i :: 0 <= i < 32 ==> IsHex(hash[i])
    ensures Lead(sid) + "nonce-" + n != "key-set-url-" + hash
  {
    assert 'n' !in "key-set-url-" + hash;
    assert (Lead(sid) + "nonce-" + n)[|Lead(sid)|] == 'n';
  }
}
