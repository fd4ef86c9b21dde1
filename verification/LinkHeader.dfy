/**
 Reading the next page's address out of a Link header (section 3 of RFC 8288), as the service
 connector does it: normalise the text, then search it for `<([^>]*)>;\s*rel="next"`.
 Header text is Latin-1, which is how header values reach the connector.
 */
module LinkHeader {
  import opened Wrappers

  // ---- Normalisation: line feeds to spaces, lower case, no white space at the ends. ----

  function LowerChar(c: char): char {
    if 'A' <= c <= 'Z' || ('\U{C0}' <= c <= '\U{DE}' && c != '\U{D7}') then (c as int + 32) as char else c
  }

  predicate IsSpace(c: char) {
    '\U{09}' <= c <= '\U{0D}' || '\U{1C}' <= c <= ' ' || c == '\U{85}' || c == '\U{A0}'
  }

  function NormalChar(c: char): char {
    if c == '\n' then ' ' else LowerChar(c)
  }

  /** The text in lower case, with a space for every line feed. */
  function Normal(s: string): (n: string)
    ensures |n| == |s| && forall i :: 0 <= i < |s| ==> n[i] == NormalChar(s[i])
  {
    if s == "" then "" else [NormalChar(s[0])] + Normal(s[1..])
  }

  function StripLeft(s: string): string {
    if s != "" && IsSpace(s[0]) then StripLeft(s[1..]) else s
  }

  function StripRight(s: string): string {
    if s != "" && IsSpace(s[|s| - 1]) then StripRight(s[..|s| - 1]) else s
  }

  function Strip(s: string): string {
    StripRight(StripLeft(s))
  }

  // ---- The search. ----

  const REL_NEXT := "rel=\"next\""

  /** The position of the first '>' at or after `i`, or the end of the text. */
  function Close(s: string, i: nat): (j: nat)
    requires i <= |s|
    ensures i <= j <= |s|
    ensures forall k :: i <= k < j ==> s[k] != '>'
    ensures j < |s| ==> s[j] == '>'
    decreases |s| - i
  {
    if i == |s| || s[i] == '>' then i else Close(s, i + 1)
  }

  /** What is left after the pattern's `\s*`: no `rel` begins with white space, so it takes all of it. */
  function AfterSpaces(s: string, i: nat): (j: nat)
    requires i <= |s|
    ensures i <= j <= |s|
    decreases |s| - i
  {
    if i < |s| && IsSpace(s[i]) then AfterSpaces(s, i + 1) else i
  }

  /** The group captured when the pattern matches at position `i`. */
  function MatchAt(s: string, i: nat): Option<string>
    requires i <= |s|
  {
    if i == |s| || s[i] != '<' then None
    else
      var close := Close(s, i + 1);
      if close + 1 < |s| && s[close + 1] == ';' && REL_NEXT <= s[AfterSpaces(s, close + 2)..]
      then Some(s[i + 1..close])
      else None
  }

  /** The leftmost match at or after position `i`. */
  function Search(s: string, i: nat): Option<string>
    requires i <= |s|
    decreases |s| - i
  {
    match MatchAt(s, i)
    case Some(group) => Some(group)
    case None => if i == |s| then None else Search(s, i + 1)
  }

  /** The next page's address; an absent header reads as the empty text, an empty address as none. */
  function NextPageUrl(header: string): Option<string> {
    if header == "" then None
    else
      match Search(Strip(Normal(header)), 0)
      case None => None
      case Some(url) => if url == "" then None else Some(url)
  }

  // ---- What normalising does, letter by letter. ----

  /** Capital letters become small ones, a line feed becomes a space, and all other characters of ASCII stay. */
  lemma NormalLetters(c: char)
    requires c as int < 128
    ensures 65 <= c as int <= 90 ==> Normal([c]) == [(c as int + 32) as char]
    ensures c as int == 10 ==> Normal([c]) == " "
    ensures c as int != 10 && !(65 <= c as int <= 90) ==> Normal([c]) == [c]
  {
  }

  /** Beyond ASCII, in Latin-1, the thirty capital letters move by thirty-two places and nothing else moves. */
  lemma NormalAccents(c: char)
    requires 128 <= c as int < 256
    ensures Normal([c]) == if 0xC0 <= c as int <= 0xDE && c as int != 0xD7 then [(c as int + 32) as char] else [c]
  {
  }

  /** Stripping takes away all white space at the ends, and nothing else. */
  lemma StripTakesSpaces(s: string) returns (left: string, right: string)
    ensures s == left + Strip(s) + right
    ensures forall i :: 0 <= i < |left| ==> White(left[i])
    ensures forall i :: 0 <= i < |right| ==> White(right[i])
    ensures Strip(s) != "" ==> !White(Strip(s)[0]) && !White(Strip(s)[|Strip(s)| - 1])
  {
    left := StripLeftTakesSpaces(s);
    right := StripRightTakesSpaces(StripLeft(s));
  }

  /** The white space of Latin-1. */
  ghost predicate White(c: char) {
    c as int in {9, 10, 11, 12, 13, 28, 29, 30, 31, 32, 133, 160}
  }

  lemma {:induction false} StripLeftTakesSpaces(s: string) returns (left: string)
    ensures s == left + StripLeft(s) && forall i :: 0 <= i < |left| ==> White(left[i])
    ensures StripLeft(s) != "" ==> !White(StripLeft(s)[0])
  {
    left := "";
    if s != "" && IsSpace(s[0]) {
      var rest := StripLeftTakesSpaces(s[1..]);
      left := [s[0]] + rest;
    }
  }

  lemma {:induction false} StripRightTakesSpaces(s: string) returns (right: string)
    ensures s == StripRight(s) + right && forall i :: 0 <= i < |right| ==> White(right[i])
    ensures StripRight(s) != "" ==> !White(StripRight(s)[|StripRight(s)| - 1]) && StripRight(s)[0] == s[0]
  {
    right := "";
    if s != "" && IsSpace(s[|s| - 1]) {
      var rest := StripRightTakesSpaces(s[..|s| - 1]);
      right := rest + [s[|s| - 1]];
    }
  }

  // ---- The search is the regular expression's. ----

  /** The pattern matches `s[i..]` with its group ending at `j` and its `\s*` at `k`. */
  ghost predicate RegexAt(s: string, i: nat, j: nat, k: nat) {
    && i < j < |s| && s[i] == '<' && s[j] == '>' && (forall n :: i < n < j ==> s[n] != '>')
    && j + 1 < k <= |s| && s[j + 1] == ';' && (forall n :: j + 2 <= n < k ==> White(s[n]))
    && "rel=\"next\"" <= s[k..]
  }

  lemma {:induction false} AfterSpacesIs(s: string, i: nat, k: nat)
    requires i <= k < |s| && !IsSpace(s[k]) && forall n :: i <= n < k ==> IsSpace(s[n])
    ensures AfterSpaces(s, i) == k
    decreases k - i
  {
    if i < k { AfterSpacesIs(s, i + 1, k); }
  }

  lemma {:induction false} SpacesBefore(s: string, i: nat)
    requires i <= |s|
    ensures forall n :: i <= n < AfterSpaces(s, i) ==> IsSpace(s[n])
    decreases |s| - i
  {
    if i < |s| && IsSpace(s[i]) { SpacesBefore(s, i + 1); }
  }

  /** However `\s*` and the group are matched, the result at a position is the one computed. */
  lemma MatchAtIsTheRegex(s: string, i: nat, group: string)
    requires i <= |s|
    ensures MatchAt(s, i) == Some(group) <==> exists j: nat, k: nat :: RegexAt(s, i, j, k) && group == s[i + 1..j]
  {
    if MatchAt(s, i) == Some(group) {
      var j := Close(s, i + 1);
      SpacesBefore(s, j + 2);
      assert RegexAt(s, i, j, AfterSpaces(s, j + 2));
    }
    forall j: nat, k: nat | RegexAt(s, i, j, k) ensures MatchAt(s, i) == Some(s[i + 1..j]) {
      CloseIs(s, i + 1, j);
      assert s[k] == REL_NEXT[0];
      AfterSpacesIs(s, j + 2, k);
    }
  }

  lemma EndDoesNotMatch(s: string)
    ensures MatchAt(s, |s|) == None
  {
  }

  /** The search answers with the leftmost position at which the pattern matches, if there is one. */
  lemma {:induction false} SearchIsLeftmost(s: string, i: nat)
    requires i <= |s|
    ensures Search(s, i) == None ==> forall p :: i <= p <= |s| ==> MatchAt(s, p) == None
    ensures Search(s, i).Some? ==>
              exists p :: i <= p <= |s| && MatchAt(s, p) == Search(s, i) && forall q :: i <= q < p ==>
                MatchAt(s, q) == None
    decreases |s| - i
  {
    hide MatchAt;
    assert MatchAt(s, |s|) == None by { EndDoesNotMatch(s); }
    if MatchAt(s, i).None? && i < |s| {
      SearchIsLeftmost(s, i + 1);
    }
  }

  /** The pattern matches at position `p`, and this is its group. */
  ghost predicate MatchesAt(s: string, p: nat, group: string) {
    exists j: nat, k: nat :: RegexAt(s, p, j, k) && group == s[p + 1..j]
  }

  /** The pattern's leftmost match is at position `p`, and this is its group. */
  ghost predicate LeftmostMatch(s: string, p: nat, group: string) {
    MatchesAt(s, p, group) && forall q: nat, other :: q < p ==> !MatchesAt(s, q, other)
  }

  /** This is the group of the pattern's leftmost match. */
  ghost predicate HasLeftmost(s: string, group: string) {
    exists p: nat :: LeftmostMatch(s, p, group)
  }

  lemma MatchesAtIff(s: string, p: nat, group: string)
    ensures MatchesAt(s, p, group) <==> p <= |s| && MatchAt(s, p) == Some(group)
  {
    if p <= |s| { MatchAtIsTheRegex(s, p, group); }
  }

  lemma SearchIffLeftmost(s: string, url: string)
    ensures Search(s, 0) == Some(url) <==> HasLeftmost(s, url)
  {
    if Search(s, 0) == Some(url) { FoundIsLeftmost(s, url); }
    if p: nat :| LeftmostMatch(s, p, url) { LeftmostIsFound(s, p, url); }
  }

  lemma FoundIsLeftmost(s: string, url: string)
    requires Search(s, 0) == Some(url)
    ensures HasLeftmost(s, url)
  {
    SearchIsLeftmost(s, 0);
    hide Search;
    hide MatchAt;
    hide MatchesAt;
    var p: nat :| p <= |s| && MatchAt(s, p) == Some(url) && forall q: nat :: q < p ==> MatchAt(s, q) == None;
    MatchesAtIff(s, p, url);
    forall q: nat, other | q < p ensures !MatchesAt(s, q, other) { MatchesAtIff(s, q, other); }
    assert LeftmostMatch(s, p, url);
  }

  lemma LeftmostIsFound(s: string, p: nat, url: string)
    requires LeftmostMatch(s, p, url)
    ensures Search(s, 0) == Some(url)
  {
    hide Search;
    hide MatchAt;
    hide MatchesAt;
    MatchesAtIff(s, p, url);
    forall q: nat | q < p ensures MatchAt(s, q) == None {
      if MatchAt(s, q).Some? { MatchesAtIff(s, q, MatchAt(s, q).value); }
    }
    SearchFindsFirst(s, 0, p);
  }

  /** The address found is the group of the pattern's leftmost match in the normalised header, unless that is empty. */
  lemma NextPageUrlIff(header: string, url: string)
    ensures NextPageUrl(header) == Some(url) <==> url != "" && HasLeftmost(Strip(Normal(header)), url)
  {
    SearchIffLeftmost(Strip(Normal(header)), url);
    if header == "" { EmptyHeaderMatchesNothing(); }
    assert HasLeftmost(Strip(Normal(header)), url) <==> Search(Strip(Normal(header)), 0) == Some(url);
    hide Search;
    hide Normal;
    hide Strip;
    hide HasLeftmost;
  }

  lemma EmptyHeaderMatchesNothing()
    ensures Strip(Normal("")) == "" && Search("", 0) == None
  {
  }

  lemma {:induction false} SearchFindsFirst(s: string, i: nat, p: nat)
    requires i <= p <= |s| && MatchAt(s, p).Some? && forall q: nat :: i <= q < p ==> MatchAt(s, q) == None
    ensures Search(s, i) == MatchAt(s, p)
    decreases p - i
  {
    hide MatchAt;
    if i < p { SearchFindsFirst(s, i + 1, p); }
  }

  // ---- A printer for lists of links, and the answer it should be read back as. ----

  datatype Link = Link(url: string, rel: string)

  function PrintLink(l: Link): string {
    "<" + l.url + ">; rel=\"" + l.rel + "\""
  }

  function PrintLinks(links: seq<Link>): string {
    if |links| == 0 then ""
    else if |links| == 1 then PrintLink(links[0])
    else PrintLink(links[0]) + ", " + PrintLinks(links[1..])
  }

  function FirstNext(links: seq<Link>): Option<string> {
    if |links| == 0 then None
    else if Normal(links[0].rel) == "next" then Some(Normal(links[0].url))
    else FirstNext(links[1..])
  }

  predicate Plain(s: string) {
    s != "" && '<' !in s && '>' !in s && '"' !in s
  }

  ghost predicate PlainLinks(links: seq<Link>) {
    forall i :: 0 <= i < |links| ==> Plain(links[i].url) && Plain(links[i].rel)
  }

  // ---- Reading back what was printed. ----

  lemma NormalAppend(a: string, b: string)
    ensures Normal(a + b) == Normal(a) + Normal(b)
  {
  }

  /** Normalising neither makes nor removes the characters that delimit a link. */
  lemma NormalKeepsDelimiters(c: char)
    ensures NormalChar(c) == '<' <==> c == '<'
    ensures NormalChar(c) == '>' <==> c == '>'
    ensures NormalChar(c) == '"' <==> c == '"'
  {
  }

  lemma NormalPlain(s: string)
    requires Plain(s)
    ensures Plain(Normal(s))
  {
    forall i | 0 <= i < |s| ensures Normal(s)[i] != '<' && Normal(s)[i] != '>' && Normal(s)[i] != '"' {
      NormalKeepsDelimiters(s[i]);
    }
  }

  /** A stretch without '<' is passed over by the search. */
  lemma {:induction false} SearchSkips(s: string, i: nat, j: nat)
    requires i <= j <= |s|
    requires forall k :: i <= k < j ==> s[k] != '<'
    ensures Search(s, i) == Search(s, j)
    decreases j - i
  {
    if i < j {
      assert MatchAt(s, i) == None;
      SearchSkips(s, i + 1, j);
    }
  }

  lemma CloseIs(s: string, i: nat, j: nat)
    requires i <= j < |s| && s[j] == '>'
    requires forall k :: i <= k < j ==> s[k] != '>'
    ensures Close(s, i) == j
    decreases j - i
  {
  }

  /** The text that follows `rel=` decides the match: a quoted plain value is "next" or it is not. */
  lemma RelIsNext(rel: string, tail: string)
    requires '"' !in rel
    ensures REL_NEXT <= "rel=\"" + rel + "\"" + tail <==> rel == "next"
  {
    var text := "rel=\"" + rel + "\"" + tail;
    assert text[5 + |rel|] == '"' && REL_NEXT[9] == '"';
    assert |rel| > 4 ==> text[9] == rel[4] != '"';
    if REL_NEXT <= text {
      assert text[..|REL_NEXT|] == REL_NEXT;
      assert forall k :: 0 <= k < |REL_NEXT| ==> text[k] == REL_NEXT[k];
      assert |rel| == 4;
      assert rel == text[5..9] == REL_NEXT[5..9];
    }
    if rel == "next" {
      assert text[..|REL_NEXT|] == REL_NEXT;
    }
  }

  /** At the start of a printed link the pattern matches exactly when the link's relation is "next". */
  lemma MatchAtLink(pre: string, l: Link, tail: string)
    requires Plain(l.url) && Plain(l.rel)
    ensures MatchAt(pre + PrintLink(l) + tail, |pre|) == if l.rel == "next" then Some(l.url) else None
  {
    LinkLayout(pre, l, tail);
    MatchAtLayout(pre + PrintLink(l) + tail, |pre|, l.url, l.rel, tail);
  }

  lemma MatchAtLayout(s: string, i: nat, url: string, rel: string, tail: string)
    requires '>' !in url && '"' !in rel
    requires i + |url| + 4 < |s| && s[i] == '<' && s[i + 1..i + 1 + |url|] == url
    requires s[i + 1 + |url|] == '>' && s[i + 2 + |url|] == ';' && s[i + 3 + |url|] == ' ' && s[i + 4 + |url|] == 'r'
    requires s[i + 4 + |url|..] == "rel=\"" + rel + "\"" + tail
    ensures MatchAt(s, i) == if rel == "next" then Some(url) else None
  {
    var close := i + 1 + |url|;
    forall k | i + 1 <= k < close ensures s[k] != '>' { assert s[i + 1..close][k - i - 1] == url[k - i - 1]; }
    CloseIs(s, i + 1, close);
    assert AfterSpaces(s, close + 3) == close + 3;
    assert AfterSpaces(s, close + 2) == close + 3;
    RelIsNext(rel, tail);
  }

  /** Where the pieces of a printed link lie in a text that contains it. */
  lemma LinkLayout(pre: string, l: Link, tail: string)
    ensures var s, close := pre + PrintLink(l) + tail, |pre| + 1 + |l.url|;
            && close + 3 < |s| && s[|pre|] == '<' && s[|pre| + 1..close] == l.url
            && s[close] == '>' && s[close + 1] == ';' && s[close + 2] == ' ' && s[close + 3] == 'r'
            && s[close + 3..] == "rel=\"" + l.rel + "\"" + tail
  {
  }

  function Normals(links: seq<Link>): seq<Link> {
    seq(|links|, i requires 0 <= i < |links| => Link(Normal(links[i].url), Normal(links[i].rel)))
  }

  function FirstNextPlain(links: seq<Link>): Option<string> {
    if |links| == 0 then None else if links[0].rel == "next" then Some(links[0].url) else FirstNextPlain(links[1..])
  }

  lemma {:induction false} SearchPrinted(pre: string, links: seq<Link>)
    requires PlainLinks(links)
    ensures Search(pre + PrintLinks(links), |pre|) == FirstNextPlain(links)
    decreases |links|
  {
    if |links| == 0 {
      assert pre + PrintLinks(links) == pre;
    } else {
      var l := links[0];
      var tail := if |links| == 1 then "" else ", " + PrintLinks(links[1..]);
      var s := pre + PrintLinks(links);
      assert s == pre + PrintLink(l) + tail;
      MatchAtLink(pre, l, tail);
      if l.rel != "next" {
        var next := pre + PrintLink(l) + (if |links| == 1 then "" else ", ");
        assert s == next + PrintLinks(links[1..]);
        forall k | |pre| + 1 <= k < |next| ensures s[k] != '<' { InsideLink(pre, l, next, k); }
        SearchSkips(s, |pre| + 1, |next|);
        SearchPrinted(next, links[1..]);
      }
    }
  }

  lemma InsideLink(pre: string, l: Link, next: string, k: nat)
    requires Plain(l.url) && Plain(l.rel)
    requires next == pre + PrintLink(l) || next == pre + PrintLink(l) + ", "
    requires |pre| + 1 <= k < |next|
    ensures next[k] != '<'
  {
  }

  lemma {:induction false} NormalPrinted(links: seq<Link>)
    ensures Normal(PrintLinks(links)) == PrintLinks(Normals(links))
  {
    if |links| > 0 {
      NormalPrintedLink(links[0]);
      assert Normals(links)[0] == Link(Normal(links[0].url), Normal(links[0].rel));
      if |links| > 1 {
        NormalPrinted(links[1..]);
        assert Normals(links)[1..] == Normals(links[1..]);
        NormalAppend(PrintLink(links[0]), ", ");
        NormalAppend(PrintLink(links[0]) + ", ", PrintLinks(links[1..]));
        assert Normal(", ") == ", ";
      }
    }
  }

  lemma NormalPrintedLink(l: Link)
    ensures Normal(PrintLink(l)) == PrintLink(Link(Normal(l.url), Normal(l.rel)))
  {
    hide Normal;
    DelimitersAreNormal();
    NormalAppend("<", l.url);
    NormalAppend("<" + l.url, ">; rel=\"");
    NormalAppend("<" + l.url + ">; rel=\"", l.rel);
    NormalAppend("<" + l.url + ">; rel=\"" + l.rel, "\"");
  }

  lemma DelimitersAreNormal()
    ensures Normal("<") == "<" && Normal(">; rel=\"") == ">; rel=\"" && Normal("\"") == "\""
  {
  }

  lemma {:induction false} FirstNextOfNormals(links: seq<Link>)
    ensures FirstNextPlain(Normals(links)) == FirstNext(links)
  {
    if |links| > 0 {
      FirstNextOfNormals(links[1..]);
      assert Normals(links)[1..] == Normals(links[1..]);
    }
  }

  lemma {:induction false} PrintedEnds(links: seq<Link>)
    requires |links| > 0
    ensures var s := PrintLinks(links); s != "" && s[0] == '<' && s[|s| - 1] == '"'
  {
    if |links| > 1 { PrintedEnds(links[1..]); }
  }

  /**
   For every list of links with plain addresses and relations, reading the printed header yields the
   normalised address of the first link whose relation is "next" in any case, or nothing if there is none.
   */
  lemma ParsePrinted(links: seq<Link>)
    requires PlainLinks(links)
    ensures NextPageUrl(PrintLinks(links)) == FirstNext(links)
  {
    if |links| > 0 {
      var ns := Normals(links);
      forall i | 0 <= i < |ns| ensures Plain(ns[i].url) && Plain(ns[i].rel) {
        NormalPlain(links[i].url);
        NormalPlain(links[i].rel);
      }
      NormalPrinted(links);
      PrintedEnds(links);
      StripPrinted(ns);
      SearchPrinted("", ns);
      assert "" + PrintLinks(ns) == PrintLinks(ns);
      FirstNextOfNormals(links);
      FirstNextIsNonempty(ns);
    }
  }

  lemma StripPrinted(links: seq<Link>)
    ensures Strip(PrintLinks(links)) == PrintLinks(links)
  {
    if |links| > 0 { PrintedEnds(links); }
  }

  lemma {:induction false} FirstNextIsNonempty(links: seq<Link>)
    requires PlainLinks(links)
    ensures FirstNextPlain(links) != Some("")
  {
    if |links| > 0 { FirstNextIsNonempty(links[1..]); }
  }

  /** Link `i` is the first whose relation is "next" in any case. */
  ghost predicate FirstNextAt(links: seq<Link>, i: nat) {
    i < |links| && Normal(links[i].rel) == "next" && forall j :: 0 <= j < i ==> Normal(links[j].rel) != "next"
  }

  lemma {:induction false} FirstNextIs(links: seq<Link>, i: nat)
    requires FirstNextAt(links, i)
    ensures FirstNext(links) == Some(Normal(links[i].url))
  {
    if i > 0 { FirstNextIs(links[1..], i - 1); }
  }

  /** An address with upper-case letters is not recovered as it was sent: exactly the normalised ones are. */
  lemma AddressSurvivesIffNormal(links: seq<Link>, i: nat)
    requires PlainLinks(links) && FirstNextAt(links, i)
    ensures NextPageUrl(PrintLinks(links)) == Some(links[i].url) <==> Normal(links[i].url) == links[i].url
  {
    ParsePrinted(links);
    FirstNextIs(links, i);
  }
}
