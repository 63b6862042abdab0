/** Case-insensitive substring search, the meaning of the `icontains`
    lookup the ticket search uses. Letters are folded the way SQL `LIKE`
    folds them in SQLite: only the 26 ASCII letters have a case. */
module Text {

  /** The lower-case form of one character; all but 'A'..'Z' are unchanged. */
  function Lower(c: char): (r: char)
    ensures 'A' <= c <= 'Z' ==> 'a' <= r <= 'z' && r as int - c as int == 'a' as int - 'A' as int
    ensures !('A' <= c <= 'Z') ==> r == c
  {
    if 'A' <= c <= 'Z' then (c as int - 'A' as int + 'a' as int) as char else c
  }

  /** `s` with every character folded. */
  function LowerAll(s: string): (r: string)
    ensures |r| == |s|
    ensures forall i :: 0 <= i < |s| ==> r[i] == Lower(s[i])
  {
    if s == [] then [] else [Lower(s[0])] + LowerAll(s[1..])
  }

  /** `needle` occurs at position `i` of `hay`. */
  predicate OccursAt(needle: string, hay: string, i: int)
  {
    0 <= i && i + |needle| <= |hay| && hay[i..i + |needle|] == needle
  }

  /** Reference meaning of "substring": some position holds the needle. */
  ghost predicate IsSubstring(needle: string, hay: string)
  {
    exists i :: OccursAt(needle, hay, i)
  }

  /** The search itself: try each starting position from the left. */
  function Contains(hay: string, needle: string): bool
    decreases |hay|
  {
    if |needle| > |hay| then false
    else if hay[..|needle|] == needle then true
    else Contains(hay[1..], needle)
  }

  /** A slice of the tail is the slice of the whole shifted by one. */
  lemma SliceOfTail(s: string, i: int, n: int)
    requires 0 <= i && 0 <= n && i + n < |s|
    ensures s[1..][i..i + n] == s[i + 1..i + 1 + n]
  {
    var a, b := s[1..][i..i + n], s[i + 1..i + 1 + n];
    forall k | 0 <= k < n ensures a[k] == b[k] {
      assert a[k] == s[i + 1 + k];
    }
  }

  /** The search finds the needle exactly when it occurs somewhere. */
  lemma {:induction false} ContainsIsSubstring(hay: string, needle: string)
    ensures Contains(hay, needle) <==> IsSubstring(needle, hay)
    decreases |hay|
  {
    if |needle| > |hay| {
      assert forall i :: !OccursAt(needle, hay, i);
    } else if hay[..|needle|] == needle {
      assert OccursAt(needle, hay, 0);
    } else {
      ContainsIsSubstring(hay[1..], needle);
      if Contains(hay[1..], needle) {
        var i :| OccursAt(needle, hay[1..], i);
        SliceOfTail(hay, i, |needle|);
        assert OccursAt(needle, hay, i + 1);
      }
      if IsSubstring(needle, hay) {
        var i :| OccursAt(needle, hay, i);
        assert i != 0;
        SliceOfTail(hay, i - 1, |needle|);
        assert OccursAt(needle, hay[1..], i - 1);
      }
    }
  }

  /** Case-insensitive containment: `needle` occurs in `hay` once both are folded. */
  function ContainsIgnoringCase(hay: string, needle: string): (r: bool)
    ensures r <==> IsSubstring(LowerAll(needle), LowerAll(hay))
  {
    ContainsIsSubstring(LowerAll(hay), LowerAll(needle));
    Contains(LowerAll(hay), LowerAll(needle))
  }

  /** Folding twice is folding once. */
  lemma {:induction false} LowerAllIdempotent(s: string)
    ensures LowerAll(LowerAll(s)) == LowerAll(s)
  {
    var l := LowerAll(s);
    assert forall i :: 0 <= i < |s| ==> LowerAll(l)[i] == Lower(Lower(s[i]));
  }

  /** The case of the search term does not matter: searching for a term or
      for its folded form gives the same answer. */
  lemma SearchIgnoresTermCase(hay: string, needle: string)
    ensures ContainsIgnoringCase(hay, LowerAll(needle)) == ContainsIgnoringCase(hay, needle)
  {
    LowerAllIdempotent(needle);
  }

  /** The empty term occurs in every text, and every text occurs in itself
      whatever the case of either side. */
  lemma ContainsIgnoringCaseBasics(hay: string, other: string)
    ensures ContainsIgnoringCase(hay, "")
    ensures LowerAll(other) == LowerAll(hay) ==> ContainsIgnoringCase(hay, other)
  {
    assert OccursAt(LowerAll(""), LowerAll(hay), 0);
    if LowerAll(other) == LowerAll(hay) {
      assert OccursAt(LowerAll(other), LowerAll(hay), 0);
    }
  }

  // ---------------------------------------------------------------------
  // Whitespace trimming of submitted text fields

  /** The characters below 128 that count as whitespace when a string is
      stripped: space, tab, line feed, vertical tab, form feed, carriage
      return and the four separators 0x1C..0x1F. */
  predicate IsSpace(c: char)
  {
    c == ' ' || '\t' <= c <= '\r' || '\U{1C}' <= c <= '\U{1F}'
  }

  /** The first position at or after `i` that does not hold whitespace
      (`|s|` when there is none). */
  function SkipSpace(s: string, i: nat): (j: nat)
    requires i <= |s|
    ensures i <= j <= |s|
    ensures forall k :: i <= k < j ==> IsSpace(s[k])
    ensures j < |s| ==> !IsSpace(s[j])
    decreases |s| - i
  {
    if i < |s| && IsSpace(s[i]) then SkipSpace(s, i + 1) else i
  }

  /** The end of `s[lo..j]` once its trailing whitespace is cut off. */
  function BackOverSpace(s: string, lo: nat, j: nat): (e: nat)
    requires lo <= j <= |s|
    ensures lo <= e <= j
    ensures forall k :: e <= k < j ==> IsSpace(s[k])
    ensures e > lo ==> !IsSpace(s[e - 1])
    decreases j
  {
    if j > lo && IsSpace(s[j - 1]) then BackOverSpace(s, lo, j - 1) else j
  }

  /** `s` without leading and trailing whitespace: the piece of `s` that
      neither starts nor ends with whitespace, with only whitespace cut off
      on either side. */
  function Strip(s: string): (r: string)
    ensures exists i :: OccursAt(r, s, i)
                        && (forall k :: 0 <= k < i ==> IsSpace(s[k]))
                        && (forall k :: i + |r| <= k < |s| ==> IsSpace(s[k]))
    ensures r != [] ==> !IsSpace(r[0]) && !IsSpace(r[|r| - 1])
    ensures r == [] <==> forall k :: 0 <= k < |s| ==> IsSpace(s[k])
  {
    var i := SkipSpace(s, 0);
    var e := BackOverSpace(s, i, |s|);
    assert OccursAt(s[i..e], s, i);
    assert e == i ==> i == |s|;
    s[i..e]
  }

  /** Stripping twice is stripping once: a stripped value passes through
      the same trimming unchanged. */
  lemma StripIdempotent(s: string)
    ensures Strip(Strip(s)) == Strip(s)
  {
    var r := Strip(s);
    if r != [] {
      assert SkipSpace(r, 0) == 0;
      assert BackOverSpace(r, 0, |r|) == |r|;
    }
  }

  /** Stripping removes only whitespace: every other character of the input
      is still there afterwards. */
  lemma StripKeepsNonSpace(s: string, c: char)
    requires !IsSpace(c) && c in s
    ensures c in Strip(s)
  {
    var i := SkipSpace(s, 0);
    var e := BackOverSpace(s, i, |s|);
    var k :| 0 <= k < |s| && s[k] == c;
    assert i <= k < e;
    assert s[i..e][k - i] == c;
  }
}
