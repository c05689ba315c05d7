/**
 * The two string operations the WKT layer is built from: PHP's `implode` and the
 * `preg_split('/,\s*(?=[A-Za-z])/', ...)` that cuts a GEOMETRYCOLLECTION body into items.
 */
module Strings {

  /** PHP `implode(sep, parts)`. */
  function Join(sep: string, parts: seq<string>): string
    decreases |parts|
  {
    if |parts| == 0 then ""
    else if |parts| == 1 then parts[0]
    else parts[0] + sep + Join(sep, parts[1..])
  }

  /** The PCRE class `[A-Za-z]`. */
  predicate IsLetter(c: char) {
    ('A' <= c <= 'Z') || ('a' <= c <= 'z')
  }

  /** The PCRE class `\s`: space, tab, line feed, vertical tab, form feed, carriage return. */
  predicate IsSpace(c: char) {
    c == ' ' || c == '\t' || c == '\n' || c == '\U{000B}' || c == '\U{000C}' || c == '\r'
  }

  /** The end of the run of white space that starts at `j` (what a greedy `\s*` consumes). */
  function SkipSpaces(s: string, j: nat): (k: nat)
    requires j <= |s|
    ensures j <= k <= |s|
    ensures forall m :: j <= m < k ==> IsSpace(s[m])
    ensures k < |s| ==> !IsSpace(s[k])
    decreases |s| - j
  {
    if j < |s| && IsSpace(s[j]) then SkipSpaces(s, j + 1) else j
  }

  /**
   * The pattern `,\s*(?=[A-Za-z])` matches at `i`. White space is never a letter, so the
   * look-ahead can only succeed after the whole run of white space; the match then
   * ends at `SkipSpaces(s, i + 1)`.
   */
  predicate MatchesAt(s: string, i: nat)
    requires i < |s|
  {
    s[i] == ',' && SkipSpaces(s, i + 1) < |s| && IsLetter(s[SkipSpaces(s, i + 1)])
  }

  /** The leftmost match at or after `j`, or `|s|` when there is none. */
  function FirstMatch(s: string, j: nat): (i: nat)
    requires j <= |s|
    ensures j <= i <= |s|
    ensures i < |s| ==> MatchesAt(s, i)
    ensures forall k :: j <= k < i ==> !MatchesAt(s, k)
    decreases |s| - j
  {
    if j == |s| then j
    else if MatchesAt(s, j) then j
    else FirstMatch(s, j + 1)
  }

  /**
   * `preg_split('/,\s*(?=[A-Za-z])/', s)` without flags: the text before the leftmost
   * match, then the split of what follows the match. Empty pieces are kept.
   */
  function Split(s: string): (pieces: seq<string>)
    ensures |pieces| > 0
    decreases |s|
  {
    var i := FirstMatch(s, 0);
    if i == |s| then [s] else [s[..i]] + Split(s[SkipSpaces(s, i + 1)..])
  }

  /** A character after a comma that can never start a split: neither white space nor a letter. */
  predicate Safe(c: char) {
    !IsSpace(c) && !IsLetter(c)
  }

  /** Every comma of `w` that has a successor in `w` is followed by a safe character. */
  predicate SplitFree(w: string) {
    forall k :: 0 <= k < |w| - 1 && w[k] == ',' ==> Safe(w[k + 1])
  }

  predicate StartsSafe(w: string) {
    |w| == 0 || Safe(w[0])
  }

  lemma SplitFreeConcat(a: string, b: string)
    requires SplitFree(a) && SplitFree(b)
    requires |a| > 0 && |b| > 0 && a[|a| - 1] == ',' ==> Safe(b[0])
    ensures SplitFree(a + b)
  {
    var s := a + b;
    forall k | 0 <= k < |s| - 1 && s[k] == ','
      ensures Safe(s[k + 1])
    {
      if k < |a| - 1 {
        assert s[k] == a[k] && s[k + 1] == a[k + 1];
      } else if k == |a| - 1 {
        assert s[k + 1] == b[0];
      } else {
        assert s[k] == b[k - |a|] && s[k + 1] == b[k + 1 - |a|];
      }
    }
  }

  /** Text without commas is split-free. */
  lemma NoCommaSplitFree(w: string)
    requires ',' !in w
    ensures SplitFree(w)
  {
    assert forall k :: 0 <= k < |w| ==> w[k] in w;
  }

  /** Joining split-free parts that start safely with "," gives split-free text that starts safely. */
  lemma {:induction false} JoinSplitFree(parts: seq<string>)
    requires forall i :: 0 <= i < |parts| ==> SplitFree(parts[i]) && StartsSafe(parts[i])
    ensures SplitFree(Join(",", parts)) && StartsSafe(Join(",", parts))
    decreases |parts|
  {
    if |parts| > 1 {
      JoinSplitFree(parts[1..]);
      var rest := Join(",", parts[1..]);
      SplitFreeConcat(",", rest);
      SplitFreeConcat(parts[0], "," + rest);
    }
  }

  /** No match starts inside a split-free prefix `w` of `s` that is followed by a safe character. */
  lemma NoMatchInside(w: string, s: string)
    requires SplitFree(w)
    requires |w| <= |s| && s[..|w|] == w
    requires |w| < |s| ==> Safe(s[|w|])
    ensures forall k :: 0 <= k < |w| ==> !MatchesAt(s, k)
  {
    forall k | 0 <= k < |w|
      ensures !MatchesAt(s, k)
    {
      assert s[k] == w[k];
      if s[k] == ',' && k + 1 < |s| {
        assert Safe(s[k + 1]) by {
          if k < |w| - 1 { assert s[k + 1] == w[k + 1]; }
        }
        assert SkipSpaces(s, k + 1) == k + 1;
      }
    }
  }

  /**
   * Splitting the comma-join of items gives the items back, provided no item can be cut
   * (it is split-free) and every item after the first starts with a letter.
   */
  lemma {:induction false} SplitJoin(ws: seq<string>)
    requires |ws| > 0
    requires forall i :: 0 <= i < |ws| ==> SplitFree(ws[i])
    requires forall i :: 1 <= i < |ws| ==> |ws[i]| > 0 && IsLetter(ws[i][0])
    ensures Split(Join(",", ws)) == ws
    decreases |ws|
  {
    var s := Join(",", ws);
    var w := ws[0];
    if |ws| == 1 {
      assert s == w;
      NoMatchInside(w, s);
      assert FirstMatch(s, 0) == |s|;
    } else {
      var rest := Join(",", ws[1..]);
      assert s == w + "," + rest;
      assert rest[0] == ws[1][0];
      NoMatchInside(w, s);
      assert SkipSpaces(s, |w| + 1) == |w| + 1 by {
        assert s[|w| + 1] == rest[0];
      }
      assert MatchesAt(s, |w|) by {
        assert s[|w|] == ',' && s[|w| + 1] == rest[0];
      }
      var i := FirstMatch(s, 0);
      assert i == |w|;
      assert s[..i] == w;
      assert s[|w| + 1..] == rest;
      SplitJoin(ws[1..]);
      assert Split(s) == [w] + Split(rest);
    }
  }
}
