/**
 * The guardrail `bad(s)` of api/generate.js: a case-insensitive regular
 * expression whose alternatives are eight fixed topic keywords, searched for
 * anywhere in the text.
 */
module Safety {
  import opened Seqs

  /** The alternatives of the regular expression, in the order written. */
  const Keywords: seq<string> :=
    ["hate", "violence", "threat", "harass", "underage", "illegal", "self-harm", "suicide"]

  /**
   * ASCII lower-casing. Without the `u` flag, JavaScript's case-insensitive
   * matching never folds a non-ASCII character onto an ASCII one, and every
   * keyword is ASCII, so folding ASCII letters is exactly what the match sees.
   */
  function LowerAscii(c: char): (d: char)
    ensures 'A' <= c <= 'Z' ==> 'a' <= d <= 'z' && d as int - c as int == 32
    ensures !('A' <= c <= 'Z') ==> d == c
  {
    if 'A' <= c <= 'Z' then (c as int + 32) as char else c
  }

  function Lower(s: string): (t: string)
    ensures |t| == |s|
    ensures forall i :: 0 <= i < |s| ==> t[i] == LowerAscii(s[i])
  {
    seq(|s|, i requires 0 <= i < |s| => LowerAscii(s[i]))
  }

  /** The keyword `k` matches `s` at position `i`, character by character, ignoring ASCII case. */
  ghost predicate MatchesAt(s: string, k: string, i: int) {
    0 <= i && i + |k| <= |s| && forall j :: 0 <= j < |k| ==> LowerAscii(s[i + j]) == k[j]
  }

  /** What the regular expression decides: some keyword matches at some position. */
  ghost predicate ContainsKeyword(s: string) {
    exists k, i :: k in Keywords && MatchesAt(s, k, i)
  }

  /** Whether `k` occurs in `t` at some position `i` or later (a left-to-right scan). */
  function OccursFrom(t: string, k: string, i: nat): (b: bool)
    requires i <= |t|
    ensures b <==> exists j :: i <= j && OccursAt(t, k, j)
    decreases |t| - i
  {
    if i + |k| > |t| then false
    else if t[i..i + |k|] == k then assert OccursAt(t, k, i); true
    else
      var b := OccursFrom(t, k, i + 1);
      assert !OccursAt(t, k, i);
      assert (exists j :: i + 1 <= j && OccursAt(t, k, j)) <==> (exists j :: i <= j && OccursAt(t, k, j));
      b
  }

  /** Whether some keyword of `ks` occurs in `t`. */
  function AnyOccurs(t: string, ks: seq<string>): (b: bool)
    ensures b <==> exists k, j :: k in ks && OccursAt(t, k, j)
    decreases |ks|
  {
    if ks == [] then false
    else
      var b := OccursFrom(t, ks[0], 0) || AnyOccurs(t, ks[1..]);
      assert forall k :: k in ks <==> k == ks[0] || k in ks[1..];
      b
  }

  /** `bad(s)`. */
  function IsUnsafe(s: string): bool {
    AnyOccurs(Lower(s), Keywords)
  }

  /** Matching ignoring case at `i` is an exact occurrence in the lower-cased text. */
  lemma MatchesAtLower(s: string, k: string, i: int)
    ensures MatchesAt(s, k, i) <==> OccursAt(Lower(s), k, i)
  {
    if 0 <= i && i + |k| <= |s| {
      var window := Lower(s)[i..i + |k|];
      assert forall j :: 0 <= j < |k| ==> window[j] == LowerAscii(s[i + j]);
    }
  }

  /** The substring search over the lower-cased text decides exactly the case-insensitive match. */
  lemma IsUnsafeMeansKeyword(s: string)
    ensures IsUnsafe(s) <==> ContainsKeyword(s)
  {
    if IsUnsafe(s) {
      var k, j :| k in Keywords && OccursAt(Lower(s), k, j);
      MatchesAtLower(s, k, j);
    }
    if ContainsKeyword(s) {
      var k, j :| k in Keywords && MatchesAt(s, k, j);
      MatchesAtLower(s, k, j);
    }
  }

  /** The empty string, which every absent field defaults to, is safe. */
  lemma EmptyIsSafe()
    ensures !IsUnsafe("")
  {
    IsUnsafeMeansKeyword("");
  }

  /** A keyword found in a part of a text is found in the whole text. */
  lemma {:induction false} UnsafeSliceMeansUnsafe(s: string, a: nat, b: nat)
    requires a <= b <= |s|
    ensures IsUnsafe(s[a..b]) ==> IsUnsafe(s)
  {
    if IsUnsafe(s[a..b]) {
      IsUnsafeMeansKeyword(s[a..b]);
      var k, i :| k in Keywords && MatchesAt(s[a..b], k, i);
      var part := s[a..b];
      assert forall m :: i <= m < i + |k| ==> part[m] == s[a + m];
      assert MatchesAt(s, k, a + i);
      IsUnsafeMeansKeyword(s);
    }
  }

  /** Upper- or lower-case makes no difference: texts equal up to ASCII case are judged alike. */
  lemma {:induction false} CaseInsensitive(s: string, t: string)
    requires |s| == |t|
    requires forall i :: 0 <= i < |s| ==> LowerAscii(s[i]) == LowerAscii(t[i])
    ensures IsUnsafe(s) == IsUnsafe(t)
  {
    assert Lower(s) == Lower(t);
  }

  /** A text shorter than the shortest keyword is safe. */
  lemma ShortTextIsSafe(s: string)
    requires |s| < 4
    ensures !IsUnsafe(s)
  {
    IsUnsafeMeansKeyword(s);
    assert forall k :: k in Keywords ==> |k| >= 4;
  }

  /** Upper case does not hide a keyword. */
  lemma ShoutedKeywordIsUnsafe()
    ensures IsUnsafe("SELF-HARM")
  {
    assert MatchesAt("SELF-HARM", Keywords[6], 0);
    IsUnsafeMeansKeyword("SELF-HARM");
  }
}
