/**
 * The string operations the handler applies to the upstream text:
 * `trim()`, `split(/\n+/)` and `replace(/^[\-*\d.\s]+/, '')`.
 * A JavaScript string is a sequence of UTF-16 code units: each non-surrogate
 * code unit is the `char` of that value, and each surrogate code unit is stood
 * in for by a `char` outside the Basic Multilingual Plane that is not
 * whitespace, not a marker and not an ASCII letter, so lengths count code units.
 */
module Text {
  import opened Seqs

  /** JavaScript's `\s` (and what `trim()` removes): the WhiteSpace and LineTerminator characters. */
  predicate IsJsWhitespace(c: char) {
    || c == '\t' || c == '\n' || c == '\U{000B}' || c == '\U{000C}' || c == '\r'
    || c == ' ' || c == '\U{00A0}' || c == '\U{1680}' || '\U{2000}' <= c <= '\U{200A}'
    || c == '\U{2028}' || c == '\U{2029}' || c == '\U{202F}' || c == '\U{205F}'
    || c == '\U{3000}' || c == '\U{FEFF}'
  }

  /** The bullet and numbering class `[\-*\d.\s]`: dash, star, ASCII digit, dot or whitespace. */
  predicate IsMarker(c: char) {
    c == '-' || c == '*' || '0' <= c <= '9' || c == '.' || IsJsWhitespace(c)
  }

  /** `s.replace(/^[\-*\d.\s]+/, '')`: the longest leading run of markers is removed. */
  function StripMarkers(s: string): (r: string)
    ensures |r| <= |s| && r == s[|s| - |r|..]
    ensures forall i :: 0 <= i < |s| - |r| ==> IsMarker(s[i])
    ensures r == [] || !IsMarker(r[0])
    decreases |s|
  {
    if s != [] && IsMarker(s[0]) then StripMarkers(s[1..]) else s
  }

  /** The strip removes exactly a leading run of markers that is followed by a non-marker or by nothing. */
  lemma StripMarkersOf(m: string, t: string)
    requires forall i :: 0 <= i < |m| ==> IsMarker(m[i])
    requires t == [] || !IsMarker(t[0])
    ensures StripMarkers(m + t) == t
  {
    var s := m + t;
    var r := StripMarkers(s);
    if t != [] {
      assert s[|m|] == t[0];
    }
    if r != [] {
      assert r[0] == s[|s| - |r|];
      assert forall i :: 0 <= i < |m| ==> s[i] == m[i];
    }
    assert |r| == |t|;
    assert s[|s| - |t|..] == t;
  }

  /** Stripping a second time removes nothing more. */
  lemma StripMarkersIdempotent(s: string)
    ensures StripMarkers(StripMarkers(s)) == StripMarkers(s)
  {
  }

  /** The first index at or after `i` that is not whitespace, or `|s|`. */
  function SkipWhitespace(s: string, i: nat): (j: nat)
    requires i <= |s|
    ensures i <= j <= |s|
    ensures forall m :: i <= m < j ==> IsJsWhitespace(s[m])
    ensures j < |s| ==> !IsJsWhitespace(s[j])
    decreases |s| - i
  {
    if i == |s| || !IsJsWhitespace(s[i]) then i else SkipWhitespace(s, i + 1)
  }

  /** Moving back from `j`, no further than `lo`: the start of the whitespace that ends at `j`. */
  function SkipWhitespaceBack(s: string, lo: nat, j: nat): (k: nat)
    requires lo <= j <= |s|
    ensures lo <= k <= j
    ensures forall m :: k <= m < j ==> IsJsWhitespace(s[m])
    ensures k > lo ==> !IsJsWhitespace(s[k - 1])
    decreases j - lo
  {
    if j == lo || !IsJsWhitespace(s[j - 1]) then j else SkipWhitespaceBack(s, lo, j - 1)
  }

  /** `s.trim()`: the part of `s` between its leading and its trailing whitespace. */
  function Trim(s: string): (r: string)
    ensures exists a :: OccursAt(s, r, a) && (forall i :: 0 <= i < a ==> IsJsWhitespace(s[i]))
                                          && (forall i :: a + |r| <= i < |s| ==> IsJsWhitespace(s[i]))
    ensures r == [] || (!IsJsWhitespace(r[0]) && !IsJsWhitespace(r[|r| - 1]))
  {
    var a := SkipWhitespace(s, 0);
    var b := SkipWhitespaceBack(s, a, |s|);
    assert OccursAt(s, s[a..b], a);
    s[a..b]
  }

  /** The first line feed at or after `i`, or `|s|` when there is none. */
  function LineEnd(s: string, i: nat): (j: nat)
    requires i <= |s|
    ensures i <= j <= |s|
    ensures forall m :: i <= m < j ==> s[m] != '\n'
    ensures j < |s| ==> s[j] == '\n'
    decreases |s| - i
  {
    if i == |s| || s[i] == '\n' then i else LineEnd(s, i + 1)
  }

  /** The end of the run of line feeds starting at `i`. */
  function RunEnd(s: string, i: nat): (j: nat)
    requires i <= |s|
    ensures i <= j <= |s|
    ensures forall m :: i <= m < j ==> s[m] == '\n'
    ensures j < |s| ==> s[j] != '\n'
    decreases |s| - i
  {
    if i == |s| || s[i] != '\n' then i else RunEnd(s, i + 1)
  }

  /**
   * `s.split(/\n+/)`: the pieces between maximal runs of line feeds. The
   * first and the last piece are empty when `s` starts or ends with a line
   * feed; every piece in between is non-empty.
   */
  function SplitNewlineRuns(s: string): (r: seq<string>)
    ensures |r| >= 1
    ensures forall p :: p in r ==> '\n' !in p
    ensures forall i :: 0 < i < |r| - 1 ==> r[i] != []
    ensures s != [] && s[0] != '\n' ==> r[0] != []
    ensures s == [] ==> r == [[]]
    decreases |s|
  {
    var i := LineEnd(s, 0);
    if i == |s| then
      assert forall m :: 0 <= m < |s| ==> s[m] != '\n';
      [s]
    else
      var rest := SplitNewlineRuns(s[RunEnd(s, i)..]);
      assert forall m :: 0 <= m < i ==> s[..i][m] != '\n';
      [s[..i]] + rest
  }

  /** The pieces joined back with a single line feed between each two. */
  function JoinLines(ls: seq<string>): (s: string)
    decreases |ls|
  {
    if ls == [] then []
    else if |ls| == 1 then ls[0]
    else ls[0] + "\n" + JoinLines(ls[1..])
  }

  /** The first character of a joined text is that of its first piece. */
  lemma {:induction false} JoinLinesFirst(ls: seq<string>)
    requires |ls| >= 1 && ls[0] != []
    ensures JoinLines(ls) != [] && JoinLines(ls)[0] == ls[0][0]
  {
  }

  /** In text that starts with a piece free of line feeds and then a line feed, the first line ends after the piece. */
  lemma LineEndAfterPiece(p: string, t: string)
    requires '\n' !in p
    ensures LineEnd(p + "\n" + t, 0) == |p|
  {
    var s := p + "\n" + t;
    assert forall m :: 0 <= m < |p| ==> s[m] == p[m] && s[m] in p;
    assert s[|p|] == '\n';
  }

  /** A single line feed followed by text that does not start with one is a run of length one. */
  lemma RunEndAfterOne(p: string, t: string)
    requires t == [] || t[0] != '\n'
    ensures RunEnd(p + "\n" + t, |p|) == |p| + 1
  {
    var s := p + "\n" + t;
    assert s[|p|] == '\n';
    if t != [] {
      assert s[|p| + 1] == t[0];
    }
  }

  /**
   * Splitting undoes joining, for pieces without line feeds whose inner
   * members are non-empty: exactly the lists `split(/\n+/)` can produce.
   */
  lemma {:induction false} SplitJoinLines(ls: seq<string>)
    requires |ls| >= 1
    requires forall p :: p in ls ==> '\n' !in p
    requires forall i :: 0 < i < |ls| - 1 ==> ls[i] != []
    ensures SplitNewlineRuns(JoinLines(ls)) == ls
    decreases |ls|
  {
    var s := JoinLines(ls);
    var p := ls[0];
    if |ls| == 1 {
      assert forall m :: 0 <= m < |s| ==> s[m] in p;
      assert LineEnd(s, 0) == |s|;
    } else {
      var rest := JoinLines(ls[1..]);
      assert s == p + "\n" + rest;
      if rest != [] {
        if |ls| == 2 {
          assert rest == ls[1] && rest[0] in ls[1];
        } else {
          JoinLinesFirst(ls[1..]);
          assert rest[0] in ls[1];
        }
      }
      LineEndAfterPiece(p, rest);
      RunEndAfterOne(p, rest);
      assert s[|p| + 1..] == rest;
      assert s[..|p|] == p;
      SplitJoinLines(ls[1..]);
      assert [p] + ls[1..] == ls;
    }
  }

  /** `s` with every run of line feeds replaced by a single line feed. */
  function CollapseNewlines(s: string): string
    decreases |s|
  {
    if |s| < 2 then s
    else if s[0] == '\n' && s[1] == '\n' then CollapseNewlines(s[1..])
    else [s[0]] + CollapseNewlines(s[1..])
  }

  /** Text without line feeds passes through the collapse unchanged. */
  lemma {:induction false} CollapseSkipsText(p: string, t: string)
    requires forall m :: 0 <= m < |p| ==> p[m] != '\n'
    ensures CollapseNewlines(p + t) == p + CollapseNewlines(t)
    decreases |p|
  {
    if p != [] {
      var u := p + t;
      assert u[0] == p[0] != '\n';
      if |u| < 2 {
        assert t == [] && u == p;
      } else {
        assert u[1..] == p[1..] + t;
        CollapseSkipsText(p[1..], t);
        calc {
          CollapseNewlines(u);
          [u[0]] + CollapseNewlines(u[1..]);
          [p[0]] + (p[1..] + CollapseNewlines(t));
          { assert [p[0]] + p[1..] == p; }
          p + CollapseNewlines(t);
        }
      }
    } else {
      assert p + t == t;
    }
  }

  /** A run of line feeds followed by text that does not start with one collapses to one line feed. */
  lemma {:induction false} CollapseRun(s: string, i: nat, j: nat)
    requires i < j <= |s|
    requires forall m :: i <= m < j ==> s[m] == '\n'
    requires j < |s| ==> s[j] != '\n'
    ensures CollapseNewlines(s[i..]) == "\n" + CollapseNewlines(s[j..])
    decreases j - i
  {
    if j - i >= 2 {
      CollapseRun(s, i + 1, j);
      assert s[i..][1..] == s[i + 1..];
    } else {
      assert s[i..][1..] == s[j..];
    }
  }

  /** Joining the pieces of a split gives the text back with each run of line feeds collapsed. */
  lemma {:induction false} JoinSplitCollapses(s: string)
    ensures JoinLines(SplitNewlineRuns(s)) == CollapseNewlines(s)
    decreases |s|
  {
    var i := LineEnd(s, 0);
    if i == |s| {
      assert SplitNewlineRuns(s) == [s];
      CollapseSkipsText(s, []);
      assert s + [] == s;
    } else {
      var j := RunEnd(s, i);
      var pieces := SplitNewlineRuns(s[j..]);
      JoinSplitCollapses(s[j..]);
      JoinLinesCons(s[..i], pieces);
      assert SplitNewlineRuns(s) == [s[..i]] + pieces;
      CollapseAtFirstRun(s, i, j);
    }
  }

  /** Joining a piece in front of at least one more puts a line feed between them. */
  lemma JoinLinesCons(p: string, ps: seq<string>)
    requires |ps| >= 1
    ensures JoinLines([p] + ps) == p + ("\n" + JoinLines(ps))
  {
    assert ([p] + ps)[1..] == ps;
    assert p + "\n" + JoinLines(ps) == p + ("\n" + JoinLines(ps));
  }

  /** A first line without line feeds passes through the collapse unchanged. */
  lemma CollapseKeepsFirstLine(s: string, i: nat)
    requires i <= |s|
    requires forall m :: 0 <= m < i ==> s[m] != '\n'
    ensures CollapseNewlines(s) == s[..i] + CollapseNewlines(s[i..])
  {
    var head, tail := s[..i], s[i..];
    assert forall m :: 0 <= m < |head| ==> head[m] != '\n';
    assert s == head + tail;
    CollapseSkipsText(head, tail);
  }

  /** Collapsing a text splits at its first run of line feeds. */
  lemma CollapseAtFirstRun(s: string, i: nat, j: nat)
    requires i < j <= |s|
    requires forall m :: 0 <= m < i ==> s[m] != '\n'
    requires forall m :: i <= m < j ==> s[m] == '\n'
    requires j < |s| ==> s[j] != '\n'
    ensures CollapseNewlines(s) == s[..i] + ("\n" + CollapseNewlines(s[j..]))
  {
    CollapseKeepsFirstLine(s, i);
    CollapseRun(s, i, j);
  }
}
