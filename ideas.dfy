/**
 * From the upstream reply text to the list of ideas sent to the client:
 * parse-or-fallback extraction, then truncation and the final safety filter.
 */
module Ideas {
  import opened Seqs
  import opened Safety
  import opened Text

  /** At most this many ideas are taken from the upstream reply. */
  const MaxIdeas: nat := 3
  /** Each idea is cut to this many characters. */
  const MaxIdeaLength: nat := 220

  /**
   * What `JSON.parse(raw)` followed by the read of `parsed.ideas` leads to.
   * The parser itself is not modelled: this is its outcome.
   */
  datatype Parsed =
    | Malformed                      // `JSON.parse` throws
    | NullValue                      // the text is `null`: reading `.ideas` throws
    | IdeasArray(items: seq<string>) // `.ideas` is an array; each entry as `String(x)` renders it
    | NoIdeasArray                   // any other value: `.ideas` is missing or is not an array

  /** The fallback's line filter: `filter(Boolean)` on strings keeps the non-empty ones. */
  predicate NonEmpty(l: string) {
    l != []
  }

  /** The stripped lines of `raw`, in order, before empties are dropped. */
  function StrippedLines(raw: string): seq<string> {
    Map(StripMarkers, SplitNewlineRuns(raw))
  }

  /** After splitting and stripping, no line holds a line feed or starts with a marker. */
  lemma StrippedLinesShape(raw: string)
    ensures forall l :: l in StrippedLines(raw) ==> '\n' !in l && (l == [] || !IsMarker(l[0]))
  {
    var lines := SplitNewlineRuns(raw);
    var ls := StrippedLines(raw);
    forall l | l in ls
      ensures '\n' !in l && (l == [] || !IsMarker(l[0]))
    {
      var i :| 0 <= i < |ls| && ls[i] == l;
      assert lines[i] in lines;
      SuffixHasNoLineFeed(lines[i], |lines[i]| - |l|);
    }
  }

  /** A part of a line without line feeds has none either. */
  lemma SuffixHasNoLineFeed(line: string, d: nat)
    requires d <= |line|
    requires '\n' !in line
    ensures '\n' !in line[d..]
  {
    var tail := line[d..];
    assert forall j :: 0 <= j < |tail| ==> tail[j] in line;
  }

  /** `raw.split(/\n+/).map(strip).filter(Boolean).slice(0, 3)`. */
  function Fallback(raw: string): seq<string> {
    Take(Filter(NonEmpty, StrippedLines(raw)), MaxIdeas)
  }

  /**
   * The fallback yields at most three non-empty lines, none starting with a
   * marker and none holding a line feed, in the order of the source lines;
   * when it yields fewer than three, no non-empty stripped line was left behind.
   */
  lemma FallbackShape(raw: string)
    ensures |Fallback(raw)| <= MaxIdeas
    ensures forall l :: l in Fallback(raw) ==> l != [] && !IsMarker(l[0]) && '\n' !in l
    ensures IsSubsequence(Fallback(raw), StrippedLines(raw))
    ensures |Fallback(raw)| < MaxIdeas ==>
              forall l :: l in StrippedLines(raw) && l != [] ==> l in Fallback(raw)
    ensures |Fallback(raw)| < MaxIdeas ==> Fallback(raw) == Filter(NonEmpty, StrippedLines(raw))
    ensures exists n :: 0 <= n <= |StrippedLines(raw)| &&
              Fallback(raw) == Filter(NonEmpty, StrippedLines(raw)[..n])
  {
    var ls := StrippedLines(raw);
    var kept := Filter(NonEmpty, ls);
    var r := Fallback(raw);
    assert r == Take(kept, MaxIdeas);
    StrippedLinesShape(raw);
    FilterIsSubsequence(NonEmpty, ls);
    PrefixOfSubsequence(kept, ls, |r|);
    assert r == kept[..|r|];
    forall l | l in r
      ensures l != [] && !IsMarker(l[0]) && '\n' !in l
    {
      assert l in kept;
      assert NonEmpty(l) && l in ls;
    }
    if |r| < MaxIdeas {
      assert r == kept;
    }
    var n := FilterPrefix(NonEmpty, ls, |r|);
    assert Fallback(raw) == Filter(NonEmpty, StrippedLines(raw)[..n]);
  }

  /** Lines 59-66: parsed array cut to three, other parsed values give nothing, failures fall back. */
  function ExtractIdeas(parsed: Parsed, raw: string): seq<string> {
    match parsed
    case IdeasArray(items) => Take(items, MaxIdeas)
    case NoIdeasArray => []
    case Malformed => Fallback(raw)
    case NullValue => Fallback(raw)
  }

  /**
   * A parsed array gives its first `min(3, n)` entries in order; any other
   * parsed value gives the empty list and never the fallback; a parse failure,
   * or the value `null`, gives the fallback's lines.
   */
  lemma ExtractIdeasCases(parsed: Parsed, raw: string)
    ensures |ExtractIdeas(parsed, raw)| <= MaxIdeas
    ensures parsed.IdeasArray? ==>
              var n := if |parsed.items| <= MaxIdeas then |parsed.items| else MaxIdeas;
              |ExtractIdeas(parsed, raw)| == n && ExtractIdeas(parsed, raw) == parsed.items[..n]
    ensures parsed.NoIdeasArray? ==> ExtractIdeas(parsed, raw) == []
    ensures (parsed.Malformed? || parsed.NullValue?) ==>
              ExtractIdeas(parsed, raw) == Fallback(raw) &&
              IsSubsequence(ExtractIdeas(parsed, raw), StrippedLines(raw))
  {
    FallbackShape(raw);
  }

  /** `String(x).slice(0, 220)`. */
  function Truncate(x: string): string {
    Take(x, MaxIdeaLength)
  }

  /** The final filter's test: `!bad(x)`. */
  predicate IsSafe(x: string) {
    !IsUnsafe(x)
  }

  /** Line 69: every idea truncated, then the unsafe ones dropped. */
  function PostFilter(ideas: seq<string>): seq<string> {
    Filter(IsSafe, Map(Truncate, ideas))
  }

  /** A safe text stays safe when it is cut short. */
  lemma TruncateKeepsSafe(x: string)
    requires IsSafe(x)
    ensures IsSafe(Truncate(x))
  {
    UnsafeSliceMeansUnsafe(x, 0, |Truncate(x)|);
  }

  /**
   * The post-filter never lengthens the list; every survivor is at most 220
   * characters and safe; the survivors keep their order; and a truncated idea
   * survives exactly when it is safe, so every safe input idea is kept.
   */
  lemma PostFilterShape(ideas: seq<string>)
    ensures |PostFilter(ideas)| <= |ideas|
    ensures forall x :: x in PostFilter(ideas) ==> |x| <= MaxIdeaLength && IsSafe(x)
    ensures IsSubsequence(PostFilter(ideas), Map(Truncate, ideas))
    ensures forall i :: 0 <= i < |ideas| ==>
              (Truncate(ideas[i]) in PostFilter(ideas) <==> IsSafe(Truncate(ideas[i])))
    ensures forall i :: 0 <= i < |ideas| && IsSafe(ideas[i]) ==> Truncate(ideas[i]) in PostFilter(ideas)
    ensures forall x :: multiset(PostFilter(ideas))[x] ==
              if IsSafe(x) then multiset(Map(Truncate, ideas))[x] else 0
  {
    var truncated := Map(Truncate, ideas);
    var r := PostFilter(ideas);
    FilterIsSubsequence(IsSafe, truncated);
    FilterMultiplicity(IsSafe, truncated);
    forall x | x in r
      ensures |x| <= MaxIdeaLength && IsSafe(x)
    {
      var i :| 0 <= i < |truncated| && truncated[i] == x;
    }
    forall i | 0 <= i < |ideas|
      ensures Truncate(ideas[i]) in r <==> IsSafe(Truncate(ideas[i]))
    {
      assert truncated[i] == Truncate(ideas[i]) && truncated[i] in truncated;
    }
    forall i | 0 <= i < |ideas| && IsSafe(ideas[i])
      ensures Truncate(ideas[i]) in r
    {
      TruncateKeepsSafe(ideas[i]);
      assert truncated[i] == Truncate(ideas[i]) && truncated[i] in truncated;
    }
  }

  /** Running the post-filter again changes nothing. */
  lemma PostFilterIdempotent(ideas: seq<string>)
    ensures PostFilter(PostFilter(ideas)) == PostFilter(ideas)
  {
    var once := PostFilter(ideas);
    PostFilterShape(ideas);
    forall i | 0 <= i < |once|
      ensures Truncate(once[i]) == once[i] && IsSafe(once[i])
    {
      assert once[i] in once;
    }
    assert Map(Truncate, once) == once;
    FilterAllKept(IsSafe, once);
  }

  /** The ideas sent to the client for a given parse outcome and reply text. */
  function ClientIdeas(parsed: Parsed, raw: string): seq<string> {
    PostFilter(ExtractIdeas(parsed, raw))
  }

  /** What the client receives: at most three ideas, each at most 220 characters and safe. */
  lemma ClientIdeasShape(parsed: Parsed, raw: string)
    ensures |ClientIdeas(parsed, raw)| <= MaxIdeas
    ensures forall x :: x in ClientIdeas(parsed, raw) ==> |x| <= MaxIdeaLength && IsSafe(x)
  {
    ExtractIdeasCases(parsed, raw);
    PostFilterShape(ExtractIdeas(parsed, raw));
  }

  /**
   * A reply made of lines, each a run of bullet or numbering markers followed
   * by a text that starts with something else, falls back to the first three
   * of those texts.
   */
  lemma FallbackCleansBulletedLines(lines: seq<string>, markers: seq<string>, texts: seq<string>)
    requires |lines| >= 1 && |markers| == |lines| && |texts| == |lines|
    requires forall i :: 0 <= i < |lines| ==> lines[i] == markers[i] + texts[i]
    requires forall i :: 0 <= i < |lines| ==> '\n' !in lines[i]
    requires forall i, j :: 0 <= i < |lines| && 0 <= j < |markers[i]| ==> IsMarker(markers[i][j])
    requires forall i :: 0 <= i < |lines| ==> texts[i] != [] && !IsMarker(texts[i][0])
    ensures Fallback(JoinLines(lines)) == Take(texts, MaxIdeas)
  {
    forall i | 0 <= i < |lines|
      ensures StripMarkers(lines[i]) == texts[i]
    {
      StripMarkersOf(markers[i], texts[i]);
    }
    var stripped := Map(StripMarkers, lines);
    assert stripped == texts;
    assert forall p :: p in lines ==> '\n' !in p;
    SplitJoinLines(lines);
    assert StrippedLines(JoinLines(lines)) == stripped;
    FilterAllKept(NonEmpty, texts);
  }

  /** A parsed array of short, safe ideas reaches the client as its first three entries, unchanged. */
  lemma WellFormedArrayPassesThrough(items: seq<string>, raw: string)
    requires forall i :: 0 <= i < |items| ==> |items[i]| <= MaxIdeaLength && IsSafe(items[i])
    ensures ClientIdeas(IdeasArray(items), raw) == Take(items, MaxIdeas)
  {
    var first := Take(items, MaxIdeas);
    assert forall i :: 0 <= i < |first| ==> first[i] == items[i];
    assert Map(Truncate, first) == first;
    FilterAllKept(IsSafe, first);
  }
}
