/**
The spans shown for a factor (collectSpans, segmentAt and snippet in internal/assessor/evidence.go)
against the rule that flagged it (Detect in internal/assessor/heuristic.go).
*/
module Spans {
  import opened Evidence

  const MaxSpansPerFactor := 3
  const MaxSpanRunes := 200
  const ContextRunes := 40

  datatype Hit = Hit(start: nat, end: nat)

  /** FindAll: every match of the pattern in a text. */
  type Pattern = string -> seq<Hit>

  datatype Rule = Rule(factor: string, scope: Scope, patterns: seq<Pattern>)

  predicate StartIn(hits: seq<Hit>, start: nat)
  {
    exists k :: 0 <= k < |hits| && hits[k].start == start
  }

  /** Some pattern has a match that starts here. */
  ghost predicate Matches(text: string, patterns: seq<Pattern>, start: nat)
  {
    exists p :: 0 <= p < |patterns| && StartIn(patterns[p](text), start)
  }

  /** A match is a range of the text. */
  predicate Ranges(text: string, hits: seq<Hit>)
  {
    forall k :: 0 <= k < |hits| ==> hits[k].start <= hits[k].end <= |text|
  }

  ghost predicate Fires(ign: Ignorable, c: Content, r: Rule)
  {
    var text := Stripped(ign, Joined(TextsInScope(c, r.scope)));
    text != "" && exists start :: Matches(text, r.patterns, start)
  }

  method MatchesAny(text: string, patterns: seq<Pattern>) returns (b: bool)
    ensures b <==> text != "" && exists start :: Matches(text, patterns, start)
  {
    if text == "" {
      return false;
    }
    for p := 0 to |patterns|
      invariant forall q :: 0 <= q < p ==> patterns[q](text) == []
    {
      if |patterns[p](text)| > 0 {
        assert StartIn(patterns[p](text), patterns[p](text)[0].start);
        assert Matches(text, patterns, patterns[p](text)[0].start);
        return true;
      }
    }
    return false;
  }

  /** Detection reports exactly the factors of the rules that fire. */
  method Detect(ign: Ignorable, c: Content, rules: seq<Rule>) returns (out: seq<string>)
    ensures forall f :: f in out <==> exists k :: 0 <= k < |rules| && rules[k].factor == f && Fires(ign, c, rules[k])
  {
    out := [];
    for i := 0 to |rules|
      invariant forall f :: f in out <==> exists k :: 0 <= k < i && rules[k].factor == f && Fires(ign, c, rules[k])
    {
      var text := TextForScope(c, rules[i].scope);
      var fires := MatchesAny(Stripped(ign, text), rules[i].patterns);
      assert fires == Fires(ign, c, rules[i]);
      if fires {
        out := out + [rules[i].factor];
      }
    }
  }

  // ---- Collecting the matches ----

  predicate Distinct(hits: seq<Hit>)
  {
    forall i, j :: 0 <= i < j < |hits| ==> hits[i].start != hits[j].start
  }

  predicate Ascending(hits: seq<Hit>)
  {
    forall i, j :: 0 <= i < j < |hits| ==> hits[i].start < hits[j].start
  }

  lemma StartInOneMore(hits: seq<Hit>, h: Hit, start: nat)
    ensures StartIn(hits + [h], start) <==> StartIn(hits, start) || start == h.start
  {
    if k :| 0 <= k < |hits| && hits[k].start == start {
      assert (hits + [h])[k].start == start;
    }
    assert (hits + [h])[|hits|] == h;
  }

  /** The first k matches of a pattern added to those known, each unless one starts there already. */
  function Added(known: seq<Hit>, hs: seq<Hit>, k: nat): seq<Hit>
    requires k <= |hs|
  {
    if k == 0 then known
    else
      var before := Added(known, hs, k - 1);
      if StartIn(before, hs[k - 1].start) then before else before + [hs[k - 1]]
  }

  /** What the first p patterns add. */
  function AddedBy(text: string, patterns: seq<Pattern>, p: nat): seq<Hit>
    requires p <= |patterns|
  {
    if p == 0 then []
    else
      var hs := patterns[p - 1](text);
      Added(AddedBy(text, patterns, p - 1), hs, |hs|)
  }

  /** The matches to show, in text order. */
  function HitsOf(text: string, patterns: seq<Pattern>): seq<Hit>
  {
    Sorted(AddedBy(text, patterns, |patterns|))
  }

  lemma StartInPrefix(hs: seq<Hit>, k: nat, start: nat)
    requires 0 < k <= |hs|
    ensures StartIn(hs[..k], start) <==> StartIn(hs[..k - 1], start) || start == hs[k - 1].start
  {
    assert hs[..k] == hs[..k - 1] + [hs[k - 1]];
    StartInOneMore(hs[..k - 1], hs[k - 1], start);
  }

  lemma {:induction false} AddedStarts(known: seq<Hit>, hs: seq<Hit>, k: nat)
    requires k <= |hs| && Distinct(known)
    ensures Distinct(Added(known, hs, k))
    ensures forall start :: StartIn(Added(known, hs, k), start) <==> StartIn(known, start) || StartIn(hs[..k], start)
  {
    if k > 0 {
      AddedStarts(known, hs, k - 1);
      var before := Added(known, hs, k - 1);
      forall start: nat
        ensures StartIn(before + [hs[k - 1]], start) <==> StartIn(before, start) || start == hs[k - 1].start
        ensures StartIn(hs[..k], start) <==> StartIn(hs[..k - 1], start) || start == hs[k - 1].start
      {
        StartInOneMore(before, hs[k - 1], start);
        StartInPrefix(hs, k, start);
      }
    }
  }

  lemma {:induction false} AddedMeans(known: seq<Hit>, hs: seq<Hit>, k: nat)
    requires k <= |hs| && Distinct(known)
    ensures Distinct(Added(known, hs, k))
    ensures forall start :: StartIn(Added(known, hs, k), start) <==> StartIn(known, start) || StartIn(hs[..k], start)
    ensures forall h :: h in Added(known, hs, k) ==> h in known || (!StartIn(known, h.start) && FirstOf(hs, h))
  {
    AddedStarts(known, hs, k);
    if k > 0 {
      AddedMeans(known, hs, k - 1);
      if !StartIn(Added(known, hs, k - 1), hs[k - 1].start) {
        NoneBefore(hs, k - 1);
        assert FirstAt(hs, k - 1, hs[k - 1]);
      }
    }
  }

  /** h is the match at i, and none before it starts where it does. */
  predicate FirstAt(hs: seq<Hit>, i: nat, h: Hit)
  {
    i < |hs| && hs[i] == h && forall j :: 0 <= j < i ==> hs[j].start != h.start
  }

  ghost predicate FirstOf(hs: seq<Hit>, h: Hit)
  {
    exists i: nat :: FirstAt(hs, i, h)
  }

  lemma NoneBefore(hs: seq<Hit>, i: nat)
    requires i < |hs| && !StartIn(hs[..i], hs[i].start)
    ensures FirstAt(hs, i, hs[i])
  {
    forall j | 0 <= j < i
      ensures hs[j].start != hs[i].start
    {
      assert hs[..i][j] == hs[j];
    }
  }

  /** h is what the first pattern with a match that starts there matches first. */
  ghost predicate FirstPattern(text: string, patterns: seq<Pattern>, p: nat, h: Hit)
  {
    p < |patterns| && FirstOf(patterns[p](text), h) && forall q :: 0 <= q < p ==> !StartIn(patterns[q](text), h.start)
  }

  ghost predicate IsFirst(text: string, patterns: seq<Pattern>, h: Hit)
  {
    exists p: nat :: FirstPattern(text, patterns, p, h)
  }

  lemma {:induction false} AddedByMeans(text: string, patterns: seq<Pattern>, p: nat)
    requires p <= |patterns|
    ensures Distinct(AddedBy(text, patterns, p))
    ensures forall start :: StartIn(AddedBy(text, patterns, p), start) <==> exists q :: 0 <= q < p && StartIn(patterns[q](text), start)
    ensures forall h :: h in AddedBy(text, patterns, p) ==> IsFirst(text, patterns, h)
  {
    if p > 0 {
      AddedByMeans(text, patterns, p - 1);
      var known, hs := AddedBy(text, patterns, p - 1), patterns[p - 1](text);
      AddedMeans(known, hs, |hs|);
      assert hs[..|hs|] == hs;
      forall h | h in AddedBy(text, patterns, p) && h !in known
        ensures FirstPattern(text, patterns, p - 1, h)
      {
      }
    }
  }

  function Insert(h: Hit, hits: seq<Hit>): seq<Hit>
  {
    if hits == [] || h.start < hits[0].start then [h] + hits else [hits[0]] + Insert(h, hits[1..])
  }

  function Sorted(hits: seq<Hit>): seq<Hit>
  {
    if hits == [] then [] else Insert(hits[0], Sorted(hits[1..]))
  }

  lemma {:induction false} InsertKeepsOrder(h: Hit, hits: seq<Hit>)
    requires Ascending(hits) && !StartIn(hits, h.start)
    ensures Ascending(Insert(h, hits)) && forall start :: StartIn(Insert(h, hits), start) <==> start == h.start || StartIn(hits, start)
  {
    if hits == [] || h.start < hits[0].start {
      forall start: nat
        ensures StartIn([h] + hits, start) <==> start == h.start || StartIn(hits, start)
      {
        StartInFirst(h, hits, start);
      }
    } else {
      var rest := Insert(h, hits[1..]);
      assert hits == [hits[0]] + hits[1..];
      forall start: nat
        ensures StartIn(hits, start) <==> start == hits[0].start || StartIn(hits[1..], start)
        ensures StartIn([hits[0]] + rest, start) <==> start == hits[0].start || StartIn(rest, start)
      {
        StartInFirst(hits[0], hits[1..], start);
        StartInFirst(hits[0], rest, start);
      }
      InsertKeepsOrder(h, hits[1..]);
      forall j | 0 <= j < |rest|
        ensures hits[0].start < rest[j].start
      {
        assert StartIn(rest, rest[j].start);
      }
    }
  }

  lemma StartInFirst(h: Hit, hits: seq<Hit>, start: nat)
    ensures StartIn([h] + hits, start) <==> start == h.start || StartIn(hits, start)
  {
    if k :| 0 <= k < |hits| && hits[k].start == start {
      assert ([h] + hits)[k + 1].start == start;
    }
    assert ([h] + hits)[0] == h;
  }

  lemma {:induction false} SortedIsAscending(hits: seq<Hit>)
    requires Distinct(hits)
    ensures Ascending(Sorted(hits)) && forall start :: StartIn(Sorted(hits), start) <==> StartIn(hits, start)
  {
    if hits != [] {
      SortedIsAscending(hits[1..]);
      assert hits == [hits[0]] + hits[1..];
      forall start: nat
        ensures StartIn(hits, start) <==> start == hits[0].start || StartIn(hits[1..], start)
      {
        StartInFirst(hits[0], hits[1..], start);
      }
      assert !StartIn(hits[1..], hits[0].start);
      InsertKeepsOrder(hits[0], Sorted(hits[1..]));
    }
  }

  lemma {:induction false} InsertKeepsHits(h: Hit, hits: seq<Hit>)
    ensures multiset(Insert(h, hits)) == multiset(hits) + multiset{h}
  {
    if hits != [] && h.start >= hits[0].start {
      InsertKeepsHits(h, hits[1..]);
      assert hits == [hits[0]] + hits[1..];
    }
  }

  lemma {:induction false} SortedKeepsHits(hits: seq<Hit>)
    ensures multiset(Sorted(hits)) == multiset(hits)
  {
    if hits != [] {
      SortedKeepsHits(hits[1..]);
      InsertKeepsHits(hits[0], Sorted(hits[1..]));
      assert hits == [hits[0]] + hits[1..];
    }
  }

  predicate PatternsMatchRanges(text: string, patterns: seq<Pattern>)
  {
    forall p :: 0 <= p < |patterns| ==> Ranges(text, patterns[p](text))
  }

  /**
  The matches shown start, in ascending order, exactly where some pattern matches; where several do,
  the first pattern's first match is the one shown.
  */
  lemma HitsMean(text: string, patterns: seq<Pattern>)
    ensures var hits := HitsOf(text, patterns);
            && Ascending(hits)
            && (forall start :: StartIn(hits, start) <==> Matches(text, patterns, start))
            && (forall k :: 0 <= k < |hits| ==> IsFirst(text, patterns, hits[k]))
            && (PatternsMatchRanges(text, patterns) ==> Ranges(text, hits))
  {
    var all, hits := AddedBy(text, patterns, |patterns|), HitsOf(text, patterns);
    AddedByMeans(text, patterns, |patterns|);
    SortedIsAscending(all);
    SortedKeepsHits(all);
    forall k | 0 <= k < |hits|
      ensures IsFirst(text, patterns, hits[k])
    {
      assert hits[k] in multiset(hits);
      assert hits[k] in all;
    }
  }

  method AddMatches(hs: seq<Hit>, known: seq<Hit>, taken: set<nat>) returns (hits: seq<Hit>, seen: set<nat>)
    requires forall start :: start in taken <==> StartIn(known, start)
    ensures hits == Added(known, hs, |hs|) && forall start :: start in seen <==> StartIn(hits, start)
  {
    hits, seen := known, taken;
    for k := 0 to |hs|
      invariant hits == Added(known, hs, k) && forall start :: start in seen <==> StartIn(hits, start)
    {
      forall start: nat
        ensures StartIn(hits + [hs[k]], start) <==> StartIn(hits, start) || start == hs[k].start
      {
        StartInOneMore(hits, hs[k], start);
      }
      if hs[k].start !in seen {
        seen := seen + {hs[k].start};
        hits := hits + [hs[k]];
      }
    }
  }

  method CollectHits(text: string, patterns: seq<Pattern>) returns (hits: seq<Hit>)
    ensures hits == HitsOf(text, patterns)
  {
    hits := [];
    var seen: set<nat> := {};
    for p := 0 to |patterns|
      invariant hits == AddedBy(text, patterns, p) && forall start :: start in seen <==> StartIn(hits, start)
    {
      hits, seen := AddMatches(patterns[p](text), hits, seen);
    }
    hits := Sorted(hits);
  }

  // ---- One span ----

  ghost predicate InSome(segs: seq<Segment>, at: int)
  {
    exists k :: 0 <= k < |segs| && segs[k].start <= at < segs[k].end
  }

  /** The first segment from k on that a position is in, or the last one, or the body when there is none. */
  function SegmentFrom(segs: seq<Segment>, k: nat, at: int): Segment
    requires k <= |segs|
    decreases |segs| - k
  {
    if k == |segs| then (if |segs| > 0 then segs[|segs| - 1] else Segment("body", 0, 0))
    else if segs[k].start <= at < segs[k].end then segs[k]
    else SegmentFrom(segs, k + 1, at)
  }

  function SegmentFor(segs: seq<Segment>, at: int): Segment
  {
    SegmentFrom(segs, 0, at)
  }

  lemma {:induction false} SegmentFromMeans(segs: seq<Segment>, k: nat, at: int)
    requires k <= |segs| && forall j :: 0 <= j < k ==> !(segs[j].start <= at < segs[j].end)
    ensures var seg := SegmentFrom(segs, k, at);
            if InSome(segs, at) then seg in segs && seg.start <= at < seg.end
            else seg == if segs == [] then Segment("body", 0, 0) else segs[|segs| - 1]
    decreases |segs| - k
  {
    if k < |segs| && !(segs[k].start <= at < segs[k].end) {
      SegmentFromMeans(segs, k + 1, at);
    }
  }

  method SegmentAt(segs: seq<Segment>, at: int) returns (seg: Segment)
    ensures seg == SegmentFor(segs, at)
  {
    for k := 0 to |segs|
      invariant SegmentFrom(segs, k, at) == SegmentFor(segs, at)
    {
      if segs[k].start <= at && at < segs[k].end {
        return segs[k];
      }
    }
    return if |segs| > 0 then segs[|segs| - 1] else Segment("body", 0, 0);
  }

  lemma {:induction false} CoveredFrom(text: string, segs: seq<Segment>, k: nat, at: nat)
    requires Partition(text, segs) && k < |segs| && segs[k].start <= at < |text|
    ensures InSome(segs, at) || text[at] == '\n'
    decreases |segs| - k
  {
    if at >= segs[k].end {
      assert k < |segs| - 1;
      assert Adjacent(text, segs[k], segs[k + 1]);
      if at > segs[k].end {
        CoveredFrom(text, segs, k + 1, at);
      }
    }
  }

  /** Whatever is not a line break lies in some source's segment. */
  lemma OnlyBreaksAreStray(text: string, segs: seq<Segment>, at: nat)
    requires Partition(text, segs) && segs != [] && at < |text|
    ensures InSome(segs, at) || text[at] == '\n'
  {
    CoveredFrom(text, segs, 0, at);
  }

  function Max(a: int, b: int): int
  {
    if a > b then a else b
  }

  function Min(a: int, b: int): int
  {
    if a < b then a else b
  }

  /** How much context fits on each side of a match of n runes. */
  function Room(n: int): int
  {
    Min((MaxSpanRunes - n) / 2, ContextRunes)
  }

  function Low(h: Hit, seg: Segment): int
  {
    Max(Max(h.start - Room(h.end - h.start), 0), seg.start)
  }

  function High(text: string, h: Hit, seg: Segment): int
  {
    var hi := Min(h.end + Room(h.end - h.start), |text|);
    if hi > seg.end && h.end <= seg.end then seg.end else hi
  }

  predicate Long(h: Hit)
  {
    h.end - h.start >= MaxSpanRunes
  }

  /** The slice the snippet takes exists. */
  predicate Sliceable(text: string, h: Hit, seg: Segment)
  {
    Long(h) || 0 <= Low(h, seg) <= High(text, h, seg) <= |text|
  }

  const Ellipsis := "\U{2026}"

  function SnippetOf(text: string, h: Hit, seg: Segment): (s: string)
    requires h.start <= h.end <= |text| && Sliceable(text, h, seg)
    ensures |s| <= MaxSpanRunes + 2
  {
    if Long(h) then text[h.start..h.start + MaxSpanRunes - 1] + Ellipsis
    else
      var shown := text[Low(h, seg)..High(text, h, seg)];
      var front := if Low(h, seg) > 0 then Ellipsis + shown else shown;
      if High(text, h, seg) < |text| then front + Ellipsis else front
  }

  method Bounds(text: string, h: Hit, seg: Segment) returns (lo: int, hi: int)
    ensures lo == Low(h, seg) && hi == High(text, h, seg)
  {
    var room := (MaxSpanRunes - (h.end - h.start)) / 2;
    if room > ContextRunes {
      room := ContextRunes;
    }
    lo := Max(h.start - room, 0);
    if lo < seg.start {
      lo := seg.start;
    }
    hi := Min(h.end + room, |text|);
    if hi > seg.end && h.end <= seg.end {
      hi := seg.end;
    }
  }

  method Snippet(text: string, h: Hit, seg: Segment) returns (s: string)
    requires h.start <= h.end <= |text| && Sliceable(text, h, seg)
    ensures s == SnippetOf(text, h, seg)
  {
    if h.end - h.start >= MaxSpanRunes {
      var m := text[h.start..h.end];
      assert m[..MaxSpanRunes - 1] == text[h.start..h.start + MaxSpanRunes - 1];
      return m[..MaxSpanRunes - 1] + Ellipsis;
    }
    var lo, hi := Bounds(text, h, seg);
    s := text[lo..hi];
    if lo > 0 {
      s := Ellipsis + s;
    }
    if hi < |text| {
      s := s + Ellipsis;
    }
  }

  /** A short match that starts in its segment is shown whole, and its context stays in that segment as far as the match does. */
  lemma ContextStaysInSegment(text: string, h: Hit, seg: Segment)
    requires h.start <= h.end <= |text| && !Long(h) && 0 <= seg.start <= h.start <= seg.end <= |text|
    ensures Sliceable(text, h, seg)
    ensures seg.start <= Low(h, seg) <= h.start && h.end <= High(text, h, seg)
    ensures h.end <= seg.end ==> High(text, h, seg) <= seg.end
  {
  }

  function Context(n: nat): nat
    requires n < 200
  {
    if (200 - n) / 2 > 40 then 40 else (200 - n) / 2
  }

  function ContextStart(h: Hit, seg: Segment): int
    requires h.start <= h.end < h.start + 200
  {
    if h.start - Context(h.end - h.start) < seg.start then seg.start else h.start - Context(h.end - h.start)
  }

  function ContextEnd(h: Hit, seg: Segment): int
    requires h.start <= h.end < h.start + 200
  {
    if h.end + Context(h.end - h.start) > seg.end then seg.end else h.end + Context(h.end - h.start)
  }

  lemma ContextBounds(text: string, h: Hit, seg: Segment)
    requires 0 <= seg.start <= h.start <= h.end <= seg.end <= |text| && h.end < h.start + 200
    ensures Sliceable(text, h, seg) && Low(h, seg) == ContextStart(h, seg) && High(text, h, seg) == ContextEnd(h, seg)
    ensures ContextStart(h, seg) <= h.start && h.end <= ContextEnd(h, seg) <= |text| && !Long(h)
  {
  }

  lemma SliceOfSlice(text: string, lo: nat, hi: nat, a: nat, b: nat)
    requires lo <= a <= b <= hi <= |text|
    ensures text[lo..hi][a - lo..b - lo] == text[a..b]
  {
    var outer := text[lo..hi];
    var inner, whole := outer[a - lo..b - lo], text[a..b];
    forall i | 0 <= i < b - a
      ensures inner[i] == whole[i]
    {
      assert inner[i] == outer[a - lo + i] == text[a + i];
    }
  }

  /**
  What a span shows. A match inside its source of under two hundred runes is shown whole, with up to
  forty runes of that source on each side and as many as leave the span within two hundred; ellipses
  say that text goes on. A longer match is cut to its first 199 runes and an ellipsis.
  */
  lemma SnippetIsMatchInContext(text: string, h: Hit, seg: Segment)
    requires 0 <= seg.start <= h.start <= h.end <= seg.end <= |text|
    ensures Sliceable(text, h, seg)
    ensures h.end - h.start >= 200 ==> SnippetOf(text, h, seg) == text[h.start..h.start + 199] + "\U{2026}"
    ensures h.end - h.start < 200 ==>
              var lo, hi := ContextStart(h, seg), ContextEnd(h, seg);
              && 0 <= lo <= h.start <= h.end <= hi <= |text|
              && SnippetOf(text, h, seg) == (if lo > 0 then "\U{2026}" else "") + text[lo..hi] + (if hi < |text| then "\U{2026}" else "")
              && text[lo..hi][h.start - lo..h.end - lo] == text[h.start..h.end]
  {
    if h.end - h.start < 200 {
      var lo, hi := ContextStart(h, seg), ContextEnd(h, seg);
      ContextBounds(text, h, seg);
      SliceOfSlice(text, lo, hi, h.start, h.end);
      assert "" + text[lo..hi] == text[lo..hi] && ("" + text[lo..hi]) + "" == text[lo..hi];
    }
  }

  /** The slice for a match exists under the segment the code finds for it. */
  predicate Served(text: string, segs: seq<Segment>, h: Hit)
  {
    Sliceable(text, h, SegmentFor(segs, h.start))
  }

  /**
  A match that starts in no source, on the line break between two, is given the last source: its
  slice exists exactly when that source starts no later than the context behind the match ends.
  */
  lemma ServedIff(text: string, segs: seq<Segment>, h: Hit)
    requires Partition(text, segs) && h.start <= h.end <= |text|
    ensures Served(text, segs, h) <==>
              || Long(h) || segs == [] || InSome(segs, h.start)
              || segs[|segs| - 1].start <= Min(h.end + Room(h.end - h.start), |text|)
  {
    SegmentFromMeans(segs, 0, h.start);
    var seg := SegmentFor(segs, h.start);
    if !Long(h) && InSome(segs, h.start) {
      ContextStaysInSegment(text, h, seg);
    }
  }

  datatype Span = Span(source: string, text: string)

  /** OutOfRange is a slice that does not exist, a run-time failure. */
  datatype Outcome = OutOfRange | Shown(spans: seq<Span>)

  /** The span is a match's snippet, under the source of the segment found for it. */
  predicate IsSpanOf(span: Span, text: string, segs: seq<Segment>, h: Hit)
  {
    var seg := SegmentFor(segs, h.start);
    h.start <= h.end <= |text| && Sliceable(text, h, seg) && span == Span(seg.source, SnippetOf(text, h, seg))
  }

  /** How many matches are looked at. */
  function Wanted(hits: seq<Hit>): nat
  {
    if |hits| < MaxSpansPerFactor then |hits| else MaxSpansPerFactor
  }

  predicate AllServed(text: string, segs: seq<Segment>, hits: seq<Hit>)
  {
    forall i :: 0 <= i < Wanted(hits) ==> Served(text, segs, hits[i])
  }

  /** The first three matches are shown exactly when the slice of each of them exists. */
  method ShowFirst(text: string, segs: seq<Segment>, hits: seq<Hit>) returns (r: Outcome)
    requires Ranges(text, hits)
    ensures r.Shown? <==> AllServed(text, segs, hits)
    ensures r.Shown? ==> |r.spans| == Wanted(hits) && forall i :: 0 <= i < |r.spans| ==> IsSpanOf(r.spans[i], text, segs, hits[i])
  {
    var spans: seq<Span> := [];
    for i := 0 to |hits|
      invariant |spans| == i <= MaxSpansPerFactor
      invariant forall j :: 0 <= j < i ==> IsSpanOf(spans[j], text, segs, hits[j])
    {
      if |spans| == MaxSpansPerFactor {
        break;
      }
      var h := hits[i];
      var seg := SegmentAt(segs, h.start);
      if !Sliceable(text, h, seg) {
        assert !Served(text, segs, hits[i]);
        return OutOfRange;
      }
      var s := Snippet(text, h, seg);
      spans := spans + [Span(seg.source, s)];
    }
    assert forall j :: 0 <= j < |spans| ==> IsSpanOf(spans[j], text, segs, hits[j]);
    return Shown(spans);
  }

  /** Up to three spans, for the first match starts in text order. */
  method CollectSpans(text: string, segs: seq<Segment>, patterns: seq<Pattern>) returns (r: Outcome)
    requires PatternsMatchRanges(text, patterns)
    ensures var hits := HitsOf(text, patterns);
            && (r.Shown? <==> AllServed(text, segs, hits))
            && (r.Shown? ==> |r.spans| == Wanted(hits) && forall i :: 0 <= i < |r.spans| ==> IsSpanOf(r.spans[i], text, segs, hits[i]))
  {
    HitsMean(text, patterns);
    var hits := CollectHits(text, patterns);
    r := ShowFirst(text, segs, hits);
  }

  /** Every pattern's matches start inside some source's text. */
  ghost predicate StartsInSources(text: string, segs: seq<Segment>, patterns: seq<Pattern>)
  {
    forall start: nat :: Matches(text, patterns, start) ==> InSome(segs, start)
  }

  lemma InSourcesIsServed(text: string, segs: seq<Segment>, patterns: seq<Pattern>)
    requires Partition(text, segs) && PatternsMatchRanges(text, patterns) && StartsInSources(text, segs, patterns)
    ensures AllServed(text, segs, HitsOf(text, patterns))
  {
    HitsMean(text, patterns);
    var hits := HitsOf(text, patterns);
    forall i | 0 <= i < |hits|
      ensures Served(text, segs, hits[i])
    {
      assert StartIn(hits, hits[i].start);
      ServedIff(text, segs, hits[i]);
    }
  }

  /**
  A rule's evidence is shown exactly when the slice of each of its first three matches exists; it
  then has a span if the rule fires, and it is always shown when no match starts between two sources.
  */
  method EvidenceOf(ign: Ignorable, c: Content, r: Rule, numbered: nat -> string) returns (o: Outcome, segs: seq<Segment>)
    requires !ign('\n') && forall text :: PatternsMatchRanges(text, r.patterns)
    ensures var texts := TextsInScope(c, r.scope);
            var text := Stripped(ign, Joined(texts));
            && |segs| == |texts| && Cuts(ign, text, segs, texts) && SegmentsOf(ign, c, r.scope, numbered, text, segs)
            && (o.Shown? <==> AllServed(text, segs, HitsOf(text, r.patterns)))
            && (Fires(ign, c, r) && o.Shown? ==> o.spans != [])
            && (StartsInSources(text, segs, r.patterns) ==> o.Shown?)
  {
    var text;
    text, segs := ScopedSegments(ign, c, r.scope, numbered);
    o := CollectSpans(text, segs, r.patterns);
    HitsMean(text, r.patterns);
    if Fires(ign, c, r) {
      var start :| Matches(text, r.patterns, start);
      assert StartIn(HitsOf(text, r.patterns), start);
    }
    if StartsInSources(text, segs, r.patterns) {
      InSourcesIsServed(text, segs, r.patterns);
    }
  }

  // ---- A pattern that fails ----

  /** The matches of a pattern that matches a line break. */
  function BreaksFrom(text: string, k: nat): (hs: seq<Hit>)
    requires k <= |text|
    ensures forall i :: 0 <= i < |hs| ==> k <= hs[i].start < |text| && text[hs[i].start] == '\n' && hs[i].end == hs[i].start + 1
    ensures forall at :: k <= at < |text| && text[at] == '\n' ==> StartIn(hs, at)
    decreases |text| - k
  {
    if k == |text| then []
    else
      var more := BreaksFrom(text, k + 1);
      if text[k] == '\n' then
        var hs := [Hit(k, k + 1)] + more;
        assert hs[0].start == k && forall i :: 0 <= i < |more| ==> hs[i + 1] == more[i];
        hs
      else more
  }

  function LineBreaks(text: string): seq<Hit>
  {
    BreaksFrom(text, 0)
  }

  const LongText := seq(100, i => 'a')

  /** A one-letter body, a long attachment and a short one. */
  const Crafted := Content("x", [Attachment("a.txt", LongText), Attachment("b.txt", "b")])

  lemma {:induction false} AsciiIsKept(ign: Ignorable, s: string)
    requires forall c :: ign(c) ==> c >= 128 as char
    requires forall i :: 0 <= i < |s| ==> s[i] < 128 as char
    ensures Stripped(ign, s) == s
  {
    if s != [] {
      AsciiIsKept(ign, s[1..]);
    }
  }

  lemma CraftedTexts()
    ensures TextsInScope(Crafted, All) == ["x", LongText, "b"]
    ensures Joined(["x", LongText, "b"]) == "x\n" + LongText + "\nb"
  {
    TextsOneMore(Crafted.atts, 0);
    TextsOneMore(Crafted.atts, 1);
    assert Crafted.atts[..2] == Crafted.atts && Crafted.atts[..0] == [];
    assert AttachmentTexts(Crafted.atts) == [LongText, "b"];
    var texts := ["x", LongText, "b"];
    assert JoinedTo(texts, 1) == "x";
    assert JoinedTo(texts, 2) == "x" + "\n" + LongText;
    assert JoinedTo(texts, 3) == "x\n" + LongText + "\nb";
  }

  lemma CraftedSegments(ign: Ignorable, text: string, segs: seq<Segment>)
    requires forall c :: ign(c) ==> c >= 128 as char
    requires text == Stripped(ign, Joined(TextsInScope(Crafted, All)))
    requires |segs| == 3 && Cuts(ign, text, segs, TextsInScope(Crafted, All))
    ensures text == "x\n" + LongText + "\nb"
    ensures segs[0].start == 0 && segs[0].end == 1 && segs[1].start == 2 && segs[1].end == 102 && segs[2].start == 103
  {
    CraftedTexts();
    AsciiIsKept(ign, "x\n" + LongText + "\nb");
    AsciiIsKept(ign, "x");
    AsciiIsKept(ign, LongText);
    var texts := TextsInScope(Crafted, All);
    assert text[segs[0].start..segs[0].end] == Stripped(ign, texts[0]) == "x";
    assert Adjacent(text, segs[0], segs[1]);
    assert text[segs[1].start..segs[1].end] == Stripped(ign, texts[1]) == LongText;
    assert Adjacent(text, segs[1], segs[2]);
  }

  /** However its sources are named, the crafted content's first line break is in no source, and has no slice. */
  lemma BreakBetweenSourcesFails(ign: Ignorable, segs: seq<Segment>)
    requires forall c :: ign(c) ==> c >= 128 as char
    requires |segs| == 3 && Cuts(ign, Stripped(ign, Joined(TextsInScope(Crafted, All))), segs, TextsInScope(Crafted, All))
    ensures var text := Stripped(ign, Joined(TextsInScope(Crafted, All)));
            && HitsOf(text, [LineBreaks]) != [] && HitsOf(text, [LineBreaks])[0] == Hit(1, 2)
            && !InSome(segs, 1) && !AllServed(text, segs, HitsOf(text, [LineBreaks]))
  {
    var text := Stripped(ign, Joined(TextsInScope(Crafted, All)));
    CraftedSegments(ign, text, segs);
    var hits := HitsOf(text, [LineBreaks]);
    HitsMean(text, [LineBreaks]);
    assert text[0] == 'x' && text[1] == '\n';
    assert StartIn([LineBreaks][0](text), 1);
    assert Matches(text, [LineBreaks], 1);
    var p: nat :| FirstPattern(text, [LineBreaks], p, hits[0]);
    ServedIff(text, segs, Hit(1, 2));
  }
}
