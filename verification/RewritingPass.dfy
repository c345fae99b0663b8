/**
The rewriting as the code does it (foldForMarkers and neutralizeMarkers in internal/assessor/fence.go):
fold the whole text with an index back to the runes, collect the matches, then copy and replace.
*/
module RewritingPass {
  import opened Rewriting

  /** The folded length of the first i runes. */
  function Reach(fold: Fold, t: string, i: nat): nat
    requires i <= |t|
  {
    |Folded(fold, t[..i])|
  }

  lemma ReachStep(fold: Fold, t: string, i: nat)
    requires i < |t|
    ensures Folded(fold, t[..i + 1]) == Folded(fold, t[..i]) + fold(t[i])
    ensures Reach(fold, t, i + 1) == Reach(fold, t, i) + |fold(t[i])|
  {
    assert t[..i + 1] == t[..i] + [t[i]];
    FoldedJoins(fold, t[..i], [t[i]]);
    assert Folded(fold, [t[i]]) == fold(t[i]) + Folded(fold, []);
  }

  lemma {:induction false} ReachGrows(fold: Fold, t: string, i: nat, j: nat)
    requires i <= j <= |t|
    ensures Reach(fold, t, i) <= Reach(fold, t, j)
  {
    if i < j {
      ReachGrows(fold, t, i, j - 1);
      ReachStep(fold, t, j - 1);
    }
  }

  lemma FoldedFrom(fold: Fold, t: string, i: nat)
    requires i <= |t|
    ensures Reach(fold, t, i) <= |Folded(fold, t)| && Folded(fold, t[i..]) == Folded(fold, t)[Reach(fold, t, i)..]
  {
    assert t == t[..i] + t[i..];
    FoldedJoins(fold, t[..i], t[i..]);
  }

  lemma ReachInTail(fold: Fold, t: string, i: nat, k: nat)
    requires i + k <= |t|
    ensures |Folded(fold, t[i..][..k])| == Reach(fold, t, i + k) - Reach(fold, t, i)
  {
    assert t[..i + k] == t[..i] + t[i..][..k];
    FoldedJoins(fold, t[..i], t[i..][..k]);
  }

  /** Folded character p comes from rune i. */
  predicate ComesFrom(fold: Fold, t: string, p: nat, i: nat)
  {
    i < |t| && Reach(fold, t, i) <= p < Reach(fold, t, i + 1)
  }

  /** from and to give, for each folded character, where its rune begins and ends. */
  ghost predicate Indexes(fold: Fold, t: string, from: seq<nat>, to: seq<nat>)
  {
    && |from| == |to| == |Folded(fold, t)|
    && forall p :: 0 <= p < |from| ==> ComesFrom(fold, t, p, from[p]) && to[p] == from[p] + 1
  }

  method FoldText(fold: Fold, t: string) returns (folded: string, from: seq<nat>, to: seq<nat>)
    ensures folded == Folded(fold, t) && Indexes(fold, t, from, to)
  {
    folded, from, to := "", [], [];
    assert t[..0] == [];
    for i := 0 to |t|
      invariant folded == Folded(fold, t[..i]) && |from| == |to| == |folded|
      invariant forall p :: 0 <= p < |folded| ==> ComesFrom(fold, t, p, from[p]) && to[p] == from[p] + 1
    {
      var f := fold(t[i]);
      ReachStep(fold, t, i);
      from := from + seq(|f|, _ => i);
      to := to + seq(|f|, _ => i + 1);
      folded := folded + f;
    }
    assert t[..|t|] == t;
  }

  // ---- The matches ----

  predicate Ascending(ms: seq<nat>)
  {
    forall j, k :: 0 <= j < k < |ms| ==> ms[j] < ms[k]
  }

  /** The matches, in order, apart and complete. */
  ghost predicate AllMatches(pat: Pattern, f: string, ms: seq<nat>)
  {
    && Ascending(ms)
    && (forall k :: 0 <= k < |ms| ==> pat.at(f, ms[k]))
    && (forall p: nat :: pat.at(f, p) ==> p in ms)
  }

  method FindMatches(pat: Pattern, ghost fold: Fold, f: string) returns (ms: seq<nat>)
    requires Sane(pat, fold)
    ensures AllMatches(pat, f, ms)
  {
    ms := [];
    var i := 0;
    while i < |f|
      invariant i <= |f| && Ascending(ms)
      invariant forall k :: 0 <= k < |ms| ==> pat.at(f, ms[k]) && ms[k] < i
      invariant forall p: nat :: p < i && pat.at(f, p) ==> p in ms
    {
      if pat.at(f, i) {
        NoMatchInside(pat, fold, f, i);
        ms := ms + [i];
        i := i + pat.len(f, i);
      } else {
        i := i + 1;
      }
    }
    forall p: nat | pat.at(f, p)
      ensures p in ms
    {
      MatchShape(pat, fold, f, p);
    }
  }

  /** No match begins inside another: it would need a bracket there. */
  lemma NoMatchInside(pat: Pattern, fold: Fold, f: string, p: nat)
    requires Sane(pat, fold) && pat.at(f, p)
    ensures 1 <= pat.len(f, p) <= |f| - p
    ensures forall q: nat :: p < q < p + pat.len(f, p) ==> !pat.at(f, q)
  {
    MatchShape(pat, fold, f, p);
    forall q: nat | p < q < p + pat.len(f, p)
      ensures !pat.at(f, q)
    {
      assert f[p + 1..p + pat.len(f, p)][q - p - 1] == f[q];
      assert Shaped(pat, f, q);
    }
  }

  // ---- One match back on the runes ----

  lemma OnlyOpening(pat: Pattern, fold: Fold, c: char)
    requires Sane(pat, fold)
    ensures forall d :: 0 < d < |fold(c)| ==> fold(c)[d] != '['
  {
    assert OpensOnly(fold, c);
    forall d | 0 < d < |fold(c)|
      ensures fold(c)[d] != '['
    {
      assert fold(c)[d] == fold(c)[1..][d - 1];
    }
  }

  /** A bracket is the first character of its rune's fold. */
  lemma BracketOpensRune(pat: Pattern, fold: Fold, t: string, p: nat, i: nat)
    requires Sane(pat, fold) && ComesFrom(fold, t, p, i) && p < |Folded(fold, t)| && Folded(fold, t)[p] == '['
    ensures p == Reach(fold, t, i) && fold(t[i]) != []
  {
    ReachStep(fold, t, i);
    FoldedFrom(fold, t, i);
    var d := p - Reach(fold, t, i);
    assert Folded(fold, t[i..])[d] == fold(t[i])[d];
    OnlyOpening(pat, fold, t[i]);
  }

  /** The runes from start to stop are the ones that spell the match at p. */
  ghost predicate Spans(pat: Pattern, fold: Fold, t: string, p: nat, start: nat, stop: nat)
  {
    && start < stop <= |t| && p == Reach(fold, t, start) < Reach(fold, t, start + 1) && p <= |Folded(fold, t)|
    && Opens(pat, fold, t[start..]) && stop == start + SpanOf(pat, fold, t[start..])
    && pat.put(Folded(fold, t[start..]), 0) == pat.put(Folded(fold, t), p)
  }

  lemma MatchOpensRune(pat: Pattern, fold: Fold, t: string, p: nat, i: nat)
    requires Sane(pat, fold) && pat.at(Folded(fold, t), p) && ComesFrom(fold, t, p, i)
    ensures p == Reach(fold, t, i) && Opens(pat, fold, t[i..])
    ensures pat.len(Folded(fold, t[i..]), 0) == pat.len(Folded(fold, t), p)
    ensures pat.put(Folded(fold, t[i..]), 0) == pat.put(Folded(fold, t), p)
  {
    var f := Folded(fold, t);
    MatchShape(pat, fold, f, p);
    BracketOpensRune(pat, fold, t, p, i);
    FoldedFrom(fold, t, i);
    MatchInTail(pat, fold, f, p, p);
  }

  lemma MatchSpans(pat: Pattern, fold: Fold, t: string, p: nat, start: nat, stop: nat)
    requires Sane(pat, fold) && pat.at(Folded(fold, t), p) && ComesFrom(fold, t, p, start) && stop > 0
    requires p + pat.len(Folded(fold, t), p) >= 1 && ComesFrom(fold, t, p + pat.len(Folded(fold, t), p) - 1, stop - 1)
    ensures Spans(pat, fold, t, p, start, stop)
  {
    MatchOpensRune(pat, fold, t, p, start);
    MatchShape(pat, fold, Folded(fold, t), p);
    var k := SpanOf(pat, fold, t[start..]);
    ReachInTail(fold, t, start, k);
    ReachInTail(fold, t, start, k - 1);
    if stop <= start + k - 1 {
      ReachGrows(fold, t, stop, start + k - 1);
    } else if start + k <= stop - 1 {
      ReachGrows(fold, t, start + k, stop - 1);
    }
  }

  // ---- Copying and replacing ----

  lemma {:induction false} KeptUpTo(pat: Pattern, fold: Fold, t: string, k: nat)
    requires k <= |t| && forall i :: 0 <= i < k ==> !Opens(pat, fold, t[i..])
    ensures Rewrite(pat, fold, t) == t[..k] + Rewrite(pat, fold, t[k..])
  {
    assert t[0..] == t;
    if k > 0 {
      forall i | 0 <= i < k - 1
        ensures !Opens(pat, fold, t[1..][i..])
      {
        assert t[1..][i..] == t[i + 1..];
      }
      KeptUpTo(pat, fold, t[1..], k - 1);
      assert t[1..][..k - 1] == t[1..k] && t[1..][k - 1..] == t[k..];
      assert t[..k] == [t[0]] + t[1..k];
    }
  }

  /** A rune that opens a match is one the matches name. */
  lemma OpeningIsMatch(pat: Pattern, fold: Fold, t: string, i: nat)
    requires Sane(pat, fold) && i <= |t| && Opens(pat, fold, t[i..])
    ensures i < |t| && pat.at(Folded(fold, t), Reach(fold, t, i)) && Reach(fold, t, i) < Reach(fold, t, i + 1)
  {
    var r := Reach(fold, t, i);
    FoldedFrom(fold, t, i);
    assert |t[i..]| == |t| - i && t[i..][0] == t[i];
    ReachStep(fold, t, i);
    MatchInTail(pat, fold, Folded(fold, t), r, r);
  }

  lemma KeptBetween(pat: Pattern, fold: Fold, t: string, prev: nat, start: nat)
    requires Sane(pat, fold) && prev <= start <= |t|
    requires forall p: nat :: Reach(fold, t, prev) <= p < Reach(fold, t, start) ==> !pat.at(Folded(fold, t), p)
    ensures Rewrite(pat, fold, t[prev..]) == t[prev..start] + Rewrite(pat, fold, t[start..])
  {
    forall i | 0 <= i < start - prev
      ensures !Opens(pat, fold, t[prev..][i..])
    {
      assert t[prev..][i..] == t[prev + i..];
      if Opens(pat, fold, t[prev + i..]) {
        OpeningIsMatch(pat, fold, t, prev + i);
        ReachGrows(fold, t, prev, prev + i);
        ReachGrows(fold, t, prev + i + 1, start);
      }
    }
    KeptUpTo(pat, fold, t[prev..], start - prev);
    assert t[prev..][..start - prev] == t[prev..start] && t[prev..][start - prev..] == t[start..];
  }

  lemma StartNotBefore(fold: Fold, t: string, prev: nat, start: nat)
    requires prev <= |t| && start < |t| && Reach(fold, t, prev) <= Reach(fold, t, start) < Reach(fold, t, start + 1)
    ensures prev <= start
  {
    if start + 1 <= prev {
      ReachGrows(fold, t, start + 1, prev);
    }
  }

  lemma NoneBetween(pat: Pattern, f: string, ms: seq<nat>, j: nat, lo: nat)
    requires AllMatches(pat, f, ms) && j <= |ms|
    requires forall k :: 0 <= k < j ==> ms[k] < lo
    ensures forall p: nat :: lo <= p && (j < |ms| ==> p < ms[j]) ==> !pat.at(f, p)
  {
    forall p: nat | lo <= p && (j < |ms| ==> p < ms[j])
      ensures p !in ms
    {
      assert forall k :: 0 <= k < |ms| ==> ms[k] != p;
    }
  }

  lemma Joins(whole: string, a: string, b: string, rest: string, c: string)
    requires whole == a + rest && rest == b + c
    ensures whole == a + b + c
  {
  }

  /** One match: the runes before it are kept, its own are replaced, the rest is still to do. */
  lemma RewriteNext(pat: Pattern, fold: Fold, t: string, prev: nat, start: nat, stop: nat, p: nat)
    requires Sane(pat, fold) && prev <= start && Spans(pat, fold, t, p, start, stop)
    requires forall q: nat :: Reach(fold, t, prev) <= q < Reach(fold, t, start) ==> !pat.at(Folded(fold, t), q)
    ensures Rewrite(pat, fold, t[prev..]) == t[prev..start] + pat.put(Folded(fold, t), p) + Rewrite(pat, fold, t[stop..])
  {
    KeptBetween(pat, fold, t, prev, start);
    assert t[start..][stop - start..] == t[stop..];
    Joins(Rewrite(pat, fold, t[prev..]), t[prev..start], pat.put(Folded(fold, t), p), Rewrite(pat, fold, t[start..]), Rewrite(pat, fold, t[stop..]));
  }

  /** The matches before j are written, those from j on lie past what is written. */
  ghost predicate Done(pat: Pattern, fold: Fold, t: string, ms: seq<nat>, j: nat, prev: nat, out: string)
    requires j <= |ms|
  {
    && prev <= |t|
    && (forall k :: 0 <= k < j ==> ms[k] < Reach(fold, t, prev))
    && (forall k :: j <= k < |ms| ==> Reach(fold, t, prev) <= ms[k])
    && Rewrite(pat, fold, t) == out + Rewrite(pat, fold, t[prev..])
  }

  lemma LaterRune(fold: Fold, t: string, q: nat, i: nat, e: nat, stop: nat)
    requires 0 < stop <= |t| && i < |t| && q == Reach(fold, t, i) && e < q && ComesFrom(fold, t, e, stop - 1)
    ensures Reach(fold, t, stop) <= q
  {
    if i <= stop - 1 {
      ReachGrows(fold, t, i, stop - 1);
    } else {
      ReachGrows(fold, t, stop, i);
    }
  }

  lemma LaterMatchesPast(pat: Pattern, fold: Fold, t: string, ms: seq<nat>, j: nat, k: nat, from: seq<nat>, to: seq<nat>, stop: nat)
    requires Sane(pat, fold) && AllMatches(pat, Folded(fold, t), ms) && j < k < |ms| && Indexes(fold, t, from, to) && 0 < stop <= |t|
    requires ms[j] + pat.len(Folded(fold, t), ms[j]) >= 1
    requires ComesFrom(fold, t, ms[j] + pat.len(Folded(fold, t), ms[j]) - 1, stop - 1)
    ensures Reach(fold, t, stop) <= ms[k]
  {
    var f := Folded(fold, t);
    NoMatchInside(pat, fold, f, ms[j]);
    MatchShape(pat, fold, f, ms[k]);
    BracketOpensRune(pat, fold, t, ms[k], from[ms[k]]);
    assert !(ms[j] < ms[k] < ms[j] + pat.len(f, ms[j]));
    LaterRune(fold, t, ms[k], from[ms[k]], ms[j] + pat.len(f, ms[j]) - 1, stop);
  }

  lemma OneMoreDone(pat: Pattern, fold: Fold, t: string, ms: seq<nat>, j: nat, prev: nat, out: string,
                    from: seq<nat>, to: seq<nat>, start: nat, stop: nat)
    requires Sane(pat, fold) && AllMatches(pat, Folded(fold, t), ms) && j < |ms| && Done(pat, fold, t, ms, j, prev, out)
    requires Indexes(fold, t, from, to) && ComesFrom(fold, t, ms[j], start) && 0 < stop
    requires ms[j] + pat.len(Folded(fold, t), ms[j]) >= 1
    requires ComesFrom(fold, t, ms[j] + pat.len(Folded(fold, t), ms[j]) - 1, stop - 1)
    ensures prev <= start <= |t|
    ensures Done(pat, fold, t, ms, j + 1, stop, out + (t[prev..start] + pat.put(Folded(fold, t), ms[j])))
  {
    var p := ms[j];
    MatchShape(pat, fold, Folded(fold, t), p);
    MatchSpans(pat, fold, t, p, start, stop);
    StartNotBefore(fold, t, prev, start);
    NoneBetween(pat, Folded(fold, t), ms, j, Reach(fold, t, prev));
    RewriteNext(pat, fold, t, prev, start, stop, p);
    Joins(Rewrite(pat, fold, t), out, t[prev..start] + pat.put(Folded(fold, t), p), Rewrite(pat, fold, t[prev..]), Rewrite(pat, fold, t[stop..]));
    forall k | j + 1 <= k < |ms|
      ensures Reach(fold, t, stop) <= ms[k]
    {
      LaterMatchesPast(pat, fold, t, ms, j, k, from, to, stop);
    }
  }

  method RewriteMatches(pat: Pattern, fold: Fold, text: string) returns (out: string)
    requires Sane(pat, fold)
    ensures out == Rewrite(pat, fold, text)
  {
    var folded, from, to := FoldText(fold, text);
    var ms := FindMatches(pat, fold, folded);
    if |ms| == 0 {
      NoMatchUnchanged(pat, fold, text);
      return text;
    }
    out := "";
    var prev: nat := 0;
    assert text[..0] == [] && text[0..] == text;
    for j := 0 to |ms|
      invariant Done(pat, fold, text, ms, j, prev, out)
    {
      var p := ms[j];
      MatchShape(pat, fold, folded, p);
      var start, stop := from[p], to[p + pat.len(folded, p) - 1];
      OneMoreDone(pat, fold, text, ms, j, prev, out, from, to, start, stop);
      out := out + (text[prev..start] + pat.put(folded, p));
      prev := stop;
    }
    NoneBetween(pat, folded, ms, |ms|, Reach(fold, text, prev));
    KeptBetween(pat, fold, text, prev, |text|);
    assert text[|text|..] == [];
    out := out + text[prev..];
  }
}
