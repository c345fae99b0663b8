/**
Rewriting every match of a bracketed pattern, where matching sees a folded copy of the text and the
rewriting falls on the original runes (the pass of internal/assessor/fence.go). What a match is comes
in as a pattern; what the pass needs of it is stated, one match at a time.
*/
module Rewriting {
  /** What one rune looks like to the matcher; possibly nothing, possibly several characters. */
  type Fold = char -> string

  /** Whether a match begins at p, how long it is, and what its runes are replaced by. */
  datatype Pattern = Pattern(at: (string, nat) -> bool, len: (string, nat) -> nat, put: (string, nat) -> string)

  function Folded(fold: Fold, t: string): string
  {
    if t == [] then [] else fold(t[0]) + Folded(fold, t[1..])
  }

  predicate NoBracket(s: string)
  {
    forall i :: 0 <= i < |s| ==> s[i] != '['
  }

  /** A match lies inside the text, opens with a bracket, and has no other. */
  predicate Shaped(pat: Pattern, f: string, p: nat)
  {
    pat.at(f, p) ==> p < |f| && 1 <= pat.len(f, p) <= |f| - p && f[p] == '[' && NoBracket(f[p + 1..p + pat.len(f, p)])
  }

  /** Whether there is a match, and what becomes of it, depends on its own characters only. */
  predicate Local(pat: Pattern, f: string, p: nat, g: string, q: nat)
  {
    pat.at(f, p) && p + pat.len(f, p) <= |f| && q + pat.len(f, p) <= |g| && f[p..p + pat.len(f, p)] == g[q..q + pat.len(f, p)] ==>
      pat.at(g, q) && pat.len(g, q) == pat.len(f, p) && pat.put(g, q) == pat.put(f, p)
  }

  /** The replacement looks to the matcher as it is written, opens with its only bracket, and matches nothing. */
  ghost predicate Inert(pat: Pattern, fold: Fold, f: string, p: nat)
  {
    pat.at(f, p) ==>
      var r := pat.put(f, p);
      Folded(fold, r) == r && r != [] && r[0] == '[' && NoBracket(r[1..]) && forall rest :: !pat.at(r + rest, 0)
  }

  predicate OpensOnly(fold: Fold, c: char)
  {
    fold(c) != [] ==> NoBracket(fold(c)[1..])
  }

  /** What the pass relies on: a bracket can only open the fold of a rune, and the pattern is as described. */
  ghost predicate Sane(pat: Pattern, fold: Fold)
  {
    && (forall c :: OpensOnly(fold, c))
    && (forall f, p :: Shaped(pat, f, p))
    && (forall f, p, g, q :: Local(pat, f, p, g, q))
    && (forall f, p :: Inert(pat, fold, f, p))
  }

  ghost predicate NoMatch(pat: Pattern, f: string)
  {
    forall p: nat :: !pat.at(f, p)
  }

  lemma MatchShape(pat: Pattern, fold: Fold, f: string, p: nat)
    requires Sane(pat, fold) && pat.at(f, p)
    ensures p < |f| && 1 <= pat.len(f, p) <= |f| - p && f[p] == '['
    ensures NoBracket(f[p + 1..p + pat.len(f, p)])
  {
    assert Shaped(pat, f, p);
  }

  lemma SliceOfTail(f: string, r: nat, p: nat, n: nat)
    requires r <= p && p + n <= |f|
    ensures f[r..][p - r..p - r + n] == f[p..p + n]
  {
  }

  lemma MatchInTail(pat: Pattern, fold: Fold, f: string, r: nat, p: nat)
    requires Sane(pat, fold) && r <= p && r <= |f|
    ensures pat.at(f, p) <==> pat.at(f[r..], p - r)
    ensures pat.at(f, p) ==> pat.len(f, p) == pat.len(f[r..], p - r) && pat.put(f, p) == pat.put(f[r..], p - r)
  {
    var g := f[r..];
    assert Shaped(pat, f, p) && Shaped(pat, g, p - r);
    if pat.at(f, p) {
      SliceOfTail(f, r, p, pat.len(f, p));
      assert Local(pat, f, p, g, p - r);
    }
    if pat.at(g, p - r) {
      SliceOfTail(f, r, p, pat.len(g, p - r));
      assert Local(pat, g, p - r, f, p);
    }
  }

  // ---- The specification: rune by rune ----

  /** The number of leading runes of t whose folds make up at least n characters. */
  function RunesFor(fold: Fold, t: string, n: nat): (k: nat)
    requires n <= |Folded(fold, t)|
    ensures k <= |t| && n <= |Folded(fold, t[..k])|
    ensures k > 0 ==> |Folded(fold, t[..k - 1])| < n
  {
    if n == 0 then assert t[..0] == []; 0
    else
      var w := |fold(t[0])|;
      var k := if n <= w then 1 else 1 + RunesFor(fold, t[1..], n - w);
      assert t[..k][0] == t[0] && t[..k][1..] == t[1..][..k - 1];
      assert k > 1 ==> t[..k - 1][1..] == t[1..][..k - 2];
      assert k == 1 ==> t[..0] == [];
      k
  }

  /** A match begins with the first rune of t and stays inside it. */
  predicate Opens(pat: Pattern, fold: Fold, t: string)
  {
    t != [] && fold(t[0]) != [] && pat.at(Folded(fold, t), 0) && 1 <= pat.len(Folded(fold, t), 0) <= |Folded(fold, t)|
  }

  function SpanOf(pat: Pattern, fold: Fold, t: string): (k: nat)
    requires Opens(pat, fold, t)
    ensures 0 < k <= |t|
  {
    assert t[..0] == [];
    RunesFor(fold, t, pat.len(Folded(fold, t), 0))
  }

  /** A match is replaced over the runes that spell it; every other rune is kept. */
  function Rewrite(pat: Pattern, fold: Fold, t: string): string
  {
    if t == [] then []
    else if Opens(pat, fold, t) then pat.put(Folded(fold, t), 0) + Rewrite(pat, fold, t[SpanOf(pat, fold, t)..])
    else [t[0]] + Rewrite(pat, fold, t[1..])
  }

  lemma {:induction false} FoldedJoins(fold: Fold, a: string, b: string)
    ensures Folded(fold, a + b) == Folded(fold, a) + Folded(fold, b)
  {
    if a == [] {
      assert a + b == b;
    } else {
      assert (a + b)[0] == a[0] && (a + b)[1..] == a[1..] + b;
      FoldedJoins(fold, a[1..], b);
    }
  }

  // ---- One pass leaves no match ----

  lemma RewriteOpens(pat: Pattern, fold: Fold, t: string)
    requires Sane(pat, fold) && Opens(pat, fold, t)
    ensures var r, rest := pat.put(Folded(fold, t), 0), Rewrite(pat, fold, t[SpanOf(pat, fold, t)..]);
            && Folded(fold, Rewrite(pat, fold, t)) == r + Folded(fold, rest)
            && r != [] && r[0] == '[' && NoBracket(r[1..]) && (forall more :: !pat.at(r + more, 0))
            && Folded(fold, Rewrite(pat, fold, t))[0] == '['
  {
    assert Inert(pat, fold, Folded(fold, t), 0);
    FoldedJoins(fold, pat.put(Folded(fold, t), 0), Rewrite(pat, fold, t[SpanOf(pat, fold, t)..]));
  }

  lemma RewriteKeeps(pat: Pattern, fold: Fold, t: string)
    requires t != [] && !Opens(pat, fold, t)
    ensures Folded(fold, Rewrite(pat, fold, t)) == fold(t[0]) + Folded(fold, Rewrite(pat, fold, t[1..]))
  {
    var rest := Rewrite(pat, fold, t[1..]);
    assert ([t[0]] + rest)[1..] == rest;
  }

  /** A bracket-free beginning of the folded result was there before the rewriting. */
  lemma {:induction false} BeginningWasThere(pat: Pattern, fold: Fold, t: string, s: string)
    requires Sane(pat, fold) && NoBracket(s) && s <= Folded(fold, Rewrite(pat, fold, t))
    ensures s <= Folded(fold, t)
    decreases |t|
  {
    if t != [] && s != [] {
      assert s[0] == Folded(fold, Rewrite(pat, fold, t))[0] != '[';
      if Opens(pat, fold, t) {
        RewriteOpens(pat, fold, t);
      } else {
        RewriteKeeps(pat, fold, t);
        var w := |fold(t[0])|;
        if |s| > w {
          assert s[w..] <= Folded(fold, Rewrite(pat, fold, t[1..]));
          BeginningWasThere(pat, fold, t[1..], s[w..]);
        }
      }
    }
  }

  /** A match that begins in a kept rune of the result began there before. */
  lemma MatchWasThere(pat: Pattern, fold: Fold, t: string)
    requires Sane(pat, fold) && t != [] && fold(t[0]) != []
    requires pat.at(fold(t[0]) + Folded(fold, Rewrite(pat, fold, t[1..])), 0)
    ensures Opens(pat, fold, t)
  {
    var a, g, h := fold(t[0]), Folded(fold, Rewrite(pat, fold, t[1..])), Folded(fold, t[1..]);
    MatchShape(pat, fold, a + g, 0);
    var n := pat.len(a + g, 0);
    if n > |a| {
      var s := (a + g)[|a|..n];
      assert s == g[..n - |a|];
      assert forall i :: 0 <= i < |s| ==> s[i] == (a + g)[1..n][|a| - 1 + i];
      BeginningWasThere(pat, fold, t[1..], s);
      assert s == h[..n - |a|];
    }
    assert (a + g)[0..0 + n] == (a + h)[0..0 + n];
    assert Local(pat, a + g, 0, a + h, 0);
  }

  lemma NoMatchJoins(pat: Pattern, fold: Fold, a: string, b: string)
    requires Sane(pat, fold) && NoMatch(pat, b)
    requires a != [] ==> NoBracket(a[1..]) && !pat.at(a + b, 0)
    ensures NoMatch(pat, a + b)
  {
    forall p: nat
      ensures !pat.at(a + b, p)
    {
      if p >= |a| {
        MatchInTail(pat, fold, a + b, |a|, p);
        assert (a + b)[|a|..] == b;
      } else if p > 0 {
        assert Shaped(pat, a + b, p);
        assert (a + b)[p] == a[1..][p - 1];
      }
    }
  }

  lemma {:induction false} NothingLeft(pat: Pattern, fold: Fold, t: string)
    requires Sane(pat, fold)
    ensures NoMatch(pat, Folded(fold, Rewrite(pat, fold, t)))
    decreases |t|
  {
    if t == [] {
      forall p: nat
        ensures !pat.at([], p)
      {
        assert Shaped(pat, [], p);
      }
    } else if Opens(pat, fold, t) {
      var rest := t[SpanOf(pat, fold, t)..];
      NothingLeft(pat, fold, rest);
      RewriteOpens(pat, fold, t);
      NoMatchJoins(pat, fold, pat.put(Folded(fold, t), 0), Folded(fold, Rewrite(pat, fold, rest)));
    } else {
      NothingLeft(pat, fold, t[1..]);
      RewriteKeeps(pat, fold, t);
      KeptRuneOpensNothing(pat, fold, t);
      NoMatchJoins(pat, fold, fold(t[0]), Folded(fold, Rewrite(pat, fold, t[1..])));
    }
  }

  lemma KeptRuneOpensNothing(pat: Pattern, fold: Fold, t: string)
    requires Sane(pat, fold) && t != [] && !Opens(pat, fold, t)
    ensures fold(t[0]) != [] ==> NoBracket(fold(t[0])[1..]) && !pat.at(fold(t[0]) + Folded(fold, Rewrite(pat, fold, t[1..])), 0)
  {
    assert OpensOnly(fold, t[0]);
    if fold(t[0]) != [] && pat.at(fold(t[0]) + Folded(fold, Rewrite(pat, fold, t[1..])), 0) {
      MatchWasThere(pat, fold, t);
    }
  }

  lemma {:induction false} NoMatchUnchanged(pat: Pattern, fold: Fold, t: string)
    requires Sane(pat, fold) && NoMatch(pat, Folded(fold, t))
    ensures Rewrite(pat, fold, t) == t
  {
    if t != [] {
      var a, b := fold(t[0]), Folded(fold, t[1..]);
      forall p: nat
        ensures !pat.at(b, p)
      {
        MatchInTail(pat, fold, a + b, |a|, |a| + p);
        assert (a + b)[|a|..] == b;
      }
      NoMatchUnchanged(pat, fold, t[1..]);
    }
  }

  /**
  One pass leaves no match in the folded text, a second pass changes nothing, and a text comes back
  unchanged exactly when it hid no match.
  */
  lemma RewriteIsSafe(pat: Pattern, fold: Fold, t: string)
    requires Sane(pat, fold)
    ensures NoMatch(pat, Folded(fold, Rewrite(pat, fold, t)))
    ensures Rewrite(pat, fold, Rewrite(pat, fold, t)) == Rewrite(pat, fold, t)
    ensures Rewrite(pat, fold, t) == t <==> NoMatch(pat, Folded(fold, t))
  {
    NothingLeft(pat, fold, t);
    NoMatchUnchanged(pat, fold, Rewrite(pat, fold, t));
    if NoMatch(pat, Folded(fold, t)) {
      NoMatchUnchanged(pat, fold, t);
    }
  }

  /** What stands before the first match is kept, rune for rune, and what follows is rewritten on its own. */
  lemma {:induction false} BeforeMatchesIsKept(pat: Pattern, fold: Fold, a: string, rest: string)
    requires forall i: nat :: i < |a| ==> !Opens(pat, fold, (a + rest)[i..])
    ensures Rewrite(pat, fold, a + rest) == a + Rewrite(pat, fold, rest)
  {
    if a == [] {
      assert a + rest == rest;
    } else {
      var t := a + rest;
      assert t[0..] == t && t[1..] == a[1..] + rest;
      forall i: nat | i < |a[1..]|
        ensures !Opens(pat, fold, (a[1..] + rest)[i..])
      {
        assert (a[1..] + rest)[i..] == t[i + 1..];
      }
      BeforeMatchesIsKept(pat, fold, a[1..], rest);
    }
  }

  lemma {:induction false} FoldedGrows(fold: Fold, t: string, j: nat, k: nat)
    requires j <= k <= |t|
    ensures |Folded(fold, t[..j])| <= |Folded(fold, t[..k])|
  {
    assert t[..k] == t[..j] + t[j..k];
    FoldedJoins(fold, t[..j], t[j..k]);
  }

  lemma LastRuneFolds(fold: Fold, m: string)
    requires m != [] && fold(m[|m| - 1]) != []
    ensures |Folded(fold, m[..|m| - 1])| < |Folded(fold, m)|
  {
    var last := [m[|m| - 1]];
    assert m == m[..|m| - 1] + last;
    FoldedJoins(fold, m[..|m| - 1], last);
    assert Folded(fold, last) == fold(last[0]) + Folded(fold, []);
  }

  lemma RunesAre(fold: Fold, t: string, j: nat, n: nat)
    requires 0 < j <= |t| && n == |Folded(fold, t[..j])| && n <= |Folded(fold, t)| && |Folded(fold, t[..j - 1])| < n
    ensures RunesFor(fold, t, n) == j
  {
    var k := RunesFor(fold, t, n);
    if k < j {
      FoldedGrows(fold, t, k, j - 1);
    } else if k > j {
      FoldedGrows(fold, t, j, k - 1);
    }
  }

  /** A match spelled by the runes of m exactly is replaced, and what follows is rewritten on its own. */
  lemma MatchIsReplaced(pat: Pattern, fold: Fold, m: string, rest: string)
    requires m != [] && Opens(pat, fold, m + rest) && pat.len(Folded(fold, m + rest), 0) == |Folded(fold, m)|
    requires fold(m[|m| - 1]) != []
    ensures Rewrite(pat, fold, m + rest) == pat.put(Folded(fold, m + rest), 0) + Rewrite(pat, fold, rest)
  {
    var t := m + rest;
    LastRuneFolds(fold, m);
    assert t[..|m|] == m && t[..|m| - 1] == m[..|m| - 1] && t[|m|..] == rest;
    RunesAre(fold, t, |m|, |Folded(fold, m)|);
  }
}
