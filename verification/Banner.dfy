/**
The trust banner (internal/provenance/banner.go): markers are matched in any case and across invisible
format runes, rewritten in place, and Darbaan's own leading banner is replaced rather than stacked.
*/
module Banner {
  import opened CaseFold
  import opened Options

  /** Which runes are invisible format runes. */
  type Invisible = char -> bool

  /** None of them is ASCII, or the long s, the one other rune that a marker letter matches. */
  ghost predicate Tame(cf: Invisible)
  {
    forall c :: cf(c) ==> c >= 128 as char && c != '\U{017F}'
  }

  /** The length of the rest of a marker at the start of t, invisible runes before each character let through. */
  function RestLength(cf: Invisible, t: string, lit: string): (n: Option<nat>)
    ensures n.Some? ==> n.value <= |t|
  {
    if lit == [] then Some(0)
    else if t == [] then None
    else
      var after := if EqFold(t[0], lit[0]) then RestLength(cf, t[1..], lit[1..]) else if cf(t[0]) then RestLength(cf, t[1..], lit) else None;
      if after.Some? then Some(1 + after.value) else None
  }

  /** The length of a marker at the start of t, if one is there. */
  function MarkerLength(cf: Invisible, t: string, lit: string): (n: Option<nat>)
    ensures n.Some? ==> 1 <= n.value <= |t|
  {
    if lit != [] && t != [] && EqFold(t[0], lit[0]) then
      var after := RestLength(cf, t[1..], lit[1..]);
      if after.Some? then Some(1 + after.value) else None
    else None
  }

  predicate Plain(c: char)
  {
    c != '[' && c != '\n'
  }

  predicate AllPlain(s: string)
  {
    forall i :: 0 <= i < |s| ==> Plain(s[i])
  }

  predicate AllAscii(s: string)
  {
    forall i :: 0 <= i < |s| ==> s[i] < 128 as char
  }

  /** A marker text is ASCII, opens with two hyphens, and holds neither bracket nor line break. */
  predicate IsMarker(lit: string)
  {
    |lit| >= 2 && lit[0] == '-' && lit[1] == '-' && AllPlain(lit) && AllAscii(lit)
  }

  /** A replacement opens with a bracket, breaks no line, and each of its hyphens is followed by a space. */
  predicate IsDefanged(d: string)
  {
    && d != [] && d[0] == '['
    && (forall i :: 0 <= i < |d| ==> d[i] != '\n')
    && (forall i :: 0 <= i < |d| && d[i] == '-' ==> i + 1 < |d| && d[i + 1] == ' ')
  }

  lemma {:induction false} RestIsPlain(cf: Invisible, t: string, lit: string)
    requires Tame(cf) && AllPlain(lit) && RestLength(cf, t, lit).Some?
    ensures var n := RestLength(cf, t, lit).value; AllPlain(t[..n])
  {
    if lit != [] {
      var n := RestLength(cf, t, lit).value;
      if EqFold(t[0], lit[0]) {
        RestIsPlain(cf, t[1..], lit[1..]);
      } else {
        RestIsPlain(cf, t[1..], lit);
      }
      assert t[..n] == [t[0]] + t[1..][..n - 1];
    }
  }

  lemma {:induction false} RestIsLocal(cf: Invisible, t: string, u: string, lit: string)
    requires RestLength(cf, t, lit).Some?
    requires RestLength(cf, t, lit).value <= |u| && t[..RestLength(cf, t, lit).value] == u[..RestLength(cf, t, lit).value]
    ensures RestLength(cf, u, lit) == RestLength(cf, t, lit)
  {
    if lit != [] {
      var n := RestLength(cf, t, lit).value;
      assert t[0] == t[..n][0] == u[..n][0] == u[0];
      assert t[1..][..n - 1] == t[..n][1..] && u[1..][..n - 1] == u[..n][1..];
      if EqFold(t[0], lit[0]) {
        RestIsLocal(cf, t[1..], u[1..], lit[1..]);
      } else {
        RestIsLocal(cf, t[1..], u[1..], lit);
      }
    }
  }

  lemma MarkerIsPlain(cf: Invisible, t: string, lit: string)
    requires Tame(cf) && IsMarker(lit) && MarkerLength(cf, t, lit).Some?
    ensures var n := MarkerLength(cf, t, lit).value; AllPlain(t[..n])
  {
    RestIsPlain(cf, t[1..], lit[1..]);
    var n := MarkerLength(cf, t, lit).value;
    assert t[..n] == [t[0]] + t[1..][..n - 1];
  }

  lemma MarkerIsLocal(cf: Invisible, t: string, u: string, lit: string)
    requires Tame(cf) && IsMarker(lit) && MarkerLength(cf, t, lit).Some?
    requires t[..MarkerLength(cf, t, lit).value] <= u
    ensures MarkerLength(cf, u, lit) == MarkerLength(cf, t, lit)
  {
    var n := MarkerLength(cf, t, lit).value;
    assert t[..n] == u[..n];
    assert t[0] == t[..n][0] == u[..n][0] == u[0];
    assert t[1..][..n - 1] == t[..n][1..] && u[1..][..n - 1] == u[..n][1..];
    RestIsLocal(cf, t[1..], u[1..], lit[1..]);
  }

  // ---- Replacing every marker ----

  /** ReplaceAllLiteral: leftmost matches, none overlapping, each replaced by d. */
  function Replaced(cf: Invisible, lit: string, d: string, t: string): string
    decreases |t|
  {
    if t == [] then []
    else
      var m := MarkerLength(cf, t, lit);
      if m.Some? then d + Replaced(cf, lit, d, t[m.value..])
      else [t[0]] + Replaced(cf, lit, d, t[1..])
  }

  lemma ReplacedStep(cf: Invisible, lit: string, d: string, t: string, i: nat)
    requires i < |t|
    ensures var m := MarkerLength(cf, t[i..], lit);
            if m.Some? then Replaced(cf, lit, d, t[i..]) == d + Replaced(cf, lit, d, t[i + m.value..])
            else Replaced(cf, lit, d, t[i..]) == [t[i]] + Replaced(cf, lit, d, t[i + 1..])
  {
    var m := MarkerLength(cf, t[i..], lit);
    if m.Some? {
      assert t[i..][m.value..] == t[i + m.value..];
    } else {
      assert t[i..][1..] == t[i + 1..];
    }
  }

  method ReplaceAll(cf: Invisible, lit: string, d: string, t: string) returns (out: string)
    ensures out == Replaced(cf, lit, d, t)
  {
    out := "";
    var i := 0;
    assert t[0..] == t;
    while i < |t|
      invariant 0 <= i <= |t|
      invariant out + Replaced(cf, lit, d, t[i..]) == Replaced(cf, lit, d, t)
    {
      var m := MarkerLength(cf, t[i..], lit);
      ReplacedStep(cf, lit, d, t, i);
      if m.Some? {
        assert out + (d + Replaced(cf, lit, d, t[i + m.value..])) == (out + d) + Replaced(cf, lit, d, t[i + m.value..]);
        out := out + d;
        i := i + m.value;
      } else {
        assert out + ([t[i]] + Replaced(cf, lit, d, t[i + 1..])) == (out + [t[i]]) + Replaced(cf, lit, d, t[i + 1..]);
        out := out + [t[i]];
        i := i + 1;
      }
    }
  }

  ghost predicate NoMarker(cf: Invisible, lit: string, t: string)
  {
    forall p: nat :: p <= |t| ==> MarkerLength(cf, t[p..], lit).None?
  }

  lemma DefangedHoldsNone(cf: Invisible, lit: string, d: string, rest: string, p: nat)
    requires Tame(cf) && IsMarker(lit) && IsDefanged(d) && p < |d|
    ensures MarkerLength(cf, (d + rest)[p..], lit).None?
  {
    var t := (d + rest)[p..];
    assert t[0] == d[p];
    if EqFold(t[0], '-') {
      assert t[1..][0] == d[p + 1] == ' ';
    }
  }

  /** A bracket-free beginning of the result was there before the replacing. */
  lemma {:induction false} BeginningWasThere(cf: Invisible, lit: string, d: string, t: string, s: string)
    requires IsMarker(lit) && IsDefanged(d) && AllPlain(s) && s <= Replaced(cf, lit, d, t)
    ensures s <= t
    decreases |t|
  {
    if t != [] && s != [] {
      assert s[0] == Replaced(cf, lit, d, t)[0] != '[';
      BeginningWasThere(cf, lit, d, t[1..], s[1..]);
    }
  }

  /** Replacing one marker brings up no other, and none of its own is left. */
  lemma {:induction false} NoneBroughtUp(cf: Invisible, seen: string, lit: string, d: string, t: string)
    requires Tame(cf) && IsMarker(seen) && IsMarker(lit) && IsDefanged(d)
    requires seen == lit || NoMarker(cf, seen, t)
    ensures NoMarker(cf, seen, Replaced(cf, lit, d, t))
    decreases |t|
  {
    if t != [] {
      var out := Replaced(cf, lit, d, t);
      var m := MarkerLength(cf, t, lit);
      if m.Some? {
        TailHasNone(cf, seen, t, m.value, seen == lit);
        NoneBroughtUp(cf, seen, lit, d, t[m.value..]);
        DefangedThenNone(cf, seen, d, Replaced(cf, lit, d, t[m.value..]));
      } else {
        assert t[0..] == t;
        TailHasNone(cf, seen, t, 1, seen == lit);
        NoneBroughtUp(cf, seen, lit, d, t[1..]);
        KeptThenNone(cf, seen, lit, d, t);
      }
    }
  }

  lemma TailHasNone(cf: Invisible, lit: string, t: string, k: nat, free: bool)
    requires k <= |t| && (free || NoMarker(cf, lit, t))
    ensures free || NoMarker(cf, lit, t[k..])
  {
    if !free {
      forall p: nat | p <= |t[k..]|
        ensures MarkerLength(cf, t[k..][p..], lit).None?
      {
        assert t[k..][p..] == t[k + p..];
      }
    }
  }

  lemma DefangedThenNone(cf: Invisible, lit: string, d: string, rest: string)
    requires Tame(cf) && IsMarker(lit) && IsDefanged(d) && NoMarker(cf, lit, rest)
    ensures NoMarker(cf, lit, d + rest)
  {
    forall p: nat | p <= |d + rest|
      ensures MarkerLength(cf, (d + rest)[p..], lit).None?
    {
      if p < |d| {
        DefangedHoldsNone(cf, lit, d, rest, p);
      } else {
        assert (d + rest)[p..] == rest[p - |d|..];
      }
    }
  }

  lemma KeptThenNone(cf: Invisible, seen: string, lit: string, d: string, t: string)
    requires Tame(cf) && IsMarker(seen) && IsMarker(lit) && IsDefanged(d) && t != []
    requires Replaced(cf, lit, d, t) == [t[0]] + Replaced(cf, lit, d, t[1..])
    requires MarkerLength(cf, t, seen).None? && NoMarker(cf, seen, Replaced(cf, lit, d, t[1..]))
    ensures NoMarker(cf, seen, Replaced(cf, lit, d, t))
  {
    var out, rest := Replaced(cf, lit, d, t), Replaced(cf, lit, d, t[1..]);
    forall p: nat | p <= |out|
      ensures MarkerLength(cf, out[p..], seen).None?
    {
      if p == 0 {
        assert out[0..] == out;
        if MarkerLength(cf, out, seen).Some? {
          MarkerIsPlain(cf, out, seen);
          var s := out[..MarkerLength(cf, out, seen).value];
          BeginningWasThere(cf, lit, d, t, s);
          MarkerIsLocal(cf, out, t, seen);
        }
      } else {
        assert out[p..] == rest[p - 1..];
      }
    }
  }

  lemma {:induction false} NoMarkerUnchanged(cf: Invisible, lit: string, d: string, t: string)
    requires NoMarker(cf, lit, t)
    ensures Replaced(cf, lit, d, t) == t
    decreases |t|
  {
    if t != [] {
      assert t[0..] == t;
      TailHasNone(cf, lit, t, 1, false);
      NoMarkerUnchanged(cf, lit, d, t[1..]);
    }
  }

  // ---- What a marker is ----

  function Visible(cf: Invisible, s: string): string
  {
    if s == [] then [] else (if cf(s[0]) then [] else [s[0]]) + Visible(cf, s[1..])
  }

  predicate SpelledAs(s: string, lit: string)
  {
    |s| == |lit| && forall i :: 0 <= i < |s| ==> EqFold(s[i], lit[i])
  }

  /** m spells lit in any case, with invisible runes anywhere between its first character and its last. */
  predicate Disguised(cf: Invisible, m: string, lit: string)
  {
    m != [] && !cf(m[0]) && !cf(m[|m| - 1]) && SpelledAs(Visible(cf, m), lit)
  }

  lemma {:induction false} LastIsVisible(cf: Invisible, s: string)
    requires s != [] && !cf(s[|s| - 1])
    ensures Visible(cf, s) != []
  {
    if cf(s[0]) {
      LastIsVisible(cf, s[1..]);
    }
  }

  lemma {:induction false} JoinedVisible(cf: Invisible, a: string, b: string)
    ensures Visible(cf, a + b) == Visible(cf, a) + Visible(cf, b)
  {
    if a == [] {
      assert a + b == b;
    } else {
      JoinedVisible(cf, a[1..], b);
      assert (a + b)[1..] == a[1..] + b;
    }
  }

  lemma {:induction false} AllVisible(cf: Invisible, s: string)
    ensures (forall i :: 0 <= i < |s| ==> !cf(s[i])) ==> Visible(cf, s) == s
    ensures (forall i :: 0 <= i < |s| ==> cf(s[i])) ==> Visible(cf, s) == []
  {
    if s != [] {
      AllVisible(cf, s[1..]);
    }
  }

  lemma {:induction false} RestMeans(cf: Invisible, t: string, lit: string, n: nat)
    requires Tame(cf) && AllAscii(lit)
    ensures RestLength(cf, t, lit) == Some(n) <==> n <= |t| && (n == 0 || !cf(t[n - 1])) && SpelledAs(Visible(cf, t[..n]), lit)
  {
    if lit == [] {
      if 0 < n <= |t| && !cf(t[n - 1]) {
        LastIsVisible(cf, t[..n]);
      }
    } else if t != [] && 0 < n <= |t| {
      assert t[..n][1..] == t[1..][..n - 1];
      if EqFold(t[0], lit[0]) {
        RestMeans(cf, t[1..], lit[1..], n - 1);
        SpelledStep(t[0], Visible(cf, t[1..][..n - 1]), lit);
      } else if cf(t[0]) {
        RestMeans(cf, t[1..], lit, n - 1);
      }
    }
  }

  lemma SpelledStep(c: char, s: string, lit: string)
    requires lit != []
    ensures SpelledAs([c] + s, lit) <==> EqFold(c, lit[0]) && SpelledAs(s, lit[1..])
  {
    if SpelledAs([c] + s, lit) {
      assert forall i :: 0 <= i < |s| ==> s[i] == ([c] + s)[i + 1];
    }
  }

  /** A marker of length n is matched at the start of t exactly when the first n characters are a disguise of it. */
  lemma MarkerMeans(cf: Invisible, t: string, lit: string, n: nat)
    requires Tame(cf) && IsMarker(lit)
    ensures MarkerLength(cf, t, lit) == Some(n) <==> n <= |t| && Disguised(cf, t[..n], lit)
  {
    if 0 < n <= |t| {
      assert t[..n][1..] == t[1..][..n - 1];
      RestMeans(cf, t[1..], lit[1..], n - 1);
      SpelledStep(t[0], Visible(cf, t[1..][..n - 1]), lit);
    }
  }

  /** A text holds no marker exactly when no stretch of it is a disguise. */
  lemma NoMarkerMeans(cf: Invisible, lit: string, t: string)
    requires Tame(cf) && IsMarker(lit)
    ensures NoMarker(cf, lit, t) <==> forall i, j :: 0 <= i <= j <= |t| ==> !Disguised(cf, t[i..j], lit)
  {
    forall i, j | 0 <= i <= j <= |t|
      ensures MarkerLength(cf, t[i..], lit) == Some(j - i) <==> Disguised(cf, t[i..j], lit)
    {
      MarkerMeans(cf, t[i..], lit, j - i);
      assert t[i..][..j - i] == t[i..j];
    }
    if !NoMarker(cf, lit, t) {
      var i: nat :| i <= |t| && MarkerLength(cf, t[i..], lit).Some?;
      var j := i + MarkerLength(cf, t[i..], lit).value;
      assert Disguised(cf, t[i..j], lit);
    }
  }

  /** Whatever it is disguised as, the whole of it is replaced. */
  lemma DisguiseIsReplaced(cf: Invisible, lit: string, d: string, m: string, rest: string)
    requires Tame(cf) && IsMarker(lit) && Disguised(cf, m, lit)
    ensures Replaced(cf, lit, d, m + rest) == d + Replaced(cf, lit, d, rest)
  {
    var t := m + rest;
    assert t[..|m|] == m && t[|m|..] == rest;
    MarkerMeans(cf, t, lit, |m|);
  }

  /** What stands before the first marker is kept, character for character. */
  lemma {:induction false} BeforeMarkersIsKept(cf: Invisible, lit: string, d: string, a: string, rest: string)
    requires forall p: nat :: p < |a| ==> MarkerLength(cf, (a + rest)[p..], lit).None?
    ensures Replaced(cf, lit, d, a + rest) == a + Replaced(cf, lit, d, rest)
  {
    if a == [] {
      assert a + rest == rest;
    } else {
      var t := a + rest;
      assert t[0..] == t && t[1..] == a[1..] + rest;
      forall p: nat | p < |a[1..]|
        ensures MarkerLength(cf, (a[1..] + rest)[p..], lit).None?
      {
        assert (a[1..] + rest)[p..] == t[p + 1..];
      }
      BeforeMarkersIsKept(cf, lit, d, a[1..], rest);
    }
  }

  /** So one marker among other text is all that changes, and the text after it is treated on its own. */
  lemma OnlyMarkersChange(cf: Invisible, lit: string, d: string, a: string, m: string, rest: string)
    requires Tame(cf) && IsMarker(lit) && Disguised(cf, m, lit)
    requires forall p: nat :: p < |a| ==> MarkerLength(cf, (a + (m + rest))[p..], lit).None?
    ensures Replaced(cf, lit, d, a + (m + rest)) == a + (d + Replaced(cf, lit, d, rest))
  {
    BeforeMarkersIsKept(cf, lit, d, a, m + rest);
    DisguiseIsReplaced(cf, lit, d, m, rest);
  }

  /** Splitting a marker anywhere with invisible runes is a disguise. */
  lemma SplitIsDisguised(cf: Invisible, a: string, gap: string, b: string)
    requires Tame(cf) && AllAscii(a) && AllAscii(b) && a != [] && b != []
    requires forall i :: 0 <= i < |gap| ==> cf(gap[i])
    ensures Disguised(cf, a + gap + b, a + b)
  {
    AllVisible(cf, a);
    AllVisible(cf, gap);
    AllVisible(cf, b);
    JoinedVisible(cf, a, gap);
    JoinedVisible(cf, a + gap, b);
  }

  /** A replacement already written is passed over. */
  lemma {:induction false} DefangedIsKept(cf: Invisible, lit: string, again: string, d: string, p: nat, rest: string)
    requires Tame(cf) && IsMarker(lit) && IsDefanged(d) && p <= |d|
    ensures Replaced(cf, lit, again, (d + rest)[p..]) == d[p..] + Replaced(cf, lit, again, rest)
    decreases |d| - p
  {
    var t := (d + rest)[p..];
    if p == |d| {
      assert t == rest && d[p..] == "";
    } else {
      DefangedHoldsNone(cf, lit, d, rest, p);
      assert t[1..] == (d + rest)[p + 1..] && t[0] == d[p];
      DefangedIsKept(cf, lit, again, d, p + 1, rest);
      assert d[p..] == [d[p]] + d[p + 1..];
    }
  }

  // ---- Line breaks ----

  function Breaks(t: string): nat
  {
    if t == [] then 0 else Breaks(t[1..]) + if t[0] == '\n' then 1 else 0
  }

  lemma {:induction false} BreaksJoin(a: string, b: string)
    ensures Breaks(a + b) == Breaks(a) + Breaks(b)
  {
    if a == [] {
      assert a + b == b;
    } else {
      assert (a + b)[0] == a[0] && (a + b)[1..] == a[1..] + b;
      BreaksJoin(a[1..], b);
    }
  }

  lemma {:induction false} NoBreaks(s: string)
    requires forall i :: 0 <= i < |s| ==> s[i] != '\n'
    ensures Breaks(s) == 0
  {
    if s != [] {
      NoBreaks(s[1..]);
    }
  }

  /** Replacing keeps every line break. */
  lemma {:induction false} ReplacingKeepsBreaks(cf: Invisible, lit: string, d: string, t: string)
    requires Tame(cf) && IsMarker(lit) && IsDefanged(d)
    ensures Breaks(Replaced(cf, lit, d, t)) == Breaks(t)
    decreases |t|
  {
    if t != [] {
      var m := MarkerLength(cf, t, lit);
      if m.Some? {
        MarkerIsPlain(cf, t, lit);
        ReplacingKeepsBreaks(cf, lit, d, t[m.value..]);
        NoBreaks(d);
        NoBreaks(t[..m.value]);
        assert t == t[..m.value] + t[m.value..];
        BreaksJoin(t[..m.value], t[m.value..]);
        BreaksJoin(d, Replaced(cf, lit, d, t[m.value..]));
      } else {
        ReplacingKeepsBreaks(cf, lit, d, t[1..]);
        BreaksJoin([t[0]], Replaced(cf, lit, d, t[1..]));
        BreaksJoin([t[0]], t[1..]);
        assert t == [t[0]] + t[1..];
      }
    }
  }
}
