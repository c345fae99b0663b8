/**
The fence around untrusted text (internal/assessor/fence.go): its marker pattern, and the frame that
is built with the payload's own markers rewritten. The fold of one rune is nothing for an invisible
one, the imitated letter for a lookalike, and the compatibility form otherwise.
*/
module Fence {
  import opened CaseFold
  import opened Rewriting
  import opened RewritingPass

  /** ASCII folds to itself, and an opening bracket appears only as the first character of a fold. */
  ghost predicate Tame(fold: Fold)
  {
    && (forall c :: c < 128 as char ==> fold(c) == [c])
    && (forall c :: OpensOnly(fold, c))
  }

  predicate Spells(f: string, q: nat, w: string)
  {
    q + |w| <= |f| && forall i :: 0 <= i < |w| ==> EqFold(f[q + i], w[i])
  }

  const BeginMarker := "BEGIN UNTRUSTED"
  const EndMarker := "END UNTRUSTED"
  const NewTail := "_UNTRUSTED"

  predicate BeginsAt(f: string, p: nat)
  {
    p < |f| && f[p] == '[' && Spells(f, p + 1, BeginMarker)
  }

  predicate EndsAt(f: string, p: nat)
  {
    p < |f| && f[p] == '[' && Spells(f, p + 1, EndMarker)
  }

  predicate MarkerAt(f: string, p: nat)
  {
    BeginsAt(f, p) || EndsAt(f, p)
  }

  function WordLength(f: string, p: nat): nat
  {
    if BeginsAt(f, p) then 5 else 3
  }

  /** Bracket, word, and the ten characters after it. */
  function MarkerLength(f: string, p: nat): nat
  {
    11 + WordLength(f, p)
  }

  /** The bracket and the word as it was spelled, and an underscore where the marker has its space. */
  function Defused(f: string, p: nat): string
  {
    if p + 1 + WordLength(f, p) <= |f| then "[" + f[p + 1..p + 1 + WordLength(f, p)] + NewTail else ""
  }

  const FencePattern := Pattern(MarkerAt, MarkerLength, Defused)

  // ---- The marker pattern is one the rewriting can handle ----

  lemma LettersAreTame(c: char, p: char)
    requires EqFold(c, p) && p in BeginMarker + EndMarker
    ensures c != '[' && c != '\n' && c != '_'
    ensures p != 'S' ==> c < 128 as char
  {
  }

  lemma MarkerLetters(f: string, p: nat, i: nat)
    requires MarkerAt(f, p) && 0 < i < MarkerLength(f, p)
    ensures p + MarkerLength(f, p) <= |f| && f[p] == '['
    ensures f[p + i] != '[' && f[p + i] != '\n' && f[p + i] != '_'
    ensures i <= WordLength(f, p) ==> f[p + i] < 128 as char
  {
    var w := if BeginsAt(f, p) then BeginMarker else EndMarker;
    assert EqFold(f[p + 1 + (i - 1)], w[i - 1]);
    assert w[i - 1] in w;
    LettersAreTame(f[p + i], w[i - 1]);
  }

  lemma MarkerIsShaped(f: string, p: nat)
    ensures Shaped(FencePattern, f, p)
  {
    if MarkerAt(f, p) {
      MarkerLetters(f, p, 1);
      var inside := f[p + 1..p + MarkerLength(f, p)];
      forall i | 0 <= i < |inside|
        ensures inside[i] != '['
      {
        MarkerLetters(f, p, i + 1);
      }
    }
  }

  lemma SpellingMoves(f: string, p: nat, g: string, q: nat, n: nat, w: string)
    requires p + n <= |f| && q + n <= |g| && f[p..p + n] == g[q..q + n] && 1 + |w| <= n && Spells(f, p + 1, w)
    ensures Spells(g, q + 1, w)
  {
    forall i | 0 <= i < |w|
      ensures EqFold(g[q + 1 + i], w[i])
    {
      assert f[p..p + n][1 + i] == g[q..q + n][1 + i];
      assert EqFold(f[p + 1 + i], w[i]);
    }
  }

  /** A text cannot spell both words. */
  lemma BeginIsNotEnd(f: string, p: nat)
    ensures !(BeginsAt(f, p) && EndsAt(f, p))
  {
    if p + 1 < |f| {
      assert BeginMarker[0] == 'B' && EndMarker[0] == 'E';
      assert BeginsAt(f, p) ==> EqFold(f[p + 1 + 0], BeginMarker[0]);
      assert EndsAt(f, p) ==> EqFold(f[p + 1 + 0], EndMarker[0]);
    }
  }

  lemma WordOfMarker(f: string, p: nat, n: nat, k: nat)
    requires p + n <= |f| && 1 + k <= n
    ensures f[p..p + n][1..1 + k] == f[p + 1..p + 1 + k]
  {
    var m, w := f[p..p + n], f[p + 1..p + 1 + k];
    assert forall i :: 0 <= i < n ==> m[i] == f[p + i];
    assert |m[1..1 + k]| == |w| == k;
    forall i | 0 <= i < |w|
      ensures m[1..1 + k][i] == w[i]
    {
      assert m[1..1 + k][i] == m[1 + i];
    }
  }

  lemma MarkerIsLocal(f: string, p: nat, g: string, q: nat)
    ensures Local(FencePattern, f, p, g, q)
  {
    var n := MarkerLength(f, p);
    if MarkerAt(f, p) && p + n <= |f| && q + n <= |g| && f[p..p + n] == g[q..q + n] {
      assert f[p..p + n][0] == g[q..q + n][0];
      BeginIsNotEnd(f, p);
      BeginIsNotEnd(g, q);
      SpellingMoves(f, p, g, q, n, if BeginsAt(f, p) then BeginMarker else EndMarker);
      WordOfMarker(f, p, n, WordLength(f, p));
      WordOfMarker(g, q, n, WordLength(f, p));
    }
  }

  lemma {:induction false} AsciiFoldsToItself(fold: Fold, s: string)
    requires Tame(fold) && forall i :: 0 <= i < |s| ==> s[i] < 128 as char
    ensures Folded(fold, s) == s
  {
    if s != [] {
      AsciiFoldsToItself(fold, s[1..]);
    }
  }

  /** After a rewritten word comes an underscore, where every marker has a letter or a space. */
  lemma DefusedIsNoMarker(f: string, p: nat, rest: string)
    requires MarkerAt(f, p)
    ensures !MarkerAt(Defused(f, p) + rest, 0)
  {
    MarkerLetters(f, p, 1);
    var g, n := Defused(f, p) + rest, WordLength(f, p);
    assert g[1 + n] == '_';
    if MarkerAt(g, 0) {
      MarkerLetters(g, 0, 1 + n);
    }
  }

  lemma DefusedIsInert(fold: Fold, f: string, p: nat)
    requires Tame(fold)
    ensures Inert(FencePattern, fold, f, p)
  {
    if MarkerAt(f, p) {
      MarkerLetters(f, p, 1);
      var r, n := Defused(f, p), WordLength(f, p);
      forall i | 0 <= i < |r|
        ensures r[i] < 128 as char && (i > 0 ==> r[i] != '[')
      {
        if 1 <= i <= n {
          MarkerLetters(f, p, i);
          assert r[i] == f[p + i];
        }
      }
      AsciiFoldsToItself(fold, r);
      forall rest
        ensures !MarkerAt(r + rest, 0)
      {
        DefusedIsNoMarker(f, p, rest);
      }
    }
  }

  lemma FencePatternIsSane(fold: Fold)
    requires Tame(fold)
    ensures Sane(FencePattern, fold)
  {
    forall f, p
      ensures Shaped(FencePattern, f, p) && Inert(FencePattern, fold, f, p)
    {
      MarkerIsShaped(f, p);
      DefusedIsInert(fold, f, p);
    }
    forall f, p, g, q
      ensures Local(FencePattern, f, p, g, q)
    {
      MarkerIsLocal(f, p, g, q);
    }
  }

  // ---- The frame ----

  function Neutralized(fold: Fold, text: string): string
  {
    Rewrite(FencePattern, fold, text)
  }

  method NeutralizeMarkers(fold: Fold, text: string) returns (out: string)
    requires Tame(fold)
    ensures out == Neutralized(fold, text)
  {
    FencePatternIsSane(fold);
    out := RewriteMatches(FencePattern, fold, text);
  }

  /** A neutralized text holds no marker to the matcher, is left alone by a second pass, and is the text itself exactly when that held none. */
  lemma NeutralizedIsSafe(fold: Fold, text: string)
    requires Tame(fold)
    ensures forall p: nat :: !MarkerAt(Folded(fold, Neutralized(fold, text)), p)
    ensures Neutralized(fold, Neutralized(fold, text)) == Neutralized(fold, text)
    ensures Neutralized(fold, text) == text <==> forall p: nat :: !MarkerAt(Folded(fold, text), p)
  {
    FencePatternIsSane(fold);
    RewriteIsSafe(FencePattern, fold, text);
    assert forall f: string, p: nat :: FencePattern.at(f, p) == MarkerAt(f, p);
  }

  const BeginSpoof := "[BEGIN UNTRUSTED"
  const EndSpoof := "[END UNTRUSTED"

  lemma SpoofFolds(fold: Fold, m: string, b: string)
    requires Tame(fold) && forall i :: 0 <= i < |m| ==> m[i] < 128 as char
    ensures Folded(fold, m) == m && Folded(fold, m + b) == m + Folded(fold, b)
  {
    AsciiFoldsToItself(fold, m);
    FoldedJoins(fold, m, b);
  }

  lemma BeginSpoofIsMarker(rest: string)
    ensures var f := BeginSpoof + rest; BeginsAt(f, 0) && MarkerLength(f, 0) == |BeginSpoof| && Defused(f, 0) == "[BEGIN_UNTRUSTED"
    ensures forall i :: 0 <= i < |BeginSpoof| ==> BeginSpoof[i] < 128 as char
  {
    var f := BeginSpoof + rest;
    assert forall i :: 0 <= i < |BeginMarker| ==> f[1 + i] == BeginSpoof[1 + i] == BeginMarker[i];
    assert f[1..6] == BeginSpoof[1..6] == "BEGIN";
  }

  lemma EndSpoofIsMarker(rest: string)
    ensures var f := EndSpoof + rest; EndsAt(f, 0) && MarkerLength(f, 0) == |EndSpoof| && Defused(f, 0) == "[END_UNTRUSTED"
    ensures forall i :: 0 <= i < |EndSpoof| ==> EndSpoof[i] < 128 as char
  {
    var f := EndSpoof + rest;
    assert forall i :: 0 <= i < |EndMarker| ==> f[1 + i] == EndSpoof[1 + i] == EndMarker[i];
    assert f[2] == EndSpoof[2] == 'N' && BeginMarker[1] == 'E' && !EqFold('N', 'E');
    assert f[1..4] == EndSpoof[1..4] == "END";
  }

  /**
  A plainly spelled marker in a payload has its space replaced and nothing else about the payload is
  touched: what stands before it, without an opening bracket, is kept, and the rest is treated on its own.
  */
  lemma BeginSpoofIsDefused(fold: Fold, a: string, b: string)
    requires Tame(fold) && NoBracket(Folded(fold, a))
    ensures Neutralized(fold, a + (BeginSpoof + b)) == a + ("[BEGIN_UNTRUSTED" + Neutralized(fold, b))
  {
    BeginSpoofIsMarker(Folded(fold, b));
    SpoofAfter(fold, a, BeginSpoof, b);
  }

  lemma EndSpoofIsDefused(fold: Fold, a: string, b: string)
    requires Tame(fold) && NoBracket(Folded(fold, a))
    ensures Neutralized(fold, a + (EndSpoof + b)) == a + ("[END_UNTRUSTED" + Neutralized(fold, b))
  {
    EndSpoofIsMarker(Folded(fold, b));
    SpoofAfter(fold, a, EndSpoof, b);
  }

  lemma SpoofAfter(fold: Fold, a: string, m: string, b: string)
    requires Tame(fold) && NoBracket(Folded(fold, a)) && m != [] && forall i :: 0 <= i < |m| ==> m[i] < 128 as char
    requires MarkerAt(m + Folded(fold, b), 0) && MarkerLength(m + Folded(fold, b), 0) == |m|
    ensures Neutralized(fold, a + (m + b)) == a + (Defused(m + Folded(fold, b), 0) + Neutralized(fold, b))
  {
    SpoofFolds(fold, m, b);
    forall i: nat | i < |a|
      ensures !Opens(FencePattern, fold, (a + (m + b))[i..])
    {
      BracketFreeOpensNothing(fold, a, m + b, i);
    }
    BeforeMatchesIsKept(FencePattern, fold, a, m + b);
    MatchIsReplaced(FencePattern, fold, m, b);
  }

  lemma {:induction false} FoldIsThere(fold: Fold, a: string, i: nat, c: char)
    requires i < |a| && c in fold(a[i])
    ensures c in Folded(fold, a)
  {
    if i > 0 {
      FoldIsThere(fold, a[1..], i - 1, c);
    }
  }

  lemma BracketFreeOpensNothing(fold: Fold, a: string, rest: string, i: nat)
    requires NoBracket(Folded(fold, a)) && i < |a|
    ensures !Opens(FencePattern, fold, (a + rest)[i..])
  {
    var t := (a + rest)[i..];
    assert t[0] == a[i];
    if fold(a[i]) != [] {
      FoldIsThere(fold, a, i, fold(a[i])[0]);
      assert fold(a[i])[0] != '[';
      FirstIsNoMarker(fold(t[0]) + Folded(fold, t[1..]));
    }
  }

  lemma FirstIsNoMarker(f: string)
    requires f != [] && f[0] != '['
    ensures !MarkerAt(f, 0)
  {
  }

  /** Line breaks and brackets in the label give way, and an empty label becomes "content"; trim is the outer trimming. */
  function SafeRunes(tag: string): (s: string)
    ensures |s| == |tag| && NoBracket(s) && forall i :: 0 <= i < |s| ==> s[i] != '\n'
  {
    if tag == [] then []
    else
      var c := tag[0];
      [if c == '\n' || c == '\r' then ' ' else if c == '[' then '(' else if c == ']' then ')' else c] + SafeRunes(tag[1..])
  }

  function SanitizedLabel(trim: string -> string, tag: string): string
  {
    var s := trim(SafeRunes(tag));
    if s == "" then "content" else s
  }

  lemma {:induction false} PlainRunesStay(tag: string)
    requires forall i :: 0 <= i < |tag| ==> tag[i] !in "\n\r[]"
    ensures SafeRunes(tag) == tag
  {
    if tag != [] {
      PlainRunesStay(tag[1..]);
    }
  }

  /** A label of one line without brackets, with nothing to trim, is used as it is. */
  lemma PlainLabelIsKept(trim: string -> string, tag: string)
    requires tag != "" && trim(tag) == tag && forall i :: 0 <= i < |tag| ==> tag[i] !in "\n\r[]"
    ensures SanitizedLabel(trim, tag) == tag
  {
    PlainRunesStay(tag);
  }

  const BeginFrame := "[BEGIN UNTRUSTED "
  const EndFrame := "[END UNTRUSTED "

  function FrameLine(frame: string, tag: string): string
  {
    frame + tag + "]"
  }

  function Framed(head: string, body: string, last: string): string
  {
    head + "\n" + (body + "\n" + last)
  }

  method FenceText(fold: Fold, trim: string -> string, tag: string, text: string) returns (out: string)
    requires Tame(fold)
    ensures var safe := SanitizedLabel(trim, tag);
            out == Framed(FrameLine(BeginFrame, safe), Neutralized(fold, text), FrameLine(EndFrame, safe))
  {
    var safe := SanitizedLabel(trim, tag);
    var begin, end := BeginFrame + safe + "]", EndFrame + safe + "]";
    var body := NeutralizeMarkers(fold, text);
    out := begin + "\n" + (body + "\n" + end);
  }

  /** A marker does not run over a line break. */
  lemma MarkerStopsAtBreak(a: string, b: string, p: nat)
    requires p < |a| && MarkerAt(a + "\n" + b, p)
    ensures MarkerAt(a, p)
  {
    var f := a + "\n" + b;
    MarkerLetters(f, p, 1);
    var n := MarkerLength(f, p);
    if p + n > |a| {
      MarkerLetters(f, p, |a| - p);
      assert false;
    }
    assert f[p..p + n] == a[p..p + n];
    SpellingMoves(f, p, a, p, n, if BeginsAt(f, p) then BeginMarker else EndMarker);
  }

  lemma MarkerAfter(a: string, b: string, p: nat)
    requires p >= |a| && MarkerAt(a + b, p)
    ensures MarkerAt(b, p - |a|)
  {
    var f, n := a + b, MarkerLength(a + b, p);
    MarkerLetters(f, p, 1);
    assert f[p..p + n] == b[p - |a|..p - |a| + n];
    SpellingMoves(f, p, b, p - |a|, n, if BeginsAt(f, p) then BeginMarker else EndMarker);
  }

  lemma OnlyFirstIsBracket(frame: string, tag: string)
    requires (frame == BeginFrame || frame == EndFrame) && NoBracket(tag)
    ensures forall i :: 0 < i < |FrameLine(frame, tag)| ==> FrameLine(frame, tag)[i] != '['
  {
    assert forall k :: 0 < k < |frame| ==> frame[k] != '[';
  }

  lemma MarkersOfFrame(head: string, body: string, last: string, p: nat)
    requires forall q: nat :: !MarkerAt(body, q)
    requires (forall i :: 0 < i < |head| ==> head[i] != '[') && (forall i :: 0 < i < |last| ==> last[i] != '[')
    requires MarkerAt(Framed(head, body, last), p)
    ensures p == 0 || p == |head| + 1 + |body| + 1
  {
    var rest := body + "\n" + last;
    var f := Framed(head, body, last);
    MarkerLetters(f, p, 1);
    if p < |head| {
      assert f[p] == head[p];
    } else if p > |head| {
      assert f == (head + "\n") + rest;
      MarkerAfter(head + "\n", rest, p);
      var q := p - |head| - 1;
      if q < |body| {
        MarkerStopsAtBreak(body, last, q);
      } else if q > |body| {
        MarkerLetters(rest, q, 1);
        assert rest[q] == last[q - |body| - 1];
      }
    }
  }

  lemma SpelledOut(f: string, at: nat, frame: string, w: string)
    requires at + |frame| <= |f| && f[at..at + |frame|] == frame && 1 + |w| <= |frame| && frame[1..1 + |w|] == w
    ensures Spells(f, at + 1, w)
  {
    forall i | 0 <= i < |w|
      ensures EqFold(f[at + 1 + i], w[i])
    {
      assert f[at..at + |frame|][1 + i] == frame[1 + i] == frame[1..1 + |w|][i];
    }
  }

  lemma FrameMarkers(f: string, head: string, body: string, last: string)
    requires BeginFrame <= head && EndFrame <= last && f == Framed(head, body, last)
    ensures BeginsAt(f, 0) && EndsAt(f, |head| + 1 + |body| + 1)
  {
    var at := |head| + 1 + |body| + 1;
    assert f[0..0 + |BeginFrame|] == BeginFrame;
    assert f[at..at + |EndFrame|] == EndFrame;
    SpelledOut(f, 0, BeginFrame, BeginMarker);
    SpelledOut(f, at, EndFrame, EndMarker);
    assert f[at..at + |EndFrame|][0] == '[' && f[0..0 + |BeginFrame|][0] == '[';
  }

  lemma LineFolds(fold: Fold, frame: string, tag: string)
    requires Tame(fold) && forall i :: 0 <= i < |frame| ==> frame[i] < 128 as char
    ensures Folded(fold, FrameLine(frame, tag)) == FrameLine(frame, Folded(fold, tag))
  {
    AsciiFoldsToItself(fold, frame);
    AsciiFoldsToItself(fold, "]");
    FoldedJoins(fold, frame, tag);
    FoldedJoins(fold, frame + tag, "]");
  }

  lemma FrameFolds(fold: Fold, head: string, body: string, last: string)
    requires Tame(fold)
    ensures Folded(fold, Framed(head, body, last)) == Framed(Folded(fold, head), Folded(fold, body), Folded(fold, last))
  {
    AsciiFoldsToItself(fold, "\n");
    FoldedJoins(fold, head, "\n");
    FoldedJoins(fold, body, "\n");
    FoldedJoins(fold, body + "\n", last);
    FoldedJoins(fold, head + "\n", body + "\n" + last);
  }

  lemma OnlyTwoMarkers(tag: string, body: string, p: nat)
    requires NoBracket(tag) && forall q: nat :: !MarkerAt(body, q)
    ensures var head := FrameLine(BeginFrame, tag);
            MarkerAt(Framed(head, body, FrameLine(EndFrame, tag)), p) <==> p == 0 || p == |head| + 1 + |body| + 1
  {
    var head, last := FrameLine(BeginFrame, tag), FrameLine(EndFrame, tag);
    FrameMarkers(Framed(head, body, last), head, body, last);
    OnlyFirstIsBracket(BeginFrame, tag);
    OnlyFirstIsBracket(EndFrame, tag);
    if MarkerAt(Framed(head, body, last), p) {
      MarkersOfFrame(head, body, last, p);
    }
  }

  /**
  A fenced text holds exactly two markers to the matcher, the frame's own opening at the start and
  its closing on the last line, when the caller's label folds to no bracket.
  */
  lemma FenceIsUnbroken(fold: Fold, tag: string, text: string, p: nat)
    requires Tame(fold) && NoBracket(Folded(fold, tag))
    ensures var head, body, last := FrameLine(BeginFrame, tag), Neutralized(fold, text), FrameLine(EndFrame, tag);
            var f := Folded(fold, Framed(head, body, last));
            MarkerAt(f, p) <==> p == 0 || p == |Folded(fold, head)| + 1 + |Folded(fold, body)| + 1
  {
    var head, body, last := FrameLine(BeginFrame, tag), Neutralized(fold, text), FrameLine(EndFrame, tag);
    LineFolds(fold, BeginFrame, tag);
    LineFolds(fold, EndFrame, tag);
    FrameFolds(fold, head, body, last);
    NeutralizedIsSafe(fold, text);
    OnlyTwoMarkers(Folded(fold, tag), Folded(fold, body), p);
  }
}
