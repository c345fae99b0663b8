/**
Stripping and applying the banner (internal/provenance/banner.go): when applying a second banner
replaces the first one exactly.
*/
module BannerApply {
  import opened Options
  import opened Banner
  import opened BannerBlock

  // ---- Finding a text ----

  predicate Occurs(s: string, w: string, p: nat)
  {
    p + |w| <= |s| && s[p..p + |w|] == w
  }

  lemma CharOf(s: string, w: string, p: nat, k: nat)
    requires Occurs(s, w, p) && k < |w|
    ensures s[p + k] == w[k]
  {
    assert s[p..p + |w|][k] == s[p + k];
  }

  ghost predicate Contains(s: string, w: string)
  {
    exists p: nat :: Occurs(s, w, p)
  }

  function IndexOf(s: string, w: string): Option<nat>
  {
    if w <= s then Some(0)
    else if s == [] then None
    else
      var i := IndexOf(s[1..], w);
      if i.Some? then Some(1 + i.value) else None
  }

  function Min(a: nat, b: nat): nat
  {
    if a < b then a else b
  }

  lemma SliceOfRest(s: string, p: nat, n: nat)
    requires s != [] && p + n + 1 <= |s|
    ensures s[1..][p..p + n] == s[p + 1..p + 1 + n]
  {
  }

  lemma {:induction false} IndexIsFirst(s: string, w: string)
    ensures IndexOf(s, w).Some? <==> Contains(s, w)
    ensures IndexOf(s, w).Some? ==> Occurs(s, w, IndexOf(s, w).value) && forall p: nat :: Occurs(s, w, p) ==> p >= IndexOf(s, w).value
  {
    assert s[0..0 + Min(|w|, |s|)] == s[..Min(|w|, |s|)];
    if w <= s {
      assert Occurs(s, w, 0);
    } else if s != [] {
      IndexIsFirst(s[1..], w);
      forall p: nat | Occurs(s, w, p)
        ensures p > 0 && Occurs(s[1..], w, p - 1)
      {
        SliceOfRest(s, p - 1, |w|);
      }
      forall p: nat | Occurs(s[1..], w, p)
        ensures Occurs(s, w, p + 1)
      {
        SliceOfRest(s, p, |w|);
      }
    }
  }

  // ---- Lines ----

  function JoinLines(ls: seq<string>): string
  {
    if ls == [] then "" else ls[0] + Crlf + JoinLines(ls[1..])
  }

  predicate NoLineEnd(w: string)
  {
    w != "" && forall i :: 0 <= i < |w| ==> w[i] != '\r' && w[i] != '\n'
  }

  /** A text without line ends that occurs in two lines occurs in one of them. */
  lemma OccursInOne(a: string, b: string, w: string, p: nat)
    requires NoLineEnd(w) && Occurs(a + Crlf + b, w, p)
    ensures Occurs(a, w, p) || (p >= |a| + 2 && Occurs(b, w, p - |a| - 2))
  {
    var s := a + Crlf + b;
    if p + |w| <= |a| {
      assert s[p..p + |w|] == a[p..p + |w|];
    } else if p >= |a| + 2 {
      assert s[p..p + |w|] == b[p - |a| - 2..p - |a| - 2 + |w|];
    } else {
      CharOf(s, w, p, if p <= |a| then |a| - p else 0);
    }
  }

  lemma {:induction false} OccursInLines(ls: seq<string>, rest: string, w: string, p: nat)
    requires NoLineEnd(w) && Occurs(JoinLines(ls) + rest, w, p)
    requires forall k :: 0 <= k < |ls| ==> !Contains(ls[k], w)
    ensures p >= |JoinLines(ls)| && Occurs(rest, w, p - |JoinLines(ls)|)
  {
    if ls == [] {
      assert JoinLines(ls) + rest == rest;
    } else {
      assert JoinLines(ls) + rest == ls[0] + Crlf + (JoinLines(ls[1..]) + rest);
      OccursInOne(ls[0], JoinLines(ls[1..]) + rest, w, p);
      OccursInLines(ls[1..], rest, w, p - |ls[0]| - 2);
    }
  }

  /** A text inside one of the lines occurs before the last line end. */
  lemma {:induction false} LineOccurs(ls: seq<string>, rest: string, w: string, k: nat) returns (p: nat)
    requires k < |ls| && Contains(ls[k], w)
    ensures Occurs(JoinLines(ls) + rest, w, p) && p + |w| + 2 <= |JoinLines(ls)|
  {
    var more := JoinLines(ls[1..]) + rest;
    assert JoinLines(ls) + rest == ls[0] + Crlf + more;
    if k == 0 {
      p :| Occurs(ls[0], w, p);
      assert (ls[0] + Crlf + more)[p..p + |w|] == ls[0][p..p + |w|];
    } else {
      var q := LineOccurs(ls[1..], rest, w, k - 1);
      p := q + |ls[0]| + 2;
      assert (ls[0] + Crlf + more)[p..p + |w|] == more[q..q + |w|];
    }
  }

  lemma {:induction false} LinesEndInBreak(ls: seq<string>)
    requires ls != []
    ensures |JoinLines(ls)| >= 2 && JoinLines(ls)[|JoinLines(ls)| - 2..] == Crlf
  {
    if |ls| > 1 {
      LinesEndInBreak(ls[1..]);
      assert JoinLines(ls)[|JoinLines(ls)| - 2..] == JoinLines(ls[1..])[|JoinLines(ls[1..])| - 2..];
    } else {
      assert JoinLines(ls[1..]) == "";
    }
  }

  /** A header line whose name has no two hyphens in a row holds a dashed text only in its value. */
  lemma OccursInValue(name: string, value: string, w: string, p: nat)
    requires |w| >= 2 && w[0] == '-' && w[1] == '-' && Occurs(name + value, w, p)
    requires forall i :: 0 <= i < |name| && name[i] == '-' ==> i + 1 < |name| && name[i + 1] != '-'
    ensures p >= |name| && Occurs(value, w, p - |name|)
  {
    var s := name + value;
    assert forall i :: 0 <= i < |name| ==> name[i] == s[i];
    CharOf(s, w, p, 0);
    CharOf(s, w, p, 1);
    assert s[p..p + |w|] == value[p - |name|..p - |name| + |w|];
  }

  // ---- The block ----

  datatype Stamp = Stamp(trust: string, note: string)

  /** headerSafe: control characters are dropped. */
  function HeaderSafe(v: string): string
  {
    if v == [] then [] else (if v[0] < ' ' || v[0] == '\U{7F}' then [] else [v[0]]) + HeaderSafe(v[1..])
  }

  function NoteLines(st: Stamp): seq<string>
  {
    if st.note == "" then [] else [NoteName + HeaderSafe(st.note)]
  }

  function HeadLines(st: Stamp): seq<string>
  {
    [BeginLine, TrustName + st.trust] + NoteLines(st) + [Advisory]
  }

  function Block(st: Stamp): string
  {
    JoinLines(HeadLines(st)) + (EndLine + (Crlf + Crlf))
  }

  function StripBanner(s: string): string
  {
    if !(BeginLine <= s) then s
    else match IndexOf(s, EndLine)
      case None => s
      case Some(i) =>
        if i + |EndLine| > |s| then s
        else
          var rest := s[i + |EndLine|..];
          if Crlf + Crlf <= rest then rest[4..] else rest
  }

  function Applied(cf: Invisible, s: string, st: Stamp): string
  {
    Block(st) + NeutralizedOnce(cf, StripBanner(s))
  }

  method ApplyBanner(cf: Invisible, s: string, st: Stamp) returns (out: string)
    requires Tame(cf)
    ensures out == Applied(cf, s, st)
    ensures NoMarker(cf, BeginLine, s) && NoMarker(cf, EndLine, s) ==> out == Block(st) + s
  {
    if NoMarker(cf, BeginLine, s) && NoMarker(cf, EndLine, s) {
      FirstBannerKeepsBody(cf, s, st);
    }
    var body := StripBanner(s);
    var safe, rounds := NeutralizeBanners(cf, body);
    out := Block(st) + safe;
  }

  /** Neither the trust value nor the note as it is written carries the end marker. */
  ghost predicate CarriesNoEnd(st: Stamp)
  {
    !Contains(st.trust, EndLine) && (st.note != "" ==> !Contains(HeaderSafe(st.note), EndLine))
  }

  lemma EndLineIsDashed()
    ensures NoLineEnd(EndLine) && |EndLine| == 34 && EndLine[0] == EndLine[1] == '-'
  {
  }

  lemma NamesAreSingleDashed()
    ensures forall i :: 0 <= i < |TrustName| && TrustName[i] == '-' ==> i + 1 < |TrustName| && TrustName[i + 1] != '-'
    ensures forall i :: 0 <= i < |NoteName| && NoteName[i] == '-' ==> i + 1 < |NoteName| && NoteName[i + 1] != '-'
  {
  }

  lemma BeginIsNotEnd(p: nat)
    ensures !Occurs(BeginLine, EndLine, p)
  {
    assert |BeginLine| == 36 && |EndLine| == 34;
    assert BeginLine[5] == 'B' && forall k :: 3 <= k <= 5 ==> EndLine[k] != 'B';
    if Occurs(BeginLine, EndLine, p) {
      CharOf(BeginLine, EndLine, p, 5 - p);
    }
  }

  lemma CleanLines(st: Stamp)
    requires CarriesNoEnd(st)
    ensures forall k :: 0 <= k < |HeadLines(st)| ==> !Contains(HeadLines(st)[k], EndLine)
  {
    EndLineIsDashed();
    NamesAreSingleDashed();
    forall p: nat
      ensures !Occurs(BeginLine, EndLine, p) && !Occurs(TrustName + st.trust, EndLine, p)
      ensures st.note != "" ==> !Occurs(NoteName + HeaderSafe(st.note), EndLine, p)
      ensures !Occurs(Advisory, EndLine, p)
    {
      BeginIsNotEnd(p);
      AdvisoryIsNotEnd(p);
      if Occurs(TrustName + st.trust, EndLine, p) {
        OccursInValue(TrustName, st.trust, EndLine, p);
      }
      if st.note != "" && Occurs(NoteName + HeaderSafe(st.note), EndLine, p) {
        OccursInValue(NoteName, HeaderSafe(st.note), EndLine, p);
      }
    }
  }

  predicate SingleDashed(s: string)
  {
    forall i :: 0 <= i < |s| && s[i] == '-' ==> i + 1 < |s| && s[i + 1] != '-'
  }

  lemma JoinedStaysSingleDashed(a: string, b: string)
    requires SingleDashed(a) && SingleDashed(b)
    ensures SingleDashed(a + b)
  {
    forall i | 0 <= i < |a + b| && (a + b)[i] == '-'
      ensures i + 1 < |a + b| && (a + b)[i + 1] != '-'
    {
      if i < |a| {
        assert a[i] == '-';
      } else {
        assert b[i - |a|] == '-';
      }
    }
  }

  lemma AdvisoryIsSingleDashed()
    ensures SingleDashed(Advisory)
  {
    assert SingleDashed(AdvisoryOpening) && SingleDashed(AdvisoryHeaders) && SingleDashed(AdvisoryClosing);
    JoinedStaysSingleDashed(AdvisoryClosing, "");
    JoinedStaysSingleDashed(AdvisoryHeaders, AdvisoryClosing + "");
    JoinedStaysSingleDashed(AdvisoryOpening, AdvisoryHeaders + (AdvisoryClosing + ""));
  }

  lemma SingleDashedHoldsNone(s: string, w: string, p: nat)
    requires SingleDashed(s) && |w| >= 2 && w[0] == '-' && w[1] == '-'
    ensures !Occurs(s, w, p)
  {
    if Occurs(s, w, p) {
      CharOf(s, w, p, 0);
      CharOf(s, w, p, 1);
    }
  }

  lemma AdvisoryIsNotEnd(p: nat)
    ensures !Occurs(Advisory, EndLine, p)
  {
    EndLineIsDashed();
    AdvisoryIsSingleDashed();
    SingleDashedHoldsNone(Advisory, EndLine, p);
  }

  // ---- Replacing the first banner ----

  lemma CutAfter(head: string, w: string, gap: string, under: string)
    ensures var s := head + ((w + gap) + under);
            && Occurs(s, w, |head|) && |head| + |w| <= |s| && s[|head| + |w|..] == gap + under
            && (gap + under)[|gap|..] == under && gap <= gap + under
  {
    var s := head + ((w + gap) + under);
    assert s[|head|..|head| + |w|] == w;
  }

  lemma FirstEndIsOwn(st: Stamp, under: string)
    requires CarriesNoEnd(st)
    ensures IndexOf(JoinLines(HeadLines(st)) + ((EndLine + (Crlf + Crlf)) + under), EndLine) == Some(|JoinLines(HeadLines(st))|)
  {
    EndLineIsDashed();
    CleanLines(st);
    var head, tail := JoinLines(HeadLines(st)), (EndLine + (Crlf + Crlf)) + under;
    CutAfter(head, EndLine, Crlf + Crlf, under);
    IndexIsFirst(head + tail, EndLine);
    OccursInLines(HeadLines(st), tail, EndLine, IndexOf(head + tail, EndLine).value);
  }

  /** Stripping a bannered body gives back what is under the banner, if the block's head carries no end marker. */
  lemma StripInvertsApply(st: Stamp, under: string)
    requires CarriesNoEnd(st)
    ensures StripBanner(Block(st) + under) == under
  {
    var head := JoinLines(HeadLines(st));
    assert Block(st) + under == head + ((EndLine + (Crlf + Crlf)) + under);
    BlockBegins(st, under);
    FirstEndIsOwn(st, under);
    CutAfter(head, EndLine, Crlf + Crlf, under);
  }

  lemma BlockBegins(st: Stamp, under: string)
    ensures BeginLine <= Block(st) + under
  {
    assert HeadLines(st)[0] == BeginLine;
    assert JoinLines(HeadLines(st)) == BeginLine + Crlf + JoinLines(HeadLines(st)[1..]);
  }

  lemma SuffixBreaks(s: string, i: nat, suffix: string)
    requires i + |suffix| <= |s| && s[|s| - |suffix|..] == suffix
    ensures Breaks(s[i..]) >= Breaks(suffix)
  {
    var k := |s| - |suffix|;
    assert s[i..] == s[i..k] + suffix;
    BreaksJoin(s[i..k], suffix);
  }

  /** Cut anywhere before the head's last line end, a bannered body keeps three line breaks more than what is under it. */
  lemma EarlyCutKeepsBreaks(head: string, under: string, i: nat)
    requires 2 <= |head| && head[|head| - 2..] == Crlf && i + 2 <= |head|
    ensures Breaks((head + ((EndLine + (Crlf + Crlf)) + under))[i..]) >= 3 + Breaks(under)
  {
    var s, suffix := head + ((EndLine + (Crlf + Crlf)) + under), Crlf + ((EndLine + (Crlf + Crlf)) + under);
    assert s == head[..|head| - 2] + suffix;
    SuffixBreaks(s, i, suffix);
    SuffixHasThree(under);
  }

  lemma TrimmedBreaks(rest: string)
    ensures Crlf + Crlf <= rest ==> Breaks(rest[4..]) == Breaks(rest) - 2
  {
    if Crlf + Crlf <= rest {
      assert rest == (Crlf + Crlf) + rest[4..];
      BreaksJoin(Crlf + Crlf, rest[4..]);
      TwoBreaks();
    }
  }

  /** With an end marker in the head, stripping stops early and leaves more line breaks than the body had. */
  lemma StripStopsEarly(st: Stamp, under: string)
    requires !CarriesNoEnd(st)
    ensures Breaks(StripBanner(Block(st) + under)) > Breaks(under)
  {
    var head, tail := JoinLines(HeadLines(st)), EndLine + (Crlf + Crlf);
    var s := Block(st) + under;
    assert s == head + (tail + under);
    var p := DirtyLine(st, tail + under);
    BlockBegins(st, under);
    IndexIsFirst(s, EndLine);
    var i := IndexOf(s, EndLine).value;
    LinesEndInBreak(HeadLines(st));
    EarlyCutKeepsBreaks(head, under, i + |EndLine|);
    TrimmedBreaks(s[i + |EndLine|..]);
  }

  lemma TwoBreaks()
    ensures Breaks(Crlf) == 1 && Breaks(Crlf + Crlf) == 2
  {
    assert Crlf[1..][1..] == "" && Crlf[1..][0] == '\n';
    BreaksJoin(Crlf, Crlf);
  }

  lemma SuffixHasThree(under: string)
    ensures Breaks(Crlf + ((EndLine + (Crlf + Crlf)) + under)) == 3 + Breaks(under)
  {
    EndLineIsDashed();
    TwoBreaks();
    NoBreaks(EndLine);
    BreaksJoin(EndLine, Crlf + Crlf);
    BreaksJoin(EndLine + (Crlf + Crlf), under);
    BreaksJoin(Crlf, (EndLine + (Crlf + Crlf)) + under);
  }

  lemma DirtyLine(st: Stamp, rest: string) returns (p: nat)
    requires !CarriesNoEnd(st)
    ensures Occurs(JoinLines(HeadLines(st)) + rest, EndLine, p) && p + |EndLine| + 2 <= |JoinLines(HeadLines(st))|
  {
    if Contains(st.trust, EndLine) {
      ContainsAfter(TrustName, st.trust, EndLine);
      assert HeadLines(st)[1] == TrustName + st.trust;
      p := LineOccurs(HeadLines(st), rest, EndLine, 1);
    } else {
      ContainsAfter(NoteName, HeaderSafe(st.note), EndLine);
      assert HeadLines(st)[2] == NoteName + HeaderSafe(st.note);
      p := LineOccurs(HeadLines(st), rest, EndLine, 2);
    }
  }

  lemma ContainsAfter(a: string, b: string, w: string)
    requires Contains(b, w)
    ensures Contains(a + b, w)
  {
    var p: nat :| Occurs(b, w, p);
    assert (a + b)[|a| + p..|a| + p + |w|] == b[p..p + |w|];
    assert Occurs(a + b, w, |a| + p);
  }

  /**
  Applying a second stamp gives what applying it to the original would have given exactly when the
  first stamp, as it was written into its banner, carried no end marker.
  */
  lemma SecondBannerReplacesFirstIff(cf: Invisible, body: string, s1: Stamp, s2: Stamp)
    requires Tame(cf)
    ensures Applied(cf, Applied(cf, body, s1), s2) == Applied(cf, body, s2) <==> CarriesNoEnd(s1)
  {
    MarkersAreMarkers();
    var under := NeutralizedOnce(cf, StripBanner(body));
    OneRoundSuffices(cf, StripBanner(body));
    if CarriesNoEnd(s1) {
      StripInvertsApply(s1, under);
    } else {
      StripStopsEarly(s1, under);
      var left := StripBanner(Block(s1) + under);
      OneRoundSuffices(cf, left);
      BreaksJoin(Block(s2), NeutralizedOnce(cf, left));
      BreaksJoin(Block(s2), under);
    }
  }

  lemma {:induction false} SafeIsKept(v: string)
    requires forall i :: 0 <= i < |v| ==> v[i] >= ' ' && v[i] != '\U{7F}'
    ensures HeaderSafe(v) == v
  {
    if v != [] {
      SafeIsKept(v[1..]);
    }
  }

  lemma ContainsItself(w: string)
    ensures Contains(w, w)
  {
    assert Occurs(w, w, 0);
  }

  lemma EndLineIsSafe()
    ensures EndLine != "" && HeaderSafe(EndLine) == EndLine
  {
    SafeIsKept(EndLine);
  }

  /** A note that is the end marker itself: a second banner does not replace the first. */
  lemma EndInNoteStays(cf: Invisible, body: string, trust: string, s2: Stamp)
    requires Tame(cf)
    ensures Applied(cf, Applied(cf, body, Stamp(trust, EndLine)), s2) != Applied(cf, body, s2)
  {
    EndLineIsSafe();
    ContainsItself(EndLine);
    SecondBannerReplacesFirstIff(cf, body, Stamp(trust, EndLine), s2);
  }

  /** Whatever a message's own text pretends, the body under an applied banner holds no live marker. */
  lemma BodyHoldsNoMarker(cf: Invisible, body: string, st: Stamp)
    requires Tame(cf)
    ensures exists under :: Applied(cf, body, st) == Block(st) + under && NoMarker(cf, BeginLine, under) && NoMarker(cf, EndLine, under)
  {
    MarkersAreMarkers();
    OneRoundSuffices(cf, StripBanner(body));
    assert Applied(cf, body, st) == Block(st) + NeutralizedOnce(cf, StripBanner(body));
  }

  // ---- An ordinary body ----

  /** A body that does not open with the begin line, or holds no end line, is stripped to itself; any other to what follows its first end line and one blank line. */
  lemma StripIsExact(s: string)
    ensures !(BeginLine <= s) ==> StripBanner(s) == s
    ensures !Contains(s, EndLine) ==> StripBanner(s) == s
    ensures forall p: nat :: BeginLine <= s && Occurs(s, EndLine, p) && (forall q: nat :: q < p ==> !Occurs(s, EndLine, q)) ==>
              StripBanner(s) == var rest := s[p + |EndLine|..]; if "\r\n\r\n" <= rest then rest[4..] else rest
  {
    IndexIsFirst(s, EndLine);
    assert Crlf + Crlf == "\r\n\r\n";
    if BeginLine <= s && IndexOf(s, EndLine).Some? {
      var i := IndexOf(s, EndLine).value;
      assert Occurs(s, EndLine, i);
    }
  }

  lemma MarkerIsItsOwnDisguise(cf: Invisible, lit: string)
    requires Tame(cf) && IsMarker(lit)
    ensures Disguised(cf, lit, lit)
  {
    var a, b := lit[..1], lit[1..];
    assert a + "" + b == lit && a + b == lit;
    SplitIsDisguised(cf, a, "", b);
  }

  lemma NoMarkerNoBanner(cf: Invisible, lit: string, body: string)
    requires Tame(cf) && IsMarker(lit) && NoMarker(cf, lit, body)
    ensures !(lit <= body)
  {
    if lit <= body {
      MarkerIsItsOwnDisguise(cf, lit);
      assert body[..|lit|] == lit && body[0..] == body;
      MarkerMeans(cf, body, lit, |lit|);
    }
  }

  /** A body without any marker is left as it is under the banner: the block, and then the body, character for character. */
  lemma FirstBannerKeepsBody(cf: Invisible, body: string, st: Stamp)
    requires Tame(cf) && NoMarker(cf, BeginLine, body) && NoMarker(cf, EndLine, body)
    ensures Applied(cf, body, st) == Block(st) + body
    ensures StripBanner(body) == body && NeutralizedOnce(cf, body) == body
  {
    MarkersAreMarkers();
    NoMarkerNoBanner(cf, BeginLine, body);
    StripIsExact(body);
    OneRoundSuffices(cf, body);
  }

  /** Any other body that is not Darbaan's own is changed at its markers only. */
  lemma ForeignBodyIsNeutralized(cf: Invisible, body: string, st: Stamp)
    requires !(BeginLine <= body)
    ensures Applied(cf, body, st) == Block(st) + NeutralizedOnce(cf, body)
  {
    StripIsExact(body);
  }

  // ---- What the block shows ----

  lemma LineIsShown(ls: seq<string>, tail: string, k: nat)
    requires k < |ls|
    ensures Contains(JoinLines(ls) + tail, ls[k])
  {
    ContainsItself(ls[k]);
    var p := LineOccurs(ls, tail, ls[k], k);
  }

  /** The block opens with the begin line and carries the trust, and the note when there is one. */
  lemma BlockShows(st: Stamp)
    ensures BeginLine <= Block(st) && Contains(Block(st), TrustName + st.trust)
    ensures st.note != "" ==> Contains(Block(st), NoteName + HeaderSafe(st.note))
  {
    var lines, tail := HeadLines(st), EndLine + (Crlf + Crlf);
    assert lines[1] == TrustName + st.trust;
    BlockBegins(st, "");
    assert Block(st) + "" == Block(st);
    LineIsShown(lines, tail, 1);
    if st.note != "" {
      assert lines[2] == NoteName + HeaderSafe(st.note);
      LineIsShown(lines, tail, 2);
    }
  }

  /** Control characters, and nothing else, are dropped from a note. */
  lemma {:induction false} SafeIsFiltered(v: string, c: char)
    ensures c < ' ' || c == '\U{7F}' ==> c !in HeaderSafe(v)
    ensures c >= ' ' && c != '\U{7F}' ==> multiset(HeaderSafe(v))[c] == multiset(v)[c]
  {
    if v != [] {
      SafeIsFiltered(v[1..], c);
      assert v == [v[0]] + v[1..];
    }
  }
}
