/**
The banner block itself, and applying it (internal/provenance/banner.go, headerSafe in
internal/provenance/provenance.go): strip our own leading banner, defang what is left, prepend a new one.
*/
module BannerBlock {
  import opened Banner

  const BeginLine := "-----BEGIN DARBAAN TRUST BANNER-----"
  const EndLine := "-----END DARBAAN TRUST BANNER-----"
  const DefangedHead := "[DARBAAN TRUST BANNER "
  const DefangedTail := " - FORGED, NEUTRALIZED]"
  const BeginDefanged := DefangedHead + "BEGIN" + DefangedTail
  const EndDefanged := DefangedHead + "END" + DefangedTail
  const TrustName := "X-Darbaan-Trust: "
  const NoteName := "X-Darbaan-Note: "
  const AdvisoryOpening := "This banner is advisory; "
  const AdvisoryHeaders := "the X-Darbaan-* headers "
  const AdvisoryClosing := "are authoritative."
  const Advisory := AdvisoryOpening + (AdvisoryHeaders + (AdvisoryClosing + ""))
  const Crlf := "\r\n"

  /** No hyphen, or one that a space follows. */
  predicate LoneHyphens(s: string)
  {
    forall i :: 0 <= i < |s| && s[i] == '-' ==> i + 1 < |s| && s[i + 1] == ' '
  }

  predicate OneLine(s: string)
  {
    forall i :: 0 <= i < |s| ==> s[i] != '\n'
  }

  lemma PiecesAreDefanged(a: string, b: string, c: string)
    requires a != [] && a[0] == '[' && LoneHyphens(a) && LoneHyphens(b) && LoneHyphens(c) && OneLine(a) && OneLine(b) && OneLine(c)
    ensures IsDefanged(a + b + c)
  {
    var d := a + b + c;
    forall i | 0 <= i < |d| && d[i] == '-'
      ensures i + 1 < |d| && d[i + 1] == ' '
    {
      if i < |a| {
        assert a[i] == '-';
      } else if i < |a| + |b| {
        assert b[i - |a|] == '-';
      } else {
        assert c[i - |a| - |b|] == '-';
      }
    }
  }

  lemma BeginIsMarker()
    ensures IsMarker(BeginLine)
  {
    assert AllPlain(BeginLine);
    assert AllAscii(BeginLine);
  }

  lemma EndIsMarker()
    ensures IsMarker(EndLine)
  {
    assert AllPlain(EndLine);
    assert AllAscii(EndLine);
  }

  lemma MarkersAreMarkers()
    ensures IsMarker(BeginLine) && IsMarker(EndLine)
  {
    BeginIsMarker();
    EndIsMarker();
  }

  lemma DefangedAreDefanged()
    ensures IsDefanged(BeginDefanged) && IsDefanged(EndDefanged)
  {
    PiecesAreDefanged(DefangedHead, "BEGIN", DefangedTail);
    PiecesAreDefanged(DefangedHead, "END", DefangedTail);
  }

  // ---- Defanging ----

  function NeutralizedOnce(cf: Invisible, t: string): string
  {
    Replaced(cf, EndLine, EndDefanged, Replaced(cf, BeginLine, BeginDefanged, t))
  }

  /** One round leaves no marker of either kind, however it was spelled; a second round changes nothing; line breaks stay. */
  lemma OneRoundSuffices(cf: Invisible, t: string)
    requires Tame(cf)
    ensures var out := NeutralizedOnce(cf, t);
            && NoMarker(cf, BeginLine, out) && NoMarker(cf, EndLine, out)
            && NeutralizedOnce(cf, out) == out
            && Breaks(out) == Breaks(t)
    ensures NeutralizedOnce(cf, t) == t <==> NoMarker(cf, BeginLine, t) && NoMarker(cf, EndLine, t)
  {
    MarkersAreMarkers();
    DefangedAreDefanged();
    var first := Replaced(cf, BeginLine, BeginDefanged, t);
    var out := NeutralizedOnce(cf, t);
    NoneBroughtUp(cf, BeginLine, BeginLine, BeginDefanged, t);
    NoneBroughtUp(cf, BeginLine, EndLine, EndDefanged, first);
    NoneBroughtUp(cf, EndLine, EndLine, EndDefanged, first);
    NoMarkerUnchanged(cf, BeginLine, BeginDefanged, out);
    NoMarkerUnchanged(cf, EndLine, EndDefanged, out);
    ReplacingKeepsBreaks(cf, BeginLine, BeginDefanged, t);
    ReplacingKeepsBreaks(cf, EndLine, EndDefanged, first);
    if NoMarker(cf, BeginLine, t) && NoMarker(cf, EndLine, t) {
      NoMarkerUnchanged(cf, BeginLine, BeginDefanged, t);
      NoMarkerUnchanged(cf, EndLine, EndDefanged, t);
    }
  }

  /** A begin marker in any disguise is written over as a whole, and what follows it is treated on its own. */
  lemma DisguisedBeginIsDefanged(cf: Invisible, m: string, rest: string)
    requires Tame(cf) && Disguised(cf, m, BeginLine)
    ensures NeutralizedOnce(cf, m + rest) == BeginDefanged + NeutralizedOnce(cf, rest)
  {
    MarkersAreMarkers();
    DefangedAreDefanged();
    DisguiseIsReplaced(cf, BeginLine, BeginDefanged, m, rest);
    var under := Replaced(cf, BeginLine, BeginDefanged, rest);
    DefangedIsKept(cf, EndLine, EndDefanged, BeginDefanged, 0, under);
    assert (BeginDefanged + under)[0..] == BeginDefanged + under && BeginDefanged[0..] == BeginDefanged;
  }

  predicate ZeroWidthSpace(c: char)
  {
    c == '\U{200B}'
  }

  /** A begin marker split anywhere by zero width spaces, for one, is matched and defanged. */
  lemma SplitBeginIsDefanged(k: nat, gap: string, rest: string)
    requires 0 < k < |BeginLine| && forall i :: 0 <= i < |gap| ==> ZeroWidthSpace(gap[i])
    ensures Tame(ZeroWidthSpace)
    ensures NeutralizedOnce(ZeroWidthSpace, BeginLine[..k] + gap + BeginLine[k..] + rest) == BeginDefanged + NeutralizedOnce(ZeroWidthSpace, rest)
  {
    MarkersAreMarkers();
    var a, b := BeginLine[..k], BeginLine[k..];
    assert a + b == BeginLine;
    SplitIsDisguised(ZeroWidthSpace, a, gap, b);
    DisguisedBeginIsDefanged(ZeroWidthSpace, a + gap + b, rest);
  }

  const MaxRounds := 8

  /** The panic of a replacement that does not converge is never reached: two rounds always do. */
  method NeutralizeBanners(cf: Invisible, t: string) returns (out: string, rounds: nat)
    requires Tame(cf)
    ensures out == NeutralizedOnce(cf, t) && rounds <= 2
  {
    MarkersAreMarkers();
    OneRoundSuffices(cf, t);
    var body := t;
    rounds := 0;
    while true
      invariant rounds <= 1 && body == if rounds == 0 then t else NeutralizedOnce(cf, t)
      decreases MaxRounds - rounds
    {
      var begun := ReplaceAll(cf, BeginLine, BeginDefanged, body);
      var next := ReplaceAll(cf, EndLine, EndDefanged, begun);
      if next == body {
        return next, rounds + 1;
      }
      body := next;
      if rounds >= MaxRounds {
        assert false;
      }
      rounds := rounds + 1;
    }
  }
}
