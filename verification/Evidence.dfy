/**
Evidence for a flagged factor (internal/assessor/evidence.go) against what detection read
(internal/assessor/heuristic.go). A pattern is its list of matches, each a start and an end.
*/
module Evidence {
  datatype Attachment = Attachment(name: string, text: string)

  datatype Content = Content(body: string, atts: seq<Attachment>)

  datatype Scope = Body | Attachments | All

  type Ignorable = char -> bool

  function Stripped(ign: Ignorable, s: string): string
  {
    if s == [] then [] else (if ign(s[0]) then [] else [s[0]]) + Stripped(ign, s[1..])
  }

  lemma {:induction false} StrippedJoins(ign: Ignorable, a: string, b: string)
    ensures Stripped(ign, a + b) == Stripped(ign, a) + Stripped(ign, b)
  {
    if a == [] {
      assert a + b == b;
    } else {
      assert (a + b)[0] == a[0] && (a + b)[1..] == a[1..] + b;
      StrippedJoins(ign, a[1..], b);
    }
  }

  lemma CountOfJoin(a: string, b: string, c: char)
    ensures multiset(a + b)[c] == multiset(a)[c] + multiset(b)[c]
  {
  }

  /** Exactly the ignorable runes are dropped. */
  lemma {:induction false} StrippedIsFiltered(ign: Ignorable, s: string, c: char)
    ensures multiset(Stripped(ign, s))[c] == if ign(c) then 0 else multiset(s)[c]
  {
    if s != [] {
      StrippedIsFiltered(ign, s[1..], c);
      assert s == [s[0]] + s[1..];
      CountOfJoin([s[0]], s[1..], c);
      CountOfJoin(if ign(s[0]) then [] else [s[0]], Stripped(ign, s[1..]), c);
    }
  }

  lemma {:induction false} NothingToStrip(ign: Ignorable, s: string)
    requires forall i :: 0 <= i < |s| ==> !ign(s[i])
    ensures Stripped(ign, s) == s
  {
    if s != [] {
      NothingToStrip(ign, s[1..]);
    }
  }

  // ---- What detection reads ----

  /** The first k texts joined by line breaks. */
  function JoinedTo(texts: seq<string>, k: nat): string
    requires k <= |texts|
  {
    if k == 0 then "" else if k == 1 then texts[0] else JoinedTo(texts, k - 1) + "\n" + texts[k - 1]
  }

  function Joined(texts: seq<string>): string
  {
    JoinedTo(texts, |texts|)
  }

  function AttachmentTexts(atts: seq<Attachment>): seq<string>
  {
    if atts == [] then []
    else AttachmentTexts(atts[..|atts| - 1]) + (if atts[|atts| - 1].text == "" then [] else [atts[|atts| - 1].text])
  }

  lemma TextsOneMore(atts: seq<Attachment>, i: nat)
    requires i < |atts|
    ensures atts[i].text == "" ==> AttachmentTexts(atts[..i + 1]) == AttachmentTexts(atts[..i])
    ensures atts[i].text != "" ==> AttachmentTexts(atts[..i + 1]) == AttachmentTexts(atts[..i]) + [atts[i].text]
  {
    assert atts[..i + 1][..i] == atts[..i];
    assert AttachmentTexts(atts[..i]) + [] == AttachmentTexts(atts[..i]);
  }

  /** The attachments with text among the first i. */
  function WithText(atts: seq<Attachment>, i: nat): nat
    requires i <= |atts|
  {
    if i == 0 then 0 else WithText(atts, i - 1) + if atts[i - 1].text != "" then 1 else 0
  }

  function TextsInScope(c: Content, s: Scope): seq<string>
  {
    match s
    case Body => [c.body]
    case Attachments => AttachmentTexts(c.atts)
    case All => [c.body] + AttachmentTexts(c.atts)
  }

  lemma {:induction false} AttachmentTextsAreNonempty(atts: seq<Attachment>)
    ensures forall i :: 0 <= i < |AttachmentTexts(atts)| ==> AttachmentTexts(atts)[i] != ""
  {
    if atts != [] {
      AttachmentTextsAreNonempty(atts[..|atts| - 1]);
    }
  }

  lemma {:induction false} JoinedOfLonger(texts: seq<string>, t: string, k: nat)
    requires k <= |texts|
    ensures JoinedTo(texts + [t], k) == JoinedTo(texts, k)
  {
    if k > 1 {
      JoinedOfLonger(texts, t, k - 1);
    }
  }

  lemma JoinedOneMore(texts: seq<string>, t: string)
    ensures Joined(texts + [t]) == if texts == [] then t else Joined(texts) + "\n" + t
  {
    JoinedOfLonger(texts, t, |texts|);
  }

  lemma {:induction false} JoinedIsEmptyIff(texts: seq<string>)
    requires forall i :: 0 <= i < |texts| ==> texts[i] != ""
    ensures Joined(texts) == "" <==> texts == []
  {
    if |texts| > 1 {
      assert |Joined(texts)| >= 1;
    }
  }

  lemma Regroup(a: string, b: string, c: string)
    ensures (a + "\n" + b) + "\n" + c == a + "\n" + (b + "\n" + c)
  {
  }

  lemma {:induction false} JoinedAfterFirst(first: string, texts: seq<string>)
    ensures Joined([first] + texts) == if texts == [] then first else first + "\n" + Joined(texts)
  {
    if texts == [] {
      assert [first] + texts == [first];
    } else {
      var init, last := texts[..|texts| - 1], texts[|texts| - 1];
      assert [first] + texts == ([first] + init) + [last] && texts == init + [last];
      JoinedOneMore([first] + init, last);
      JoinedOneMore(init, last);
      JoinedAfterFirst(first, init);
      Regroup(first, Joined(init), last);
    }
  }

  method AttachmentText(c: Content) returns (out: string)
    ensures out == Joined(AttachmentTexts(c.atts))
  {
    out := "";
    for i := 0 to |c.atts|
      invariant out == Joined(AttachmentTexts(c.atts[..i]))
    {
      TextsOneMore(c.atts, i);
      AttachmentTextsAreNonempty(c.atts[..i]);
      JoinedIsEmptyIff(AttachmentTexts(c.atts[..i]));
      if c.atts[i].text == "" {
        continue;
      }
      JoinedOneMore(AttachmentTexts(c.atts[..i]), c.atts[i].text);
      if |out| > 0 {
        out := out + "\n";
      }
      out := out + c.atts[i].text;
    }
    assert c.atts[..|c.atts|] == c.atts;
  }

  method TextForScope(c: Content, s: Scope) returns (out: string)
    ensures out == Joined(TextsInScope(c, s))
  {
    match s
    case Body => out := c.body;
    case Attachments => out := AttachmentText(c);
    case All =>
      var at := AttachmentText(c);
      AttachmentTextsAreNonempty(c.atts);
      JoinedIsEmptyIff(AttachmentTexts(c.atts));
      JoinedAfterFirst(c.body, AttachmentTexts(c.atts));
      if at == "" {
        assert [c.body] + AttachmentTexts(c.atts) == [c.body];
        return c.body;
      }
      out := c.body + "\n" + at;
  }

  // ---- What evidence reads ----

  datatype Segment = Segment(source: string, start: int, end: int)

  datatype Piece = Piece(source: string, text: string)

  function Texts(ps: seq<Piece>): seq<string>
  {
    seq(|ps|, i requires 0 <= i < |ps| => ps[i].text)
  }

  /** The filename, or the attachment's number when it has none. */
  function SourceName(atts: seq<Attachment>, numbered: nat -> string, i: nat): string
    requires i < |atts|
  {
    if atts[i].name == "" then numbered(i + 1) else atts[i].name
  }

  /** The pieces of the attachments with text among the first n. */
  function PiecesTo(atts: seq<Attachment>, numbered: nat -> string, n: nat): seq<Piece>
    requires n <= |atts|
  {
    if n == 0 then []
    else PiecesTo(atts, numbered, n - 1) + if atts[n - 1].text == "" then [] else [Piece(SourceName(atts, numbered, n - 1), atts[n - 1].text)]
  }

  lemma TextsJoin(a: seq<Piece>, b: seq<Piece>)
    ensures Texts(a + b) == Texts(a) + Texts(b)
  {
  }

  lemma {:induction false} PiecesAreTexts(atts: seq<Attachment>, numbered: nat -> string, n: nat)
    requires n <= |atts|
    ensures Texts(PiecesTo(atts, numbered, n)) == AttachmentTexts(atts[..n]) && |PiecesTo(atts, numbered, n)| == WithText(atts, n)
  {
    if n > 0 {
      PiecesAreTexts(atts, numbered, n - 1);
      TextsOneMore(atts, n - 1);
      if atts[n - 1].text == "" {
        assert PiecesTo(atts, numbered, n) == PiecesTo(atts, numbered, n - 1);
      } else {
        var last := [Piece(SourceName(atts, numbered, n - 1), atts[n - 1].text)];
        TextsJoin(PiecesTo(atts, numbered, n - 1), last);
        assert Texts(last) == [atts[n - 1].text];
      }
    }
  }

  /** The piece of an attachment stands after those of the attachments with text before it. */
  lemma {:induction false} PieceInPlace(atts: seq<Attachment>, numbered: nat -> string, n: nat, i: nat)
    requires i < n <= |atts| && atts[i].text != ""
    ensures WithText(atts, i) < |PiecesTo(atts, numbered, n)|
    ensures PiecesTo(atts, numbered, n)[WithText(atts, i)] == Piece(SourceName(atts, numbered, i), atts[i].text)
  {
    PiecesAreTexts(atts, numbered, n - 1);
    if i < n - 1 {
      PieceInPlace(atts, numbered, n - 1, i);
    }
  }

  function PiecesInScope(c: Content, s: Scope, numbered: nat -> string): seq<Piece>
  {
    (if s.Attachments? then [] else [Piece("body", c.body)]) + (if s.Body? then [] else PiecesTo(c.atts, numbered, |c.atts|))
  }

  lemma PiecesAreScope(c: Content, s: Scope, numbered: nat -> string)
    ensures Texts(PiecesInScope(c, s, numbered)) == TextsInScope(c, s)
  {
    var body, atts := if s.Attachments? then [] else [Piece("body", c.body)], if s.Body? then [] else PiecesTo(c.atts, numbered, |c.atts|);
    assert c.atts[..|c.atts|] == c.atts;
    PiecesAreTexts(c.atts, numbered, |c.atts|);
    TextsJoin(body, atts);
    assert Texts([Piece("body", c.body)]) == [c.body];
  }

  /** The pieces of a scope, each under its source; numbered names an attachment without a filename. */
  method CollectPieces(c: Content, s: Scope, numbered: nat -> string) returns (ps: seq<Piece>)
    ensures ps == PiecesInScope(c, s, numbered)
  {
    ps := [];
    if s.Body? || s.All? {
      ps := [Piece("body", c.body)];
    }
    ghost var base := ps;
    if s.Attachments? || s.All? {
      for i := 0 to |c.atts|
        invariant ps == base + PiecesTo(c.atts, numbered, i)
      {
        var a := c.atts[i];
        if a.text == "" {
          continue;
        }
        ps := ps + [Piece(if a.name == "" then numbered(i + 1) else a.name, a.text)];
      }
    }
  }

  /** One line break lies between the two. */
  predicate Adjacent(text: string, a: Segment, b: Segment)
  {
    0 <= a.end < |text| && text[a.end] == '\n' && b.start == a.end + 1
  }

  /** Segments in order, one per piece, touching except for one line break between neighbours. */
  ghost predicate Partition(text: string, segs: seq<Segment>)
  {
    && (forall k :: 0 <= k < |segs| ==> 0 <= segs[k].start <= segs[k].end <= |text|)
    && (segs != [] ==> segs[0].start == 0 && segs[|segs| - 1].end == |text|)
    && (forall j, k :: 0 <= j < k < |segs| && k == j + 1 ==> Adjacent(text, segs[j], segs[k]))
  }

  lemma PartitionGrows(text: string, segs: seq<Segment>, source: string, piece: string)
    requires segs != [] && Partition(text, segs)
    ensures Partition(text + "\n" + piece, segs + [Segment(source, |text| + 1, |text| + 1 + |piece|)])
  {
    var t, s := text + "\n" + piece, segs + [Segment(source, |text| + 1, |text| + 1 + |piece|)];
    forall j, k | 0 <= j < k < |s| && k == j + 1
      ensures Adjacent(t, s[j], s[k])
    {
      if k < |segs| {
        assert Adjacent(text, segs[j], segs[k]);
        assert t[segs[j].end] == text[segs[j].end];
      }
    }
  }

  /** The segments cut the text into exactly the stripped forms of the first texts. */
  ghost predicate Cuts(ign: Ignorable, text: string, segs: seq<Segment>, texts: seq<string>)
  {
    && |segs| <= |texts| && Partition(text, segs)
    && forall k :: 0 <= k < |segs| ==> text[segs[k].start..segs[k].end] == Stripped(ign, texts[k])
  }

  lemma CutsFirst(ign: Ignorable, texts: seq<string>, source: string)
    requires texts != []
    ensures var piece := Stripped(ign, texts[0]); Cuts(ign, piece, [Segment(source, 0, |piece|)], texts)
  {
    assert Stripped(ign, texts[0])[0..|Stripped(ign, texts[0])|] == Stripped(ign, texts[0]);
  }

  lemma SliceOfLonger(text: string, more: string, a: nat, b: nat)
    requires a <= b <= |text|
    ensures (text + more)[a..b] == text[a..b]
  {
  }

  lemma CutsNext(ign: Ignorable, text: string, segs: seq<Segment>, texts: seq<string>, source: string)
    requires segs != [] && |segs| < |texts| && Cuts(ign, text, segs, texts)
    ensures var piece := Stripped(ign, texts[|segs|]);
            Cuts(ign, text + "\n" + piece, segs + [Segment(source, |text| + 1, |text| + 1 + |piece|)], texts)
  {
    var piece := Stripped(ign, texts[|segs|]);
    var more := segs + [Segment(source, |text| + 1, |text| + 1 + |piece|)];
    PartitionGrows(text, segs, source, piece);
    assert text + "\n" + piece == text + ("\n" + piece);
    forall k | 0 <= k < |more|
      ensures (text + "\n" + piece)[more[k].start..more[k].end] == Stripped(ign, texts[k])
    {
      if k < |segs| {
        SliceOfLonger(text, "\n" + piece, segs[k].start, segs[k].end);
      }
    }
  }

  lemma StrippedNext(ign: Ignorable, texts: seq<string>, i: nat)
    requires !ign('\n') && 0 < i < |texts|
    ensures Stripped(ign, JoinedTo(texts, i + 1)) == Stripped(ign, JoinedTo(texts, i)) + "\n" + Stripped(ign, texts[i])
  {
    StrippedJoins(ign, JoinedTo(texts, i) + "\n", texts[i]);
    StrippedJoins(ign, JoinedTo(texts, i), "\n");
    assert Stripped(ign, "\n") == "\n";
  }

  /** What the loop has written for the first i pieces. */
  ghost predicate Written(ign: Ignorable, texts: seq<string>, i: nat, text: string, segs: seq<Segment>)
    requires i <= |texts|
  {
    |segs| == i && text == Stripped(ign, JoinedTo(texts, i)) && Cuts(ign, text, segs, texts)
  }

  lemma WrittenFirst(ign: Ignorable, texts: seq<string>, source: string)
    requires texts != []
    ensures var piece := Stripped(ign, texts[0]); Written(ign, texts, 1, piece, [Segment(source, 0, |piece|)])
  {
    CutsFirst(ign, texts, source);
  }

  lemma WrittenNext(ign: Ignorable, texts: seq<string>, i: nat, text: string, segs: seq<Segment>, source: string)
    requires !ign('\n') && 0 < i < |texts| && Written(ign, texts, i, text, segs)
    ensures var piece := Stripped(ign, texts[i]);
            Written(ign, texts, i + 1, text + "\n" + piece, segs + [Segment(source, |text| + 1, |text| + 1 + |piece|)])
  {
    CutsNext(ign, text, segs, texts, source);
    StrippedNext(ign, texts, i);
  }

  ghost predicate SameSources(segs: seq<Segment>, ps: seq<Piece>)
  {
    |segs| <= |ps| && forall k :: 0 <= k < |segs| ==> segs[k].source == ps[k].source
  }

  method JoinPieces(ign: Ignorable, ps: seq<Piece>) returns (text: string, segs: seq<Segment>)
    requires !ign('\n')
    ensures Written(ign, Texts(ps), |ps|, text, segs) && SameSources(segs, ps)
  {
    text, segs := "", [];
    ghost var texts := Texts(ps);
    for i := 0 to |ps|
      invariant i == 0 ==> text == "" && segs == []
      invariant Written(ign, texts, i, text, segs) && SameSources(segs, ps)
    {
      var piece := Stripped(ign, ps[i].text);
      ghost var before := segs;
      if i > 0 {
        WrittenNext(ign, texts, i, text, segs, ps[i].source);
        text := text + "\n";
      } else {
        WrittenFirst(ign, texts, ps[0].source);
      }
      var start := |text|;
      text := text + piece;
      segs := segs + [Segment(ps[i].source, start, |text|)];
      SourceNext(before, ps, segs[i]);
    }
  }

  lemma SourceNext(segs: seq<Segment>, ps: seq<Piece>, seg: Segment)
    requires SameSources(segs, ps) && |segs| < |ps| && seg.source == ps[|segs|].source
    ensures SameSources(segs + [seg], ps)
  {
  }

  /** Segment k is a source's: its name, and its text stripped. */
  predicate SegmentOf(ign: Ignorable, text: string, segs: seq<Segment>, k: nat, source: string, of: string)
  {
    && k < |segs| && 0 <= segs[k].start <= segs[k].end <= |text|
    && segs[k].source == source && text[segs[k].start..segs[k].end] == Stripped(ign, of)
  }

  /** The body, if in scope, and each attachment with text, in order, each under its own name or number. */
  ghost predicate SegmentsOf(ign: Ignorable, c: Content, s: Scope, numbered: nat -> string, text: string, segs: seq<Segment>)
  {
    && (s.Body? || s.All? ==> SegmentOf(ign, text, segs, 0, "body", c.body))
    && (s.Attachments? || s.All? ==>
          forall i :: 0 <= i < |c.atts| && c.atts[i].text != "" ==>
            SegmentOf(ign, text, segs, (if s.All? then 1 else 0) + WithText(c.atts, i),
                      SourceName(c.atts, numbered, i), c.atts[i].text))
    && |segs| == (if s.Body? || s.All? then 1 else 0) + (if s.Attachments? || s.All? then WithText(c.atts, |c.atts|) else 0)
  }

  lemma PieceIsSegment(ign: Ignorable, ps: seq<Piece>, text: string, segs: seq<Segment>, k: nat)
    requires k < |ps| && Written(ign, Texts(ps), |ps|, text, segs) && SameSources(segs, ps)
    ensures SegmentOf(ign, text, segs, k, ps[k].source, ps[k].text)
  {
    assert Texts(ps)[k] == ps[k].text;
  }

  lemma AttachmentIsSegment(ign: Ignorable, c: Content, s: Scope, numbered: nat -> string, text: string, segs: seq<Segment>, i: nat)
    requires var ps := PiecesInScope(c, s, numbered); Written(ign, Texts(ps), |ps|, text, segs) && SameSources(segs, ps)
    requires !s.Body? && i < |c.atts| && c.atts[i].text != ""
    ensures SegmentOf(ign, text, segs, (if s.All? then 1 else 0) + WithText(c.atts, i), SourceName(c.atts, numbered, i), c.atts[i].text)
  {
    var ps, k := PiecesInScope(c, s, numbered), (if s.All? then 1 else 0) + WithText(c.atts, i);
    PieceInPlace(c.atts, numbered, |c.atts|, i);
    assert ps[k] == PiecesTo(c.atts, numbered, |c.atts|)[WithText(c.atts, i)];
    PieceIsSegment(ign, ps, text, segs, k);
  }

  lemma BodyIsSegment(ign: Ignorable, c: Content, s: Scope, numbered: nat -> string, text: string, segs: seq<Segment>)
    requires var ps := PiecesInScope(c, s, numbered); Written(ign, Texts(ps), |ps|, text, segs) && SameSources(segs, ps)
    requires !s.Attachments?
    ensures SegmentOf(ign, text, segs, 0, "body", c.body)
  {
    var ps := PiecesInScope(c, s, numbered);
    assert ps[0] == Piece("body", c.body);
    PieceIsSegment(ign, ps, text, segs, 0);
  }

  lemma PiecesAreSegments(ign: Ignorable, c: Content, s: Scope, numbered: nat -> string, text: string, segs: seq<Segment>)
    requires var ps := PiecesInScope(c, s, numbered); Written(ign, Texts(ps), |ps|, text, segs) && SameSources(segs, ps)
    ensures SegmentsOf(ign, c, s, numbered, text, segs)
  {
    PiecesAreTexts(c.atts, numbered, |c.atts|);
    if !s.Attachments? {
      BodyIsSegment(ign, c, s, numbered, text, segs);
    }
    if !s.Body? {
      forall i | 0 <= i < |c.atts| && c.atts[i].text != ""
        ensures SegmentOf(ign, text, segs, (if s.All? then 1 else 0) + WithText(c.atts, i), SourceName(c.atts, numbered, i), c.atts[i].text)
      {
        AttachmentIsSegment(ign, c, s, numbered, text, segs, i);
      }
    }
  }

  /** The scoped text is what detection reads, stripped; the segments cut it into the stripped texts of the scope, one each, under their sources. */
  method ScopedSegments(ign: Ignorable, c: Content, s: Scope, numbered: nat -> string) returns (text: string, segs: seq<Segment>)
    requires !ign('\n')
    ensures text == Stripped(ign, Joined(TextsInScope(c, s)))
    ensures |segs| == |TextsInScope(c, s)| && Cuts(ign, text, segs, TextsInScope(c, s))
    ensures SegmentsOf(ign, c, s, numbered, text, segs)
  {
    var ps := CollectPieces(c, s, numbered);
    text, segs := JoinPieces(ign, ps);
    PiecesAreScope(c, s, numbered);
    PiecesAreSegments(ign, c, s, numbered, text, segs);
  }
}
