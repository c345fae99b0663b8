/**
Bounded text extraction (internal/mailtext/mailtext.go) over a parsed MIME tree. Parsing, transfer
and charset decoding and HTML flattening are outside: a part's body is what its decoder yields, and
flatten is the HTML-to-text step.
*/
module MailText {
  /** What a part body yields: its decoded text, then an error or not; early says the error comes with the last bytes. */
  datatype Body = Body(text: string, fails: bool, early: bool)

  datatype Kind = PlainBody | HtmlBody | Binary | TextAttachment | HtmlAttachment

  /** Parts in order, and whether the part stream ends in a structural error rather than the closing boundary. */
  datatype Entity =
    | Multi(parts: seq<Part>, broken: bool)
    | Leaf(kind: Kind, name: string, body: Body)
    | Rfc822(name: string, body: Body, whole: Parsed, cut: Parsed)

  /** soft marks a part that came with a decode warning. */
  datatype Part = Part(entity: Entity, soft: bool)

  /** An embedded message, as parsed from all of its text or from the part of it within the cap. */
  datatype Parsed = Unparsable | Parsed(entity: Entity, soft: bool)

  datatype Attachment = Attachment(name: string, size: nat, text: string, extracted: bool)

  datatype Limits = Limits(maxPartText: nat, maxTotalText: nat, maxParts: nat, maxDepth: nat, maxAttachmentBytes: nat)

  datatype State = State(parts: nat, totalText: nat, truncated: bool, undecodable: bool, bodyParts: seq<string>, atts: seq<Attachment>)

  datatype Read = Read(text: string, capped: bool, failed: bool)

  /** At most limit of the body, with the cap hit and the failure told apart. */
  function ReadCapped(b: Body, limit: nat): Read
  {
    var got := if |b.text| <= limit + 1 then b.text else b.text[..limit + 1];
    var failed := b.fails && (|b.text| <= limit || (|b.text| == limit + 1 && b.early));
    Read(if |got| <= limit then got else got[..limit], |got| > limit, failed)
  }

  function Flagged(st: State, r: Read): State
  {
    st.(truncated := st.truncated || r.capped, undecodable := st.undecodable || r.failed)
  }

  /** The text within the remaining budget, and the state that has spent it. */
  function Budget(lim: Limits, st: State, text: string): (State, string)
  {
    if st.totalText >= lim.maxTotalText then (st.(truncated := st.truncated || text != ""), "")
    else
      var remaining := lim.maxTotalText - st.totalText;
      var kept := if |text| > remaining then text[..remaining] else text;
      (st.(totalText := st.totalText + |kept|, truncated := st.truncated || |text| > remaining), kept)
  }

  function TextOf(flatten: string -> string, kind: Kind, raw: string): string
  {
    if kind.HtmlBody? || kind.HtmlAttachment? then flatten(raw) else raw
  }

  function WalkLeaf(flatten: string -> string, lim: Limits, st: State, kind: Kind, name: string, b: Body): State
  {
    match kind
    case Binary =>
      var r := ReadCapped(b, lim.maxAttachmentBytes);
      var st' := Flagged(st, r);
      st'.(atts := st'.atts + [Attachment(name, |r.text|, "", false)])
    case PlainBody | HtmlBody =>
      var r := ReadCapped(b, lim.maxPartText);
      var (st', kept) := Budget(lim, Flagged(st, r), TextOf(flatten, kind, r.text));
      if kept == "" then st' else st'.(bodyParts := st'.bodyParts + [kept])
    case TextAttachment | HtmlAttachment =>
      var r := ReadCapped(b, lim.maxPartText);
      var (st', kept) := Budget(lim, Flagged(st, r), TextOf(flatten, kind, r.text));
      st'.(atts := st'.atts + [Attachment(name, |r.text|, kept, true)])
  }

  function Counted(st: State): State
  {
    st.(parts := st.parts + 1)
  }

  /** An attached message as it is recorded before it is descended into. */
  function Recorded(lim: Limits, st: State, name: string, body: Body): State
  {
    var r := ReadCapped(body, lim.maxPartText);
    var st' := Flagged(st.(parts := st.parts + 1), r);
    st'.(atts := st'.atts + [Attachment(name, |r.text|, "", false)])
  }

  function Walk(flatten: string -> string, lim: Limits, st: State, ent: Entity, depth: nat): State
    decreases ent
  {
    if depth > lim.maxDepth then st.(truncated := true)
    else match ent
      case Multi(parts, broken) =>
        var st' := WalkParts(flatten, lim, st, ent, |parts|, depth);
        st'.(undecodable := st'.undecodable || broken)
      case Leaf(kind, name, body) =>
        if st.parts + 1 > lim.maxParts then st.(parts := st.parts + 1, truncated := true)
        else WalkLeaf(flatten, lim, Counted(st), kind, name, body)
      case Rfc822(name, body, whole, cut) =>
        if st.parts + 1 > lim.maxParts then st.(parts := st.parts + 1, truncated := true)
        else
          var r, seen := ReadCapped(body, lim.maxPartText), Recorded(lim, st, name, body);
          match if r.capped then cut else whole
          case Unparsable => seen.(undecodable := true)
          case Parsed(nested, soft) => Walk(flatten, lim, seen.(undecodable := seen.undecodable || soft), nested, depth + 1)
  }

  /** The first k parts of a multipart. */
  function WalkParts(flatten: string -> string, lim: Limits, st: State, ent: Entity, k: nat, depth: nat): State
    requires ent.Multi? && k <= |ent.parts|
    decreases ent, k
  {
    if k == 0 then st
    else
      var st' := WalkParts(flatten, lim, st, ent, k - 1, depth);
      Walk(flatten, lim, st'.(undecodable := st'.undecodable || ent.parts[k - 1].soft), ent.parts[k - 1].entity, depth + 1)
  }

  // ---- The walk without limits ----

  /** What an unlimited reader finds in a tree; clean says everything decoded and parsed. */
  datatype Whole = Whole(leaves: nat, height: nat, size: nat, longestText: nat, longestBinary: nat, clean: bool,
                         bodies: seq<string>, atts: seq<Attachment>)

  function Max(a: nat, b: nat): nat
  {
    if a > b then a else b
  }

  const Empty := Whole(0, 0, 0, 0, 0, true, [], [])

  function Beside(a: Whole, b: Whole): Whole
  {
    Whole(a.leaves + b.leaves, Max(a.height, b.height), a.size + b.size, Max(a.longestText, b.longestText),
          Max(a.longestBinary, b.longestBinary), a.clean && b.clean, a.bodies + b.bodies, a.atts + b.atts)
  }

  function WholeLeaf(flatten: string -> string, kind: Kind, name: string, b: Body): Whole
  {
    var text := match kind case HtmlBody | HtmlAttachment => flatten(b.text) case _ => b.text;
    match kind
    case Binary => Whole(1, 0, 0, 0, |b.text|, !b.fails, [], [Attachment(name, |b.text|, "", false)])
    case PlainBody | HtmlBody => Whole(1, 0, |text|, |b.text|, 0, !b.fails, if text == "" then [] else [text], [])
    case TextAttachment | HtmlAttachment => Whole(1, 0, |text|, |b.text|, 0, !b.fails, [], [Attachment(name, |b.text|, text, true)])
  }

  function WholeOf(flatten: string -> string, ent: Entity): Whole
    decreases ent
  {
    match ent
    case Multi(parts, broken) =>
      var w := WholeParts(flatten, ent, |parts|);
      w.(clean := w.clean && !broken)
    case Leaf(kind, name, body) => WholeLeaf(flatten, kind, name, body)
    case Rfc822(name, body, whole, _) =>
      var part := Whole(1, 0, 0, |body.text|, 0, !body.fails, [], [Attachment(name, |body.text|, "", false)]);
      match whole
      case Unparsable => part.(clean := false)
      case Parsed(nested, soft) =>
        var inner := WholeOf(flatten, nested);
        Beside(part, inner.(height := inner.height + 1, clean := inner.clean && !soft))
  }

  function WholeParts(flatten: string -> string, ent: Entity, k: nat): Whole
    requires ent.Multi? && k <= |ent.parts|
    decreases ent, k
  {
    if k == 0 then Empty
    else
      var inner := WholeOf(flatten, ent.parts[k - 1].entity);
      Beside(WholeParts(flatten, ent, k - 1), inner.(height := inner.height + 1, clean := inner.clean && !ent.parts[k - 1].soft))
  }

  // ---- The bounded walk against it ----

  predicate Clear(st: State)
  {
    !st.truncated && !st.undecodable
  }

  /** The tree is clean and inside every limit, from this state at this depth. */
  predicate Fits(lim: Limits, st: State, w: Whole, depth: nat)
  {
    && w.clean && depth + w.height <= lim.maxDepth
    && (w.leaves > 0 ==> st.parts + w.leaves <= lim.maxParts)
    && (w.size > 0 ==> st.totalText + w.size <= lim.maxTotalText)
    && w.longestText <= lim.maxPartText && w.longestBinary <= lim.maxAttachmentBytes
  }

  function Extended(st: State, w: Whole): State
  {
    State(st.parts + w.leaves, st.totalText + w.size, st.truncated, st.undecodable, st.bodyParts + w.bodies, st.atts + w.atts)
  }

  function BodyLength(bodies: seq<string>, k: nat): nat
    requires k <= |bodies|
  {
    if k == 0 then 0 else BodyLength(bodies, k - 1) + |bodies[k - 1]|
  }

  function AttachmentLength(atts: seq<Attachment>, k: nat): nat
    requires k <= |atts|
  {
    if k == 0 then 0 else AttachmentLength(atts, k - 1) + |atts[k - 1].text|
  }

  /** All the text an extraction holds, separators aside. */
  function Kept(bodies: seq<string>, atts: seq<Attachment>): nat
  {
    BodyLength(bodies, |bodies|) + AttachmentLength(atts, |atts|)
  }

  /** The text kept is what was counted against the budget. */
  predicate Balanced(bodies: seq<string>, atts: seq<Attachment>, total: nat)
  {
    Kept(bodies, atts) == total
  }

  /** Flags only ever rise. */
  predicate Onward(st: State, st': State)
  {
    (st.truncated ==> st'.truncated) && (st.undecodable ==> st'.undecodable)
  }

  lemma {:induction false} BodyLengthOfLonger(bodies: seq<string>, text: string, k: nat)
    requires k <= |bodies|
    ensures BodyLength(bodies + [text], k) == BodyLength(bodies, k)
  {
    if k > 0 {
      BodyLengthOfLonger(bodies, text, k - 1);
    }
  }

  lemma {:induction false} AttachmentLengthOfLonger(atts: seq<Attachment>, a: Attachment, k: nat)
    requires k <= |atts|
    ensures AttachmentLength(atts + [a], k) == AttachmentLength(atts, k)
  {
    if k > 0 {
      AttachmentLengthOfLonger(atts, a, k - 1);
    }
  }

  lemma BodyKeepsBalance(bodies: seq<string>, atts: seq<Attachment>, total: nat, text: string)
    requires Balanced(bodies, atts, total)
    ensures Balanced(bodies + [text], atts, total + |text|)
  {
    BodyLengthOfLonger(bodies, text, |bodies|);
  }

  lemma AttachmentKeepsBalance(bodies: seq<string>, atts: seq<Attachment>, total: nat, a: Attachment)
    requires Balanced(bodies, atts, total)
    ensures Balanced(bodies, atts + [a], total + |a.text|)
  {
    AttachmentLengthOfLonger(atts, a, |atts|);
  }

  predicate WithinBudget(lim: Limits, st: State)
  {
    Balanced(st.bodyParts, st.atts, st.totalText) && st.totalText <= lim.maxTotalText
  }

  lemma LeafKeepsBalance(flatten: string -> string, lim: Limits, st: State, kind: Kind, name: string, b: Body)
    requires WithinBudget(lim, st)
    ensures WithinBudget(lim, WalkLeaf(flatten, lim, st, kind, name, b))
  {
    var r := ReadCapped(b, if kind.Binary? then lim.maxAttachmentBytes else lim.maxPartText);
    var (spent, kept) := Budget(lim, Flagged(st, r), TextOf(flatten, kind, r.text));
    assert spent.totalText == st.totalText + |kept| <= lim.maxTotalText;
    match kind
    case Binary => AttachmentKeepsBalance(st.bodyParts, st.atts, st.totalText, Attachment(name, |r.text|, "", false));
    case PlainBody | HtmlBody => BodyKeepsBalance(st.bodyParts, st.atts, st.totalText, kept);
    case TextAttachment | HtmlAttachment =>
      AttachmentKeepsBalance(st.bodyParts, st.atts, st.totalText, Attachment(name, |r.text|, kept, true));
  }

  lemma RecordKeepsBalance(lim: Limits, st: State, name: string, body: Body)
    requires WithinBudget(lim, st)
    ensures WithinBudget(lim, Recorded(lim, st, name, body))
  {
    AttachmentKeepsBalance(st.bodyParts, st.atts, st.totalText, Attachment(name, |ReadCapped(body, lim.maxPartText).text|, "", false));
  }

  lemma FlagsKeepBalance(lim: Limits, st: State, parts: nat, truncated: bool, undecodable: bool)
    requires WithinBudget(lim, st)
    ensures WithinBudget(lim, st.(parts := parts, truncated := truncated, undecodable := undecodable))
  {
  }

  lemma StoppedKeepsBalance(flatten: string -> string, lim: Limits, st: State, ent: Entity, depth: nat)
    requires WithinBudget(lim, st) && (depth > lim.maxDepth || (!ent.Multi? && st.parts + 1 > lim.maxParts))
    ensures WithinBudget(lim, Walk(flatten, lim, st, ent, depth))
  {
    FlagsKeepBalance(lim, st, if depth > lim.maxDepth then st.parts else st.parts + 1, true, st.undecodable);
  }

  lemma LeafWalkKeepsBalance(flatten: string -> string, lim: Limits, st: State, ent: Entity, depth: nat)
    requires WithinBudget(lim, st) && ent.Leaf? && depth <= lim.maxDepth && st.parts + 1 <= lim.maxParts
    ensures WithinBudget(lim, Walk(flatten, lim, st, ent, depth))
  {
    var Leaf(kind, name, body) := ent;
    LeafKeepsBalance(flatten, lim, Counted(st), kind, name, body);
    assert Walk(flatten, lim, st, Leaf(kind, name, body), depth) == WalkLeaf(flatten, lim, Counted(st), kind, name, body);
  }

  lemma {:induction false} WalkKeepsBalance(flatten: string -> string, lim: Limits, st: State, ent: Entity, depth: nat)
    requires WithinBudget(lim, st)
    ensures WithinBudget(lim, Walk(flatten, lim, st, ent, depth))
    decreases ent
  {
    if depth > lim.maxDepth || (!ent.Multi? && st.parts + 1 > lim.maxParts) {
      StoppedKeepsBalance(flatten, lim, st, ent, depth);
    } else if ent.Multi? {
      MultiKeepsBalance(flatten, lim, st, ent, depth);
    } else if ent.Leaf? {
      LeafWalkKeepsBalance(flatten, lim, st, ent, depth);
    } else {
      NestedKeepsBalance(flatten, lim, st, ent, depth);
    }
  }

  lemma {:induction false} MultiKeepsBalance(flatten: string -> string, lim: Limits, st: State, ent: Entity, depth: nat)
    requires WithinBudget(lim, st) && ent.Multi? && depth <= lim.maxDepth
    ensures WithinBudget(lim, Walk(flatten, lim, st, ent, depth))
    decreases ent, |ent.parts| + 1
  {
    PartsKeepBalance(flatten, lim, st, ent, |ent.parts|, depth);
    var st' := WalkParts(flatten, lim, st, ent, |ent.parts|, depth);
    FlagsKeepBalance(lim, st', st'.parts, st'.truncated, st'.undecodable || ent.broken);
  }

  lemma {:induction false} NestedKeepsBalance(flatten: string -> string, lim: Limits, st: State, ent: Entity, depth: nat)
    requires WithinBudget(lim, st) && ent.Rfc822? && depth <= lim.maxDepth && st.parts + 1 <= lim.maxParts
    ensures WithinBudget(lim, Walk(flatten, lim, st, ent, depth))
    decreases ent, 0
  {
    RecordKeepsBalance(lim, st, ent.name, ent.body);
    var seen := Recorded(lim, st, ent.name, ent.body);
    var tree := if ReadCapped(ent.body, lim.maxPartText).capped then ent.cut else ent.whole;
    match tree
    case Unparsable => FlagsKeepBalance(lim, seen, seen.parts, seen.truncated, true);
    case Parsed(nested, soft) =>
      FlagsKeepBalance(lim, seen, seen.parts, seen.truncated, seen.undecodable || soft);
      WalkKeepsBalance(flatten, lim, seen.(undecodable := seen.undecodable || soft), nested, depth + 1);
  }

  lemma {:induction false} PartsKeepBalance(flatten: string -> string, lim: Limits, st: State, ent: Entity, k: nat, depth: nat)
    requires ent.Multi? && k <= |ent.parts| && WithinBudget(lim, st)
    ensures WithinBudget(lim, WalkParts(flatten, lim, st, ent, k, depth))
    decreases ent, k
  {
    if k > 0 {
      PartsKeepBalance(flatten, lim, st, ent, k - 1, depth);
      var st' := WalkParts(flatten, lim, st, ent, k - 1, depth);
      WalkKeepsBalance(flatten, lim, st'.(undecodable := st'.undecodable || ent.parts[k - 1].soft), ent.parts[k - 1].entity, depth + 1);
    }
  }

  lemma {:induction false} WalkGoesOn(flatten: string -> string, lim: Limits, st: State, ent: Entity, depth: nat)
    ensures Onward(st, Walk(flatten, lim, st, ent, depth))
    decreases ent
  {
    if depth <= lim.maxDepth {
      match ent
      case Multi(parts, _) => PartsGoOn(flatten, lim, st, ent, |parts|, depth);
      case Leaf(_, _, _) =>
      case Rfc822(name, body, whole, cut) =>
        if st.parts + 1 <= lim.maxParts {
          var r, seen := ReadCapped(body, lim.maxPartText), Recorded(lim, st, name, body);
          match if r.capped then cut else whole
          case Unparsable =>
          case Parsed(nested, soft) => WalkGoesOn(flatten, lim, seen.(undecodable := seen.undecodable || soft), nested, depth + 1);
        }
    }
  }

  lemma {:induction false} PartsGoOn(flatten: string -> string, lim: Limits, st: State, ent: Entity, k: nat, depth: nat)
    requires ent.Multi? && k <= |ent.parts|
    ensures Onward(st, WalkParts(flatten, lim, st, ent, k, depth))
    decreases ent, k
  {
    if k > 0 {
      PartsGoOn(flatten, lim, st, ent, k - 1, depth);
      var st' := WalkParts(flatten, lim, st, ent, k - 1, depth);
      WalkGoesOn(flatten, lim, st'.(undecodable := st'.undecodable || ent.parts[k - 1].soft), ent.parts[k - 1].entity, depth + 1);
    }
  }

  lemma LeafExact(flatten: string -> string, lim: Limits, st: State, kind: Kind, name: string, b: Body)
    requires Clear(st)
    ensures var after, w := WalkLeaf(flatten, lim, st, kind, name, b), WholeLeaf(flatten, kind, name, b);
            && (Clear(after) <==> w.clean && (w.size > 0 ==> st.totalText + w.size <= lim.maxTotalText)
                                  && w.longestText <= lim.maxPartText && w.longestBinary <= lim.maxAttachmentBytes)
            && (Clear(after) ==> after == Extended(st, w).(parts := st.parts))
  {
    var w := WholeLeaf(flatten, kind, name, b);
    assert Extended(st, w).atts == st.atts + w.atts && st.bodyParts + [] == st.bodyParts && st.atts + [] == st.atts;
  }

  /** The flags stay clear exactly when the whole tree fits, and then the walk has read all of it. */
  lemma {:induction false} WalkExact(flatten: string -> string, lim: Limits, st: State, ent: Entity, depth: nat)
    requires Clear(st)
    ensures var after, w := Walk(flatten, lim, st, ent, depth), WholeOf(flatten, ent);
            && (Clear(after) <==> Fits(lim, st, w, depth))
            && (Clear(after) ==> after == Extended(st, w))
    decreases ent
  {
    if depth <= lim.maxDepth {
      match ent
      case Multi(parts, _) => PartsExact(flatten, lim, st, ent, |parts|, depth);
      case Leaf(kind, name, body) =>
        if st.parts + 1 <= lim.maxParts {
          LeafExact(flatten, lim, Counted(st), kind, name, body);
        }
      case Rfc822(name, body, whole, cut) => NestedExact(flatten, lim, st, ent, depth);
    }
  }

  lemma {:induction false} NestedExact(flatten: string -> string, lim: Limits, st: State, ent: Entity, depth: nat)
    requires Clear(st) && ent.Rfc822? && depth <= lim.maxDepth
    ensures var after, w := Walk(flatten, lim, st, ent, depth), WholeOf(flatten, ent);
            && (Clear(after) <==> Fits(lim, st, w, depth))
            && (Clear(after) ==> after == Extended(st, w))
    decreases ent, 0
  {
    if st.parts + 1 <= lim.maxParts {
      var Rfc822(name, body, whole, cut) := ent;
      var r, seen := ReadCapped(body, lim.maxPartText), Recorded(lim, st, name, body);
      var tree := if r.capped then cut else whole;
      if tree.Parsed? {
        var into := seen.(undecodable := seen.undecodable || tree.soft);
        if Clear(into) {
          WalkExact(flatten, lim, into, tree.entity, depth + 1);
          var inner := WholeOf(flatten, tree.entity);
          assert st.atts + ([Attachment(name, |r.text|, "", false)] + inner.atts) == seen.atts + inner.atts;
          assert st.bodyParts + ([] + inner.bodies) == st.bodyParts + inner.bodies;
        } else {
          WalkGoesOn(flatten, lim, into, tree.entity, depth + 1);
        }
      }
    }
  }

  function Deeper(w: Whole, soft: bool): Whole
  {
    w.(height := w.height + 1, clean := w.clean && !soft)
  }

  lemma FitsBeside(lim: Limits, st: State, w: Whole, inner: Whole, soft: bool, depth: nat)
    requires depth <= lim.maxDepth
    ensures Fits(lim, st, Beside(w, Deeper(inner, soft)), depth)
       <==> Fits(lim, st, w, depth) && !soft && Fits(lim, Extended(st, w), inner, depth + 1)
  {
  }

  lemma ExtendedTwice(st: State, w: Whole, inner: Whole, soft: bool)
    ensures Extended(Extended(st, w), inner) == Extended(st, Beside(w, Deeper(inner, soft)))
  {
    assert st.bodyParts + (w.bodies + inner.bodies) == (st.bodyParts + w.bodies) + inner.bodies;
    assert st.atts + (w.atts + inner.atts) == (st.atts + w.atts) + inner.atts;
  }

  lemma {:induction false} PartsExact(flatten: string -> string, lim: Limits, st: State, ent: Entity, k: nat, depth: nat)
    requires Clear(st) && ent.Multi? && k <= |ent.parts| && depth <= lim.maxDepth
    ensures var after, w := WalkParts(flatten, lim, st, ent, k, depth), WholeParts(flatten, ent, k);
            && (Clear(after) <==> Fits(lim, st, w, depth))
            && (Clear(after) ==> after == Extended(st, w))
    decreases ent, k
  {
    if k == 0 {
      assert st.bodyParts + [] == st.bodyParts && st.atts + [] == st.atts;
    } else {
      PartsExact(flatten, lim, st, ent, k - 1, depth);
      var before, p := WalkParts(flatten, lim, st, ent, k - 1, depth), ent.parts[k - 1];
      var into := before.(undecodable := before.undecodable || p.soft);
      var w, inner := WholeParts(flatten, ent, k - 1), WholeOf(flatten, p.entity);
      FitsBeside(lim, st, w, inner, p.soft, depth);
      ExtendedTwice(st, w, inner, p.soft);
      assert WholeParts(flatten, ent, k) == Beside(w, Deeper(inner, p.soft));
      if Clear(into) {
        WalkExact(flatten, lim, into, p.entity, depth + 1);
      } else {
        WalkGoesOn(flatten, lim, into, p.entity, depth + 1);
      }
    }
  }

  const Nothing := State(0, 0, false, false, [], [])

  /** The walk of a parsed message from its root; soft is a decode warning on the message itself. */
  function Extraction(flatten: string -> string, lim: Limits, ent: Entity, soft: bool): State
  {
    Walk(flatten, lim, Nothing.(undecodable := soft), ent, 0)
  }

  /**
  Neither flag is set exactly when the message decoded cleanly and is inside every limit; the bounded
  extraction is then the unlimited one, nested messages included. With either flag, still no more
  text is kept than the total allows.
  */
  lemma UnflaggedIsWhole(flatten: string -> string, lim: Limits, ent: Entity, soft: bool)
    ensures var st, w := Extraction(flatten, lim, ent, soft), WholeOf(flatten, ent);
            && (Clear(st) <==> !soft && Fits(lim, Nothing, w, 0))
            && (Clear(st) ==> st.bodyParts == w.bodies && st.atts == w.atts)
            && Kept(st.bodyParts, st.atts) <= lim.maxTotalText
  {
    WalkKeepsBalance(flatten, lim, Nothing.(undecodable := soft), ent, 0);
    if soft {
      WalkGoesOn(flatten, lim, Nothing.(undecodable := soft), ent, 0);
    } else {
      WalkExact(flatten, lim, Nothing, ent, 0);
    }
  }
}
