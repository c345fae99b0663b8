/**
What sets each of the two flags of an extraction (internal/mailtext/mailtext.go): a cap that cuts the
message short, or text that would not decode. The screener treats them differently, so each has its
own exact condition, over what the walk meets in turn.
*/
module MailFlags {
  import opened MailText

  /**
  What the walk meets: a tree below the depth cap, a part past the part cap, a body of which at most
  limit is read and whose text is offered to the total, or something that does not decode or parse.
  */
  datatype Event = TooDeep | TooMany | Opened(body: Body, limit: nat, text: string) | Unreadable

  /** The body's error comes before the reader has had its fill. */
  predicate FailsWithin(b: Body, limit: nat)
  {
    b.fails && (|b.text| <= limit || (|b.text| == limit + 1 && b.early))
  }

  predicate IsCut(e: Event)
  {
    e.TooDeep? || e.TooMany? || (e.Opened? && |e.body.text| > e.limit)
  }

  predicate IsTrouble(e: Event)
  {
    e.Unreadable? || (e.Opened? && FailsWithin(e.body, e.limit))
  }

  predicate AnyCut(es: seq<Event>)
  {
    exists i :: 0 <= i < |es| && IsCut(es[i])
  }

  predicate AnyTrouble(es: seq<Event>)
  {
    exists i :: 0 <= i < |es| && IsTrouble(es[i])
  }

  /** The parts counted against the part cap. */
  function Counted(es: seq<Event>): nat
  {
    if es == [] then 0 else Counted(es[..|es| - 1]) + if es[|es| - 1].TooMany? || es[|es| - 1].Opened? then 1 else 0
  }

  /** The text offered to the total, cut or not. */
  function Offered(es: seq<Event>): nat
  {
    if es == [] then 0 else Offered(es[..|es| - 1]) + if es[|es| - 1].Opened? then |es[|es| - 1].text| else 0
  }

  function Cuts(es: seq<Event>): nat
  {
    if es == [] then 0 else Cuts(es[..|es| - 1]) + if IsCut(es[|es| - 1]) then 1 else 0
  }

  function Troubles(es: seq<Event>): nat
  {
    if es == [] then 0 else Troubles(es[..|es| - 1]) + if IsTrouble(es[|es| - 1]) then 1 else 0
  }

  function When(b: bool): seq<Event>
  {
    if b then [Unreadable] else []
  }

  function CutText(text: string, limit: nat): string
  {
    if |text| <= limit then text else text[..limit]
  }

  function LeafEvent(flatten: string -> string, lim: Limits, kind: Kind, b: Body): Event
  {
    match kind
    case Binary => Opened(b, lim.maxAttachmentBytes, "")
    case PlainBody | TextAttachment => Opened(b, lim.maxPartText, CutText(b.text, lim.maxPartText))
    case HtmlBody | HtmlAttachment => Opened(b, lim.maxPartText, flatten(CutText(b.text, lim.maxPartText)))
  }

  /** What the walk meets in a tree at this depth when n parts were counted before it. */
  function Met(flatten: string -> string, lim: Limits, n: nat, ent: Entity, depth: nat): seq<Event>
    decreases ent
  {
    if depth > lim.maxDepth then [TooDeep]
    else match ent
      case Multi(parts, broken) => MetParts(flatten, lim, n, ent, |parts|, depth) + When(broken)
      case Leaf(kind, _, body) => if n >= lim.maxParts then [TooMany] else [LeafEvent(flatten, lim, kind, body)]
      case Rfc822(_, body, whole, cut) =>
        if n >= lim.maxParts then [TooMany]
        else
          [Opened(body, lim.maxPartText, "")] + TreeMet(flatten, lim, n + 1, if |body.text| > lim.maxPartText then cut else whole, depth)
  }

  /** What it meets in an attached message, as far as that parses. */
  function TreeMet(flatten: string -> string, lim: Limits, n: nat, tree: Parsed, depth: nat): seq<Event>
    decreases tree
  {
    match tree
    case Unparsable => [Unreadable]
    case Parsed(nested, soft) => When(soft) + Met(flatten, lim, n, nested, depth + 1)
  }

  function MetParts(flatten: string -> string, lim: Limits, n: nat, ent: Entity, k: nat, depth: nat): seq<Event>
    requires ent.Multi? && k <= |ent.parts|
    decreases ent, k
  {
    if k == 0 then []
    else
      var before := MetParts(flatten, lim, n, ent, k - 1, depth);
      before + PartMet(flatten, lim, n + Counted(before), ent.parts[k - 1], depth)
  }

  function PartMet(flatten: string -> string, lim: Limits, n: nat, p: Part, depth: nat): seq<Event>
    decreases p
  {
    When(p.soft) + Met(flatten, lim, n, p.entity, depth + 1)
  }

  // ---- The account of a walk ----

  /** From st to after these were met: the parts and the text counted, and each flag for its own reason. */
  predicate Account(lim: Limits, st: State, after: State, es: seq<Event>)
  {
    && after.parts == st.parts + Counted(es)
    && after.totalText == (if st.totalText + Offered(es) > lim.maxTotalText then lim.maxTotalText else st.totalText + Offered(es))
    && (after.truncated <==> st.truncated || Cuts(es) > 0 || st.totalText + Offered(es) > lim.maxTotalText)
    && (after.undecodable <==> st.undecodable || Troubles(es) > 0)
  }

  lemma {:induction false} JoinedCounts(a: seq<Event>, b: seq<Event>)
    ensures Counted(a + b) == Counted(a) + Counted(b) && Offered(a + b) == Offered(a) + Offered(b)
    ensures Cuts(a + b) == Cuts(a) + Cuts(b) && Troubles(a + b) == Troubles(a) + Troubles(b)
  {
    if b == [] {
      assert a + b == a;
    } else {
      JoinedCounts(a, b[..|b| - 1]);
      assert (a + b)[..|a + b| - 1] == a + b[..|b| - 1];
    }
  }

  lemma {:induction false} CountsShow(es: seq<Event>)
    ensures (Cuts(es) > 0 <==> AnyCut(es)) && (Troubles(es) > 0 <==> AnyTrouble(es))
  {
    if es != [] {
      var init, last := es[..|es| - 1], es[|es| - 1];
      CountsShow(init);
      assert forall i :: 0 <= i < |init| ==> init[i] == es[i];
      if IsCut(last) {
        assert IsCut(es[|es| - 1]);
      }
      if IsTrouble(last) {
        assert IsTrouble(es[|es| - 1]);
      }
    }
  }

  lemma AccountsJoin(lim: Limits, st: State, mid: State, after: State, a: seq<Event>, b: seq<Event>)
    requires st.totalText <= lim.maxTotalText && Account(lim, st, mid, a) && Account(lim, mid, after, b)
    ensures Account(lim, st, after, a + b) && mid.totalText <= lim.maxTotalText
  {
    JoinedCounts(a, b);
  }

  lemma NothingMet(lim: Limits, st: State)
    requires st.totalText <= lim.maxTotalText
    ensures Account(lim, st, st, [])
  {
  }

  lemma OneMet(e: Event)
    ensures Counted([e]) == (if e.TooMany? || e.Opened? then 1 else 0) && Offered([e]) == (if e.Opened? then |e.text| else 0)
    ensures Cuts([e]) == (if IsCut(e) then 1 else 0) && Troubles([e]) == (if IsTrouble(e) then 1 else 0)
  {
    assert [e][..0] == [] && [e][0] == e;
  }

  lemma WarningMet(lim: Limits, st: State, soft: bool)
    requires st.totalText <= lim.maxTotalText
    ensures Account(lim, st, st.(undecodable := st.undecodable || soft), When(soft))
  {
    OneMet(Unreadable);
  }

  lemma CapMet(lim: Limits, st: State, e: Event)
    requires st.totalText <= lim.maxTotalText && (e.TooDeep? || e.TooMany?)
    ensures Account(lim, st, st.(parts := if e.TooMany? then st.parts + 1 else st.parts, truncated := true), [e])
  {
    OneMet(e);
  }

  lemma ReadMeans(b: Body, limit: nat)
    ensures var r := ReadCapped(b, limit);
            r.text == CutText(b.text, limit) && (r.capped <==> |b.text| > limit) && (r.failed <==> FailsWithin(b, limit))
  {
  }

  lemma LeafMet(flatten: string -> string, lim: Limits, st: State, kind: Kind, name: string, b: Body)
    requires st.totalText <= lim.maxTotalText
    ensures Account(lim, st, WalkLeaf(flatten, lim, MailText.Counted(st), kind, name, b), [LeafEvent(flatten, lim, kind, b)])
  {
    OneMet(LeafEvent(flatten, lim, kind, b));
    ReadMeans(b, if kind.Binary? then lim.maxAttachmentBytes else lim.maxPartText);
  }

  lemma RecordMet(lim: Limits, st: State, name: string, body: Body)
    requires st.totalText <= lim.maxTotalText
    ensures Account(lim, st, Recorded(lim, st, name, body), [Opened(body, lim.maxPartText, "")])
    ensures ReadCapped(body, lim.maxPartText).capped <==> |body.text| > lim.maxPartText
  {
    OneMet(Opened(body, lim.maxPartText, ""));
  }

  /** The walk's counts and flags are those of what it meets. */
  lemma {:induction false} WalkAccounts(flatten: string -> string, lim: Limits, st: State, ent: Entity, depth: nat)
    requires st.totalText <= lim.maxTotalText
    ensures Account(lim, st, Walk(flatten, lim, st, ent, depth), Met(flatten, lim, st.parts, ent, depth))
    decreases ent
  {
    if depth > lim.maxDepth {
      CapMet(lim, st, TooDeep);
    } else {
      match ent
      case Multi(parts, broken) =>
        PartsAccount(flatten, lim, st, ent, |parts|, depth);
        var st' := WalkParts(flatten, lim, st, ent, |parts|, depth);
        WarningMet(lim, st', broken);
        AccountsJoin(lim, st, st', st'.(undecodable := st'.undecodable || broken), MetParts(flatten, lim, st.parts, ent, |parts|, depth), When(broken));
      case Leaf(kind, name, body) =>
        if st.parts + 1 > lim.maxParts {
          CapMet(lim, st, TooMany);
        } else {
          LeafMet(flatten, lim, st, kind, name, body);
        }
      case Rfc822(_, _, _, _) =>
        if st.parts + 1 > lim.maxParts {
          CapMet(lim, st, TooMany);
        } else {
          NestedAccounts(flatten, lim, st, ent, depth);
        }
    }
  }

  /** An attached message that has been recorded, and what its tree leaves. */
  function TreeWalked(flatten: string -> string, lim: Limits, seen: State, tree: Parsed, depth: nat): State
  {
    match tree
    case Unparsable => seen.(undecodable := true)
    case Parsed(nested, soft) => Walk(flatten, lim, seen.(undecodable := seen.undecodable || soft), nested, depth + 1)
  }

  lemma {:induction false} TreeAccounts(flatten: string -> string, lim: Limits, seen: State, tree: Parsed, depth: nat)
    requires seen.totalText <= lim.maxTotalText
    ensures Account(lim, seen, TreeWalked(flatten, lim, seen, tree, depth), TreeMet(flatten, lim, seen.parts, tree, depth))
    decreases tree
  {
    match tree
    case Unparsable => WarningMet(lim, seen, true);
    case Parsed(nested, soft) =>
      var into := seen.(undecodable := seen.undecodable || soft);
      WarningMet(lim, seen, soft);
      WalkAccounts(flatten, lim, into, nested, depth + 1);
      AccountsJoin(lim, seen, into, Walk(flatten, lim, into, nested, depth + 1), When(soft), Met(flatten, lim, seen.parts, nested, depth + 1));
  }

  lemma {:induction false} NestedAccounts(flatten: string -> string, lim: Limits, st: State, ent: Entity, depth: nat)
    requires st.totalText <= lim.maxTotalText && ent.Rfc822? && depth <= lim.maxDepth && st.parts + 1 <= lim.maxParts
    ensures Account(lim, st, Walk(flatten, lim, st, ent, depth), Met(flatten, lim, st.parts, ent, depth))
    decreases ent, 0
  {
    var Rfc822(name, body, whole, cut) := ent;
    var seen, first := Recorded(lim, st, name, body), [Opened(body, lim.maxPartText, "")];
    var tree := if |body.text| > lim.maxPartText then cut else whole;
    RecordMet(lim, st, name, body);
    TreeAccounts(flatten, lim, seen, tree, depth);
    AccountsJoin(lim, st, seen, TreeWalked(flatten, lim, seen, tree, depth), first, TreeMet(flatten, lim, seen.parts, tree, depth));
  }

  lemma {:induction false} PartAccounts(flatten: string -> string, lim: Limits, st: State, p: Part, depth: nat)
    requires st.totalText <= lim.maxTotalText
    ensures var after := Walk(flatten, lim, st.(undecodable := st.undecodable || p.soft), p.entity, depth + 1);
            Account(lim, st, after, PartMet(flatten, lim, st.parts, p, depth)) && after.totalText <= lim.maxTotalText
    decreases p
  {
    var into := st.(undecodable := st.undecodable || p.soft);
    WarningMet(lim, st, p.soft);
    WalkAccounts(flatten, lim, into, p.entity, depth + 1);
    AccountsJoin(lim, st, into, Walk(flatten, lim, into, p.entity, depth + 1), When(p.soft), Met(flatten, lim, st.parts, p.entity, depth + 1));
  }

  lemma {:induction false} PartsAccount(flatten: string -> string, lim: Limits, st: State, ent: Entity, k: nat, depth: nat)
    requires ent.Multi? && k <= |ent.parts| && st.totalText <= lim.maxTotalText
    ensures Account(lim, st, WalkParts(flatten, lim, st, ent, k, depth), MetParts(flatten, lim, st.parts, ent, k, depth))
    ensures WalkParts(flatten, lim, st, ent, k, depth).totalText <= lim.maxTotalText
    decreases ent, k
  {
    if k == 0 {
      NothingMet(lim, st);
    } else {
      PartsAccount(flatten, lim, st, ent, k - 1, depth);
      var mid, before := WalkParts(flatten, lim, st, ent, k - 1, depth), MetParts(flatten, lim, st.parts, ent, k - 1, depth);
      PartAccounts(flatten, lim, mid, ent.parts[k - 1], depth);
      AccountsJoin(lim, st, mid, WalkParts(flatten, lim, st, ent, k, depth), before, PartMet(flatten, lim, mid.parts, ent.parts[k - 1], depth));
    }
  }

  /**
  An extraction is truncated exactly when it met a tree below the depth cap, a part past the part cap
  or a body longer than its cap, or the text it met exceeds the total; and undecodable exactly when
  the message or something it met carries a decode warning, fails before its cap, breaks off or does not parse.
  */
  lemma FlagsExact(flatten: string -> string, lim: Limits, ent: Entity, soft: bool)
    ensures var st, es := Extraction(flatten, lim, ent, soft), Met(flatten, lim, 0, ent, 0);
            && (st.truncated <==> AnyCut(es) || Offered(es) > lim.maxTotalText)
            && (st.undecodable <==> soft || AnyTrouble(es))
  {
    WalkAccounts(flatten, lim, Nothing.(undecodable := soft), ent, 0);
    CountsShow(Met(flatten, lim, 0, ent, 0));
  }

  /** A single body longer than its cap only truncates; one that fails within it only does not decode. */
  lemma OneBodyFlags(flatten: string -> string, lim: Limits, name: string, b: Body)
    requires lim.maxParts >= 1 && lim.maxPartText <= lim.maxTotalText
    ensures var st := Extraction(flatten, lim, Leaf(PlainBody, name, b), false);
            (st.truncated <==> |b.text| > lim.maxPartText) && (st.undecodable <==> FailsWithin(b, lim.maxPartText))
  {
    FlagsExact(flatten, lim, Leaf(PlainBody, name, b), false);
    var e := LeafEvent(flatten, lim, PlainBody, b);
    OneMet(e);
    CountsShow([e]);
  }
}
