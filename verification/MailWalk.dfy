/**
The extraction as the code runs it (internal/mailtext/mailtext.go): a walk state updated part by
part while the tree is descended.
*/
module MailWalk {
  import opened MailText

  function Join(parts: seq<string>): string
  {
    if parts == [] then []
    else if |parts| == 1 then parts[0]
    else Join(parts[..|parts| - 1]) + "\n\n" + parts[|parts| - 1]
  }

  lemma JoinOneMore(parts: seq<string>, text: string)
    ensures Join(parts + [text]) == if parts == [] then text else Join(parts) + "\n\n" + text
  {
    assert (parts + [text])[..|parts|] == parts;
  }

  class WalkState {
    const flatten: string -> string
    const lim: Limits
    var parts: nat
    var totalText: nat
    var truncated: bool
    var undecodable: bool
    var body: string
    var bodyParts: seq<string>
    var atts: seq<Attachment>

    function Snapshot(): State
      reads this
    {
      State(parts, totalText, truncated, undecodable, bodyParts, atts)
    }

    /** The body is its parts, none of them empty, joined by blank lines. */
    ghost predicate Valid()
      reads this
    {
      body == Join(bodyParts) && (body == "" <==> bodyParts == [])
    }

    constructor (flatten: string -> string, lim: Limits)
      ensures Valid() && Snapshot() == Nothing && this.flatten == flatten && this.lim == lim
    {
      this.flatten, this.lim := flatten, lim;
      parts, totalText, truncated, undecodable := 0, 0, false, false;
      body, bodyParts, atts := "", [], [];
    }

    method Flag(r: Read)
      requires Valid()
      modifies this`truncated, this`undecodable
      ensures Valid() && Snapshot() == Flagged(old(Snapshot()), r)
    {
      if r.capped {
        truncated := true;
      }
      if r.failed {
        undecodable := true;
      }
    }

    method BudgetText(text: string) returns (kept: string)
      requires Valid()
      modifies this`truncated, this`totalText
      ensures Valid() && (Snapshot(), kept) == Budget(lim, old(Snapshot()), text)
    {
      var remaining: int := lim.maxTotalText - totalText;
      if remaining <= 0 {
        if text != "" {
          truncated := true;
        }
        return "";
      }
      kept := text;
      if |kept| > remaining {
        kept := kept[..remaining];
        truncated := true;
      }
      totalText := totalText + |kept|;
    }

    method AppendBody(text: string)
      requires Valid()
      modifies this
      ensures Valid()
      ensures var (st, kept) := Budget(lim, old(Snapshot()), text);
              Snapshot() == if kept == "" then st else st.(bodyParts := st.bodyParts + [kept])
    {
      var kept := BudgetText(text);
      if kept == "" {
        return;
      }
      if |body| > 0 {
        body := body + "\n\n";
      }
      JoinOneMore(bodyParts, kept);
      body := body + kept;
      bodyParts := bodyParts + [kept];
    }

    method WalkBodyOrAttachment(kind: Kind, name: string, b: Body)
      requires Valid()
      modifies this
      ensures Valid() && Snapshot() == WalkLeaf(flatten, lim, old(Snapshot()), kind, name, b)
    {
      if kind.Binary? {
        var counted := ReadCapped(b, lim.maxAttachmentBytes);
        Flag(counted);
        atts := atts + [Attachment(name, |counted.text|, "", false)];
        return;
      }
      var r := ReadCapped(b, lim.maxPartText);
      Flag(r);
      var text := TextOf(flatten, kind, r.text);
      if kind.PlainBody? || kind.HtmlBody? {
        AppendBody(text);
      } else {
        var kept := BudgetText(text);
        atts := atts + [Attachment(name, |r.text|, kept, true)];
      }
    }

    method Walk(ent: Entity, depth: nat)
      requires Valid()
      modifies this
      ensures Valid() && Snapshot() == MailText.Walk(flatten, lim, old(Snapshot()), ent, depth)
      decreases ent
    {
      if depth > lim.maxDepth {
        truncated := true;
        return;
      }
      if ent.Multi? {
        WalkPartsOf(ent, depth);
        return;
      }
      WalkOne(ent, depth);
    }

    method WalkOne(ent: Entity, depth: nat)
      requires Valid() && !ent.Multi? && depth <= lim.maxDepth
      modifies this
      ensures Valid() && Snapshot() == MailText.Walk(flatten, lim, old(Snapshot()), ent, depth)
      decreases ent, 1
    {
      ghost var before := Snapshot();
      parts := parts + 1;
      assert Snapshot() == Counted(before);
      if parts > lim.maxParts {
        truncated := true;
        return;
      }
      match ent
      case Leaf(kind, name, b) =>
        WalkBodyOrAttachment(kind, name, b);
        assert MailText.Walk(flatten, lim, before, Leaf(kind, name, b), depth) == WalkLeaf(flatten, lim, Counted(before), kind, name, b);
      case Rfc822(name, b, whole, cut) => WalkNested(name, b, whole, cut, before, ent, depth);
    }

    method WalkPartsOf(ent: Entity, depth: nat)
      requires Valid() && ent.Multi?
      modifies this
      ensures Valid()
      ensures var st := WalkParts(flatten, lim, old(Snapshot()), ent, |ent.parts|, depth);
              Snapshot() == st.(undecodable := st.undecodable || ent.broken)
      decreases ent, 0
    {
      for k := 0 to |ent.parts|
        invariant Valid() && Snapshot() == WalkParts(flatten, lim, old(Snapshot()), ent, k, depth)
      {
        if ent.parts[k].soft {
          undecodable := true;
        }
        Walk(ent.parts[k].entity, depth + 1);
      }
      if ent.broken {
        undecodable := true;
      }
    }

    method WalkNested(name: string, b: Body, whole: Parsed, cut: Parsed, ghost before: State, ghost ent: Entity, depth: nat)
      requires Valid() && ent == Rfc822(name, b, whole, cut) && depth <= lim.maxDepth
      requires Snapshot() == Counted(before) && parts <= lim.maxParts
      modifies this
      ensures Valid() && Snapshot() == MailText.Walk(flatten, lim, before, ent, depth)
      decreases ent, 0
    {
      var r := ReadCapped(b, lim.maxPartText);
      Flag(r);
      atts := atts + [Attachment(name, |r.text|, "", false)];
      assert Snapshot() == Recorded(lim, before, name, b);
      var tree := if r.capped then cut else whole;
      if tree.Unparsable? {
        undecodable := true;
        return;
      }
      if tree.soft {
        undecodable := true;
      }
      Walk(tree.entity, depth + 1);
    }
  }

  /** The message's own parse: None is an unreadable message. */
  method Extract(flatten: string -> string, lim: Limits, message: Parsed) returns (content: WalkState?)
    ensures content == null <==> message.Unparsable?
    ensures content != null ==> fresh(content) && content.Valid() && content.Snapshot() == Extraction(flatten, lim, message.entity, message.soft)
  {
    if message.Unparsable? {
      return null;
    }
    var st := new WalkState(flatten, lim);
    if message.soft {
      st.undecodable := true;
    }
    st.Walk(message.entity, 0);
    return st;
  }
}
