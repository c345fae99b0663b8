/**
The two tiers of the outbound queue with a crash possible between any two of their steps
(internal/sluice/bbolt.go, internal/blobstore/blobstore.go): a submission's body is in place before
its record commits, opening sweeps bodies without a record, and no message is ever removed.
*/
module OutboundTiers {
  import opened Options
  import opened SeqKey
  import opened BlobStore
  import opened Sluice

  /** The open submission: temp is the temporary file being written; durable says the rename has happened. */
  datatype OpenTx = OpenTx(agent: string, rcpt: seq<string>, raw: Bytes, id: nat, temp: Option<nat>, durable: bool)

  datatype Tiers = Tiers(box: Box, files: map<FileName, Bytes>, tx: Option<OpenTx>, serving: bool)

  datatype Action =
    | Begin(agent: string, rcpt: seq<string>, raw: Bytes)
    | CreateTemp(serial: nat)
    | Rename
    | Commit
    | Abort
    | Transact(tx: Tx)
    | Crash
    | SweepOne(id: nat)
    | SettleOne(id: nat)
    | Serve

  /** A transaction; a refused one changes nothing. */
  function Transacted(box: Box, x: Tx): Box
  {
    if Apply(box, x).Ok? then Apply(box, x).value else box
  }

  function SubmitStep(t: Tiers, a: Action): Option<Tiers>
    requires t.tx.Some?
  {
    var x := t.tx.value;
    match a
    case CreateTemp(serial) =>
      if x.temp.None? && !x.durable && Temp(x.id, serial) !in t.files
      then Some(t.(files := t.files[Temp(x.id, serial) := x.raw], tx := Some(x.(temp := Some(serial))))) else None
    case Rename =>
      if x.temp.Some?
      then Some(t.(files := (t.files - {Temp(x.id, x.temp.value)})[Final(x.id) := x.raw], tx := Some(x.(temp := None, durable := true))))
      else None
    case Commit => if x.durable then Some(t.(box := Enqueue(t.box, x.agent, x.rcpt, x.raw), tx := None)) else None
    case Abort =>
      Some(t.(tx := None, files := if x.temp.Some? then t.files - {Temp(x.id, x.temp.value)} else t.files))
    case _ => None
  }

  /** While serving, write transactions take turns; a submission's is open while its body is written. */
  function Serving(t: Tiers, a: Action): Option<Tiers>
  {
    match a
    case Begin(agent, rcpt, raw) =>
      if t.tx.Some? then None else Some(t.(tx := Some(OpenTx(agent, rcpt, raw, t.box.lastSeq + 1, None, false))))
    case Transact(x) =>
      if t.tx.Some? || x.Trap? || x.Settle? then None else Some(t.(box := Transacted(t.box, x)))
    case Crash => Some(t.(tx := None, serving := false))
    case SweepOne(_) => None
    case SettleOne(_) => None
    case Serve => None
    case _ => if t.tx.Some? then SubmitStep(t, a) else None
  }

  /** Opening: bodies without a record go one by one and claims are settled one by one, and then serving starts. */
  function Opening(t: Tiers, a: Action): Option<Tiers>
  {
    match a
    case SweepOne(id) =>
      if Final(id) in t.files && id !in t.box.messages then Some(t.(files := t.files - {Final(id)})) else None
    case SettleOne(id) =>
      if id in t.box.messages then Some(t.(box := Set(t.box, id, Interrupted(t.box.messages[id])))) else None
    case Serve =>
      if Orphans(t.files, t.box.messages.Keys) == {} && forall id :: id in t.box.messages ==> t.box.messages[id].claim.None?
      then Some(t.(serving := true)) else None
    case Crash => Some(t)
    case _ => None
  }

  function Step(t: Tiers, a: Action): Option<Tiers>
  {
    if t.serving then Serving(t, a) else Opening(t, a)
  }

  function Initial(): Tiers
  {
    Tiers(Box(map[], 0), map[], None, true)
  }

  function Reach(from: Tiers, acts: seq<Action>): Option<Tiers>
  {
    if acts == [] then Some(from)
    else
      var before := Reach(from, acts[..|acts| - 1]);
      if before.None? then None else Step(before.value, acts[|acts| - 1])
  }

  // ---- What every crash point keeps ----

  predicate HasBody(t: Tiers, id: nat)
    requires id in t.box.messages
  {
    Final(id) in t.files && t.files[Final(id)] == t.box.messages[id].raw
  }

  ghost predicate BodiesThere(t: Tiers)
  {
    forall id :: id in t.box.messages ==> HasBody(t, id)
  }

  predicate TxOk(t: Tiers)
  {
    t.tx.Some? ==>
      var x := t.tx.value;
      x.id == t.box.lastSeq + 1 && (x.durable ==> Final(x.id) in t.files && t.files[Final(x.id)] == x.raw)
  }

  ghost predicate Inv(t: Tiers)
  {
    Sound(t.box) && BodiesThere(t) && TxOk(t) && (!t.serving ==> t.tx.None?)
  }

  lemma SubmitStepKeeps(t: Tiers, a: Action)
    requires Inv(t) && t.serving && t.tx.Some? && SubmitStep(t, a).Some?
    ensures Inv(SubmitStep(t, a).value) && Extends(t.box, SubmitStep(t, a).value.box)
  {
    var t', x := SubmitStep(t, a).value, t.tx.value;
    TrappingKeeps(t.box, x.agent, x.rcpt, x.raw);
    forall id | id in t'.box.messages
      ensures HasBody(t', id)
    {
      assert id != x.id ==> HasBody(t, id);
    }
  }

  lemma TransactKeeps(t: Tiers, x: Tx)
    requires Inv(t) && t.serving && t.tx.None? && !x.Trap? && !x.Settle?
    ensures Inv(t.(box := Transacted(t.box, x))) && Extends(t.box, Transacted(t.box, x))
  {
    if Apply(t.box, x).Ok? {
      EveryTransactionKeeps(t.box, x);
    }
    var t' := t.(box := Transacted(t.box, x));
    forall id | id in t'.box.messages
      ensures HasBody(t', id)
    {
      assert HasBody(t, id) && Follows(t.box.messages[id], t'.box.messages[id]);
    }
  }

  lemma OpeningKeeps(t: Tiers, a: Action)
    requires Inv(t) && !t.serving && Opening(t, a).Some?
    ensures Inv(Opening(t, a).value) && Extends(t.box, Opening(t, a).value.box)
  {
    var t' := Opening(t, a).value;
    if a.SettleOne? {
      assert Coherent(t.box.messages[a.id]);
      SettingKeeps(t.box, a.id, Interrupted(t.box.messages[a.id]));
    }
    forall id | id in t'.box.messages
      ensures HasBody(t', id)
    {
      assert HasBody(t, id);
    }
  }

  lemma StepKeeps(t: Tiers, a: Action)
    requires Inv(t) && Step(t, a).Some?
    ensures Inv(Step(t, a).value) && Extends(t.box, Step(t, a).value.box)
  {
    if !t.serving {
      OpeningKeeps(t, a);
    } else if a.Transact? {
      TransactKeeps(t, a.tx);
    } else if a.CreateTemp? || a.Rename? || a.Commit? || a.Abort? {
      SubmitStepKeeps(t, a);
    } else {
      assert forall id :: id in t.box.messages && HasBody(t, id) ==> HasBody(Step(t, a).value, id);
    }
  }

  lemma {:induction false} RunKeeps(from: Tiers, acts: seq<Action>)
    requires Inv(from) && Reach(from, acts).Some?
    ensures Inv(Reach(from, acts).value) && Extends(from.box, Reach(from, acts).value.box)
  {
    if acts != [] {
      RunKeeps(from, acts[..|acts| - 1]);
      StepKeeps(Reach(from, acts[..|acts| - 1]).value, acts[|acts| - 1]);
    }
  }

  /** Wherever a run stops, crash or not, every record's body is on disk as it was submitted. */
  lemma EveryRecordHasItsBody(acts: seq<Action>, id: nat)
    requires Reach(Initial(), acts).Some? && id in Reach(Initial(), acts).value.box.messages
    ensures HasBody(Reach(Initial(), acts).value, id)
  {
    RunKeeps(Initial(), acts);
  }

  /**
  A submission that committed is never lost: in every continuation, crashes and sweeps included, its
  record is there and its body on disk is byte for byte what was submitted.
  */
  lemma SubmissionIsKept(acts: seq<Action>, more: seq<Action>)
    requires Reach(Initial(), acts).Some? && Reach(Initial(), acts).value.serving && Reach(Initial(), acts).value.tx.Some?
    requires Step(Reach(Initial(), acts).value, Commit).Some?
    requires Reach(Step(Reach(Initial(), acts).value, Commit).value, more).Some?
    ensures var t := Reach(Initial(), acts).value;
            var x, t' := t.tx.value, Reach(Step(t, Commit).value, more).value;
            && x.id in t'.box.messages && t'.box.messages[x.id].raw == x.raw
            && Final(x.id) in t'.files && t'.files[Final(x.id)] == x.raw
  {
    var t := Reach(Initial(), acts).value;
    RunKeeps(Initial(), acts);
    StepKeeps(t, Commit);
    RunKeeps(Step(t, Commit).value, more);
    assert HasBody(Reach(Step(t, Commit).value, more).value, t.tx.value.id);
  }
}
