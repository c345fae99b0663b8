/**
The two tiers of the inbound store with a crash possible between any two of their steps
(internal/inbound/bbolt.go, internal/blobstore/blobstore.go). A write transaction is open while its
blob is written; the blob delete of a removal comes after its commit, whenever it comes.
*/
module TwoTier {
  import opened Options
  import opened SeqKey
  import opened BlobStore
  import opened InboundDb

  /** What the open write transaction will commit: one new record, or the body of an existing one. */
  datatype Change = Insert(d: Delivery, synced: bool, pending: bool) | Fill(owner: Name, inbox: Name, id: nat)

  /** temp is the temporary file being written; durable says the rename has happened. */
  datatype OpenTx = OpenTx(change: Change, id: nat, data: Bytes, temp: Option<nat>, durable: bool)

  /** late holds the ids whose removal is committed and whose blob delete is still to come. */
  datatype Tiers = Tiers(db: Db, files: map<FileName, Bytes>, tx: Option<OpenTx>, late: set<nat>, serving: bool)

  datatype Action =
    | BeginInsert(d: Delivery, synced: bool, pending: bool, data: Bytes)
    | BeginFill(owner: Name, inbox: Name, id: nat, data: Bytes)
    | CreateTemp(serial: nat)
    | Rename
    | Commit
    | Abort
    | Remove(owner: Name, inbox: Name, id: nat)
    | LateDelete(id: nat, ioFails: bool)
    | Stamp(owner: Name, inbox: Name, id: nat, v: Uint32)
    | Crash
    | SweepOne(id: nat)
    | Serve

  function NeedsBlob(c: Change): bool
  {
    c.Fill? || !c.pending
  }

  function Committed(db: Db, c: Change): Db
  {
    match c
    case Insert(d, synced, pending) => if synced then AddSynced(db, d, pending) else AddLocal(db, d.owner, d.inbox)
    case Fill(owner, inbox, id) => SetContent(db, owner, inbox, id)
  }

  function BeginStep(t: Tiers, a: Action): Option<Tiers>
    requires a.BeginInsert? || a.BeginFill?
  {
    if t.tx.Some? then None
    else match a
      case BeginInsert(d, synced, pending, data) =>
        if synced && (d.uid == 0 || KeyOf(d) in t.db.index) then Some(t)
        else if !synced && pending then None
        else if !NamesOk(d.owner, d.inbox) then None
        else Some(t.(tx := Some(OpenTx(Insert(d, synced, pending), t.db.lastSeq + 1, data, None, false))))
      case BeginFill(owner, inbox, id, data) =>
        if id in t.db.records && Scoped(t.db.records[id], owner, inbox)
        then Some(t.(tx := Some(OpenTx(Fill(owner, inbox, id), id, data, None, false)))) else Some(t)
  }

  function TxStep(t: Tiers, a: Action): Option<Tiers>
    requires t.tx.Some?
  {
    var x := t.tx.value;
    match a
    case CreateTemp(serial) =>
      if NeedsBlob(x.change) && x.temp.None? && !x.durable && Temp(x.id, serial) !in t.files
      then Some(t.(files := t.files[Temp(x.id, serial) := x.data], tx := Some(x.(temp := Some(serial))))) else None
    case Rename =>
      if x.temp.Some?
      then Some(t.(files := (t.files - {Temp(x.id, x.temp.value)})[Final(x.id) := x.data], tx := Some(x.(temp := None, durable := true))))
      else None
    case Commit => if x.durable || !NeedsBlob(x.change) then Some(t.(db := Committed(t.db, x.change), tx := None)) else None
    case Abort =>
      Some(t.(tx := None, files := if x.temp.Some? then t.files - {Temp(x.id, x.temp.value)} else t.files))
    case _ => None
  }

  function Serving(t: Tiers, a: Action): Option<Tiers>
  {
    match a
    case BeginInsert(_, _, _, _) => BeginStep(t, a)
    case BeginFill(_, _, _, _) => BeginStep(t, a)
    case Remove(owner, inbox, id) =>
      if t.tx.Some? then None
      else
        Some(t.(db := RemoveSynced(t.db, owner, inbox, id),
                late := if Removable(t.db, owner, inbox, id) && t.db.records[id].blobbed then t.late + {id} else t.late))
    case LateDelete(id, ioFails) =>
      if id in t.late then Some(t.(late := t.late - {id}, files := if ioFails then t.files else t.files - {Final(id)})) else None
    case Stamp(owner, inbox, id, v) => if t.tx.Some? then None else Some(t.(db := StampValidity(t.db, owner, inbox, id, v)))
    case Crash => Some(t.(tx := None, late := {}, serving := false))
    case SweepOne(_) => None
    case Serve => None
    case _ => if t.tx.Some? then TxStep(t, a) else None
  }

  /** Opening: orphaned final files go one by one, and serving starts when none is left. */
  function Opening(t: Tiers, a: Action): Option<Tiers>
  {
    match a
    case SweepOne(id) =>
      if Final(id) in t.files && id !in t.db.records then Some(t.(files := t.files - {Final(id)})) else None
    case Serve => if Orphans(t.files, t.db.records.Keys) == {} then Some(t.(serving := true)) else None
    case Crash => Some(t)
    case _ => None
  }

  function Step(t: Tiers, a: Action): Option<Tiers>
  {
    if t.serving then Serving(t, a) else Opening(t, a)
  }

  function Initial(): Tiers
  {
    Tiers(Db(map[], map[], 0), map[], None, {}, true)
  }

  function Reach(from: Tiers, acts: seq<Action>): Option<Tiers>
  {
    if acts == [] then Some(from)
    else
      var before := Reach(from, acts[..|acts| - 1]);
      if before.None? then None else Step(before.value, acts[|acts| - 1])
  }

  // ---- What every crash point keeps ----

  ghost predicate BlobsThere(t: Tiers)
  {
    forall id :: id in t.db.records && t.db.records[id].blobbed ==> Final(id) in t.files
  }

  predicate TxOk(t: Tiers)
  {
    t.tx.Some? ==>
      var x := t.tx.value;
      && (x.durable ==> Final(x.id) in t.files && t.files[Final(x.id)] == x.data)
      && match x.change
         case Insert(d, synced, pending) =>
           x.id == t.db.lastSeq + 1 && NamesOk(d.owner, d.inbox)
           && (synced ==> d.uid != 0 && KeyOf(d) !in t.db.index) && (!synced ==> !pending)
         case Fill(owner, inbox, id) => x.id == id && id in t.db.records && Scoped(t.db.records[id], owner, inbox)
  }

  predicate LateOk(t: Tiers)
  {
    forall id :: id in t.late ==> id <= t.db.lastSeq && id !in t.db.records
  }

  ghost predicate Inv(t: Tiers)
  {
    && WellFormed(t.db) && BlobsThere(t) && TxOk(t) && LateOk(t)
    && (!t.serving ==> t.tx.None? && t.late == {})
  }

  lemma TxStepKeeps(t: Tiers, a: Action)
    requires Inv(t) && t.tx.Some? && t.serving && TxStep(t, a).Some?
    ensures Inv(TxStep(t, a).value)
  {
    var t' := TxStep(t, a).value;
    match a
    case Commit =>
      var x := t.tx.value;
      if x.change.Insert? {
        var d := x.change.d;
        NormKeepsKey(d.owner, d.inbox, d.validity, d.uid);
        assert forall id :: id in t'.db.records && id != x.id ==> id in t.db.records && t'.db.records[id] == t.db.records[id];
      }
    case _ =>
  }

  lemma StepKeeps(t: Tiers, a: Action)
    requires Inv(t) && Step(t, a).Some?
    ensures Inv(Step(t, a).value)
    ensures t.db.lastSeq <= Step(t, a).value.db.lastSeq
    ensures forall id :: id in Step(t, a).value.db.records && id <= t.db.lastSeq ==> id in t.db.records
  {
    if t.serving && t.tx.Some? && (a.CreateTemp? || a.Rename? || a.Commit? || a.Abort?) {
      TxStepKeeps(t, a);
    }
  }

  lemma {:induction false} RunKeeps(acts: seq<Action>)
    requires Reach(Initial(), acts).Some?
    ensures Inv(Reach(Initial(), acts).value)
  {
    if acts != [] {
      RunKeeps(acts[..|acts| - 1]);
      StepKeeps(Reach(Initial(), acts[..|acts| - 1]).value, acts[|acts| - 1]);
    }
  }

  /** Wherever a run stops, crash or not, every committed record that refers to a body has it. */
  lemma NoDanglingBody(acts: seq<Action>, id: nat)
    requires Reach(Initial(), acts).Some?
    requires var t := Reach(Initial(), acts).value; id in t.db.records && t.db.records[id].blobbed
    ensures Final(id) in Reach(Initial(), acts).value.files
  {
    RunKeeps(acts);
  }

  /** What a commit makes visible is the record of its own transaction with the body that transaction wrote. */
  lemma CommittedBodyIsItsOwn(acts: seq<Action>)
    requires Reach(Initial(), acts).Some? && Reach(Initial(), acts).value.serving
    requires var t := Reach(Initial(), acts).value; t.tx.Some? && NeedsBlob(t.tx.value.change) && Step(t, Commit).Some?
    ensures var t := Reach(Initial(), acts).value;
            var x, t' := t.tx.value, Step(t, Commit).value;
            && x.id in t'.db.records && t'.db.records[x.id].blobbed && !t'.db.records[x.id].pending
            && Final(x.id) in t'.files && t'.files[Final(x.id)] == x.data
  {
    RunKeeps(acts);
  }

  lemma {:induction false} GoneStaysGone(from: Tiers, acts: seq<Action>, id: nat)
    requires Inv(from) && id <= from.db.lastSeq && id !in from.db.records && Reach(from, acts).Some?
    ensures var t := Reach(from, acts).value; Inv(t) && id <= t.db.lastSeq && id !in t.db.records
  {
    if acts != [] {
      GoneStaysGone(from, acts[..|acts| - 1], id);
      StepKeeps(Reach(from, acts[..|acts| - 1]).value, acts[|acts| - 1]);
    }
  }

  /** A late blob delete names no record of that moment or of any later one: ids are never used again after a removal. */
  lemma LateDeleteHitsNothingLive(acts: seq<Action>, id: nat, more: seq<Action>)
    requires Reach(Initial(), acts).Some? && id in Reach(Initial(), acts).value.late
    requires Reach(Reach(Initial(), acts).value, more).Some?
    ensures id !in Reach(Reach(Initial(), acts).value, more).value.db.records
  {
    RunKeeps(acts);
    GoneStaysGone(Reach(Initial(), acts).value, more, id);
  }

  predicate IsOpening(acts: seq<Action>)
  {
    forall i :: 0 <= i < |acts| ==> acts[i].SweepOne? || acts[i].Crash?
  }

  lemma {:induction false} SweepingSoFar(t: Tiers, acts: seq<Action>)
    requires !t.serving && IsOpening(acts) && Reach(t, acts).Some?
    ensures var t' := Reach(t, acts).value;
            && !t'.serving && t'.db == t.db && t'.tx == t.tx && t'.late == t.late
            && t'.files.Keys <= t.files.Keys
            && (forall f :: f in t'.files ==> t'.files[f] == t.files[f])
            && (forall f :: f in t.files && f !in t'.files ==> f in Orphans(t.files, t.db.records.Keys))
  {
    if acts != [] {
      var init := acts[..|acts| - 1];
      assert forall i :: 0 <= i < |init| ==> init[i] == acts[i];
      SweepingSoFar(t, init);
    }
  }

  /**
  However often opening is interrupted, when it ends the sweep has deleted exactly the final files
  no record refers to; temporary files, subdirectories and live bodies are as the crash left them.
  */
  lemma OpeningSweepsExactlyOrphans(t: Tiers, acts: seq<Action>)
    requires !t.serving && IsOpening(acts) && Reach(t, acts + [Serve]).Some?
    ensures var t' := Reach(t, acts + [Serve]).value;
            t'.serving && t'.db == t.db && t'.files == t.files - Orphans(t.files, t.db.records.Keys)
  {
    assert (acts + [Serve])[..|acts|] == acts;
    SweepingSoFar(t, acts);
    var t' := Reach(t, acts).value;
    forall f | f in t'.files
      ensures f !in Orphans(t.files, t.db.records.Keys)
    {
      assert f !in Orphans(t'.files, t'.db.records.Keys);
    }
    assert t'.files.Keys == t.files.Keys - Orphans(t.files, t.db.records.Keys);
  }
}
