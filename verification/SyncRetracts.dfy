/**
What reconciliation is for (internal/imapsync/reconcile.go): mail that left the mailbox leaves the
store. A pass that finishes without a failed removal has taken out every copy it should, whoever
else ran meanwhile; and one that nobody interrupts leaves none behind.
*/
module SyncRetracts {
  import opened InboundDb
  import opened InboundStore
  import opened Candidates
  import opened Options
  import opened SyncWorld
  import opened SyncSafety
  import opened Syncer
  import opened SyncAlone

  // ---- What every step keeps of the store's shape ----

  /** A record of before is gone or still of the same owner, inbox and UID, and no id of before comes back. */
  ghost predicate SameCopies(db: Db, after: Db)
  {
    && db.lastSeq <= after.lastSeq
    && forall id :: id in after.records && id <= db.lastSeq ==>
         && id in db.records && after.records[id].owner == db.records[id].owner
         && after.records[id].inbox == db.records[id].inbox && after.records[id].uid == db.records[id].uid
  }

  lemma SyncStepKeepsShape(c: Config, s: Shared, t: Option<Thread>, x: SyncAction)
    requires NamesOk(c.owner, c.inbox) && WellFormed(s.db) && SyncStep(c, s, t, x).Some?
    ensures var after := SyncStep(c, s, t, x).value.shared.db; WellFormed(after) && SameCopies(s.db, after)
  {
  }

  lemma PassStepKeepsShape(c: Config, s: Shared, t: Option<Thread>, x: PassAction)
    requires WellFormed(s.db) && PassStep(c, s, t, x).Some?
    ensures var after := PassStep(c, s, t, x).value.shared.db; WellFormed(after) && SameCopies(s.db, after)
  {
  }

  lemma ContentStepKeepsShape(c: Config, s: Shared, t: Option<Thread>, x: ContentAction)
    requires WellFormed(s.db) && ContentStep(c, s, t, x).Some?
    ensures var after := ContentStep(c, s, t, x).value.shared.db; WellFormed(after) && SameCopies(s.db, after)
  {
  }

  lemma StoreStepKeepsShape(c: Config, s: Shared, x: StoreAction)
    requires NamesOk(c.owner, c.inbox) && WellFormed(s.db) && StoreStep(c, s, x).Some?
    ensures var after := StoreStep(c, s, x).value.db; WellFormed(after) && SameCopies(s.db, after)
  {
  }

  lemma StepKeepsShape(c: Config, w: World, a: Action)
    requires NamesOk(c.owner, c.inbox) && WellFormed(w.shared.db) && Step(c, w, a).Some?
    ensures var after := Step(c, w, a).value.shared.db; WellFormed(after) && SameCopies(w.shared.db, after)
  {
    match a
    case InSync(t, x) => SyncStepKeepsShape(c, w.shared, ThreadAt(w, t), x);
    case InPass(t, x) => PassStepKeepsShape(c, w.shared, ThreadAt(w, t), x);
    case InContent(t, x) => ContentStepKeepsShape(c, w.shared, ThreadAt(w, t), x);
    case Elsewhere(x) => StoreStepKeepsShape(c, w.shared, x);
    case _ =>
  }

  lemma {:induction false} RunKeepsShape(c: Config, acts: seq<Action>)
    requires NamesOk(c.owner, c.inbox) && Run(c, acts).Some?
    ensures WellFormed(Run(c, acts).value.shared.db) && Run(c, acts).value.shared.up.validity >= 1
  {
    if acts != [] {
      RunKeepsShape(c, acts[..|acts| - 1]);
      StepKeepsShape(c, Run(c, acts[..|acts| - 1]).value, acts[|acts| - 1]);
    }
  }

  // ---- A finished pass ----

  /** The state after more actions, in all of which thread t goes on and none of its removals fails. */
  function GoingOn(c: Config, w: World, more: seq<Action>, t: nat): (r: Option<World>)
    ensures r.Some? ==> t in r.value.threads
    decreases |more|
  {
    if t !in w.threads then None
    else if more == [] then Some(w)
    else if more[0] == InPass(t, Remove(false)) || Step(c, w, more[0]).None? then None
    else GoingOn(c, Step(c, w, more[0]).value, more[1..], t)
  }

  /** The id is on the list still to be removed, or no record any more. */
  ghost predicate OnItsWayOut(c: Config, w: World, t: nat, id: nat)
  {
    && t in w.threads && w.threads[t].Removing? && id <= w.shared.db.lastSeq
    && (id in w.shared.db.records ==> Named(w.threads[t].gone, id) && Removable(w.shared.db, c.owner, c.inbox, id))
  }

  lemma NamedInRest(gone: seq<(nat, Record)>, id: nat)
    requires Named(gone, id) && gone[0].0 != id
    ensures Named(gone[1..], id)
  {
    var i :| 0 <= i < |gone| && gone[i].0 == id;
    assert gone[1..][i - 1].0 == id;
  }

  lemma OwnStepTakesOut(c: Config, w: World, x: PassAction, t: nat, id: nat)
    requires WellFormed(w.shared.db) && OnItsWayOut(c, w, t, id) && x != Remove(false)
    requires Step(c, w, InPass(t, x)).Some? && t in Step(c, w, InPass(t, x)).value.threads
    ensures OnItsWayOut(c, Step(c, w, InPass(t, x)).value, t, id)
  {
    var gone := w.threads[t].gone;
    if id in w.shared.db.records && gone != [] && gone[0].0 != id {
      NamedInRest(gone, id);
    }
  }

  lemma OtherStepLeavesList(c: Config, w: World, a: Action, t: nat)
    requires t in w.threads && w.threads[t].Removing? && !(a.InPass? && a.t == t)
    requires Step(c, w, a).Some? && t in Step(c, w, a).value.threads
    ensures Step(c, w, a).value.threads[t] == w.threads[t]
  {
  }

  lemma {:induction false} TakenOutInTurn(c: Config, w: World, more: seq<Action>, t: nat, id: nat)
    requires NamesOk(c.owner, c.inbox) && WellFormed(w.shared.db) && OnItsWayOut(c, w, t, id)
    requires GoingOn(c, w, more, t).Some?
    ensures OnItsWayOut(c, GoingOn(c, w, more, t).value, t, id)
    decreases |more|
  {
    if more != [] {
      var w' := Step(c, w, more[0]).value;
      StepKeepsShape(c, w, more[0]);
      assert t in w'.threads;
      if more[0].InPass? && more[0].t == t {
        OwnStepTakesOut(c, w, more[0].p, t, id);
      } else {
        OtherStepLeavesList(c, w, more[0], t);
      }
      TakenOutInTurn(c, w', more[1..], t, id);
    }
  }

  lemma GoneIsNamed(c: Config, db: Db, at: Thread, id: nat)
    requires WellFormed(db) && at.Snapped? && id in db.records && Scoped(db.records[id], c.owner, c.inbox)
    requires Expunged(db.records[id], at.session, at.cursor.last, at.present) || Orphaned(db.records[id], at.session)
    ensures Named(ListedGone(c, db, at), id)
  {
    var gone := ListedGone(c, db, at);
    ListedIsScope(db, c.owner, c.inbox);
    GoneAreExpungedOrOrphaned(db, Listed(db, c.owner, c.inbox), at.session, at.cursor.last, at.present);
    assert (id, db.records[id]) in gone;
    var i :| 0 <= i < |gone| && gone[i] == (id, db.records[id]);
  }

  lemma ListingLeaves(c: Config, w: World, t: nat)
    requires t in w.threads && w.threads[t].Snapped?
    ensures var r := Step(c, w, InPass(t, ListStore));
            && r.Some? && t in r.value.threads && r.value.shared == w.shared
            && (r.value.threads[t].Removing? ==> r.value.threads[t].gone == ListedGone(c, w.shared.db, w.threads[t]))
  {
  }

  lemma ListingPutsOnItsWay(c: Config, w: World, t: nat, id: nat)
    requires WellFormed(w.shared.db) && t in w.threads && w.threads[t].Snapped?
    requires var at, db := w.threads[t], w.shared.db;
             && id in db.records && Scoped(db.records[id], c.owner, c.inbox)
             && (Expunged(db.records[id], at.session, at.cursor.last, at.present) || Orphaned(db.records[id], at.session))
    requires Step(c, w, InPass(t, ListStore)).value.threads[t].Removing?
    ensures OnItsWayOut(c, Step(c, w, InPass(t, ListStore)).value, t, id)
  {
    ListingLeaves(c, w, t);
    GoneIsNamed(c, w.shared.db, w.threads[t], id);
  }

  /**
  In every run: a pass that lists the store, is not held by the cap, goes on to the end of its list
  and has no removal fail leaves no copy that its snapshot showed to be expunged or orphaned, whatever
  ran beside it.
  */
  lemma FinishedPassHasRetracted(c: Config, acts: seq<Action>, more: seq<Action>, t: nat, id: nat)
    requires NamesOk(c.owner, c.inbox) && Run(c, acts).Some?
    requires var w := Run(c, acts).value; t in w.threads && w.threads[t].Snapped?
    requires var w := Run(c, acts).value;
             var listed := Step(c, w, InPass(t, ListStore)).value;
             && listed.threads[t].Removing? && GoingOn(c, listed, more, t).Some?
             && GoingOn(c, listed, more, t).value.threads[t].Removing? && GoingOn(c, listed, more, t).value.threads[t].gone == []
    requires var w := Run(c, acts).value;
             id in w.shared.db.records && Scoped(w.shared.db.records[id], c.owner, c.inbox)
    ensures var w := Run(c, acts).value;
            var r, at := w.shared.db.records[id], w.threads[t];
            var after := GoingOn(c, Step(c, w, InPass(t, ListStore)).value, more, t).value.shared.db;
            && (at.session != 0 && r.validity == at.session && 0 < r.uid <= at.cursor.last && r.uid !in at.present ==> id !in after.records)
            && (r.pending && r.uid != 0 && r.validity != 0 && r.validity != at.session ==> id !in after.records)
  {
    var w := Run(c, acts).value;
    var r, at := w.shared.db.records[id], w.threads[t];
    RunKeepsShape(c, acts);
    if Expunged(r, at.session, at.cursor.last, at.present) || Orphaned(r, at.session) {
      ListingPutsOnItsWay(c, w, t, id);
      TakenOutInTurn(c, Step(c, w, InPass(t, ListStore)).value, more, t, id);
    }
  }

  // ---- A pass nobody interrupts ----

  /** The mailbox contradicts the copy: it is of its validity and behind the cursor but absent, or pending under another known validity. */
  predicate Contradicted(s: Shared, r: Record)
  {
    || (r.validity == s.up.validity && 0 < r.uid <= s.cursor.last && r.uid !in s.up.present)
    || (r.pending && r.uid != 0 && r.validity != 0 && r.validity != s.up.validity)
  }

  /**
  From any reachable state that is not latched, with the cursor of the mailbox's validity, a pass that
  nobody interrupts, that the cap does not hold and none of whose removals fails takes out exactly the
  inbox's copies the mailbox contradicts, and leaves every other record, cursor and latch as they were.
  */
  lemma AlonePassReconciles(c: Config, acts: seq<Action>, s: Shared, o: map<nat, Thread>, t: nat) returns (more: seq<Action>)
    requires NamesOk(c.owner, c.inbox) && t !in o && Run(c, acts) == Some(World(s, o))
    requires !s.latch.suspended && s.cursor.validity == s.up.validity && !OverCap(c, s.db, s.cursor, s.up.present.Keys)
    ensures Run(c, acts + more).Some?
    ensures var w := Run(c, acts + more).value;
            && w.threads == o && w.shared == s.(db := w.shared.db)
            && (forall id :: id in w.shared.db.records <==>
                  id in s.db.records && !(Scoped(s.db.records[id], c.owner, c.inbox) && Contradicted(s, s.db.records[id])))
            && (forall id :: id in w.shared.db.records ==> w.shared.db.records[id] == s.db.records[id])
  {
    RunKeepsShape(c, acts);
    more := AlonePassIsARun(c, acts, s, o, t, {});
    PassAloneDoes(c, s.db, s.cursor, s.latch, false, Some((s.up.validity, s.up.present.Keys)), {});
    assert Retracts(c, s.db, s.cursor, s.up.present.Keys, {}, Run(c, acts + more).value.shared.db);
    forall id | id in s.db.records
      ensures id in PassGone(c, s.db, s.cursor, s.up.present.Keys)
         <==> Scoped(s.db.records[id], c.owner, c.inbox) && Contradicted(s, s.db.records[id])
    {
      assert id in InboxIds(c, s.db) <==> Scoped(s.db.records[id], c.owner, c.inbox);
    }
  }

  /** A pass the cap holds takes nothing out and latches the inbox with the number it would have taken. */
  lemma AlonePassLatches(c: Config, acts: seq<Action>, s: Shared, o: map<nat, Thread>, t: nat) returns (more: seq<Action>)
    requires NamesOk(c.owner, c.inbox) && t !in o && Run(c, acts) == Some(World(s, o))
    requires !s.latch.suspended && s.cursor.validity == s.up.validity && OverCap(c, s.db, s.cursor, s.up.present.Keys)
    ensures Run(c, acts + more) == Some(World(s.(latch := Latch(true, |PassGone(c, s.db, s.cursor, s.up.present.Keys)|)), o))
  {
    RunKeepsShape(c, acts);
    more := AlonePassIsARun(c, acts, s, o, t, {});
    PassAloneDoes(c, s.db, s.cursor, s.latch, false, Some((s.up.validity, s.up.present.Keys)), {});
  }
}
