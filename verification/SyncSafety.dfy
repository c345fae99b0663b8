/** What every run of SyncWorld keeps: no mail is lost, and only dead records are retracted. */
module SyncSafety {
  import opened InboundDb
  import opened InboundStore
  import opened UidSets
  import opened Candidates
  import opened Options
  import opened SyncWorld

  // ---- Database steps leave other records alone ----

  lemma StoredByRecord(c: Config, s: Shared, id: nat, u: Uint32)
    requires id in s.db.records && AtCoordinate(s.db.records[id], c.owner, c.inbox, s.up.validity, u)
    ensures Stored(c, s, u)
  {
  }

  /** A new database in which every old record lives on as a copy keeps everything stored. */
  lemma CopiesKeepStored(c: Config, s: Shared, s': Shared)
    requires s.up == s'.up && 1 <= s.up.validity
    requires forall id :: id in s.db.records ==> id in s'.db.records && CopyOf(s.db.records[id], s'.db.records[id])
    ensures forall u :: Stored(c, s, u) ==> Stored(c, s', u)
  {
    forall u | Stored(c, s, u)
      ensures Stored(c, s', u)
    {
      var id :| id in s.db.records && AtCoordinate(s.db.records[id], c.owner, c.inbox, s.up.validity, u);
      StoredByRecord(c, s', id, u);
    }
  }

  lemma GrowingDbExtends(c: Config, s: Shared, s': Shared)
    requires Sound(c, s)
    requires s' == s.(db := s'.db) && s.db.lastSeq <= s'.db.lastSeq
    requires forall id :: id in s.db.records ==> id in s'.db.records && CopyOf(s.db.records[id], s'.db.records[id])
    requires forall id :: id in s'.db.records && id !in s.db.records ==> id > s.db.lastSeq
    ensures Extends(c, s, s') && NothingMissing(c, s')
  {
    CopiesKeepStored(c, s, s');
    if s.cursor.validity == s.up.validity {
      CoverageSurvives(c, s, s', s.cursor.last);
    }
  }

  lemma AddingIsSound(c: Config, s: Shared, d: Delivery, pending: bool)
    requires Sound(c, s) && NamesOk(d.owner, d.inbox)
    requires d.owner == c.owner && NormInbox(d.inbox) == NormInbox(c.inbox) ==>
               d.validity <= s.up.validity && (d.validity == s.up.validity ==> d.uid < s.up.next)
    ensures var s' := s.(db := InboundDb.AddSynced(s.db, d, pending)); Sound(c, s') && Extends(c, s, s')
  {
    var s' := s.(db := InboundDb.AddSynced(s.db, d, pending));
    AddSyncedKeeps(s.db, d, pending);
    GrowingDbExtends(c, s, s');
  }

  lemma AddingLocallyIsSound(c: Config, s: Shared, o: Name, i: Name)
    requires Sound(c, s) && NamesOk(o, i)
    ensures var s' := s.(db := InboundDb.AddLocal(s.db, o, i)); Sound(c, s') && Extends(c, s, s')
  {
    AddLocalKeeps(s.db, o, i);
    GrowingDbExtends(c, s, s.(db := InboundDb.AddLocal(s.db, o, i)));
  }

  lemma FillingIsSound(c: Config, s: Shared, o: Name, i: Name, id: nat)
    requires Sound(c, s)
    ensures var s' := s.(db := InboundDb.SetContent(s.db, o, i, id)); Sound(c, s') && Extends(c, s, s')
  {
    SetContentKeeps(s.db, o, i, id);
    GrowingDbExtends(c, s, s.(db := InboundDb.SetContent(s.db, o, i, id)));
  }

  lemma StampingIsSound(c: Config, s: Shared, o: Name, i: Name, id: nat, v: Uint32)
    requires Sound(c, s)
    requires id in s.db.records && Scoped(s.db.records[id], c.owner, c.inbox) && Scoped(s.db.records[id], o, i) ==>
               v <= s.up.validity && (v == s.up.validity ==> s.db.records[id].uid < s.up.next)
    ensures var s' := s.(db := StampValidity(s.db, o, i, id, v)); Sound(c, s') && Extends(c, s, s')
  {
    StampKeepsKnownEntries(s.db, o, i, id, v);
    GrowingDbExtends(c, s, s.(db := StampValidity(s.db, o, i, id, v)));
  }

  /** Removing a record of another scope, or a dead one of this scope, loses nothing still upstream. */
  lemma RemovingIsSound(c: Config, s: Shared, o: Name, i: Name, id: nat)
    requires Sound(c, s)
    requires Removable(s.db, o, i, id) && Scoped(s.db.records[id], c.owner, c.inbox) ==>
               Dead(s, s.db.records[id].validity, s.db.records[id].uid)
    ensures var s' := s.(db := InboundDb.RemoveSynced(s.db, o, i, id)); Sound(c, s') && Extends(c, s, s')
  {
    var s' := s.(db := InboundDb.RemoveSynced(s.db, o, i, id));
    RemoveSyncedKeeps(s.db, o, i, id);
    forall u | u in s'.up.present && Stored(c, s, u)
      ensures Stored(c, s', u)
    {
      var k :| k in s.db.records && AtCoordinate(s.db.records[k], c.owner, c.inbox, s.up.validity, u);
      assert k != id || !Removable(s.db, o, i, id);
      StoredByRecord(c, s', k, u);
    }
    if s.cursor.validity == s.up.validity {
      CoverageSurvives(c, s, s', s.cursor.last);
    }
  }

  // ---- Every step keeps the invariant ----

  lemma UpStepIsSound(c: Config, s: Shared, a: UpAction)
    requires Sound(c, s) && UpStep(s, a).Some?
    ensures Sound(c, UpStep(s, a).value) && Extends(c, s, UpStep(s, a).value)
  {
    var s' := UpStep(s, a).value;
    if !a.Reset? {
      assert forall u :: Stored(c, s, u) <==> Stored(c, s', u);
      if s.cursor.validity == s.up.validity {
        CoverageSurvives(c, s, s', s.cursor.last);
      }
    }
  }

  lemma StoreStepIsSound(c: Config, s: Shared, a: StoreAction)
    requires Sound(c, s) && StoreStep(c, s, a).Some?
    ensures Sound(c, StoreStep(c, s, a).value) && Extends(c, s, StoreStep(c, s, a).value)
  {
    match a
    case AddLocal(o, i) => AddingLocallyIsSound(c, s, o, i);
    case AddOld(uid) => AddingIsSound(c, s, Delivery(c.owner, c.inbox, uid, 0), !c.eager);
    case AddFor(d, pending) => AddingIsSound(c, s, d, pending);
    case RemoveFor(o, i, id) => RemovingIsSound(c, s, o, i, id);
    case FillFor(o, i, id) => FillingIsSound(c, s, o, i, id);
    case StampFor(o, i, id, v) => StampingIsSound(c, s, o, i, id, v);
  }

  lemma Unmoved(c: Config, s: Shared, s': Shared)
    requires Sound(c, s) && s' == s.(cursor := s'.cursor, latch := s'.latch)
    ensures Extends(c, s, s')
  {
    CopiesKeepStored(c, s, s');
  }

  lemma PlanIsSound(c: Config, s: Shared, t: Thread, found: seq<Uint32>)
    requires Sound(c, s) && ThreadOk(c, s, t) && t.Loaded?
    requires SyncStep(c, s, Some(t), MakePlan(found)).Some?
    ensures ThreadOk(c, s, SyncStep(c, s, Some(t), MakePlan(found)).value.next.value)
  {
    var Pulling(v, _, ceiling, highest, bound, todo, _) := SyncStep(c, s, Some(t), MakePlan(found)).value.next.value;
    var Loaded(_, n, _, last) := t;
    var plan := PlanOf(c.maxAge > 0, found, n, last);
    if v == s.up.validity {
      AboveHolds(found, last);
      forall u | u in s.up.present && u < bound
        ensures u in todo || Stored(c, s, u) || TooOld(c, s, u)
      {
        PlanIsWhatIsNew(c.maxAge > 0, found, n, last, u);
      }
      forall u | u in todo
        ensures u < bound
      {
        PlanIsWhatIsNew(c.maxAge > 0, found, n, last, u);
      }
    }
  }

  lemma StoringIsSound(c: Config, s: Shared, t: Thread, uid: Uint32)
    requires Sound(c, s) && ThreadOk(c, s, t) && t.Pulling? && uid in t.inflight
    ensures var e := SyncStep(c, s, Some(t), SyncAction.Store(uid)).value;
            Sound(c, e.shared) && Extends(c, s, e.shared) && ThreadOk(c, e.shared, e.next.value)
  {
    var e := SyncStep(c, s, Some(t), SyncAction.Store(uid)).value;
    var d := Delivery(c.owner, c.inbox, uid, t.session);
    AddingIsSound(c, s, d, !c.eager);
    AddLeavesRecord(s.db, d, !c.eager);
    ThreadSurvives(c, s, e.shared, t);
    if t.session == s.up.validity {
      assert Stored(c, e.shared, uid);
    }
  }

  lemma SyncStepIsSound(c: Config, s: Shared, t: Option<Thread>, a: SyncAction)
    requires Sound(c, s) && (t.Some? ==> ThreadOk(c, s, t.value)) && SyncStep(c, s, t, a).Some?
    ensures var e := SyncStep(c, s, t, a).value;
            Sound(c, e.shared) && Extends(c, s, e.shared) && (e.next.Some? ==> ThreadOk(c, e.shared, e.next.value))
  {
    var e := SyncStep(c, s, t, a).value;
    match (t, a)
    case (Some(Loaded(_, _, _, _)), MakePlan(found)) =>
      Unmoved(c, s, s);
      PlanIsSound(c, s, t.value, found);
    case (Some(Pulling(_, _, _, _, _, _, _)), Store(uid)) => StoringIsSound(c, s, t.value, uid);
    case _ => Unmoved(c, s, e.shared);
  }

  /** A retracted record still upstream is a pending one, taken for superseded across a reset. */
  lemma PickedLiveMailIsPending(c: Config, s: Shared, t: Thread, id: nat)
    requires Sound(c, s) && ThreadOk(c, s, t) && t.Snapped?
    requires id in s.db.records && Scoped(s.db.records[id], c.owner, c.inbox)
    ensures var r := s.db.records[id];
            (Judge(r, t.session, t.cursor.last, t.present) == Retract && !Dead(s, r.validity, r.uid))
            <==> t.session != s.up.validity && LivePending(c, s, id)
  {
    assert Assigned(s, s.db.records[id]);
  }

  lemma PickedIsDead(c: Config, s: Shared, t: Thread, id: nat)
    requires Sound(c, s) && ThreadOk(c, s, t) && t.Snapped?
    requires t.session == s.up.validity || !LivePending(c, s, id)
    requires id in s.db.records && Scoped(s.db.records[id], c.owner, c.inbox) && id <= s.db.lastSeq
    requires Judge(s.db.records[id], t.session, t.cursor.last, t.present) == Retract
    ensures var r := s.db.records[id]; Held(s, id, r) && r.validity != 0 && Dead(s, r.validity, r.uid)
  {
    PickedLiveMailIsPending(c, s, t, id);
  }

  lemma GoneAreDead(c: Config, s: Shared, t: Thread, g: (nat, Record))
    requires Sound(c, s) && ThreadOk(c, s, t) && t.Snapped?
    requires t.session == s.up.validity || forall id :: !LivePending(c, s, id)
    requires g in Gone(s.db, Listed(s.db, c.owner, c.inbox), t.session, t.cursor.last, t.present)
    ensures Held(s, g.0, g.1) && g.1.validity != 0 && Dead(s, g.1.validity, g.1.uid)
  {
    ListedIsScope(s.db, c.owner, c.inbox);
    GoneAreRetracted(s.db, Listed(s.db, c.owner, c.inbox), t.session, t.cursor.last, t.present);
    PickedIsDead(c, s, t, g.0);
  }

  lemma ListingIsSound(c: Config, s: Shared, t: Thread)
    requires Sound(c, s) && ThreadOk(c, s, t) && t.Snapped?
    requires t.session == s.up.validity || forall id :: !LivePending(c, s, id)
    ensures ThreadOk(c, s, PassStep(c, s, Some(t), ListStore).value.next.value)
  {
    var gone := Gone(s.db, Listed(s.db, c.owner, c.inbox), t.session, t.cursor.last, t.present);
    forall i | 0 <= i < |gone|
      ensures Held(s, gone[i].0, gone[i].1) && gone[i].1.validity != 0 && Dead(s, gone[i].1.validity, gone[i].1.uid)
    {
      GoneAreDead(c, s, t, gone[i]);
    }
  }

  lemma PassStepIsSound(c: Config, s: Shared, t: Option<Thread>, a: PassAction)
    requires Sound(c, s) && (t.Some? ==> ThreadOk(c, s, t.value)) && PassStep(c, s, t, a).Some?
    requires a.ListStore? && t.Some? && t.value.Snapped? ==>
               t.value.session == s.up.validity || forall id :: !LivePending(c, s, id)
    ensures var e := PassStep(c, s, t, a).value;
            Sound(c, e.shared) && Extends(c, s, e.shared) && (e.next.Some? ==> ThreadOk(c, e.shared, e.next.value))
  {
    var e := PassStep(c, s, t, a).value;
    match (t, a)
    case (Some(Snapped(_, _, _, _)), ListStore) =>
      Unmoved(c, s, s);
      ListingIsSound(c, s, t.value);
    case (Some(Removing(_, gone)), Remove(ok)) =>
      assert Held(s, gone[0].0, gone[0].1);
      if ok {
        RemovingIsSound(c, s, c.owner, c.inbox, gone[0].0);
      } else {
        Unmoved(c, s, s);
      }
      ThreadSurvives(c, s, e.shared, t.value);
      assert forall i :: 0 <= i < |gone[1..]| ==> gone[1..][i] == gone[i + 1];
    case _ => Unmoved(c, s, e.shared);
  }

  lemma ContentStepIsSound(c: Config, s: Shared, t: Option<Thread>, a: ContentAction)
    requires Sound(c, s) && (t.Some? ==> ThreadOk(c, s, t.value)) && ContentStep(c, s, t, a).Some?
    ensures var e := ContentStep(c, s, t, a).value;
            Sound(c, e.shared) && Extends(c, s, e.shared) && (e.next.Some? ==> ThreadOk(c, e.shared, e.next.value))
  {
    var e := ContentStep(c, s, t, a).value;
    match (t, a)
    case (Some(Opened(_, id, _, v)), Stamp) => StampingIsSound(c, s, c.owner, c.inbox, id, v);
    case (Some(Vanished(id, rec)), Drop) => RemovingIsSound(c, s, c.owner, c.inbox, id);
    case (Some(Fetched(id)), Fill) => FillingIsSound(c, s, c.owner, c.inbox, id);
    case _ => Unmoved(c, s, s);
  }

  lemma OthersSurvive(c: Config, w: World, w': World, moved: set<nat>)
    requires Inv(c, w) && Sound(c, w'.shared) && Extends(c, w.shared, w'.shared)
    requires forall t :: t in w'.threads && t !in moved ==> t in w.threads && w.threads[t] == w'.threads[t]
    requires forall t :: t in moved && t in w'.threads ==> ThreadOk(c, w'.shared, w'.threads[t])
    ensures Inv(c, w')
  {
    forall t | t in w'.threads
      ensures ThreadOk(c, w'.shared, w'.threads[t])
    {
      if t !in moved {
        ThreadSurvives(c, w.shared, w'.shared, w.threads[t]);
      }
    }
  }

  lemma SharedStepsKeepValidity(c: Config, s: Shared, t: Option<Thread>)
    ensures forall a :: SyncStep(c, s, t, a).Some? ==> SyncStep(c, s, t, a).value.shared.up == s.up
    ensures forall a :: PassStep(c, s, t, a).Some? ==> PassStep(c, s, t, a).value.shared.up == s.up
    ensures forall a :: ContentStep(c, s, t, a).Some? ==> ContentStep(c, s, t, a).value.shared.up == s.up
  {
  }

  lemma StepKeepsInv(c: Config, w: World, a: Action)
    requires Inv(c, w) && Step(c, w, a).Some? && CalmStep(c, w, a)
    ensures Inv(c, Step(c, w, a).value) && Extends(c, w.shared, Step(c, w, a).value.shared)
  {
    var w' := Step(c, w, a).value;
    match a
    case AtUpstream(u) =>
      UpStepIsSound(c, w.shared, u);
      OthersSurvive(c, w, w', {});
    case InSync(t, x) =>
      SyncStepIsSound(c, w.shared, ThreadAt(w, t), x);
      OthersSurvive(c, w, w', {t});
    case InPass(t, x) =>
      PassStepIsSound(c, w.shared, ThreadAt(w, t), x);
      OthersSurvive(c, w, w', {t});
    case InContent(t, x) =>
      ContentStepIsSound(c, w.shared, ThreadAt(w, t), x);
      OthersSurvive(c, w, w', {t});
    case Elsewhere(x) =>
      StoreStepIsSound(c, w.shared, x);
      OthersSurvive(c, w, w', {});
    case Abandon(t) =>
      Unmoved(c, w.shared, w.shared);
    case Crash =>
      Unmoved(c, w.shared, w.shared);
  }

  lemma {:induction false} RunKeepsInv(c: Config, acts: seq<Action>)
    requires NamesOk(c.owner, c.inbox) && Run(c, acts).Some? && Calm(c, acts)
    ensures Inv(c, Run(c, acts).value)
  {
    if acts != [] {
      RunKeepsInv(c, acts[..|acts| - 1]);
      StepKeepsInv(c, Run(c, acts[..|acts| - 1]).value, acts[|acts| - 1]);
    }
  }

  // ---- No mail is lost ----

  /**
  In every calm run, each message still upstream at or below the saved cursor has a local record,
  or a recency cutoff is set and the message is older than it.
  */
  lemma NoMailIsLost(c: Config, acts: seq<Action>, u: Uint32)
    requires NamesOk(c.owner, c.inbox) && Run(c, acts).Some? && Calm(c, acts)
    requires var s := Run(c, acts).value.shared;
             s.cursor.validity == s.up.validity && u in s.up.present && u <= s.cursor.last
    ensures var s := Run(c, acts).value.shared;
            || (exists id :: id in s.db.records && AtCoordinate(s.db.records[id], c.owner, c.inbox, s.up.validity, u))
            || (c.maxAge > 0 && s.up.present[u] + c.maxAge < s.now)
  {
    RunKeepsInv(c, acts);
    var s := Run(c, acts).value.shared;
    assert Stored(c, s, u) || TooOld(c, s, u);
  }

  // ---- Every retraction is sound ----

  lemma StepRemovesOnlyDead(c: Config, w: World, a: Action, id: nat)
    requires Inv(c, w) && Step(c, w, a).Some?
    requires id in w.shared.db.records && Scoped(w.shared.db.records[id], c.owner, c.inbox)
    requires id !in Step(c, w, a).value.shared.db.records
    ensures var r := w.shared.db.records[id]; r.uid != 0 && r.validity != 0 && Dead(w.shared, r.validity, r.uid)
  {
    match a
    case InPass(t, x) =>
      var gone := w.threads[t].gone;
      assert ThreadOk(c, w.shared, w.threads[t]) && Held(w.shared, gone[0].0, gone[0].1);
    case InContent(t, x) =>
      assert ThreadOk(c, w.shared, w.threads[t]);
    case _ =>
  }

  lemma StepKeepsDead(c: Config, w: World, a: Action, v: Uint32, u: Uint32)
    requires Step(c, w, a).Some? && Dead(w.shared, v, u)
    ensures Dead(Step(c, w, a).value.shared, v, u)
  {
    match a
    case InSync(t, _) => SharedStepsKeepValidity(c, w.shared, ThreadAt(w, t));
    case InPass(t, _) => SharedStepsKeepValidity(c, w.shared, ThreadAt(w, t));
    case InContent(t, _) => SharedStepsKeepValidity(c, w.shared, ThreadAt(w, t));
    case _ =>
  }

  lemma RunSnoc(c: Config, acts: seq<Action>, a: Action)
    ensures Run(c, acts + [a]) == if Run(c, acts).Some? then Step(c, Run(c, acts).value, a) else None
  {
    assert (acts + [a])[..|acts|] == acts;
  }

  lemma {:induction false} DeadForever(c: Config, acts: seq<Action>, more: seq<Action>, v: Uint32, u: Uint32)
    requires Run(c, acts).Some? && Dead(Run(c, acts).value.shared, v, u)
    ensures Run(c, acts + more).Some? ==> Dead(Run(c, acts + more).value.shared, v, u)
  {
    if more == [] {
      assert acts + more == acts;
    } else {
      var init := more[..|more| - 1];
      DeadForever(c, acts, init, v, u);
      assert acts + more == (acts + init) + [more[|more| - 1]];
      RunSnoc(c, acts + init, more[|more| - 1]);
      if Run(c, acts + more).Some? {
        StepKeepsDead(c, Run(c, acts + init).value, more[|more| - 1], v, u);
      }
    }
  }

  /**
  Whatever a calm run removes from this inbox was a synced record of known validity whose message
  is gone from the mailbox, then and in every continuation.
  */
  lemma EveryRetractionIsSound(c: Config, acts: seq<Action>, a: Action, more: seq<Action>, id: nat)
    requires NamesOk(c.owner, c.inbox) && Run(c, acts).Some? && Calm(c, acts) && Run(c, acts + [a]).Some?
    requires var s := Run(c, acts).value.shared; id in s.db.records && Scoped(s.db.records[id], c.owner, c.inbox)
    requires id !in Run(c, acts + [a]).value.shared.db.records
    ensures var r := Run(c, acts).value.shared.db.records[id];
            && r.uid != 0 && r.validity != 0
            && (Run(c, acts + more).Some? ==>
                  var up := Run(c, acts + more).value.shared.up;
                  r.validity < up.validity || (r.validity == up.validity && r.uid < up.next && r.uid !in up.present))
  {
    RunKeepsInv(c, acts);
    RunSnoc(c, acts, a);
    var w := Run(c, acts).value;
    StepRemovesOnlyDead(c, w, a, id);
    DeadForever(c, acts, more, w.shared.db.records[id].validity, w.shared.db.records[id].uid);
  }

  // ---- Where a run stops being calm ----

  /**
  Listing the store picks a message still upstream exactly when the mailbox was reset since the
  pass examined it and a sync has already stored a pending record under the new validity.
  */
  lemma ListingPicksLiveMailIff(c: Config, s: Shared, t: Thread)
    requires Sound(c, s) && ThreadOk(c, s, t) && t.Snapped?
    ensures (exists g :: g in Gone(s.db, Listed(s.db, c.owner, c.inbox), t.session, t.cursor.last, t.present)
                         && !Dead(s, g.1.validity, g.1.uid))
       <==> t.session != s.up.validity && exists id :: LivePending(c, s, id)
  {
    var ids := Listed(s.db, c.owner, c.inbox);
    var gone := Gone(s.db, ids, t.session, t.cursor.last, t.present);
    ListedIsScope(s.db, c.owner, c.inbox);
    GoneAreRetracted(s.db, ids, t.session, t.cursor.last, t.present);
    if g :| g in gone && !Dead(s, g.1.validity, g.1.uid) {
      PickedLiveMailIsPending(c, s, t, g.0);
    }
    if id :| t.session != s.up.validity && LivePending(c, s, id) {
      PickedLiveMailIsPending(c, s, t, id);
      assert (id, s.db.records[id]) in gone;
    }
  }

  function SyncOnce(t: nat): seq<Action>
  {
    [InSync(t, Select(true)), InSync(t, Load), InSync(t, MakePlan([1])), InSync(t, Deliver(1)), InSync(t, SyncAction.Store(1)), InSync(t, Save)]
  }

  function PassUntilSnapshot(t: nat): seq<Action>
  {
    [InPass(t, Start), InPass(t, LoadCursor), InPass(t, Examine), InPass(t, Search({1}))]
  }

  /**
  A first message is synced; a pass takes its snapshot; the mailbox is reset, a message arrives in
  it and is synced; the pass goes on.
  */
  function LossRun(): seq<Action>
  {
    [AtUpstream(Arrive(1, 0))] + SyncOnce(0) + PassUntilSnapshot(1)
    + [AtUpstream(Reset(2)), AtUpstream(Arrive(1, 0))] + SyncOnce(2)
    + [InPass(1, ListStore), InPass(1, Remove(true))]
  }

  function LossConfig(): Config
  {
    Config([1], [], 0, false, Candidates.Options(0.5, 5))
  }

  lemma SyncMoves(c: Config, acts: seq<Action>, s: Shared, others: map<nat, Thread>, t: nat, at: Thread, x: SyncAction, e: Effect)
    requires Run(c, acts) == Some(World(s, others[t := at]))
    requires SyncStep(c, s, Some(at), x) == Some(e) && e.next.Some?
    ensures Run(c, acts + [InSync(t, x)]) == Some(World(e.shared, others[t := e.next.value]))
  {
    RunSnoc(c, acts, InSync(t, x));
    assert others[t := at][t := e.next.value] == others[t := e.next.value];
  }

  lemma PassMoves(c: Config, acts: seq<Action>, s: Shared, others: map<nat, Thread>, t: nat, at: Thread, x: PassAction, e: Effect)
    requires Run(c, acts) == Some(World(s, others[t := at]))
    requires PassStep(c, s, Some(at), x) == Some(e) && e.next.Some?
    ensures Run(c, acts + [InPass(t, x)]) == Some(World(e.shared, others[t := e.next.value]))
  {
    RunSnoc(c, acts, InPass(t, x));
    assert others[t := at][t := e.next.value] == others[t := e.next.value];
  }

  /** The first half of a sync of one new message: select, load the cursor, plan. */
  lemma SyncOncePlans(c: Config, acts: seq<Action>, s: Shared, o: map<nat, Thread>, t: nat)
    requires c.maxAge == 0 && Run(c, acts) == Some(World(s, o)) && t !in o
    requires s.up.next == 2 && s.up.present.Keys == {1} && (s.cursor.validity == s.up.validity ==> s.cursor.last == 0)
    ensures Run(c, acts + [InSync(t, Select(true))] + [InSync(t, Load)] + [InSync(t, MakePlan([1]))])
              == Some(World(s, o[t := Pulling(s.up.validity, s.cursor, 1, 0, 2, {1}, {})]))
  {
    var v := s.up.validity;
    RunSnoc(c, acts, InSync(t, Select(true)));
    var a1 := acts + [InSync(t, Select(true))];
    var t2, t3 := Loaded(v, 2, s.cursor, 0), Pulling(v, s.cursor, 1, 0, 2, {1}, {});
    SyncMoves(c, a1, s, o, t, Selected(v, 2), Load, Effect(s, Some(t2)));
    assert PlanOf(false, [1], 2, 0) == Plan(Between(1, 1), 1);
    assert TodoOf(Between(1, 1), [1]) == {1};
    assert [1 as Uint32][0] in [1 as Uint32];
    assert SearchAnswer(c, s, [1]);
    SyncMoves(c, a1 + [InSync(t, Load)], s, o, t, t2, MakePlan([1]), Effect(s, Some(t3)));
  }

  lemma SyncOnceInOrder(acts: seq<Action>, t: nat)
    ensures acts + SyncOnce(t) == acts + [InSync(t, Select(true))] + [InSync(t, Load)] + [InSync(t, MakePlan([1]))]
                                  + [InSync(t, Deliver(1))] + [InSync(t, SyncAction.Store(1))] + [InSync(t, Save)]
  {
  }

  /** The second half: the message is delivered, stored, and the cursor saved. */
  lemma SyncOnceFinishes(c: Config, acts: seq<Action>, s: Shared, o: map<nat, Thread>, t: nat)
    requires !c.eager && t !in o && 1 in s.up.present && s.up.next == 2
    requires Run(c, acts) == Some(World(s, o[t := Pulling(s.up.validity, s.cursor, 1, 0, 2, {1}, {})]))
    requires s.cursor != Cursor(s.up.validity, 1)
    ensures var db := InboundDb.AddSynced(s.db, Delivery(c.owner, c.inbox, 1, s.up.validity), true);
            Run(c, acts + [InSync(t, Deliver(1))] + [InSync(t, SyncAction.Store(1))] + [InSync(t, Save)])
              == Some(World(s.(db := db, cursor := Cursor(s.up.validity, 1)), o))
  {
    var v := s.up.validity;
    var t3, t4, t5 := Pulling(v, s.cursor, 1, 0, 2, {1}, {}), Pulling(v, s.cursor, 1, 0, 2, {}, {1}), Pulling(v, s.cursor, 1, 1, 2, {}, {});
    assert t3.todo - {1} == {} && t3.inflight + {1} == {1} && t4.inflight - {1} == {};
    SyncMoves(c, acts, s, o, t, t3, Deliver(1), Effect(s, Some(t4)));
    var a4 := acts + [InSync(t, Deliver(1))];
    var s' := s.(db := InboundDb.AddSynced(s.db, Delivery(c.owner, c.inbox, 1, v), true));
    SyncMoves(c, a4, s, o, t, t4, SyncAction.Store(1), Effect(s', Some(t5)));
    RunSnoc(c, a4 + [InSync(t, SyncAction.Store(1))], InSync(t, Save));
    assert o[t := t5] - {t} == o;
  }

  lemma SyncOnceStores(c: Config, acts: seq<Action>, s: Shared, o: map<nat, Thread>, t: nat)
    requires c.maxAge == 0 && !c.eager && Run(c, acts) == Some(World(s, o)) && t !in o
    requires s.up.next == 2 && s.up.present.Keys == {1} && (s.cursor.validity == s.up.validity ==> s.cursor.last == 0)
    ensures var db := InboundDb.AddSynced(s.db, Delivery(c.owner, c.inbox, 1, s.up.validity), true);
            Run(c, acts + SyncOnce(t)) == Some(World(s.(db := db, cursor := Cursor(s.up.validity, 1)), o))
  {
    SyncOncePlans(c, acts, s, o, t);
    SyncOnceInOrder(acts, t);
    SyncOnceFinishes(c, acts + [InSync(t, Select(true))] + [InSync(t, Load)] + [InSync(t, MakePlan([1]))], s, o, t);
  }

  lemma PassTakesSnapshot(c: Config, acts: seq<Action>, t: nat)
    requires Run(c, acts).Some?
    requires var w := Run(c, acts).value;
             t !in w.threads && !w.shared.latch.suspended && w.shared.up.present.Keys == {1}
             && w.shared.cursor.validity == w.shared.up.validity
    ensures var w := Run(c, acts).value;
            Run(c, acts + PassUntilSnapshot(t))
              == Some(w.(threads := w.threads[t := Snapped(false, w.shared.cursor, w.shared.up.validity, {1})]))
  {
    var World(s, o) := Run(c, acts).value;
    var ps, v := PassUntilSnapshot(t), s.up.validity;
    RunSnoc(c, acts, ps[0]);
    var a1 := acts + [ps[0]];
    PassMoves(c, a1, s, o, t, Unlatched(false), LoadCursor, Effect(s, Some(CursorRead(false, s.cursor))));
    var a2 := a1 + [ps[1]];
    PassMoves(c, a2, s, o, t, CursorRead(false, s.cursor), Examine, Effect(s, Some(Examined(false, s.cursor, v))));
    var a3 := a2 + [ps[2]];
    PassMoves(c, a3, s, o, t, Examined(false, s.cursor, v), Search({1}), Effect(s, Some(Snapped(false, s.cursor, v, {1}))));
    assert acts + ps == a3 + [ps[3]];
  }

  lemma ListingAfterReset(db: Db, owner: Name, r1: Record, r2: Record)
    requires db.records == map[1 := r1, 2 := r2] && db.lastSeq == 2
    requires r1 == Record(owner, DefaultInbox, 1, 1, true, false) && r2 == r1.(validity := 2)
    ensures var ids := Listed(db, owner, []); Gone(db, ids, 1, 1, {1}) == [(2, r2)] && SyncedCount(db, ids, 1, 1, {1}) == 2
  {
    assert ListedUpTo(db, owner, [], 1) == [1];
    assert Listed(db, owner, []) == [1, 2];
    assert [1, 2][..1] == [1] && [1][..0] == [];
    assert Judge(r1, 1, 1, {1}) == Keep && Judge(r2, 1, 1, {1}) == Retract;
    assert Gone(db, [1], 1, 1, {1}) == [];
    assert SyncedCount(db, [1], 1, 1, {1}) == SyncedCount(db, [], 1, 1, {1}) + 1;
  }

  /** The listing that follows the reset picks the new message's record, and the pass removes it. */
  lemma PassRemovesNewRecord(c: Config, acts: seq<Action>, s: Shared, r1: Record, r2: Record)
    requires s.db.records == map[1 := r1, 2 := r2] && s.db.lastSeq == 2
    requires r1 == Record(c.owner, DefaultInbox, 1, 1, true, false) && r2 == r1.(validity := 2)
    requires c.inbox == [] && c.cap.capFloor == 5
    requires Run(c, acts) == Some(World(s, map[1 := Snapped(false, Cursor(1, 1), 1, {1})]))
    ensures Run(c, acts + [InPass(1, ListStore), InPass(1, Remove(true))])
              == Some(World(s.(db := InboundDb.RemoveSynced(s.db, c.owner, c.inbox, 2)), map[1 := Removing(false, [])]))
  {
    ListingAfterReset(s.db, c.owner, r1, r2);
    var snapped, removing := Snapped(false, Cursor(1, 1), 1, {1}), Removing(false, [(2, r2)]);
    assert !CapExceeded(c.cap, 1, 2);
    var o: map<nat, Thread> := map[];
    PassMoves(c, acts, s, o, 1, snapped, ListStore, Effect(s, Some(removing)));
    var s' := s.(db := InboundDb.RemoveSynced(s.db, c.owner, c.inbox, 2));
    assert removing.gone[1..] == [];
    PassMoves(c, acts + [InPass(1, ListStore)], s, o, 1, removing, Remove(true), Effect(s', Some(Removing(false, []))));
    assert acts + [InPass(1, ListStore), InPass(1, Remove(true))] == acts + [InPass(1, ListStore)] + [InPass(1, Remove(true))];
  }

  function UntilSnapshot(): seq<Action>
  {
    [AtUpstream(Arrive(1, 0))] + SyncOnce(0) + PassUntilSnapshot(1)
  }

  function UntilListing(): seq<Action>
  {
    UntilSnapshot() + [AtUpstream(Reset(2))] + [AtUpstream(Arrive(1, 0))] + SyncOnce(2)
  }

  lemma FirstArrives(c: Config)
    ensures Run(c, [AtUpstream(Arrive(1, 0))])
              == Some(World(Shared(Upstream(1, 2, map[1 := 0]), Db(map[], map[], 0), Cursor(0, 0), Latch(false, 0), 0), map[]))
  {
    var a := AtUpstream(Arrive(1, 0));
    RunSnoc(c, [], a);
    assert [] + [a] == [a];
  }

  lemma FirstIsSynced()
    ensures var c := LossConfig();
            Run(c, [AtUpstream(Arrive(1, 0))] + SyncOnce(0))
              == Some(World(Shared(Upstream(1, 2, map[1 := 0]), InboundDb.AddSynced(Db(map[], map[], 0), Delivery([1], [], 1, 1), true),
                                   Cursor(1, 1), Latch(false, 0), 0), map[]))
  {
    var c := LossConfig();
    FirstArrives(c);
    var s := Shared(Upstream(1, 2, map[1 := 0]), Db(map[], map[], 0), Cursor(0, 0), Latch(false, 0), 0);
    SyncOnceStores(c, [AtUpstream(Arrive(1, 0))], s, map[], 0);
  }

  lemma LossRunUntilSnapshot()
    ensures var c, acts, db0 := LossConfig(), UntilSnapshot(), Db(map[], map[], 0);
            Run(c, acts) == Some(World(Shared(Upstream(1, 2, map[1 := 0]), InboundDb.AddSynced(db0, Delivery([1], [], 1, 1), true),
                                              Cursor(1, 1), Latch(false, 0), 0),
                                       map[1 := Snapped(false, Cursor(1, 1), 1, {1})]))
  {
    FirstIsSynced();
    PassTakesSnapshot(LossConfig(), [AtUpstream(Arrive(1, 0))] + SyncOnce(0), 1);
  }

  /** The world the loss run is in when its pass lists the store. */
  lemma LossRunUntilListing()
    ensures var c, acts := LossConfig(), UntilListing();
            var r1 := Record([1], DefaultInbox, 1, 1, true, false);
            && Run(c, acts).Some?
            && var w := Run(c, acts).value;
            && w.shared.up == Upstream(2, 2, map[1 := 0]) && w.shared.cursor == Cursor(2, 1)
            && w.shared.db.records == map[1 := r1, 2 := r1.(validity := 2)] && w.shared.db.lastSeq == 2
            && w.threads == map[1 := Snapped(false, Cursor(1, 1), 1, {1})]
  {
    var c := LossConfig();
    LossRunUntilSnapshot();
    var a3 := UntilSnapshot();
    RunSnoc(c, a3, AtUpstream(Reset(2)));
    var a4 := a3 + [AtUpstream(Reset(2))];
    RunSnoc(c, a4, AtUpstream(Arrive(1, 0)));
    var a5 := a4 + [AtUpstream(Arrive(1, 0))];
    SyncedKeyInjective([1], [], 1, 1, [1], [], 2, 1);
    SyncOnceStores(c, a5, Run(c, a5).value.shared, Run(c, a5).value.threads, 2);
  }

  lemma LossRunEnds()
    ensures var w := Run(LossConfig(), LossRun());
            && w.Some?
            && w.value.shared.cursor == Cursor(2, 1) && w.value.shared.up == Upstream(2, 2, map[1 := 0])
            && w.value.shared.db.records.Keys == {1} && w.value.shared.db.records[1].validity == 1
  {
    var c := LossConfig();
    LossRunUntilListing();
    var s := Run(c, UntilListing()).value.shared;
    PassRemovesNewRecord(c, UntilListing(), s, s.db.records[1], s.db.records[2]);
    assert LossRun() == UntilListing() + [InPass(1, ListStore), InPass(1, Remove(true))];
  }

  /** Without calm mail is lost: this run ends with a message upstream, behind the cursor, and unstored. */
  lemma ResetInWindowLosesMail()
    ensures var w := Run(LossConfig(), LossRun());
            && w.Some?
            && w.value.shared.cursor == Cursor(2, 1) && w.value.shared.up.validity == 2
            && 1 in w.value.shared.up.present
            && !Stored(LossConfig(), w.value.shared, 1)
    ensures !Calm(LossConfig(), LossRun())
  {
    LossRunEnds();
    if Calm(LossConfig(), LossRun()) {
      RunKeepsInv(LossConfig(), LossRun());
    }
  }

  /** With eager assessment every record of the inbox is stored with its body. */
  predicate NothingPending(c: Config, db: Db)
  {
    forall id :: id in db.records && Scoped(db.records[id], c.owner, c.inbox) ==> !db.records[id].pending
  }

  lemma {:induction false} EagerRunsAreCalm(c: Config, acts: seq<Action>)
    requires c.eager
    ensures Calm(c, acts)
    ensures Run(c, acts).Some? ==> NothingPending(c, Run(c, acts).value.shared.db)
  {
    if acts != [] {
      EagerRunsAreCalm(c, acts[..|acts| - 1]);
      if Run(c, acts).Some? {
        StepKeepsNothingPending(c, Run(c, acts[..|acts| - 1]).value, acts[|acts| - 1]);
      }
    }
  }

  lemma SyncKeepsNothingPending(c: Config, s: Shared, t: Option<Thread>, x: SyncAction)
    requires c.eager && SyncStep(c, s, t, x).Some? && NothingPending(c, s.db)
    ensures NothingPending(c, SyncStep(c, s, t, x).value.shared.db)
  {
  }

  lemma ContentKeepsNothingPending(c: Config, s: Shared, t: Option<Thread>, x: ContentAction)
    requires ContentStep(c, s, t, x).Some? && NothingPending(c, s.db)
    ensures NothingPending(c, ContentStep(c, s, t, x).value.shared.db)
  {
  }

  lemma OthersKeepNothingPending(c: Config, s: Shared, x: StoreAction)
    requires c.eager && StoreStep(c, s, x).Some? && NothingPending(c, s.db)
    ensures NothingPending(c, StoreStep(c, s, x).value.db)
  {
  }

  lemma StepKeepsNothingPending(c: Config, w: World, a: Action)
    requires c.eager && Step(c, w, a).Some? && NothingPending(c, w.shared.db)
    ensures NothingPending(c, Step(c, w, a).value.shared.db)
  {
    match a
    case InSync(t, x) => SyncKeepsNothingPending(c, w.shared, ThreadAt(w, t), x);
    case InPass(t, x) =>
    case InContent(t, x) => ContentKeepsNothingPending(c, w.shared, ThreadAt(w, t), x);
    case Elsewhere(x) => OthersKeepNothingPending(c, w.shared, x);
    case _ =>
  }

  // ---- The safety cap and its latch ----

  /** Positions of an ordinary or bypassed pass after its latch check. */
  predicate PastLatch(t: Thread)
  {
    t.Unlatched? || t.CursorRead? || t.Examined? || t.Snapped? || t.Latching? || t.Removing?
  }

  predicate Bypassing(t: Thread)
  {
    t.Starting? || ((t.Unlatched? || t.CursorRead? || t.Examined? || t.Snapped? || t.Removing?) && t.bypass)
  }

  /** What a step takes out of the store. */
  function Taken(w: World, w': World): set<nat>
  {
    w.shared.db.records.Keys - w'.shared.db.records.Keys
  }

  /** The ids that thread t takes out of the store in a run from w, up to the step in which it ends. */
  function RemovedBy(c: Config, w: World, more: seq<Action>, t: nat): set<nat>
    decreases |more|
  {
    if more == [] || t !in w.threads || Step(c, w, more[0]).None? then {}
    else
      var w' := Step(c, w, more[0]).value;
      (if more[0].InPass? && more[0].t == t then Taken(w, w') else {}) + RemovedBy(c, w', more[1..], t)
  }

  function IdsOf(gone: seq<(nat, Record)>): set<nat>
  {
    set i | 0 <= i < |gone| :: gone[i].0
  }

  lemma {:induction false} NoMoreIdsThanEntries(gone: seq<(nat, Record)>)
    ensures |IdsOf(gone)| <= |gone|
  {
    if gone == [] {
      assert IdsOf(gone) == {};
    } else {
      var init, last := gone[..|gone| - 1], gone[|gone| - 1];
      NoMoreIdsThanEntries(init);
      assert forall i :: 0 <= i < |gone| ==> if i < |init| then gone[i] == init[i] else gone[i] == last;
      assert IdsOf(gone) == IdsOf(init) + {last.0};
    }
  }

  lemma {:induction false} SubsetIsNoLarger(a: set<nat>, b: set<nat>)
    requires a <= b
    ensures |a| <= |b|
  {
    if a != {} {
      var x :| x in a;
      SubsetIsNoLarger(a - {x}, b - {x});
    }
  }

  lemma IdsOfTail(gone: seq<(nat, Record)>)
    requires gone != []
    ensures IdsOf(gone[1..]) <= IdsOf(gone) && gone[0].0 in IdsOf(gone)
  {
    forall i | 0 <= i < |gone[1..]|
      ensures gone[1..][i].0 in IdsOf(gone)
    {
      assert gone[1..][i] == gone[i + 1];
    }
  }

  /** What a thread that is removing, or about to latch, can still be asked to remove. */
  function StillToRemove(t: Thread): set<nat>
  {
    if t.Removing? then IdsOf(t.gone) else {}
  }

  /** A step leaves such a thread with no more to remove, and takes only what it had. */
  lemma StepOfRemoving(c: Config, w: World, a: Action, t: nat)
    requires Step(c, w, a).Some? && t in w.threads && (w.threads[t].Removing? || w.threads[t].Latching?)
    ensures var w' := Step(c, w, a).value;
            && (t in w'.threads ==>
                  (w'.threads[t].Removing? || w'.threads[t].Latching?) && StillToRemove(w'.threads[t]) <= StillToRemove(w.threads[t]))
            && (a.InPass? && a.t == t ==> Taken(w, w') <= StillToRemove(w.threads[t]))
  {
    if a.InPass? && a.t == t && w.threads[t].Removing? && w.threads[t].gone != [] {
      IdsOfTail(w.threads[t].gone);
    }
  }

  lemma {:induction false} RemovesOnlyWhatItHad(c: Config, w: World, more: seq<Action>, t: nat)
    requires t in w.threads && (w.threads[t].Removing? || w.threads[t].Latching?)
    ensures RemovedBy(c, w, more, t) <= StillToRemove(w.threads[t])
    decreases |more|
  {
    if more != [] && Step(c, w, more[0]).Some? {
      StepOfRemoving(c, w, more[0], t);
      var w' := Step(c, w, more[0]).value;
      if t in w'.threads {
        RemovesOnlyWhatItHad(c, w', more[1..], t);
      }
    }
  }

  /** The candidates a pass at its snapshot would list, and the synced set they are measured against. */
  function ListedGone(c: Config, db: Db, at: Thread): seq<(nat, Record)>
    requires at.Snapped?
  {
    Gone(db, Listed(db, c.owner, c.inbox), at.session, at.cursor.last, at.present)
  }

  function ListedSynced(c: Config, db: Db, at: Thread): nat
    requires at.Snapped?
  {
    SyncedCount(db, Listed(db, c.owner, c.inbox), at.session, at.cursor.last, at.present)
  }

  /**
  Whatever runs beside it, an ordinary pass that lists the store removes from then on, until it
  ends, only candidates of that listing; it removes nothing unless their number is within the cap of
  the synced set of that listing, so what it removes is within the cap too; and where the fraction
  is below one it removes nothing when every synced record, at least the floor, would go.
  */
  lemma OrdinaryPassesStayWithinCap(c: Config, w: World, t: nat, more: seq<Action>)
    requires t in w.threads && w.threads[t].Snapped? && !w.threads[t].bypass
    ensures Step(c, w, InPass(t, ListStore)).Some?
    ensures var gone, synced := ListedGone(c, w.shared.db, w.threads[t]), ListedSynced(c, w.shared.db, w.threads[t]);
            var removed := RemovedBy(c, Step(c, w, InPass(t, ListStore)).value, more, t);
            && removed <= IdsOf(gone)
            && (removed != {} ==> !CapExceeded(c.cap, |gone|, synced))
            && !CapExceeded(c.cap, |removed|, synced)
            && (|gone| == synced && synced >= Floor(c.cap) && Fraction(c.cap) < 1.0 ==> removed == {})
  {
    var gone, synced := ListedGone(c, w.shared.db, w.threads[t]), ListedSynced(c, w.shared.db, w.threads[t]);
    var w' := Step(c, w, InPass(t, ListStore)).value;
    var removed := RemovedBy(c, w', more, t);
    RemovesOnlyWhatItHad(c, w', more, t);
    NoMoreIdsThanEntries(gone);
    SubsetIsNoLarger(removed, IdsOf(gone));
    GoneAreRetracted(w.shared.db, Listed(w.shared.db, c.owner, c.inbox), w.threads[t].session, w.threads[t].cursor.last, w.threads[t].present);
    CapBites(c.cap, |gone|, synced);
  }

  predicate ClearsLatch(a: Action)
  {
    a.InPass? && a.p.ClearLatch?
  }

  predicate NoneClears(acts: seq<Action>)
  {
    forall i :: 0 <= i < |acts| ==> !ClearsLatch(acts[i])
  }

  lemma StepUnderLatch(c: Config, w: World, a: Action)
    requires Step(c, w, a).Some? && !ClearsLatch(a)
    ensures var w' := Step(c, w, a).value;
            && (w.shared.latch.suspended ==> w'.shared.latch.suspended)
            && (w.shared.latch.suspended ==>
                  forall t :: t in w'.threads && PastLatch(w'.threads[t]) ==> t in w.threads && PastLatch(w.threads[t]))
            && (forall t :: t in w'.threads && Bypassing(w'.threads[t]) ==> t in w.threads && Bypassing(w.threads[t]))
  {
    match a
    case InSync(t, x) =>
    case InPass(t, x) =>
    case InContent(t, x) =>
    case _ =>
  }

  /**
  From a latched state, until an operator release clears the latch: the latch holds through any
  syncs, and every pass still going had already checked the latch before it was set.
  */
  lemma {:induction false} LatchHoldsUntilCleared(c: Config, acts: seq<Action>, more: seq<Action>)
    requires Run(c, acts).Some? && Run(c, acts).value.shared.latch.suspended
    requires NoneClears(more) && Run(c, acts + more).Some?
    ensures var w, w' := Run(c, acts).value, Run(c, acts + more).value;
            && w'.shared.latch.suspended
            && forall t :: t in w'.threads && PastLatch(w'.threads[t]) ==> t in w.threads && PastLatch(w.threads[t])
  {
    if more == [] {
      assert acts + more == acts;
    } else {
      var init := more[..|more| - 1];
      assert acts + more == (acts + init) + [more[|more| - 1]];
      RunSnoc(c, acts + init, more[|more| - 1]);
      assert NoneClears(init);
      LatchHoldsUntilCleared(c, acts, init);
      StepUnderLatch(c, Run(c, acts + init).value, more[|more| - 1]);
    }
  }

  /** Without a release in between, a pass that bypasses the cap belongs to an earlier release: a failed one leaves no licence. */
  lemma {:induction false} BypassComesOnlyFromRelease(c: Config, acts: seq<Action>, more: seq<Action>)
    requires Run(c, acts).Some? && NoneClears(more) && Run(c, acts + more).Some?
    ensures var w, w' := Run(c, acts).value, Run(c, acts + more).value;
            forall t :: t in w'.threads && Bypassing(w'.threads[t]) ==> t in w.threads && Bypassing(w.threads[t])
  {
    if more == [] {
      assert acts + more == acts;
    } else {
      var init := more[..|more| - 1];
      assert acts + more == (acts + init) + [more[|more| - 1]];
      RunSnoc(c, acts + init, more[|more| - 1]);
      assert NoneClears(init);
      BypassComesOnlyFromRelease(c, acts, init);
      StepUnderLatch(c, Run(c, acts + init).value, more[|more| - 1]);
    }
  }

  /** In some state of the run so far the inbox was latched. */
  predicate LatchedAt(c: Config, acts: seq<Action>, k: nat)
    requires k <= |acts|
  {
    Run(c, acts[..k]).Some? && Run(c, acts[..k]).value.shared.latch.suspended
  }

  ghost predicate WasLatched(c: Config, acts: seq<Action>)
  {
    exists k :: 0 <= k <= |acts| && LatchedAt(c, acts, k)
  }

  lemma LatchedBefore(c: Config, acts: seq<Action>, a: Action, k: nat)
    requires k <= |acts| && LatchedAt(c, acts, k)
    ensures LatchedAt(c, acts + [a], k)
  {
    assert (acts + [a])[..k] == acts[..k];
  }

  predicate Uncapped(w: World, t: nat)
  {
    t in w.threads && (Bypassing(w.threads[t]) || w.threads[t].Releasing?)
  }

  lemma StepToUncapped(c: Config, w: World, a: Action, t: nat)
    requires Step(c, w, a).Some? && Uncapped(Step(c, w, a).value, t)
    ensures Uncapped(w, t) || w.shared.latch.suspended
  {
    match a
    case InSync(_, x) =>
    case InPass(_, x) =>
    case InContent(_, x) =>
    case _ =>
  }

  /** In every run, a pass that bypasses the cap, or a release about to start one, was preceded by a latched state. */
  lemma {:induction false} UncappedOnlyAfterLatch(c: Config, acts: seq<Action>, t: nat)
    requires Run(c, acts).Some? && Uncapped(Run(c, acts).value, t)
    ensures WasLatched(c, acts)
  {
    var init, a := acts[..|acts| - 1], acts[|acts| - 1];
    assert acts == init + [a];
    var w := Run(c, init).value;
    StepToUncapped(c, w, a, t);
    if Uncapped(w, t) {
      UncappedOnlyAfterLatch(c, init, t);
      var k :| 0 <= k <= |init| && LatchedAt(c, init, k);
      LatchedBefore(c, init, a, k);
    } else {
      assert init[..|init|] == init;
      assert LatchedAt(c, init, |init|);
      LatchedBefore(c, init, a, |init|);
    }
  }
}
