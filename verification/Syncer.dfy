/**
The syncer as the object the code runs (internal/imapsync/imapsync.go, reconcile.go and state.go):
its cursor and latch in two namespaces, and each operation from start to end. What the mailbox and
the disk answer comes in as parameters.
*/
module Syncer {
  import opened SeqKey
  import opened InboundDb
  import opened InboundStore
  import opened BlobStore
  import opened UidSets
  import opened Candidates
  import opened Options
  import opened SyncWorld

  // ---- The persisted cursor and latch ----

  /** The bare mailbox for the default inbox, otherwise inbox NUL mailbox. */
  function StateKey(inbox: Name, mailbox: Name): Bytes
  {
    if inbox == DefaultInbox then mailbox else inbox + ([0] + mailbox)
  }

  lemma SeparatorShows(inbox: Name, mailbox: Name, plain: Name)
    requires NulFree(plain)
    ensures inbox + ([0] + mailbox) != plain
  {
    assert (inbox + ([0] + mailbox))[|inbox|] == 0;
  }

  lemma StateKeysDiffer(i1: Name, m1: Name, i2: Name, m2: Name)
    requires NulFree(i1) && NulFree(m1) && NulFree(i2) && NulFree(m2)
    ensures StateKey(i1, m1) == StateKey(i2, m2) <==> i1 == i2 && m1 == m2
  {
    SeparatorShows(i1, m1, m2);
    SeparatorShows(i2, m2, m1);
    if StateKey(i1, m1) == StateKey(i2, m2) && i1 != DefaultInbox && i2 != DefaultInbox {
      FirstNulSplits(i1, m1, i2, m2);
    }
  }

  class StateStore {
    var cursors: map<Bytes, Cursor>
    var latches: map<Bytes, Latch>

    function CursorAt(key: Bytes): Cursor
      reads this
    {
      if key in cursors then cursors[key] else Cursor(0, 0)
    }

    function LatchAt(key: Bytes): Latch
      reads this
    {
      if key in latches then latches[key] else Latch(false, 0)
    }

    constructor ()
      ensures cursors == map[] && latches == map[]
    {
      cursors, latches := map[], map[];
    }

    /** Saving a cursor touches no latch. */
    method Save(key: Bytes, cursor: Cursor)
      modifies this`cursors
      ensures cursors == old(cursors)[key := cursor]
    {
      cursors := cursors[key := cursor];
    }

    method SaveReconcile(key: Bytes, latch: Latch)
      modifies this`latches
      ensures latches == old(latches)[key := latch]
    {
      latches := latches[key := latch];
    }
  }

  // ---- What one uninterrupted pass does ----

  /** The removals of a pass in order; the ids in fails are those whose transaction failed or was cut off. */
  function RetractAll(c: Config, db: Db, gone: seq<(nat, Record)>, fails: set<nat>): Db
    decreases |gone|
  {
    if gone == [] then db
    else RetractAll(c, if gone[0].0 in fails then db else InboundDb.RemoveSynced(db, c.owner, c.inbox, gone[0].0), gone[1..], fails)
  }

  datatype PassResult = HeldByCap | NotHeld | ListingFailed | Skipped | Retracted

  /** What a pass leaves and reports; the snapshot is None when connecting or searching failed. */
  datatype PassOutcome = PassOutcome(db: Db, latch: Latch, result: PassResult)

  function PassAlone(c: Config, db: Db, cursor: Cursor, latch: Latch, bypass: bool,
                     snapshot: Option<(Uint32, set<Uint32>)>, fails: set<nat>): PassOutcome
  {
    if latch.suspended then PassOutcome(db, latch, HeldByCap)
    else if snapshot.None? then PassOutcome(db, latch, ListingFailed)
    else if cursor.validity != snapshot.value.0 then PassOutcome(db, latch, Skipped)
    else
      var ids := Listed(db, c.owner, c.inbox);
      var gone := Gone(db, ids, snapshot.value.0, cursor.last, snapshot.value.1);
      if !bypass && CapExceeded(c.cap, |gone|, SyncedCount(db, ids, snapshot.value.0, cursor.last, snapshot.value.1))
      then PassOutcome(db, Latch(true, |gone|), HeldByCap)
      else PassOutcome(RetractAll(c, db, gone, fails), latch, Retracted)
  }

  predicate Named(gone: seq<(nat, Record)>, id: nat)
  {
    exists i :: 0 <= i < |gone| && gone[i].0 == id
  }

  /** The removals take out the named records that are synced ones of the inbox, and leave every other as it was. */
  lemma {:induction false} RetractAllRemoves(c: Config, db: Db, gone: seq<(nat, Record)>, fails: set<nat>, id: nat)
    ensures var after := RetractAll(c, db, gone, fails);
            && (id in after.records <==> id in db.records && !(Named(gone, id) && id !in fails && Removable(db, c.owner, c.inbox, id)))
            && (id in after.records ==> after.records[id] == db.records[id])
            && after.lastSeq == db.lastSeq
    decreases |gone|
  {
    if gone != [] {
      var g := gone[0].0;
      var next := if g in fails then db else InboundDb.RemoveSynced(db, c.owner, c.inbox, g);
      RetractAllRemoves(c, next, gone[1..], fails, id);
      assert Named(gone, id) <==> g == id || Named(gone[1..], id) by {
        assert gone == [gone[0]] + gone[1..];
        if Named(gone[1..], id) {
          var i :| 0 <= i < |gone[1..]| && gone[1..][i].0 == id;
          assert gone[i + 1].0 == id;
        }
        if Named(gone, id) && g != id {
          var i :| 0 <= i < |gone| && gone[i].0 == id;
          assert gone[1..][i - 1].0 == id;
        }
      }
    }
  }

  /** The inbox's records. */
  function InboxIds(c: Config, db: Db): set<nat>
  {
    set id | id in db.records && Scoped(db.records[id], c.owner, c.inbox)
  }

  lemma ListedAreInbox(c: Config, db: Db)
    requires WellFormed(db)
    ensures SetOf(Listed(db, c.owner, c.inbox)) == InboxIds(c, db) && NoRepeats(Listed(db, c.owner, c.inbox))
  {
    ListedIsScope(db, c.owner, c.inbox);
    assert forall id :: id in SetOf(Listed(db, c.owner, c.inbox)) <==> id in InboxIds(c, db);
  }

  /**
  A pass that retracts leaves exactly the records it should: gone are the inbox's expunged and
  orphaned records whose removal did not fail, and everything else is as it was.
  */
  lemma PassRemovesExactlyGone(c: Config, db: Db, cursor: Cursor, latch: Latch, bypass: bool, present: set<Uint32>, fails: set<nat>, id: nat)
    requires WellFormed(db)
    requires PassAlone(c, db, cursor, latch, bypass, Some((cursor.validity, present)), fails).result.Retracted?
    ensures var after := PassAlone(c, db, cursor, latch, bypass, Some((cursor.validity, present)), fails).db;
            && (id in after.records <==>
                  id in db.records && (id in fails || !Scoped(db.records[id], c.owner, c.inbox)
                                       || !(Expunged(db.records[id], cursor.validity, cursor.last, present)
                                            || Orphaned(db.records[id], cursor.validity))))
            && (id in after.records ==> after.records[id] == db.records[id])
  {
    var ids := Listed(db, c.owner, c.inbox);
    var gone := Gone(db, ids, cursor.validity, cursor.last, present);
    RetractAllRemoves(c, db, gone, fails, id);
    ListedIsScope(db, c.owner, c.inbox);
    GoneAreExpungedOrOrphaned(db, ids, cursor.validity, cursor.last, present);
    if Named(gone, id) {
      var i :| 0 <= i < |gone| && gone[i].0 == id;
      assert gone[i] in gone;
    }
    if id in db.records && (id, db.records[id]) in gone {
      var i :| 0 <= i < |gone| && gone[i] == (id, db.records[id]);
      assert Named(gone, id);
    }
  }

  /** The copies of the inbox a pass has to take out, and those they are measured against. */
  function PassGone(c: Config, db: Db, cursor: Cursor, present: set<Uint32>): set<nat>
  {
    ToGo(db, InboxIds(c, db), cursor.validity, cursor.last, present)
  }

  function PassTracked(c: Config, db: Db, cursor: Cursor): set<nat>
  {
    Tracked(db, InboxIds(c, db), cursor.validity, cursor.last)
  }

  /** More than the cap lets an ordinary pass take out. */
  predicate OverCap(c: Config, db: Db, cursor: Cursor, present: set<Uint32>)
  {
    OverLimits(c.cap, |PassGone(c, db, cursor, present)|, |PassTracked(c, db, cursor)|)
  }

  /** The guards do not hold the pass back: it is not latched, has its snapshot, and the cursor is of the mailbox's validity. */
  predicate Unguarded(cursor: Cursor, latch: Latch, snapshot: Option<(Uint32, set<Uint32>)>)
  {
    !latch.suspended && snapshot.Some? && snapshot.value.0 == cursor.validity
  }

  /** Exactly the copies to go are gone, except those whose removal failed; all others are as they were. */
  ghost predicate Retracts(c: Config, db: Db, cursor: Cursor, present: set<Uint32>, fails: set<nat>, after: Db)
  {
    && after.lastSeq == db.lastSeq
    && (forall id :: id in after.records <==> id in db.records && (id !in PassGone(c, db, cursor, present) || id in fails))
    && (forall id :: id in after.records ==> after.records[id] == db.records[id])
  }

  /** What a pass does, by its guards, the cap and the copies themselves. */
  ghost predicate PassDoes(c: Config, db: Db, cursor: Cursor, latch: Latch, bypass: bool,
                           snapshot: Option<(Uint32, set<Uint32>)>, fails: set<nat>, after: Db, latched: Latch, result: PassResult)
  {
    if !Unguarded(cursor, latch, snapshot) then
      && after == db && latched == latch
      && result == if latch.suspended then HeldByCap else if snapshot.None? then ListingFailed else Skipped
    else if !bypass && OverCap(c, db, cursor, snapshot.value.1) then
      after == db && latched == Latch(true, |PassGone(c, db, cursor, snapshot.value.1)|) && result == HeldByCap
    else
      Retracts(c, db, cursor, snapshot.value.1, fails, after) && latched == latch && result == Retracted
  }

  lemma ListSizes(c: Config, db: Db, cursor: Cursor, present: set<Uint32>)
    requires WellFormed(db)
    ensures var ids := Listed(db, c.owner, c.inbox);
            && |Gone(db, ids, cursor.validity, cursor.last, present)| == |PassGone(c, db, cursor, present)|
            && SyncedCount(db, ids, cursor.validity, cursor.last, present) == |PassTracked(c, db, cursor)|
  {
    ListedAreInbox(c, db);
    CountsAreSizes(db, Listed(db, c.owner, c.inbox), cursor.validity, cursor.last, present);
  }

  /** The cap as the pass computes it is the one over the copies. */
  lemma CapIsOver(c: Config, db: Db, cursor: Cursor, present: set<Uint32>, gone: nat, synced: nat)
    requires gone == |PassGone(c, db, cursor, present)| && synced == |PassTracked(c, db, cursor)|
    ensures CapExceeded(c.cap, gone, synced) <==> OverCap(c, db, cursor, present)
  {
    CapMeans(c.cap, gone, synced);
  }

  lemma PassAloneDoes(c: Config, db: Db, cursor: Cursor, latch: Latch, bypass: bool, snapshot: Option<(Uint32, set<Uint32>)>, fails: set<nat>)
    requires WellFormed(db)
    ensures var p := PassAlone(c, db, cursor, latch, bypass, snapshot, fails);
            PassDoes(c, db, cursor, latch, bypass, snapshot, fails, p.db, p.latch, p.result)
  {
    if Unguarded(cursor, latch, snapshot) {
      var present := snapshot.value.1;
      var ids := Listed(db, c.owner, c.inbox);
      ListSizes(c, db, cursor, present);
      CapIsOver(c, db, cursor, present, |Gone(db, ids, cursor.validity, cursor.last, present)|,
                SyncedCount(db, ids, cursor.validity, cursor.last, present));
      if bypass || !OverCap(c, db, cursor, present) {
        PassRetracts(c, db, cursor, latch, bypass, present, fails);
      }
    }
  }

  lemma PassRetracts(c: Config, db: Db, cursor: Cursor, latch: Latch, bypass: bool, present: set<Uint32>, fails: set<nat>)
    requires WellFormed(db)
    requires PassAlone(c, db, cursor, latch, bypass, Some((cursor.validity, present)), fails).result.Retracted?
    ensures Retracts(c, db, cursor, present, fails, PassAlone(c, db, cursor, latch, bypass, Some((cursor.validity, present)), fails).db)
  {
    var gone := Gone(db, Listed(db, c.owner, c.inbox), cursor.validity, cursor.last, present);
    RetractAllRemoves(c, db, gone, fails, 0);
    forall id: nat
      ensures var after := PassAlone(c, db, cursor, latch, bypass, Some((cursor.validity, present)), fails).db;
              && (id in after.records <==> id in db.records && (id !in PassGone(c, db, cursor, present) || id in fails))
              && (id in after.records ==> after.records[id] == db.records[id])
    {
      PassRemovesExactlyGone(c, db, cursor, latch, bypass, present, fails, id);
    }
  }

  // ---- What one uninterrupted sync does ----

  /** One message of the FETCH stream: collected or not, its sanitized body, and the blob write's fate. */
  datatype Fetched = Fetched(uid: Uint32, collected: bool, clean: Option<Bytes>, fault: Fault)

  function AddAll(c: Config, db: Db, session: Uint32, last: Uint32, feed: seq<Fetched>): Db
  {
    if feed == [] then db
    else
      var before := AddAll(c, db, session, last, feed[..|feed| - 1]);
      var uid := feed[|feed| - 1].uid;
      if uid <= last then before else InboundDb.AddSynced(before, Delivery(c.owner, c.inbox, uid, session), !c.eager)
  }

  lemma AddingOneMore(c: Config, db: Db, session: Uint32, uid: Uint32)
    requires KnownEntriesGrounded(db) && NamesOk(c.owner, c.inbox) && session != 0
    ensures var after := InboundDb.AddSynced(db, Delivery(c.owner, c.inbox, uid, session), !c.eager);
            && KnownEntriesGrounded(after)
            && (uid != 0 ==> HasRecord(after, c.owner, c.inbox, session, uid))
            && (forall u :: HasRecord(db, c.owner, c.inbox, session, u) ==> HasRecord(after, c.owner, c.inbox, session, u))
  {
    var d := Delivery(c.owner, c.inbox, uid, session);
    var after := InboundDb.AddSynced(db, d, !c.eager);
    AddSyncedKeeps(db, d, !c.eager);
    if uid != 0 {
      AddLeavesRecord(db, d, !c.eager);
    }
    forall u | HasRecord(db, c.owner, c.inbox, session, u)
      ensures HasRecord(after, c.owner, c.inbox, session, u)
    {
      var id :| id in db.records && AtCoordinate(db.records[id], c.owner, c.inbox, session, u);
      assert id in after.records && after.records[id] == db.records[id];
    }
  }

  /** Every message of the stream past the cursor has a record afterwards, and so has every one that had. */
  lemma {:induction false} AddAllLeavesRecords(c: Config, db: Db, session: Uint32, last: Uint32, feed: seq<Fetched>)
    requires KnownEntriesGrounded(db) && NamesOk(c.owner, c.inbox) && session != 0
    ensures var after := AddAll(c, db, session, last, feed);
            && KnownEntriesGrounded(after)
            && (forall k :: 0 <= k < |feed| && feed[k].uid > last ==> HasRecord(after, c.owner, c.inbox, session, feed[k].uid))
            && (forall u :: HasRecord(db, c.owner, c.inbox, session, u) ==> HasRecord(after, c.owner, c.inbox, session, u))
  {
    if feed != [] {
      var init := feed[..|feed| - 1];
      AddAllLeavesRecords(c, db, session, last, init);
      AddingOneMore(c, AddAll(c, db, session, last, init), session, feed[|feed| - 1].uid);
      assert forall k :: 0 <= k < |init| ==> init[k] == feed[k];
    }
  }

  /** The highest UID met in the stream, or last when none passes it. */
  function Highest(last: Uint32, feed: seq<Fetched>): (h: Uint32)
    ensures h >= last && forall k :: 0 <= k < |feed| ==> feed[k].uid <= h
    ensures h == last || exists k :: 0 <= k < |feed| && feed[k].uid == h
  {
    if feed == [] then last
    else
      var init, uid := feed[..|feed| - 1], feed[|feed| - 1].uid;
      assert feed == init + [feed[|feed| - 1]];
      if uid > Highest(last, init) then uid else Highest(last, init)
  }

  /**
  Where a finished sync leaves the cursor: under the session's validity; at UIDNEXT - 1 when UIDNEXT
  is known, was not yet reached, and no UID at or past it was met; never behind where it was, or, with
  a cutoff, behind UIDNEXT - 1; and past every UID met.
  */
  predicate Arrives(cursor: Cursor, session: Uint32, uidNext: Uint32, last: Uint32, cutoff: bool, feed: seq<Fetched>)
  {
    && cursor.validity == session
    && (uidNext > 0 && last <= uidNext - 1 && (forall k :: 0 <= k < |feed| ==> feed[k].uid < uidNext) ==> cursor.last == uidNext - 1)
    && (uidNext > 0 ==> cursor.last >= uidNext - 1)
    && (!cutoff || uidNext == 0 || last <= uidNext - 1 ==> cursor.last >= last)
  }

  // ---- The object itself ----

  class Syncer {
    const cfg: Config
    const mailbox: Name
    const store: Store
    const state: StateStore

    constructor (cfg: Config, mailbox: Name, store: Store, state: StateStore)
      ensures this.cfg == cfg && this.mailbox == mailbox && this.store == store && this.state == state
    {
      this.cfg, this.mailbox, this.store, this.state := cfg, mailbox, store, state;
    }

    function Key(): Bytes
    {
      StateKey(cfg.inbox, mailbox)
    }

    method RemoveGone(gone: seq<(nat, Record)>, fails: set<nat>) returns (removed: nat)
      modifies store, store.blobs
      ensures store.Snapshot() == RetractAll(cfg, old(store.Snapshot()), gone, fails)
      ensures removed == |old(store.records)| - |store.records|
    {
      removed := 0;
      for i := 0 to |gone|
        invariant RetractAll(cfg, store.Snapshot(), gone[i..], fails) == RetractAll(cfg, old(store.Snapshot()), gone, fails)
        invariant removed == |old(store.records)| - |store.records|
      {
        assert gone[i..][1..] == gone[i + 1..];
        var id := gone[i].0;
        if id !in fails {
          ghost var before := store.records;
          var r := store.RemoveSynced(cfg.owner, cfg.inbox, id, false);
          if r.Done? {
            assert before.Keys == store.records.Keys + {id};
            assert |before.Keys| == |before| && |store.records.Keys| == |store.records|;
            removed := removed + 1;
          }
        }
      }
    }

    method SelectListed(cursor: Cursor, present: set<Uint32>) returns (gone: seq<(nat, Record)>, synced: nat)
      ensures var db := store.Snapshot();
              && gone == Gone(db, Listed(db, cfg.owner, cfg.inbox), cursor.validity, cursor.last, present)
              && synced == SyncedCount(db, Listed(db, cfg.owner, cfg.inbox), cursor.validity, cursor.last, present)
    {
      var ids := store.List(cfg.owner, cfg.inbox);
      ListedUpToIsScan(store.Snapshot(), cfg.owner, cfg.inbox, store.lastSeq);
      gone, synced := SelectCandidates(store.Snapshot(), ids, cursor.validity, cursor.last, present);
    }

    /** The part of a pass after its guards: select, check the cap, and latch or retract. */
    method Settle(bypass: bool, cursor: Cursor, present: set<Uint32>, fails: set<nat>) returns (r: PassResult, removed: nat)
      requires !state.LatchAt(Key()).suspended
      modifies store, store.blobs, state`latches
      ensures var p := PassAlone(cfg, old(store.Snapshot()), cursor, old(state.LatchAt(Key())), bypass, Some((cursor.validity, present)), fails);
              && store.Snapshot() == p.db && r == p.result
              && state.latches == if r.HeldByCap? then old(state.latches)[Key() := p.latch] else old(state.latches)
      ensures removed == |old(store.records)| - |store.records|
    {
      var gone, synced := SelectListed(cursor, present);
      if !bypass && CapExceeded(cfg.cap, |gone|, synced) {
        state.SaveReconcile(Key(), Latch(true, |gone|));
        return HeldByCap, 0;
      }
      removed := RemoveGone(gone, fails);
      return Retracted, removed;
    }

    method Reconcile(bypass: bool, snapshot: Option<(Uint32, set<Uint32>)>, fails: set<nat>) returns (r: PassResult, removed: nat)
      modifies store, store.blobs, state`latches
      ensures var p := PassAlone(cfg, old(store.Snapshot()), state.CursorAt(Key()), old(state.LatchAt(Key())), bypass, snapshot, fails);
              && store.Snapshot() == p.db && state.LatchAt(Key()) == p.latch && r == p.result
      ensures old(WellFormed(store.Snapshot())) ==>
                PassDoes(cfg, old(store.Snapshot()), state.CursorAt(Key()), old(state.LatchAt(Key())), bypass, snapshot, fails,
                         store.Snapshot(), state.LatchAt(Key()), r)
      ensures forall k :: k != Key() ==> state.LatchAt(k) == old(state.LatchAt(k))
      ensures removed == |old(store.records)| - |store.records|
    {
      if WellFormed(store.Snapshot()) {
        PassAloneDoes(cfg, store.Snapshot(), state.CursorAt(Key()), state.LatchAt(Key()), bypass, snapshot, fails);
      }
      var latch := state.LatchAt(Key());
      if latch.suspended {
        return HeldByCap, 0;
      }
      var loaded := state.CursorAt(Key());
      if snapshot.None? {
        return ListingFailed, 0;
      }
      var (validity, present) := snapshot.value;
      if loaded.validity != validity {
        return Skipped, 0;
      }
      r, removed := Settle(bypass, loaded, present, fails);
    }

    method ReleaseReconcile(snapshot: Option<(Uint32, set<Uint32>)>, fails: set<nat>) returns (r: PassResult, removed: nat)
      modifies store, store.blobs, state`latches
      ensures var p := PassAlone(cfg, old(store.Snapshot()), state.CursorAt(Key()), Latch(false, 0), true, snapshot, fails);
              if old(state.LatchAt(Key())).suspended
              then store.Snapshot() == p.db && r == p.result && state.LatchAt(Key()) == Latch(false, 0)
              else store.Snapshot() == old(store.Snapshot()) && r == NotHeld && state.latches == old(state.latches)
      ensures old(WellFormed(store.Snapshot())) && old(state.LatchAt(Key())).suspended ==>
                PassDoes(cfg, old(store.Snapshot()), state.CursorAt(Key()), Latch(false, 0), true, snapshot, fails,
                         store.Snapshot(), state.LatchAt(Key()), r)
    {
      if !state.LatchAt(Key()).suspended {
        return NotHeld, 0;
      }
      state.SaveReconcile(Key(), Latch(false, 0));
      r, removed := Reconcile(true, snapshot, fails);
    }

    /** None is a failure somewhere in the stream; what came before it stays stored. */
    method Pull(session: Uint32, last: Uint32, ceiling: Uint32, feed: seq<Fetched>, closes: bool) returns (highest: Option<Uint32>, n: nat)
      modifies store, store.blobs
      ensures n <= |feed| && store.Snapshot() == AddAll(cfg, old(store.Snapshot()), session, last, feed[..n])
      ensures highest.Some? ==> n == |feed| && closes && highest.value == Max(Highest(last, feed), ceiling)
    {
      var top := last;
      n := 0;
      while n < |feed|
        invariant n <= |feed| && store.Snapshot() == AddAll(cfg, old(store.Snapshot()), session, last, feed[..n])
        invariant top == Highest(last, feed[..n])
      {
        assert feed[..n + 1][..n] == feed[..n];
        var m := feed[n];
        if !m.collected {
          return None, n;
        }
        if m.uid > last {
          var r := store.AddSynced(Delivery(cfg.owner, cfg.inbox, m.uid, session), !cfg.eager, m.clean, m.fault);
          if r.Failed? {
            return None, n;
          }
          if m.uid > top {
            top := m.uid;
          }
        }
        n := n + 1;
      }
      assert feed[..n] == feed;
      if !closes {
        return None, n;
      }
      return Some(Max(top, ceiling)), n;
    }

    /**
    A whole sync against one SELECT answer. A failed one leaves the cursor; a finished one moves it
    to the highest UID met or the ceiling covered, and by then every message of the stream is stored.
    */
    method Sync(session: Uint32, uidNext: Uint32, found: Option<seq<Uint32>>, feed: seq<Fetched>, closes: bool) returns (ok: bool)
      modifies store, store.blobs, state`cursors
      ensures forall k :: k != Key() ==> state.CursorAt(k) == old(state.CursorAt(k))
      ensures !ok ==> state.CursorAt(Key()) == old(state.CursorAt(Key()))
      ensures var from := old(state.CursorAt(Key()));
              var last := if from.validity != session then 0 else from.last;
              var plan := PlanOf(cfg.maxAge > 0, if found.Some? then found.value else [], uidNext, last);
              && (exists n :: 0 <= n <= |feed| && store.Snapshot() == AddAll(cfg, old(store.Snapshot()), session, last, feed[..n]))
              && (ok && plan.request.Nothing? ==>
                    store.Snapshot() == old(store.Snapshot()) && state.CursorAt(Key()) == Cursor(session, plan.ceiling))
              && (ok && !plan.request.Nothing? ==>
                    && store.Snapshot() == AddAll(cfg, old(store.Snapshot()), session, last, feed)
                    && state.CursorAt(Key()) == Cursor(session, Max(Highest(last, feed), plan.ceiling)))
      ensures var from := old(state.CursorAt(Key()));
              var last := if from.validity != session then 0 else from.last;
              ok ==> Arrives(state.CursorAt(Key()), session, uidNext, last, cfg.maxAge > 0, feed)
    {
      var loaded := state.CursorAt(Key());
      var last := if loaded.validity != session then 0 else loaded.last;
      assert feed[..0] == [];
      var plan, _ := PullSet(cfg.maxAge > 0, found, uidNext, last);
      if plan.None? {
        return false;
      }
      var newState;
      if plan.value.request.Nothing? {
        newState := Cursor(session, plan.value.ceiling);
      } else {
        var highest, n := Pull(session, last, plan.value.ceiling, feed, closes);
        if highest.None? {
          return false;
        }
        assert feed[..n] == feed;
        newState := Cursor(session, highest.value);
      }
      PlanIsWhatIsNew(cfg.maxAge > 0, if found.Some? then found.value else [], uidNext, last, 0);
      if newState != loaded {
        state.Save(Key(), newState);
      }
      return true;
    }
  }
}
