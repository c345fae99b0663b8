/** A sync and a reconciliation pass that nobody interrupts, against the interleaved steps. */
module SyncAlone {
  import opened InboundDb
  import opened InboundStore
  import opened Candidates
  import opened Options
  import opened SyncWorld
  import opened SyncSafety
  import opened Syncer
  import opened UidSets

  function RemoveActions(t: nat, gone: seq<(nat, Record)>, fails: set<nat>): seq<Action>
  {
    if gone == [] then [] else [InPass(t, Remove(gone[0].0 !in fails))] + RemoveActions(t, gone[1..], fails)
  }

  lemma OneRemoval(c: Config, acts: seq<Action>, s: Shared, o: map<nat, Thread>, t: nat, gone: seq<(nat, Record)>, ok: bool)
    requires gone != [] && Run(c, acts) == Some(World(s, o[t := Removing(false, gone)]))
    ensures var s' := if ok then s.(db := InboundDb.RemoveSynced(s.db, c.owner, c.inbox, gone[0].0)) else s;
            Run(c, acts + [InPass(t, Remove(ok))]) == Some(World(s', o[t := Removing(false, gone[1..])]))
  {
    var s' := if ok then s.(db := InboundDb.RemoveSynced(s.db, c.owner, c.inbox, gone[0].0)) else s;
    PassMoves(c, acts, s, o, t, Removing(false, gone), Remove(ok), Effect(s', Some(Removing(false, gone[1..]))));
  }

  lemma {:induction false} RemoveActionsShift(acts: seq<Action>, t: nat, gone: seq<(nat, Record)>, fails: set<nat>)
    requires gone != []
    ensures acts + RemoveActions(t, gone, fails) == (acts + [InPass(t, Remove(gone[0].0 !in fails))]) + RemoveActions(t, gone[1..], fails)
  {
  }

  lemma {:induction false} RemovalsInTurn(c: Config, acts: seq<Action>, s: Shared, o: map<nat, Thread>, t: nat, gone: seq<(nat, Record)>, fails: set<nat>)
    requires Run(c, acts) == Some(World(s, o[t := Removing(false, gone)]))
    ensures Run(c, acts + RemoveActions(t, gone, fails))
              == Some(World(s.(db := RetractAll(c, s.db, gone, fails)), o[t := Removing(false, [])]))
    decreases |gone|
  {
    if gone == [] {
      assert acts + RemoveActions(t, gone, fails) == acts;
    } else {
      var ok := gone[0].0 !in fails;
      var s' := if ok then s.(db := InboundDb.RemoveSynced(s.db, c.owner, c.inbox, gone[0].0)) else s;
      var next := acts + [InPass(t, Remove(ok))];
      OneRemoval(c, acts, s, o, t, gone, ok);
      RemovalsInTurn(c, next, s', o, t, gone[1..], fails);
      RemoveActionsShift(acts, t, gone, fails);
    }
  }

  function PassOpening(t: nat, present: set<Uint32>): seq<Action>
  {
    [InPass(t, Start)] + [InPass(t, LoadCursor)] + [InPass(t, Examine)] + [InPass(t, Search(present))]
  }

  lemma SnapshotInTurn(c: Config, acts: seq<Action>, s: Shared, o: map<nat, Thread>, t: nat)
    requires t !in o && Run(c, acts) == Some(World(s, o))
    requires !s.latch.suspended && s.cursor.validity == s.up.validity
    ensures Run(c, acts + PassOpening(t, s.up.present.Keys))
              == Some(World(s, o[t := Snapped(false, s.cursor, s.up.validity, s.up.present.Keys)]))
  {
    var v, present := s.up.validity, s.up.present.Keys;
    var t2, t3, t4 := CursorRead(false, s.cursor), Examined(false, s.cursor, v), Snapped(false, s.cursor, v, present);
    RunSnoc(c, acts, InPass(t, Start));
    var a := acts + [InPass(t, Start)];
    PassMoves(c, a, s, o, t, Unlatched(false), LoadCursor, Effect(s, Some(t2)));
    a := a + [InPass(t, LoadCursor)];
    PassMoves(c, a, s, o, t, t2, Examine, Effect(s, Some(t3)));
    a := a + [InPass(t, Examine)];
    PassMoves(c, a, s, o, t, t3, Search(present), Effect(s, Some(t4)));
    assert acts + PassOpening(t, present) == a + [InPass(t, Search(present))];
  }

  /** Where listing the store leaves a pass. */
  function AfterListing(c: Config, s: Shared): Thread
  {
    var ids := Listed(s.db, c.owner, c.inbox);
    var gone := Gone(s.db, ids, s.up.validity, s.cursor.last, s.up.present.Keys);
    var synced := SyncedCount(s.db, ids, s.up.validity, s.cursor.last, s.up.present.Keys);
    if CapExceeded(c.cap, |gone|, synced) then Latching(|gone|) else Removing(false, gone)
  }

  lemma ListingInTurn(c: Config, acts: seq<Action>, s: Shared, o: map<nat, Thread>, t: nat)
    requires s.cursor.validity == s.up.validity
    requires Run(c, acts) == Some(World(s, o[t := Snapped(false, s.cursor, s.up.validity, s.up.present.Keys)]))
    ensures Run(c, acts + [InPass(t, ListStore)]) == Some(World(s, o[t := AfterListing(c, s)]))
  {
    PassMoves(c, acts, s, o, t, Snapped(false, s.cursor, s.up.validity, s.up.present.Keys), ListStore, Effect(s, Some(AfterListing(c, s))));
  }

  lemma HeldPassIsARun(c: Config, acts: seq<Action>, s: Shared, o: map<nat, Thread>, t: nat, held: nat)
    requires t !in o && Run(c, acts) == Some(World(s, o[t := Latching(held)]))
    ensures Run(c, acts + [InPass(t, Suspend)]) == Some(World(s.(latch := Latch(true, held)), o))
  {
    RunSnoc(c, acts, InPass(t, Suspend));
    assert o[t := Latching(held)] - {t} == o;
  }

  lemma RetractingPassIsARun(c: Config, acts: seq<Action>, s: Shared, o: map<nat, Thread>, t: nat, gone: seq<(nat, Record)>, fails: set<nat>)
    requires t !in o && Run(c, acts) == Some(World(s, o[t := Removing(false, gone)]))
    ensures Run(c, acts + RemoveActions(t, gone, fails) + [Abandon(t)]) == Some(World(s.(db := RetractAll(c, s.db, gone, fails)), o))
  {
    RemovalsInTurn(c, acts, s, o, t, gone, fails);
    RunSnoc(c, acts + RemoveActions(t, gone, fails), Abandon(t));
    assert o[t := Removing(false, [])] - {t} == o;
  }

  /**
  A pass that nobody interrupts ends in a state some run of the interleaved steps reaches, so what
  holds of every run holds of it.
  */
  lemma AlonePassIsARun(c: Config, acts: seq<Action>, s: Shared, o: map<nat, Thread>, t: nat, fails: set<nat>) returns (more: seq<Action>)
    requires t !in o && Run(c, acts) == Some(World(s, o))
    ensures var p := PassAlone(c, s.db, s.cursor, s.latch, false, Some((s.up.validity, s.up.present.Keys)), fails);
            Run(c, acts + more) == Some(World(s.(db := p.db, latch := p.latch), o))
  {
    if s.latch.suspended || s.cursor.validity != s.up.validity {
      assert acts + [] == acts;
      return [];
    }
    var opening := PassOpening(t, s.up.present.Keys) + [InPass(t, ListStore)];
    SnapshotInTurn(c, acts, s, o, t);
    ListingInTurn(c, acts + PassOpening(t, s.up.present.Keys), s, o, t);
    assert acts + opening == acts + PassOpening(t, s.up.present.Keys) + [InPass(t, ListStore)];
    match AfterListing(c, s)
    case Latching(held) =>
      HeldPassIsARun(c, acts + opening, s, o, t, held);
      more := opening + [InPass(t, Suspend)];
      assert acts + more == acts + opening + [InPass(t, Suspend)];
    case Removing(_, gone) =>
      RetractingPassIsARun(c, acts + opening, s, o, t, gone, fails);
      more := opening + RemoveActions(t, gone, fails) + [Abandon(t)];
      assert acts + more == acts + opening + RemoveActions(t, gone, fails) + [Abandon(t)];
  }

  ghost predicate InFeed(feed: seq<Fetched>, u: Uint32)
  {
    exists k :: 0 <= k < |feed| && feed[k].uid == u
  }

  /**
  A sync whose fetch delivered every requested message that is there leaves the whole mailbox
  covered: stored, or older than the maximum age; so it may save any cursor.
  */
  lemma CompleteSyncCovers(c: Config, s: Shared, last: Uint32, reportsNext: bool, found: seq<Uint32>, feed: seq<Fetched>, upTo: nat)
    requires Sound(c, s) && CoveredUpTo(c, s, last) && SearchAnswer(c, s, found)
    requires var plan := PlanOf(c.maxAge > 0, found, if reportsNext then s.up.next else 0, last);
             forall u :: u in s.up.present && Requested(plan.request, u) ==> InFeed(feed, u)
    ensures CoveredUpTo(c, s.(db := AddAll(c, s.db, s.up.validity, last, feed)), upTo)
  {
    var s' := s.(db := AddAll(c, s.db, s.up.validity, last, feed));
    AddAllLeavesRecords(c, s.db, s.up.validity, last, feed);
    forall u | u in s'.up.present && u <= upTo
      ensures Stored(c, s', u) || TooOld(c, s', u)
    {
      if u <= last {
        assert Stored(c, s, u) || TooOld(c, s, u);
      } else if !TooOld(c, s, u) {
        PlanIsWhatIsNew(c.maxAge > 0, found, if reportsNext then s.up.next else 0, last, u);
        assert InFeed(feed, u);
      }
    }
  }
}
