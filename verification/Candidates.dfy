/**
Which local records one reconciliation pass would retract, and when the safety cap holds the pass
instead (internal/imapsync/reconcile.go).
*/
module Candidates {
  import opened InboundDb

  const DefaultFraction: real := 0.5
  const DefaultFloor: int := 5

  datatype Options = Options(capFraction: real, capFloor: int)

  datatype Verdict = Skip | Keep | Retract

  /** One record against the pass: the mailbox validity, the cursor read before the snapshot, the snapshot. */
  function Judge(r: Record, validity: Uint32, cursorUid: Uint32, present: set<Uint32>): Verdict
  {
    if r.uid == 0 || r.validity == 0 then Skip
    else if r.validity != validity then if r.pending then Retract else Skip
    else if r.uid > cursorUid then Skip
    else if r.uid in present then Keep
    else Retract
  }

  /** A copy the snapshot can tell about: the mailbox's validity, and a UID the cursor had passed before the snapshot. */
  predicate InView(r: Record, validity: Uint32, cursorUid: Uint32)
  {
    validity != 0 && r.validity == validity && 0 < r.uid <= cursorUid
  }

  /** Its message is gone from the mailbox. */
  predicate Expunged(r: Record, validity: Uint32, cursorUid: Uint32, present: set<Uint32>)
  {
    InView(r, validity, cursorUid) && r.uid !in present
  }

  /** A headers-only copy from another known validity: its body can never be fetched. */
  predicate Orphaned(r: Record, validity: Uint32)
  {
    r.pending && r.uid != 0 && r.validity != 0 && r.validity != validity
  }

  /** Retracted are exactly the expunged and the orphaned copies; those and the ones in view are what is counted. */
  lemma VerdictMeans(r: Record, validity: Uint32, cursorUid: Uint32, present: set<Uint32>)
    ensures Judge(r, validity, cursorUid, present) == Retract <==> Expunged(r, validity, cursorUid, present) || Orphaned(r, validity)
    ensures Judge(r, validity, cursorUid, present) != Skip <==> InView(r, validity, cursorUid) || Orphaned(r, validity)
  {
  }

  /** The candidates among the listed ids, with the copy of the record the listing saw. */
  function Gone(db: Db, ids: seq<nat>, validity: Uint32, cursorUid: Uint32, present: set<Uint32>): seq<(nat, Record)>
  {
    if ids == [] then []
    else
      var before := Gone(db, ids[..|ids| - 1], validity, cursorUid, present);
      var id := ids[|ids| - 1];
      if id in db.records && Judge(db.records[id], validity, cursorUid, present) == Retract
      then before + [(id, db.records[id])] else before
  }

  function SyncedCount(db: Db, ids: seq<nat>, validity: Uint32, cursorUid: Uint32, present: set<Uint32>): nat
  {
    if ids == [] then 0
    else
      var id := ids[|ids| - 1];
      SyncedCount(db, ids[..|ids| - 1], validity, cursorUid, present)
      + if id in db.records && Judge(db.records[id], validity, cursorUid, present) != Skip then 1 else 0
  }

  /** The ids among ids of the copies to go. */
  function ToGo(db: Db, ids: set<nat>, validity: Uint32, cursorUid: Uint32, present: set<Uint32>): set<nat>
  {
    set id | id in ids && id in db.records && (Expunged(db.records[id], validity, cursorUid, present) || Orphaned(db.records[id], validity))
  }

  /** The ids among ids of the copies they are measured against. */
  function Tracked(db: Db, ids: set<nat>, validity: Uint32, cursorUid: Uint32): set<nat>
  {
    set id | id in ids && id in db.records && (InView(db.records[id], validity, cursorUid) || Orphaned(db.records[id], validity))
  }

  function SetOf(ids: seq<nat>): set<nat>
  {
    set id | id in ids
  }

  predicate NoRepeats(ids: seq<nat>)
  {
    forall i, j :: 0 <= i < j < |ids| ==> ids[i] != ids[j]
  }

  lemma ToGoGrows(db: Db, ids: set<nat>, id: nat, validity: Uint32, cursorUid: Uint32, present: set<Uint32>)
    requires id !in ids
    ensures |ToGo(db, ids + {id}, validity, cursorUid, present)| == |ToGo(db, ids, validity, cursorUid, present)|
              + if id in db.records && Judge(db.records[id], validity, cursorUid, present) == Retract then 1 else 0
  {
    var was, now := ToGo(db, ids, validity, cursorUid, present), ToGo(db, ids + {id}, validity, cursorUid, present);
    if id in db.records {
      VerdictMeans(db.records[id], validity, cursorUid, present);
    }
    if id in now {
      assert now == was + {id};
    } else {
      assert now == was;
    }
  }

  lemma TrackedGrows(db: Db, ids: set<nat>, id: nat, validity: Uint32, cursorUid: Uint32, present: set<Uint32>)
    requires id !in ids
    ensures |Tracked(db, ids + {id}, validity, cursorUid)| == |Tracked(db, ids, validity, cursorUid)|
              + if id in db.records && Judge(db.records[id], validity, cursorUid, present) != Skip then 1 else 0
  {
    var was, now := Tracked(db, ids, validity, cursorUid), Tracked(db, ids + {id}, validity, cursorUid);
    if id in db.records {
      VerdictMeans(db.records[id], validity, cursorUid, present);
    }
    if id in now {
      assert now == was + {id};
    } else {
      assert now == was;
    }
  }

  lemma LastIsNew(ids: seq<nat>)
    requires ids != [] && NoRepeats(ids)
    ensures var init, id := ids[..|ids| - 1], ids[|ids| - 1]; NoRepeats(init) && SetOf(ids) == SetOf(init) + {id} && id !in SetOf(init)
  {
    assert ids == ids[..|ids| - 1] + [ids[|ids| - 1]];
  }

  /** The lists have the sizes of those sets. */
  lemma {:induction false} CountsAreSizes(db: Db, ids: seq<nat>, validity: Uint32, cursorUid: Uint32, present: set<Uint32>)
    requires NoRepeats(ids)
    ensures |Gone(db, ids, validity, cursorUid, present)| == |ToGo(db, SetOf(ids), validity, cursorUid, present)|
    ensures SyncedCount(db, ids, validity, cursorUid, present) == |Tracked(db, SetOf(ids), validity, cursorUid)|
  {
    if ids == [] {
      assert ToGo(db, SetOf(ids), validity, cursorUid, present) == {} && Tracked(db, SetOf(ids), validity, cursorUid) == {};
    } else {
      var init, id := ids[..|ids| - 1], ids[|ids| - 1];
      LastIsNew(ids);
      CountsAreSizes(db, init, validity, cursorUid, present);
      ToGoGrows(db, SetOf(init), id, validity, cursorUid, present);
      TrackedGrows(db, SetOf(init), id, validity, cursorUid, present);
    }
  }

  /** Membership as the copies' own fields give it. */
  lemma GoneAreExpungedOrOrphaned(db: Db, ids: seq<nat>, validity: Uint32, cursorUid: Uint32, present: set<Uint32>)
    ensures forall g :: g in Gone(db, ids, validity, cursorUid, present)
              <==> g.0 in ids && g.0 in db.records && g.1 == db.records[g.0]
                   && (Expunged(g.1, validity, cursorUid, present) || Orphaned(g.1, validity))
  {
    GoneAreRetracted(db, ids, validity, cursorUid, present);
    forall g: (nat, Record)
      ensures Judge(g.1, validity, cursorUid, present) == Retract <==> Expunged(g.1, validity, cursorUid, present) || Orphaned(g.1, validity)
    {
      VerdictMeans(g.1, validity, cursorUid, present);
    }
  }

  lemma {:induction false} GoneAreRetracted(db: Db, ids: seq<nat>, validity: Uint32, cursorUid: Uint32, present: set<Uint32>)
    ensures forall g :: g in Gone(db, ids, validity, cursorUid, present)
              <==> g.0 in ids && g.0 in db.records && g.1 == db.records[g.0] && Judge(g.1, validity, cursorUid, present) == Retract
    ensures |Gone(db, ids, validity, cursorUid, present)| <= SyncedCount(db, ids, validity, cursorUid, present) <= |ids|
  {
    if ids != [] {
      GoneAreRetracted(db, ids[..|ids| - 1], validity, cursorUid, present);
      assert ids == ids[..|ids| - 1] + [ids[|ids| - 1]];
    }
  }

  method SelectCandidates(db: Db, ids: seq<nat>, validity: Uint32, cursorUid: Uint32, present: set<Uint32>)
    returns (gone: seq<(nat, Record)>, synced: nat)
    requires forall id :: id in ids ==> id in db.records
    ensures gone == Gone(db, ids, validity, cursorUid, present)
    ensures synced == SyncedCount(db, ids, validity, cursorUid, present)
    ensures forall g :: g in gone <==> g.0 in ids && g.1 == db.records[g.0]
                                       && (Expunged(g.1, validity, cursorUid, present) || Orphaned(g.1, validity))
    ensures NoRepeats(ids) ==>
              && |gone| == |ToGo(db, SetOf(ids), validity, cursorUid, present)|
              && synced == |Tracked(db, SetOf(ids), validity, cursorUid)|
  {
    gone, synced := [], 0;
    for i := 0 to |ids|
      invariant gone == Gone(db, ids[..i], validity, cursorUid, present)
      invariant synced == SyncedCount(db, ids[..i], validity, cursorUid, present)
    {
      assert ids[..i + 1][..i] == ids[..i];
      var m := db.records[ids[i]];
      if m.uid == 0 {
        continue;
      }
      if m.validity == 0 {
        continue;
      }
      if m.validity != validity {
        if !m.pending {
          continue;
        }
        synced := synced + 1;
        gone := gone + [(ids[i], m)];
        continue;
      }
      if m.uid > cursorUid {
        continue;
      }
      synced := synced + 1;
      if m.uid !in present {
        gone := gone + [(ids[i], m)];
      }
    }
    assert ids[..|ids|] == ids;
    GoneAreExpungedOrOrphaned(db, ids, validity, cursorUid, present);
    if NoRepeats(ids) {
      CountsAreSizes(db, ids, validity, cursorUid, present);
    }
  }

  function Fraction(o: Options): real
  {
    if o.capFraction <= 0.0 || o.capFraction > 1.0 then DefaultFraction else o.capFraction
  }

  function Floor(o: Options): int
  {
    if o.capFloor < 1 then DefaultFloor else o.capFloor
  }

  predicate CapExceeded(o: Options, gone: nat, synced: nat)
  {
    gone >= Floor(o) && gone as real > Fraction(o) * synced as real
  }

  /** Both limits passed; a configured floor of at least one and fraction in (0, 1] are used as they are, others give way to the defaults. */
  predicate OverLimits(o: Options, gone: nat, synced: nat)
  {
    && gone >= (if o.capFloor >= 1 then o.capFloor else 5)
    && gone as real > (if 0.0 < o.capFraction <= 1.0 then o.capFraction else 0.5) * synced as real
  }

  lemma CapMeans(o: Options, gone: nat, synced: nat)
    ensures CapExceeded(o, gone, synced) <==> OverLimits(o, gone, synced)
  {
  }

  /** No small purge latches, and purging a whole synced set of at least the floor latches unless the fraction is one. */
  lemma CapBites(o: Options, gone: nat, synced: nat)
    requires gone <= synced
    ensures CapExceeded(o, gone, synced) ==> gone >= 1 && Fraction(o) < 1.0
    ensures gone == synced && gone >= Floor(o) && Fraction(o) < 1.0 ==> CapExceeded(o, gone, synced)
  {
    var f := Fraction(o);
    if f == 1.0 {
      assert f * synced as real == synced as real;
    } else if gone == synced && gone >= 1 {
      assert f * synced as real < 1.0 * synced as real;
    }
  }
}
