/**
The inbound store as the object the code keeps (internal/inbound/bbolt.go): two buckets, a
sequence counter and a blob directory. Each method carries out one write transaction of InboundDb
together with its part of the content tier.
*/
module InboundStore {
  import opened Options
  import opened SeqKey
  import opened InboundDb
  import opened BlobStore

  datatype StoreError = ZeroUid | NotFound | NotSynced | Unsanitary | WriteFailed | ZeroValidity

  datatype Outcome<+T> = Done(value: T) | Failed(error: StoreError)

  /** The ids of the records a scan in key order up to id n meets in (owner, inbox). */
  function ListedUpTo(db: Db, owner: Name, inbox: Name, n: nat): seq<nat>
  {
    if n == 0 then []
    else ListedUpTo(db, owner, inbox, n - 1) + (if n in db.records && Scoped(db.records[n], owner, inbox) then [n] else [])
  }

  function Listed(db: Db, owner: Name, inbox: Name): seq<nat>
  {
    ListedUpTo(db, owner, inbox, db.lastSeq)
  }

  lemma {:induction false} ListedUpToIsScan(db: Db, owner: Name, inbox: Name, n: nat)
    ensures var ids := ListedUpTo(db, owner, inbox, n);
            && (forall i, j :: 0 <= i < j < |ids| ==> ids[i] < ids[j])
            && (forall id :: id in ids <==> 1 <= id <= n && id in db.records && Scoped(db.records[id], owner, inbox))
  {
    if n > 0 {
      ListedUpToIsScan(db, owner, inbox, n - 1);
      var before := ListedUpTo(db, owner, inbox, n - 1);
      if n in db.records && Scoped(db.records[n], owner, inbox) {
        var ids := before + [n];
        assert forall i :: 0 <= i < |before| ==> before[i] in before && ids[i] == before[i];
        assert forall id :: id in ids <==> id in before || id == n;
      }
    }
  }

  /** A listing holds exactly the records of its scope, in id order and so without repeats. */
  lemma ListedIsScope(db: Db, owner: Name, inbox: Name)
    requires WellFormed(db)
    ensures var ids := Listed(db, owner, inbox);
            && (forall i, j :: 0 <= i < j < |ids| ==> ids[i] < ids[j])
            && (forall id :: id in ids <==> id in db.records && Scoped(db.records[id], owner, inbox))
  {
    ListedUpToIsScan(db, owner, inbox, db.lastSeq);
  }

  /** The records a rekey collects from ids up to n, in id order. */
  function WorkUpTo(db: Db, n: nat): seq<(nat, Record)>
  {
    if n == 0 then []
    else WorkUpTo(db, n - 1) + (if n in db.records && NeedsRekey(db.records[n]) then [(n, db.records[n])] else [])
  }

  predicate Moves(db: Db, id: nat)
  {
    id in db.records && NeedsRekey(db.records[id])
  }

  function Movers(db: Db, n: nat): set<nat>
  {
    set id | id in db.records && 1 <= id <= n && Moves(db, id)
  }

  lemma {:induction false} WorkIsMovers(db: Db, n: nat)
    ensures |WorkUpTo(db, n)| == |Movers(db, n)|
  {
    if n > 0 {
      WorkIsMovers(db, n - 1);
      if Moves(db, n) {
        assert Movers(db, n) == Movers(db, n - 1) + {n};
      } else {
        assert Movers(db, n) == Movers(db, n - 1);
      }
    }
  }

  /** The k-th collected record is the next one to move after the one before it. */
  lemma {:induction false} WorkGaps(db: Db, n: nat, k: nat)
    requires k <= |WorkUpTo(db, n)|
    ensures var w := WorkUpTo(db, n);
            var lo, hi := if k == 0 then 0 else w[k - 1].0, if k == |w| then n + 1 else w[k].0;
            && lo < hi <= n + 1
            && (k < |w| ==> Moves(db, hi) && w[k].1 == db.records[hi])
            && (forall id :: lo < id < hi ==> !Moves(db, id))
  {
    if n > 0 {
      var before := WorkUpTo(db, n - 1);
      if k <= |before| {
        WorkGaps(db, n - 1, k);
      } else {
        WorkGaps(db, n - 1, k - 1);
      }
    }
  }

  lemma {:induction false} RekeyOverGap(db: Db, lo: nat, hi: nat)
    requires lo <= hi
    requires forall id :: lo < id <= hi ==> !Moves(db, id)
    ensures RekeyUpTo(db, hi) == RekeyUpTo(db, lo)
    decreases hi
  {
    if lo < hi {
      RekeyOverGap(db, lo, hi - 1);
      RekeyRecords(db, hi - 1);
      assert !Moves(db, hi);
    }
  }

  class Store {
    var records: map<nat, Record>
    var index: map<Bytes, nat>
    var lastSeq: nat
    const blobs: BlobDir

    function Snapshot(): Db
      reads this
    {
      Db(records, index, lastSeq)
    }

    /** Opening the store reclaims what a crash between the two tiers left behind. */
    constructor Open(db: Db, dir: BlobDir)
      modifies dir
      ensures Snapshot() == db && blobs == dir
      ensures dir.files == old(dir.files) - Orphans(old(dir.files), db.records.Keys)
    {
      records, index, lastSeq := db.records, db.index, db.lastSeq;
      blobs := dir;
      new;
      var _ := blobs.SweepOrphans(records.Keys);
    }

    /** clean is the sanitized body, or None when sanitizing refused it. */
    method PutBlob(id: nat, clean: Option<Bytes>, fault: Fault) returns (r: Outcome<()>)
      modifies blobs
      ensures r == if clean.None? then Failed(Unsanitary) else if fault.NoFault? then Done(()) else Failed(WriteFailed)
      ensures blobs.files == if clean.Some? then PutFile(old(blobs.files), id, clean.value, fault) else old(blobs.files)
    {
      if clean.None? {
        return Failed(Unsanitary);
      }
      var ok := blobs.Put(id, clean.value, fault);
      return if ok then Done(()) else Failed(WriteFailed);
    }

    method AddSynced(d: Delivery, pending: bool, clean: Option<Bytes>, fault: Fault) returns (r: Outcome<(bool, nat)>)
      modifies this, blobs
      ensures r.Failed? ==> Snapshot() == old(Snapshot())
      ensures r.Done? ==> Snapshot() == InboundDb.AddSynced(old(Snapshot()), d, pending)
      ensures r.Done? ==> (r.value.0 <==> Snapshot() != old(Snapshot()))
      ensures r.Done? && r.value.0 ==> r.value.1 == lastSeq && (!pending ==> clean.Some?)
      ensures r.Done? ==> blobs.files == if r.value.0 && !pending then old(blobs.files)[Final(lastSeq) := clean.value] else old(blobs.files)
      ensures forall f :: f in old(blobs.files) && f != Final(old(lastSeq) + 1) ==> f in blobs.files && blobs.files[f] == old(blobs.files)[f]
      ensures r.Failed? <==> d.uid == 0 || (KeyOf(d) !in old(index) && !pending && (clean.None? || !fault.NoFault?))
    {
      if d.uid == 0 {
        return Failed(ZeroUid);
      }
      var key := SyncedKey(d.owner, d.inbox, d.validity, d.uid);
      if key in index {
        return Done((false, index[key]));
      }
      var id := lastSeq + 1;
      if !pending {
        var written := PutBlob(id, clean, fault);
        if written.Failed? {
          return Failed(written.error); // the transaction rolls back, sequence included
        }
      }
      records := records[id := Record(d.owner, NormInbox(d.inbox), d.uid, d.validity, pending, !pending)];
      lastSeq := id;
      index := index[key := id];
      return Done((true, id));
    }

    /** Fills a body: content first, then the record that refers to it. */
    method SetContent(owner: Name, inbox: Name, id: nat, clean: Option<Bytes>, fault: Fault) returns (r: Outcome<()>)
      modifies this, blobs
      ensures Snapshot() == if r.Done? then InboundDb.SetContent(old(Snapshot()), owner, inbox, id) else old(Snapshot())
      ensures r.Done? <==> id in old(records) && Scoped(old(records)[id], owner, inbox) && clean.Some? && fault.NoFault?
      ensures r.Done? ==> blobs.files == old(blobs.files)[Final(id) := clean.value]
      ensures r == Failed(NotFound) ==> blobs.files == old(blobs.files)
    {
      if id !in records || !Scoped(records[id], owner, inbox) {
        return Failed(NotFound);
      }
      var written := PutBlob(id, clean, fault);
      if written.Failed? {
        return Failed(written.error);
      }
      records := records[id := records[id].(pending := false, blobbed := true)];
      return Done(());
    }

    /** Record and index entry go in one transaction, the blob after it and best-effort. */
    method RemoveSynced(owner: Name, inbox: Name, id: nat, blobDeleteFails: bool) returns (r: Outcome<()>)
      modifies this, blobs
      ensures Snapshot() == InboundDb.RemoveSynced(old(Snapshot()), owner, inbox, id)
      ensures r.Done? <==> Removable(old(Snapshot()), owner, inbox, id)
      ensures blobs.files == if r.Done? && old(records)[id].blobbed && !blobDeleteFails
                             then old(blobs.files) - {Final(id)} else old(blobs.files)
    {
      if id !in records || !Scoped(records[id], owner, inbox) {
        return Failed(NotFound);
      }
      var rec := records[id];
      if rec.uid == 0 {
        return Failed(NotSynced);
      }
      records := records - {id};
      index := index - {SyncedKey(rec.owner, rec.inbox, rec.validity, rec.uid)};
      if rec.blobbed {
        var _ := blobs.Delete(id, blobDeleteFails);
      }
      return Done(());
    }

    method StampUidValidity(owner: Name, inbox: Name, id: nat, v: Uint32) returns (r: Outcome<Uint32>)
      modifies this
      ensures Snapshot() == StampValidity(old(Snapshot()), owner, inbox, id, v)
      ensures r.Done? <==> v != 0 && id in old(records) && Scoped(old(records)[id], owner, inbox)
      ensures r.Done? ==> r.value != 0 && r.value == if old(records)[id].validity == 0 then v else old(records)[id].validity
    {
      if v == 0 {
        return Failed(ZeroValidity);
      }
      if id !in records || !Scoped(records[id], owner, inbox) {
        return Failed(NotFound);
      }
      if records[id].validity == 0 {
        records := records[id := records[id].(validity := v)];
      }
      return Done(records[id].validity);
    }

    method List(owner: Name, inbox: Name) returns (ids: seq<nat>)
      ensures ids == Listed(Snapshot(), owner, inbox)
    {
      ids := [];
      for id := 1 to lastSeq + 1
        invariant ids == ListedUpTo(Snapshot(), owner, inbox, id - 1)
      {
        if id in records && Scoped(records[id], owner, inbox) {
          ids := ids + [id];
        }
      }
    }

    method CollectWork() returns (work: seq<(nat, Record)>)
      ensures work == WorkUpTo(Snapshot(), lastSeq)
    {
      work := [];
      for id := 1 to lastSeq + 1
        invariant work == WorkUpTo(Snapshot(), id - 1)
      {
        if id in records && records[id].uid != 0 && records[id].owner != NormInbox(records[id].inbox) {
          work := work + [(id, records[id])];
        }
      }
    }

    method MoveRecord(id: nat, rec: Record)
      requires Moves(Snapshot(), id) && rec == records[id]
      modifies this
      ensures Snapshot() == RekeyStep(old(Snapshot()), id)
    {
      var moved := rec.(owner := NormInbox(rec.inbox));
      index := (index - {SyncedKey(rec.owner, rec.inbox, rec.validity, rec.uid)})
               [SyncedKey(moved.owner, moved.inbox, moved.validity, moved.uid) := id];
      records := records[id := moved];
    }

    /** Collects the records to move first, then moves them one by one with their index entries. */
    method RekeyOwnersToInbox() returns (n: nat)
      modifies this
      ensures Snapshot() == RekeyAll(old(Snapshot()))
      ensures n == |Movers(old(Snapshot()), old(lastSeq))|
    {
      ghost var before := Snapshot();
      var work := CollectWork();
      WorkIsMovers(before, lastSeq);
      n := 0;
      ghost var done := 0;
      while n < |work|
        invariant n <= |work|
        invariant done == if n == 0 then 0 else work[n - 1].0
        invariant Snapshot() == RekeyUpTo(before, done)
      {
        WorkGaps(before, before.lastSeq, n);
        var (id, rec) := work[n];
        RekeyOverGap(before, done, id - 1);
        RekeyRecords(before, id - 1);
        MoveRecord(id, rec);
        n := n + 1;
        done := id;
      }
      WorkGaps(before, before.lastSeq, n);
      RekeyOverGap(before, done, before.lastSeq);
    }
  }
}
