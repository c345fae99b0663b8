/**
The metadata side of the inbound store (internal/inbound/bbolt.go): the two buckets as one value,
each write transaction as a function from the value before to the value after, and what the
dedup index owes the records.
*/
module InboundDb {
  import opened SeqKey

  type Name = Bytes

  type Uint32 = n: nat | n < U32

  predicate NulFree(s: Bytes)
  {
    0 !in s
  }

  /** The bytes of "default". */
  const DefaultInbox: Name := [100, 101, 102, 97, 117, 108, 116]

  function NormInbox(inbox: Name): Name
  {
    if inbox == [] then DefaultInbox else inbox
  }

  datatype Record = Record(owner: Name, inbox: Name, uid: Uint32, validity: Uint32, pending: bool, blobbed: bool)

  datatype Delivery = Delivery(owner: Name, inbox: Name, uid: Uint32, validity: Uint32)

  /** records and index are the two buckets; lastSeq is the record bucket's sequence counter. */
  datatype Db = Db(records: map<nat, Record>, index: map<Bytes, nat>, lastSeq: nat)

  predicate Scoped(r: Record, owner: Name, inbox: Name)
  {
    r.owner == owner && NormInbox(r.inbox) == NormInbox(inbox)
  }

  /** The dedup key: owner NUL inbox NUL validity uid. */
  function SyncedKey(owner: Name, inbox: Name, validity: Uint32, uid: Uint32): Bytes
  {
    owner + ([0] + (NormInbox(inbox) + ([0] + (BigEndian(validity, 4) + BigEndian(uid, 4)))))
  }

  function EntryOf(r: Record): Bytes
  {
    SyncedKey(r.owner, r.inbox, r.validity, r.uid)
  }

  function ValidityOfKey(k: Bytes): nat
  {
    if |k| < 8 then 0 else Value(k[|k| - 8..|k| - 4])
  }

  predicate NamesOk(owner: Name, inbox: Name)
  {
    NulFree(owner) && NulFree(inbox)
  }

  // ---- The key tells its four parts apart ----

  lemma {:induction false} FirstNulSplits(a: Bytes, x: Bytes, b: Bytes, y: Bytes)
    requires NulFree(a) && NulFree(b)
    requires a + ([0] + x) == b + ([0] + y)
    ensures a == b && x == y
  {
    var l, r := a + ([0] + x), b + ([0] + y);
    if a == [] || b == [] {
      assert l[0] == r[0];
      assert a == b == [];
      assert l[1..] == x && r[1..] == y;
    } else {
      assert l[0] == a[0] && r[0] == b[0];
      assert l[1..] == a[1..] + ([0] + x) && r[1..] == b[1..] + ([0] + y);
      FirstNulSplits(a[1..], x, b[1..], y);
      assert a == [a[0]] + a[1..] && b == [b[0]] + b[1..];
    }
  }

  lemma NumberFields(v: Uint32, u: Uint32)
    ensures Value(BigEndian(v, 4)) == v && Value(BigEndian(u, 4)) == u
  {
    PowerValues();
    BigEndianRoundTrip(v, 4);
    BigEndianRoundTrip(u, 4);
  }

  lemma SyncedKeyInjective(o1: Name, i1: Name, v1: Uint32, u1: Uint32, o2: Name, i2: Name, v2: Uint32, u2: Uint32)
    requires NamesOk(o1, i1) && NamesOk(o2, i2)
    ensures SyncedKey(o1, i1, v1, u1) == SyncedKey(o2, i2, v2, u2)
       <==> o1 == o2 && NormInbox(i1) == NormInbox(i2) && v1 == v2 && u1 == u2
  {
    if SyncedKey(o1, i1, v1, u1) == SyncedKey(o2, i2, v2, u2) {
      var n1, n2 := BigEndian(v1, 4) + BigEndian(u1, 4), BigEndian(v2, 4) + BigEndian(u2, 4);
      FirstNulSplits(o1, NormInbox(i1) + ([0] + n1), o2, NormInbox(i2) + ([0] + n2));
      FirstNulSplits(NormInbox(i1), n1, NormInbox(i2), n2);
      assert BigEndian(v1, 4) == n1[..4] == n2[..4] == BigEndian(v2, 4);
      assert BigEndian(u1, 4) == n1[4..] == n2[4..] == BigEndian(u2, 4);
      NumberFields(v1, u1);
      NumberFields(v2, u2);
    }
  }

  lemma ValidityOfSyncedKey(o: Name, i: Name, v: Uint32, u: Uint32)
    ensures ValidityOfKey(SyncedKey(o, i, v, u)) == v
  {
    var k := SyncedKey(o, i, v, u);
    assert k[|k| - 8..|k| - 4] == BigEndian(v, 4);
    NumberFields(v, u);
  }

  // ---- The write transactions ----

  function Put(db: Db, d: Delivery, pending: bool): Db
  {
    var id := db.lastSeq + 1;
    Db(db.records[id := Record(d.owner, NormInbox(d.inbox), d.uid, d.validity, pending, !pending)], db.index, id)
  }

  function KeyOf(d: Delivery): Bytes
  {
    SyncedKey(d.owner, d.inbox, d.validity, d.uid)
  }

  /** An already indexed message is a no-op; otherwise the record and its index entry go in together. */
  function AddSynced(db: Db, d: Delivery, pending: bool): Db
  {
    if d.uid == 0 || KeyOf(d) in db.index then db
    else
      var stored := Put(db, d, pending);
      stored.(index := stored.index[KeyOf(d) := stored.lastSeq])
  }

  /** Add and AddGenerated: a message with no upstream, never indexed. */
  function AddLocal(db: Db, owner: Name, inbox: Name): Db
  {
    Put(db, Delivery(owner, inbox, 0, 0), false)
  }

  function SetContent(db: Db, owner: Name, inbox: Name, id: nat): Db
  {
    if id in db.records && Scoped(db.records[id], owner, inbox)
    then db.(records := db.records[id := db.records[id].(pending := false, blobbed := true)])
    else db
  }

  predicate Removable(db: Db, owner: Name, inbox: Name, id: nat)
  {
    id in db.records && Scoped(db.records[id], owner, inbox) && db.records[id].uid != 0
  }

  function RemoveSynced(db: Db, owner: Name, inbox: Name, id: nat): Db
  {
    if Removable(db, owner, inbox, id)
    then db.(records := db.records - {id}, index := db.index - {EntryOf(db.records[id])})
    else db
  }

  /** Fills an unknown validity and leaves a known one; the index entry stays where it was. */
  function StampValidity(db: Db, owner: Name, inbox: Name, id: nat, v: Uint32): Db
  {
    if v != 0 && id in db.records && Scoped(db.records[id], owner, inbox) && db.records[id].validity == 0
    then db.(records := db.records[id := db.records[id].(validity := v)])
    else db
  }

  predicate NeedsRekey(r: Record)
  {
    r.uid != 0 && r.owner != NormInbox(r.inbox)
  }

  function Rekeyed(r: Record): Record
  {
    if NeedsRekey(r) then r.(owner := NormInbox(r.inbox)) else r
  }

  function RekeyStep(db: Db, id: nat): Db
  {
    if id in db.records && NeedsRekey(db.records[id])
    then
      var was, moved := db.records[id], Rekeyed(db.records[id]);
      db.(records := db.records[id := moved], index := (db.index - {EntryOf(was)})[EntryOf(moved) := id])
    else db
  }

  /** The rekey of every record with an id up to n, in id order. */
  function RekeyUpTo(db: Db, n: nat): Db
  {
    if n == 0 then db else RekeyStep(RekeyUpTo(db, n - 1), n)
  }

  function RekeyAll(db: Db): Db
  {
    RekeyUpTo(db, db.lastSeq)
  }

  // ---- What the index owes the records ----

  ghost predicate WellFormed(db: Db)
  {
    forall id :: id in db.records ==> 1 <= id <= db.lastSeq && NamesOk(db.records[id].owner, db.records[id].inbox)
  }

  predicate Grounded(db: Db, k: Bytes)
    requires k in db.index
  {
    var id := db.index[k];
    id in db.records && db.records[id].uid != 0 && EntryOf(db.records[id]) == k
  }

  predicate Indexed(db: Db, id: nat)
    requires id in db.records
  {
    var k := EntryOf(db.records[id]);
    k in db.index && db.index[k] == id
  }

  /** Every synced record has its entry and every entry its record. */
  ghost predicate Agreement(db: Db)
  {
    && WellFormed(db)
    && (forall id :: id in db.records && db.records[id].uid != 0 ==> Indexed(db, id))
    && (forall k :: k in db.index ==> Grounded(db, k))
  }

  /** What survives stamping too: an entry of known validity has its record. */
  ghost predicate KnownEntriesGrounded(db: Db)
  {
    && WellFormed(db)
    && (forall k :: k in db.index && ValidityOfKey(k) != 0 ==> Grounded(db, k))
  }

  predicate AtCoordinate(r: Record, owner: Name, inbox: Name, v: Uint32, u: Uint32)
  {
    Scoped(r, owner, inbox) && r.validity == v && r.uid == u
  }

  /** What a scan of the whole bucket would find. */
  ghost predicate HasRecord(db: Db, owner: Name, inbox: Name, v: Uint32, u: Uint32)
  {
    exists id :: id in db.records && AtCoordinate(db.records[id], owner, inbox, v, u)
  }

  lemma CoordinateIsEntry(r: Record, owner: Name, inbox: Name, v: Uint32, u: Uint32)
    requires NamesOk(owner, inbox) && NamesOk(r.owner, r.inbox)
    ensures AtCoordinate(r, owner, inbox, v, u) <==> EntryOf(r) == SyncedKey(owner, inbox, v, u)
  {
    SyncedKeyInjective(r.owner, r.inbox, r.validity, r.uid, owner, inbox, v, u);
  }

  lemma IndexedIffScanFinds(db: Db, d: Delivery)
    requires Agreement(db) && NamesOk(d.owner, d.inbox) && d.uid != 0
    ensures KeyOf(d) in db.index <==> HasRecord(db, d.owner, d.inbox, d.validity, d.uid)
  {
    if KeyOf(d) in db.index {
      assert Grounded(db, KeyOf(d));
      CoordinateIsEntry(db.records[db.index[KeyOf(d)]], d.owner, d.inbox, d.validity, d.uid);
    }
    if HasRecord(db, d.owner, d.inbox, d.validity, d.uid) {
      var id :| id in db.records && AtCoordinate(db.records[id], d.owner, d.inbox, d.validity, d.uid);
      CoordinateIsEntry(db.records[id], d.owner, d.inbox, d.validity, d.uid);
      assert Indexed(db, id);
    }
  }

  lemma AddIsNoOpIffScanFinds(db: Db, d: Delivery, pending: bool)
    requires Agreement(db) && NamesOk(d.owner, d.inbox) && d.uid != 0
    ensures AddSynced(db, d, pending) == db <==> HasRecord(db, d.owner, d.inbox, d.validity, d.uid)
    ensures AddSynced(db, d, pending) != db ==> AddSynced(db, d, pending).lastSeq == db.lastSeq + 1
  {
    IndexedIffScanFinds(db, d);
  }

  /** Whichever branch AddSynced takes, the message has a record afterwards. */
  lemma AddLeavesRecord(db: Db, d: Delivery, pending: bool)
    requires KnownEntriesGrounded(db) && NamesOk(d.owner, d.inbox) && d.uid != 0 && d.validity != 0
    ensures HasRecord(AddSynced(db, d, pending), d.owner, d.inbox, d.validity, d.uid)
  {
    var after := AddSynced(db, d, pending);
    if KeyOf(d) in db.index {
      ValidityOfSyncedKey(d.owner, d.inbox, d.validity, d.uid);
      assert Grounded(db, KeyOf(d));
      CoordinateIsEntry(db.records[db.index[KeyOf(d)]], d.owner, d.inbox, d.validity, d.uid);
    } else {
      assert AtCoordinate(after.records[after.lastSeq], d.owner, d.inbox, d.validity, d.uid);
    }
  }

  lemma NormKeepsKey(owner: Name, inbox: Name, v: Uint32, u: Uint32)
    ensures SyncedKey(owner, NormInbox(inbox), v, u) == SyncedKey(owner, inbox, v, u)
    ensures NamesOk(owner, inbox) ==> NamesOk(owner, NormInbox(inbox))
  {
  }

  lemma AddedRecordIsGrounded(db: Db, d: Delivery, pending: bool)
    requires WellFormed(db) && NamesOk(d.owner, d.inbox) && d.uid != 0 && KeyOf(d) !in db.index
    ensures var after := AddSynced(db, d, pending);
            && WellFormed(after) && Grounded(after, KeyOf(d)) && Indexed(after, after.lastSeq)
            && (forall k :: k in db.index ==> k in after.index && (Grounded(db, k) ==> Grounded(after, k)))
            && (forall id :: id in db.records ==> id in after.records && (Indexed(db, id) ==> Indexed(after, id)))
  {
    NormKeepsKey(d.owner, d.inbox, d.validity, d.uid);
    assert db.lastSeq + 1 !in db.records;
  }

  lemma AddSyncedKeeps(db: Db, d: Delivery, pending: bool)
    requires WellFormed(db) && NamesOk(d.owner, d.inbox)
    ensures Agreement(db) ==> Agreement(AddSynced(db, d, pending))
    ensures KnownEntriesGrounded(db) ==> KnownEntriesGrounded(AddSynced(db, d, pending))
  {
    if d.uid != 0 && KeyOf(d) !in db.index {
      AddedRecordIsGrounded(db, d, pending);
    }
  }

  lemma AddLocalKeeps(db: Db, owner: Name, inbox: Name)
    requires WellFormed(db) && NamesOk(owner, inbox)
    ensures Agreement(db) ==> Agreement(AddLocal(db, owner, inbox))
    ensures KnownEntriesGrounded(db) ==> KnownEntriesGrounded(AddLocal(db, owner, inbox))
  {
    var after := AddLocal(db, owner, inbox);
    assert after.lastSeq !in db.records;
    assert forall k :: k in db.index && Grounded(db, k) ==> Grounded(after, k);
    assert forall id :: id in db.records && Indexed(db, id) ==> Indexed(after, id);
  }

  lemma SetContentKeeps(db: Db, owner: Name, inbox: Name, id: nat)
    requires WellFormed(db)
    ensures Agreement(db) ==> Agreement(SetContent(db, owner, inbox, id))
    ensures KnownEntriesGrounded(db) ==> KnownEntriesGrounded(SetContent(db, owner, inbox, id))
  {
    var after := SetContent(db, owner, inbox, id);
    assert forall k :: k in db.index && Grounded(db, k) ==> Grounded(after, k);
    assert forall j :: j in db.records && Indexed(db, j) ==> Indexed(after, j);
  }

  lemma RemoveSyncedKeeps(db: Db, owner: Name, inbox: Name, id: nat)
    requires WellFormed(db)
    ensures Agreement(db) ==> Agreement(RemoveSynced(db, owner, inbox, id))
    ensures KnownEntriesGrounded(db) ==> KnownEntriesGrounded(RemoveSynced(db, owner, inbox, id))
  {
    var after := RemoveSynced(db, owner, inbox, id);
    if Removable(db, owner, inbox, id) {
      // An entry naming the removed record is that record's own entry, which went with it.
      assert forall k :: k in after.index && Grounded(db, k) ==> Grounded(after, k);
      if Agreement(db) {
        forall j | j in after.records && after.records[j].uid != 0
          ensures Indexed(after, j)
        {
          assert Indexed(db, j) && Indexed(db, id);
        }
      }
    }
  }

  lemma StampKeepsKnownEntries(db: Db, owner: Name, inbox: Name, id: nat, v: Uint32)
    requires KnownEntriesGrounded(db)
    ensures KnownEntriesGrounded(StampValidity(db, owner, inbox, id, v))
  {
    var after := StampValidity(db, owner, inbox, id, v);
    forall k | k in after.index && ValidityOfKey(k) != 0
      ensures Grounded(after, k)
    {
      assert Grounded(db, k);
      var r := db.records[db.index[k]];
      ValidityOfSyncedKey(r.owner, r.inbox, r.validity, r.uid);
    }
  }

  /** Stamping moves a record away from its entry, so full agreement does not survive it. */
  lemma StampBreaksAgreement(db: Db, owner: Name, inbox: Name, id: nat, v: Uint32)
    requires Agreement(db)
    ensures Agreement(StampValidity(db, owner, inbox, id, v))
       <==> StampValidity(db, owner, inbox, id, v) == db || db.records[id].uid == 0
  {
    var after := StampValidity(db, owner, inbox, id, v);
    if after != db {
      var r := db.records[id];
      SyncedKeyInjective(r.owner, r.inbox, 0, r.uid, r.owner, r.inbox, v, r.uid);
      if r.uid != 0 {
        assert Indexed(db, id);
        assert !Grounded(after, EntryOf(r));
      } else {
        assert forall k :: k in db.index && Grounded(db, k) ==> Grounded(after, k);
        assert forall j :: j in db.records && db.records[j].uid != 0 && Indexed(db, j) ==> Indexed(after, j);
      }
    }
  }

  /** A removed message that returns to the source is stored again, under a fresh id. */
  lemma RemovedMessageReAdds(db: Db, owner: Name, inbox: Name, id: nat, pending: bool)
    requires WellFormed(db) && Removable(db, owner, inbox, id)
    ensures var r := db.records[id];
            var d := Delivery(r.owner, r.inbox, r.uid, r.validity);
            var after := AddSynced(RemoveSynced(db, owner, inbox, id), d, pending);
            && after.lastSeq == db.lastSeq + 1
            && after.lastSeq in after.records && after.lastSeq !in db.records
            && AtCoordinate(after.records[after.lastSeq], r.owner, r.inbox, r.validity, r.uid)
            && id !in after.records
  {
  }

  // ---- Rekeying owners to inboxes ----

  ghost predicate ShareCoordinate(a: Record, b: Record)
  {
    NormInbox(a.inbox) == NormInbox(b.inbox) && a.validity == b.validity && a.uid == b.uid
  }

  ghost predicate NoSharedCoordinate(db: Db)
  {
    forall i, j :: i in db.records && j in db.records && i != j && db.records[i].uid != 0 && db.records[j].uid != 0
      ==> !ShareCoordinate(db.records[i], db.records[j])
  }

  lemma {:induction false} RekeyRecords(db: Db, n: nat)
    ensures var after := RekeyUpTo(db, n);
            && after.lastSeq == db.lastSeq
            && after.records.Keys == db.records.Keys
            && forall id :: id in db.records ==>
                 after.records[id] == (if 1 <= id <= n then Rekeyed(db.records[id]) else db.records[id])
  {
    if n > 0 {
      RekeyRecords(db, n - 1);
    }
  }

  lemma RekeyStepKeepsKnownEntries(db: Db, id: nat)
    requires KnownEntriesGrounded(db)
    ensures KnownEntriesGrounded(RekeyStep(db, id))
  {
    var after := RekeyStep(db, id);
    if after != db {
      forall k | k in after.index && ValidityOfKey(k) != 0
        ensures Grounded(after, k)
      {
        assert k != EntryOf(after.records[id]) ==> Grounded(db, k);
      }
    }
  }

  lemma RekeyStepKeepsAgreement(db: Db, id: nat)
    requires Agreement(db) && NoSharedCoordinate(db)
    ensures Agreement(RekeyStep(db, id)) && NoSharedCoordinate(RekeyStep(db, id))
  {
    var after := RekeyStep(db, id);
    if after != db {
      var moved := after.records[id];
      assert NoSharedCoordinate(after);
      forall k | k in after.index
        ensures Grounded(after, k)
      {
        assert k != EntryOf(moved) ==> Grounded(db, k);
      }
      forall j | j in after.records && after.records[j].uid != 0
        ensures Indexed(after, j)
      {
        if j != id {
          assert Indexed(db, j) && Indexed(db, id);
          assert !ShareCoordinate(db.records[j], db.records[id]);
          CoordinateIsEntry(db.records[j], moved.owner, moved.inbox, moved.validity, moved.uid);
        }
      }
    }
  }

  lemma {:induction false} RekeyUpToKeeps(db: Db, n: nat)
    requires WellFormed(db)
    ensures WellFormed(RekeyUpTo(db, n))
    ensures KnownEntriesGrounded(db) ==> KnownEntriesGrounded(RekeyUpTo(db, n))
    ensures Agreement(db) && NoSharedCoordinate(db) ==> Agreement(RekeyUpTo(db, n)) && NoSharedCoordinate(RekeyUpTo(db, n))
  {
    if n > 0 {
      RekeyUpToKeeps(db, n - 1);
      var before := RekeyUpTo(db, n - 1);
      if KnownEntriesGrounded(db) {
        RekeyStepKeepsKnownEntries(before, n);
      }
      if Agreement(db) && NoSharedCoordinate(db) {
        RekeyStepKeepsAgreement(before, n);
      }
    }
  }

  /** Rekeying keeps index and records in agreement exactly when no two synced records share a coordinate. */
  lemma RekeyKeepsAgreementIff(db: Db)
    requires Agreement(db)
    ensures Agreement(RekeyAll(db)) <==> NoSharedCoordinate(db)
  {
    RekeyUpToKeeps(db, db.lastSeq);
    var after := RekeyAll(db);
    RekeyRecords(db, db.lastSeq);
    if Agreement(after) {
      forall i, j | i in db.records && j in db.records && i != j && db.records[i].uid != 0 && db.records[j].uid != 0
        ensures !ShareCoordinate(db.records[i], db.records[j])
      {
        assert Indexed(after, i) && Indexed(after, j);
      }
    }
  }

  lemma {:induction false} RekeyOfSettledIsIdentity(db: Db, n: nat)
    requires forall id :: id in db.records && id <= n ==> !NeedsRekey(db.records[id])
    ensures RekeyUpTo(db, n) == db
  {
    if n > 0 {
      RekeyOfSettledIsIdentity(db, n - 1);
    }
  }

  lemma RekeyIsIdempotent(db: Db)
    requires WellFormed(db)
    ensures RekeyAll(RekeyAll(db)) == RekeyAll(db)
    ensures forall id :: id in RekeyAll(db).records ==> !NeedsRekey(RekeyAll(db).records[id])
  {
    RekeyRecords(db, db.lastSeq);
    RekeyOfSettledIsIdentity(RekeyAll(db), db.lastSeq);
  }
}
