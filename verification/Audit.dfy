/**
The hash-chained audit log (internal/audit/bbolt.go): a bucket of rows in key order with a sequence
counter that outlives deletions. A row is held as it reads back from the bucket; the hash, the
encoding and what an encoded payload reads back as are parameters.
*/
module Audit {
  import opened AuditPayload
  import opened SeqKey

  datatype Entry = Entry(payload: Payload, prevHash: string, hash: string)

  datatype Row = Row(key: Bytes, entry: Entry)

  datatype Log = Log(rows: seq<Row>, counter: nat)

  /** A hash, the text of a payload, and what that text reads back as. */
  datatype Codec = Codec(digest: string -> string, text: Payload -> string, restored: Payload -> Payload)

  /** Texts are JSON objects and pin down what they read back as; reading back keeps the number and is final. */
  ghost predicate Faithful(c: Codec)
  {
    && (forall p :: c.text(p) != "" && c.text(p)[0] == '{')
    && (forall p :: c.restored(p).seqNo == p.seqNo && c.restored(c.restored(p)) == c.restored(p))
    && (forall p, q :: c.text(p) == c.text(q) ==> c.restored(p) == c.restored(q))
  }

  /** Digests are 64 hexadecimal digits. */
  ghost predicate Shaped(c: Codec)
  {
    forall x :: |c.digest(x)| == 64 && c.digest(x)[0] != '{'
  }

  /** What is hashed for an entry. */
  function Input(c: Codec, prevHash: string, p: Payload): string
  {
    prevHash + c.text(p)
  }

  function LastHash(rows: seq<Row>): string
  {
    if rows == [] then "" else rows[|rows| - 1].entry.hash
  }

  /** A bucket put: rows stay in byte order of their keys, and an existing key is overwritten. */
  function PutRow(rows: seq<Row>, r: Row): (s: seq<Row>)
    ensures |s| <= |rows| + 1
  {
    if rows == [] || Less(r.key, rows[0].key) then [r] + rows
    else if r.key == rows[0].key then [r] + rows[1..]
    else [rows[0]] + PutRow(rows[1..], r)
  }

  /** The hash is of the payload as it was given; what the row carries is the payload as it reads back. */
  function NewRow(c: Codec, log: Log, p: Payload): Row
  {
    var prev := LastHash(log.rows);
    var payload := p.(seqNo := log.counter + 1);
    Row(Encode(log.counter + 1), Entry(c.restored(payload), prev, c.digest(Input(c, prev, payload))))
  }

  /** Append gives the next counter value, whatever rows remain. */
  function Append(c: Codec, log: Log, p: Payload): Log
  {
    Log(PutRow(log.rows, NewRow(c, log, p)), log.counter + 1)
  }

  function AppendAll(c: Codec, log: Log, ps: seq<Payload>): Log
  {
    if ps == [] then log else Append(c, AppendAll(c, log, ps[..|ps| - 1]), ps[|ps| - 1])
  }

  predicate NumberedAt(rows: seq<Row>, i: nat)
    requires i < |rows|
  {
    Decode(rows[i].key) == rows[i].entry.payload.seqNo == i + 1
  }

  /** Every row carries its own number, in its key and in its entry. */
  predicate Numbered(rows: seq<Row>)
  {
    forall i :: 0 <= i < |rows| ==> NumberedAt(rows, i)
  }

  predicate Linked(c: Codec, rows: seq<Row>, i: nat)
    requires i < |rows|
  {
    var e := rows[i].entry;
    && NumberedAt(rows, i)
    && e.prevHash == LastHash(rows[..i])
    && e.hash == c.digest(Input(c, e.prevHash, e.payload))
  }

  /** What Verify accepts: every row carries its own number, its link and its hash, and as many rows are there as were issued. */
  predicate Intact(c: Codec, log: Log)
  {
    |log.rows| == log.counter && Chained(c, log.rows)
  }

  predicate Chained(c: Codec, rows: seq<Row>)
  {
    forall i :: 0 <= i < |rows| ==> Linked(c, rows, i)
  }

  // ---- When appended logs are intact ----

  /** Nothing was deleted or moved. */
  predicate Whole(log: Log)
  {
    |log.rows| == log.counter && Numbered(log.rows)
  }

  lemma IntactIsWhole(c: Codec, log: Log)
    requires Intact(c, log)
    ensures Whole(log)
  {
    forall i | 0 <= i < |log.rows|
      ensures NumberedAt(log.rows, i)
    {
      assert Linked(c, log.rows, i);
    }
  }

  lemma NumberedKey(rows: seq<Row>, i: nat)
    requires i < |rows| && i + 1 < U64 && NumberedAt(rows, i)
    ensures rows[i].key == Encode(i + 1)
  {
    DecodeEncode(i + 1);
    ByteOrderIsValueOrder(rows[i].key, Encode(i + 1));
  }

  lemma {:induction false} PutAtEnd(rows: seq<Row>, r: Row)
    requires forall i :: 0 <= i < |rows| ==> !Less(r.key, rows[i].key) && r.key != rows[i].key
    ensures PutRow(rows, r) == rows + [r]
  {
    if rows != [] {
      PutAtEnd(rows[1..], r);
      assert rows == [rows[0]] + rows[1..];
    }
  }

  lemma WholePutsAtEnd(c: Codec, log: Log, p: Payload)
    requires Faithful(c) && Whole(log) && log.counter + 1 < U64
    ensures Append(c, log, p).rows == log.rows + [NewRow(c, log, p)]
  {
    var r := NewRow(c, log, p);
    forall i | 0 <= i < |log.rows|
      ensures !Less(r.key, log.rows[i].key) && r.key != log.rows[i].key
    {
      assert NumberedAt(log.rows, i);
      NumberedKey(log.rows, i);
      KeyOrderIsSequenceOrder(log.counter + 1, i + 1);
    }
    PutAtEnd(log.rows, r);
  }

  lemma NumberedGrows(rows: seq<Row>, r: Row)
    requires Numbered(rows) && Decode(r.key) == r.entry.payload.seqNo == |rows| + 1
    ensures Numbered(rows + [r])
  {
    var after := rows + [r];
    forall i | 0 <= i < |after|
      ensures NumberedAt(after, i)
    {
      if i < |rows| {
        assert NumberedAt(rows, i) && after[i] == rows[i];
      }
    }
  }

  lemma AppendKeepsWhole(c: Codec, log: Log, p: Payload)
    requires Faithful(c) && Whole(log) && log.counter + 1 < U64
    ensures Whole(Append(c, log, p))
  {
    WholePutsAtEnd(c, log, p);
    DecodeEncode(log.counter + 1);
    NumberedGrows(log.rows, NewRow(c, log, p));
  }

  /** The payload read back hashes as the payload that was given. */
  predicate Survives(c: Codec, prevHash: string, p: Payload)
  {
    c.digest(Input(c, prevHash, c.restored(p))) == c.digest(Input(c, prevHash, p))
  }

  lemma LinkedInLonger(c: Codec, rows: seq<Row>, r: Row, i: nat)
    requires i < |rows|
    ensures Linked(c, rows + [r], i) <==> Linked(c, rows, i)
  {
    var after := rows + [r];
    assert after[..i] == rows[..i] && after[i] == rows[i];
  }

  lemma ChainGrowsIff(c: Codec, rows: seq<Row>, r: Row)
    ensures Chained(c, rows + [r]) <==> Chained(c, rows) && Linked(c, rows + [r], |rows|)
  {
    forall i | 0 <= i < |rows|
      ensures Linked(c, rows + [r], i) <==> Linked(c, rows, i)
    {
      LinkedInLonger(c, rows, r, i);
    }
  }

  lemma NewRowIsLinkedIff(c: Codec, log: Log, p: Payload)
    requires Faithful(c) && Whole(log) && log.counter + 1 < U64
    ensures Linked(c, log.rows + [NewRow(c, log, p)], |log.rows|) <==> Survives(c, LastHash(log.rows), p.(seqNo := log.counter + 1))
  {
    var r := NewRow(c, log, p);
    var after := log.rows + [r];
    DecodeEncode(log.counter + 1);
    assert after[..|log.rows|] == log.rows && after[|log.rows|] == r;
  }

  /** A whole log is intact after one more append exactly when it was, and the new payload survives being read back. */
  lemma AppendKeepsIntactIff(c: Codec, log: Log, p: Payload)
    requires Faithful(c) && Whole(log) && log.counter + 1 < U64
    ensures Intact(c, Append(c, log, p)) <==> Intact(c, log) && Survives(c, LastHash(log.rows), p.(seqNo := log.counter + 1))
  {
    WholePutsAtEnd(c, log, p);
    NewRowIsLinkedIff(c, log, p);
    ChainGrowsIff(c, log.rows, NewRow(c, log, p));
  }

  lemma AppendToIntact(c: Codec, log: Log, p: Payload)
    requires Faithful(c) && Intact(c, log) && log.counter + 1 < U64
    ensures Intact(c, Append(c, log, p)) <==> Survives(c, LastHash(log.rows), p.(seqNo := log.counter + 1))
  {
    IntactIsWhole(c, log);
    AppendKeepsIntactIff(c, log, p);
  }

  /** Two texts that differ and have one hash. */
  predicate Collide(c: Codec, x: string, y: string)
  {
    x != y && c.digest(x) == c.digest(y)
  }

  function Appended(c: Codec, ps: seq<Payload>): Log
  {
    AppendAll(c, Log([], 0), ps)
  }

  /** The k-th payload survives, under its number and after the hash before it. */
  predicate KeptAt(c: Codec, ps: seq<Payload>, k: nat)
    requires k < |ps|
  {
    Survives(c, LastHash(Appended(c, ps[..k]).rows), ps[k].(seqNo := k + 1))
  }

  lemma {:induction false} AppendedIsWhole(c: Codec, ps: seq<Payload>)
    requires Faithful(c) && |ps| < U64
    ensures Whole(Appended(c, ps)) && Appended(c, ps).counter == |ps|
  {
    if ps != [] {
      AppendedIsWhole(c, ps[..|ps| - 1]);
      AppendKeepsWhole(c, Appended(c, ps[..|ps| - 1]), ps[|ps| - 1]);
    }
  }

  lemma KeptInLonger(c: Codec, init: seq<Payload>, last: Payload, k: nat)
    requires k < |init|
    ensures KeptAt(c, init + [last], k) <==> KeptAt(c, init, k)
  {
    assert (init + [last])[..k] == init[..k];
  }

  lemma LastIsKeptIff(c: Codec, init: seq<Payload>, last: Payload)
    requires Faithful(c) && |init| + 1 < U64
    ensures Intact(c, Appended(c, init + [last])) <==> Intact(c, Appended(c, init)) && KeptAt(c, init + [last], |init|)
  {
    var ps := init + [last];
    assert ps[..|init|] == init;
    AppendedIsWhole(c, init);
    AppendKeepsIntactIff(c, Appended(c, init), last);
  }

  /** A log that appending alone made passes verification exactly when every payload hashes as what it reads back as does. */
  lemma {:induction false} AppendedLogVerifiesIff(c: Codec, ps: seq<Payload>)
    requires Faithful(c) && |ps| < U64
    ensures Intact(c, Appended(c, ps)) <==> forall k :: 0 <= k < |ps| ==> KeptAt(c, ps, k)
  {
    if ps != [] {
      var init, last := ps[..|ps| - 1], ps[|ps| - 1];
      assert ps == init + [last];
      AppendedLogVerifiesIff(c, init);
      LastIsKeptIff(c, init, last);
      forall k | 0 <= k < |init|
        ensures KeptAt(c, ps, k) <==> KeptAt(c, init, k)
      {
        KeptInLonger(c, init, last, k);
      }
    }
  }

  // ---- Deletion is evident ----

  function Without(rows: seq<Row>, gone: set<Bytes>): (s: seq<Row>)
    ensures |s| <= |rows|
  {
    if rows == [] then [] else (if rows[0].key in gone then [] else [rows[0]]) + Without(rows[1..], gone)
  }

  lemma {:induction false} WithoutIsShorter(rows: seq<Row>, gone: set<Bytes>, i: nat)
    requires i < |rows| && rows[i].key in gone
    ensures |Without(rows, gone)| < |rows|
  {
    if i > 0 {
      WithoutIsShorter(rows[1..], gone, i - 1);
    }
  }

  lemma {:induction false} ShortfallStays(c: Codec, log: Log, ps: seq<Payload>)
    requires |log.rows| < log.counter
    ensures |AppendAll(c, log, ps).rows| < AppendAll(c, log, ps).counter
  {
    if ps != [] {
      ShortfallStays(c, log, ps[..|ps| - 1]);
    }
  }

  /** Delete any rows of an intact log, keep its counter, append anything: the log never passes again. */
  lemma DeletionIsEvident(c: Codec, log: Log, gone: set<Bytes>, i: nat, ps: seq<Payload>)
    requires Intact(c, log) && i < |log.rows| && log.rows[i].key in gone
    ensures !Intact(c, AppendAll(c, Log(Without(log.rows, gone), log.counter), ps))
  {
    WithoutIsShorter(log.rows, gone, i);
    ShortfallStays(c, Log(Without(log.rows, gone), log.counter), ps);
  }

  // ---- The head hash pins the whole log ----

  function InputAt(c: Codec, log: Log, i: nat): string
    requires i < |log.rows|
  {
    Input(c, log.rows[i].entry.prevHash, log.rows[i].entry.payload)
  }

  /** Rows as reading gives them. */
  ghost predicate Decoded(c: Codec, rows: seq<Row>)
  {
    forall i :: 0 <= i < |rows| ==> c.restored(rows[i].entry.payload) == rows[i].entry.payload
  }

  /** Two entries of the logs whose hashed texts differ although their hashes agree. */
  predicate CollidesAt(c: Codec, a: Log, b: Log, i: nat, j: nat)
  {
    && i < |a.rows| && j < |b.rows|
    && Collide(c, InputAt(c, a, i), InputAt(c, b, j))
  }

  lemma InputsSplit(c: Codec, a: string, p: Payload, b: string, q: Payload)
    requires Faithful(c) && c.restored(p) == p && c.restored(q) == q && Input(c, a, p) == Input(c, b, q)
    requires (a == [] || (|a| == 64 && a[0] != '{')) && (b == [] || (|b| == 64 && b[0] != '{'))
    ensures a == b && p == q
  {
    var x, y := Input(c, a, p), Input(c, b, q);
    assert x[0] == if a == [] then '{' else a[0];
    assert y[0] == if b == [] then '{' else b[0];
    assert x[..|a|] == a && y[..|b|] == b && x[|a|..] == c.text(p) && y[|b|..] == c.text(q);
  }

  lemma LinkShape(c: Codec, log: Log, i: nat)
    requires Shaped(c) && Intact(c, log) && i < |log.rows|
    ensures var a := log.rows[i].entry.prevHash; a == [] || (|a| == 64 && a[0] != '{')
    ensures log.rows[i].entry.prevHash == if i == 0 then [] else log.rows[i - 1].entry.hash
  {
    assert Linked(c, log.rows, i);
    if i > 0 {
      assert Linked(c, log.rows, i - 1);
      assert log.rows[..i][i - 1] == log.rows[i - 1];
    }
  }

  lemma SameHashSameRow(c: Codec, a: Log, b: Log, i: nat, j: nat)
    requires Faithful(c) && Shaped(c) && Intact(c, a) && Intact(c, b) && Decoded(c, a.rows) && Decoded(c, b.rows)
    requires i < |a.rows| < U64 && j < |b.rows| < U64
    requires a.rows[i].entry.hash == b.rows[j].entry.hash && !CollidesAt(c, a, b, i, j)
    ensures i == j && a.rows[i] == b.rows[j]
  {
    var e, f := a.rows[i].entry, b.rows[j].entry;
    assert Linked(c, a.rows, i) && Linked(c, b.rows, j);
    LinkShape(c, a, i);
    LinkShape(c, b, j);
    InputsSplit(c, e.prevHash, e.payload, f.prevHash, f.payload);
    NumberedKey(a.rows, i);
    NumberedKey(b.rows, j);
  }

  lemma {:induction false} SameHashSamePrefix(c: Codec, a: Log, b: Log, i: nat, j: nat)
    requires Faithful(c) && Shaped(c) && Intact(c, a) && Intact(c, b) && Decoded(c, a.rows) && Decoded(c, b.rows)
    requires i < |a.rows| < U64 && j < |b.rows| < U64
    requires a.rows[i].entry.hash == b.rows[j].entry.hash
    requires forall k, l :: !CollidesAt(c, a, b, k, l)
    ensures i == j && forall k :: 0 <= k <= i ==> a.rows[k] == b.rows[k]
  {
    assert !CollidesAt(c, a, b, i, j);
    SameHashSameRow(c, a, b, i, j);
    if i > 0 {
      LinkShape(c, a, i);
      LinkShape(c, b, i);
      SameHashSamePrefix(c, a, b, i - 1, i - 1);
    }
  }

  /** Two logs that pass Verify and agree on the last hash agree row by row, unless the hash collides between two of their own entries. */
  lemma HeadHashPinsTheLog(c: Codec, a: Log, b: Log)
    requires Faithful(c) && Shaped(c) && Intact(c, a) && Intact(c, b) && Decoded(c, a.rows) && Decoded(c, b.rows) && a.rows != [] && b.rows != [] && |a.rows| < U64 && |b.rows| < U64
    requires LastHash(a.rows) == LastHash(b.rows)
    ensures a == b || exists i, j :: CollidesAt(c, a, b, i, j)
  {
    if forall i, j :: !CollidesAt(c, a, b, i, j) {
      SameHashSamePrefix(c, a, b, |a.rows| - 1, |b.rows| - 1);
      assert a.rows == b.rows;
    }
  }

  // ---- Paging ----

  function From(rows: seq<Row>, key: Bytes): seq<Row>
  {
    if rows != [] && Less(rows[0].key, key) then From(rows[1..], key) else rows
  }

  function Take(rows: seq<Row>, limit: int): seq<Row>
  {
    if limit <= 0 then [] else if |rows| <= limit then rows else rows[..limit]
  }

  /** Page's rows: seek to after + 1 in unsigned 64-bit arithmetic, then up to limit of them. */
  function PageOf(log: Log, after: nat, limit: int): seq<Row>
  {
    Take(From(log.rows, Encode((after + 1) % U64)), limit)
  }

  lemma {:induction false} SeekSkips(log: Log, from: nat, k: nat)
    requires Numbered(log.rows) && |log.rows| < U64 && 1 <= from < U64 && k <= |log.rows| && k < from
    ensures From(log.rows, Encode(from)) == From(log.rows[k..], Encode(from))
  {
    if k > 0 {
      SeekSkips(log, from, k - 1);
      var rest := log.rows[k - 1..];
      assert NumberedAt(log.rows, k - 1);
      NumberedKey(log.rows, k - 1);
      KeyOrderIsSequenceOrder(k, from);
      assert rest[0] == log.rows[k - 1] && rest[1..] == log.rows[k..];
    } else {
      assert log.rows[0..] == log.rows;
    }
  }

  lemma SeekStops(log: Log, from: nat, k: nat)
    requires Numbered(log.rows) && |log.rows| < U64 && from < U64 && k <= |log.rows| && from <= k + 1
    ensures From(log.rows[k..], Encode(from)) == log.rows[k..]
  {
    if k < |log.rows| {
      assert NumberedAt(log.rows, k);
      NumberedKey(log.rows, k);
      KeyOrderIsSequenceOrder(k + 1, from);
      assert log.rows[k..][0] == log.rows[k];
    }
  }

  function Min(a: int, b: int): int
  {
    if a < b then a else b
  }

  lemma TakeIsSlice(rows: seq<Row>, k: nat, limit: nat)
    requires k <= |rows|
    ensures Take(rows[k..], limit) == rows[k..Min(k + limit, |rows|)]
  {
    if limit <= |rows| - k {
      assert rows[k..][..limit] == rows[k..k + limit];
    } else {
      assert rows[k..|rows|] == rows[k..];
    }
  }

  lemma SeekIsSlice(log: Log, after: nat)
    requires Numbered(log.rows) && |log.rows| < U64 && after < U64 - 1
    ensures From(log.rows, Encode(after + 1)) == log.rows[Min(after, |log.rows|)..]
  {
    var k := Min(after, |log.rows|);
    SeekSkips(log, after + 1, k);
    if after <= |log.rows| {
      SeekStops(log, after + 1, k);
    }
  }

  lemma PageTakesSlice(log: Log, after: nat, limit: nat, rows: seq<Row>)
    requires after < U64 - 1 && From(log.rows, Encode(after + 1)) == rows
    ensures PageOf(log, after, limit) == Take(rows, limit)
  {
    assert (after + 1) % U64 == after + 1;
  }

  lemma SliceEnds(n: nat, after: nat, limit: nat)
    ensures Min(after, n) <= Min(after + limit, n) == Min(Min(after, n) + limit, n)
  {
  }

  /** On a numbered log a page is the slice of entries numbered after + 1 to after + limit. */
  lemma PageIsSlice(log: Log, after: nat, limit: nat)
    requires Numbered(log.rows) && |log.rows| < U64 && after < U64 - 1
    ensures PageOf(log, after, limit) == log.rows[Min(after, |log.rows|)..Min(after + limit, |log.rows|)]
  {
    SliceEnds(|log.rows|, after, limit);
    SeekIsSlice(log, after);
    PageTakesSlice(log, after, limit, log.rows[Min(after, |log.rows|)..]);
    TakeIsSlice(log.rows, Min(after, |log.rows|), limit);
  }

  /** The all-ones position wraps: its page starts over from the first entry. */
  lemma AllOnesStartsOver(log: Log, limit: int)
    requires Numbered(log.rows) && |log.rows| < U64
    ensures PageOf(log, U64 - 1, limit) == PageOf(log, 0, limit) == Take(log.rows, limit)
  {
    assert log.rows[0..] == log.rows;
    SeekStops(log, 0, 0);
    SeekStops(log, 1, 0);
  }
}
