/**
The audit log as the object the code keeps (internal/audit/bbolt.go), and the paged listing over a
log that keeps growing (internal/admin/service.go).
*/
module AuditLog {
  import opened SeqKey
  import opened Audit
  import opened AuditPayload

  class BoltLog {
    var rows: seq<Row>
    var counter: nat
    const codec: Codec

    constructor (codec: Codec, log: Log)
      ensures Snapshot() == log && this.codec == codec
    {
      this.codec, rows, counter := codec, log.rows, log.counter;
    }

    function Snapshot(): Log
      reads this
    {
      Log(rows, counter)
    }

    method Append(p: Payload)
      modifies this
      ensures Snapshot() == Audit.Append(codec, old(Snapshot()), p)
      ensures Faithful(codec) && old(Intact(codec, Snapshot())) && old(counter) + 1 < U64 ==>
                (Intact(codec, Snapshot()) <==> Survives(codec, old(LastHash(rows)), p.(seqNo := old(counter) + 1)))
    {
      if Faithful(codec) && Intact(codec, Snapshot()) && counter + 1 < U64 {
        AppendToIntact(codec, Snapshot(), p);
      }
      var prev := "";
      if |rows| > 0 {
        prev := rows[|rows| - 1].entry.hash;
      }
      counter := counter + 1;
      var payload := p.(seqNo := counter);
      rows := PutRow(rows, Row(Encode(counter), Entry(codec.restored(payload), prev, codec.digest(Input(codec, prev, payload)))));
    }

    /** The walk over the chain and the tail check. */
    method Verify() returns (ok: bool)
      ensures ok <==> Intact(codec, Snapshot())
    {
      var prevHash := "";
      var wantSeq := 1;
      var lastSeq := 0;
      for i := 0 to |rows|
        invariant prevHash == LastHash(rows[..i])
        invariant wantSeq == i + 1 && lastSeq == i
        invariant forall j :: 0 <= j < i ==> Linked(codec, rows, j)
      {
        var e := rows[i].entry;
        if Decode(rows[i].key) != e.payload.seqNo || e.payload.seqNo != wantSeq || e.prevHash != prevHash
           || codec.digest(Input(codec, prevHash, e.payload)) != e.hash
        {
          assert !Linked(codec, rows, i);
          return false;
        }
        prevHash, lastSeq, wantSeq := e.hash, e.payload.seqNo, wantSeq + 1;
      }
      return counter == lastSeq;
    }

    method Page(after: nat, limit: int) returns (out: seq<Row>)
      requires after < U64
      ensures out == PageOf(Snapshot(), after, limit)
    {
      out := [];
      if limit <= 0 {
        return;
      }
      var key := Encode((after + 1) % U64);
      var k := 0;
      while k < |rows| && Less(rows[k].key, key)
        invariant k <= |rows|
        invariant From(rows, key) == From(rows[k..], key)
      {
        assert rows[k..][1..] == rows[k + 1..];
        k := k + 1;
      }
      ghost var start := k;
      assert From(rows, key) == rows[start..];
      while k < |rows| && |out| < limit
        invariant start <= k <= |rows|
        invariant out == rows[start..k] && |out| <= limit
      {
        out := out + [rows[k]];
        k := k + 1;
      }
      assert rows[start..k] == rows[start..][..k - start];
    }
  }

  // ---- The listing ----

  const ScanBatch := 256
  const MaxLimit := 1000

  function Matching(rows: seq<Row>, m: Entry -> bool): seq<Entry>
  {
    if rows == [] then []
    else
      var last := rows[|rows| - 1].entry;
      Matching(rows[..|rows| - 1], m) + (if m(last) then [last] else [])
  }

  lemma {:induction false} MatchingJoins(a: seq<Row>, b: seq<Row>, m: Entry -> bool)
    ensures Matching(a + b, m) == Matching(a, m) + Matching(b, m)
  {
    if b == [] {
      assert a + b == a;
    } else {
      assert (a + b)[..|a + b| - 1] == a + b[..|b| - 1];
      MatchingJoins(a, b[..|b| - 1], m);
    }
  }

  /** The log as one call after another finds it: numbered each time, and only ever longer. */
  ghost predicate Growing(snaps: nat -> Log)
  {
    && (forall k: nat :: Numbered(snaps(k).rows) && |snaps(k).rows| < U64 - 1)
    && (forall k: nat :: snaps(k).rows <= snaps(k + 1).rows)
  }

  lemma {:induction false} LaterIsLonger(snaps: nat -> Log, j: nat, k: nat)
    requires Growing(snaps) && j <= k
    ensures snaps(j).rows <= snaps(k).rows
  {
    if j < k {
      LaterIsLonger(snaps, j, k - 1);
      assert snaps(k - 1).rows <= snaps(k - 1 + 1).rows;
    }
  }

  /** The rows of a page are the next ones, each under its number. */
  ghost predicate Follows(rows: seq<Row>, page: seq<Row>, start: nat)
  {
    forall i :: 0 <= i < |page| ==> FollowsAt(rows, page, start, i)
  }

  predicate FollowsAt(rows: seq<Row>, page: seq<Row>, start: nat, i: nat)
    requires i < |page|
  {
    start + i < |rows| && page[i] == rows[start + i] && page[i].entry.payload.seqNo == start + i + 1
  }

  lemma PageFollows(log: Log, cursor: nat)
    requires Numbered(log.rows) && |log.rows| < U64 - 1 && cursor < U64 - 1
    ensures Follows(log.rows, PageOf(log, cursor, ScanBatch), cursor)
  {
    PageIsSlice(log, cursor, ScanBatch);
    SliceFollows(log.rows, PageOf(log, cursor, ScanBatch), cursor);
  }

  lemma SliceFollows(rows: seq<Row>, page: seq<Row>, start: nat)
    requires Numbered(rows) && page == rows[Min(start, |rows|)..Min(start + ScanBatch, |rows|)]
    ensures Follows(rows, page, start)
  {
    forall i | 0 <= i < |page|
      ensures FollowsAt(rows, page, start, i)
    {
      assert NumberedAt(rows, start + i);
    }
  }

  lemma OneMore(rows: seq<Row>, a: nat, b: nat, m: Entry -> bool)
    requires a <= b < |rows|
    ensures Matching(rows[a..b + 1], m) == Matching(rows[a..b], m) + (if m(rows[b].entry) then [rows[b].entry] else [])
  {
    assert rows[a..b + 1][..b - a] == rows[a..b];
  }

  /** What one listing call returns: the matching entries of a stretch of the log, and where to go on. */
  ghost predicate Listing(rows: seq<Row>, m: Entry -> bool, after: nat, limit: int, out: seq<Entry>, next: nat)
  {
    && |out| <= Min(limit, MaxLimit)
    && (next == 0 ==> out == Matching(rows[Min(after, |rows|)..], m))
    && (next != 0 ==> after < next <= |rows| && |out| == Min(limit, MaxLimit) && out == Matching(rows[after..next], m))
  }

  /** out holds the matching entries from after up to the cursor. */
  ghost predicate Gathered(rows: seq<Row>, m: Entry -> bool, after: nat, cursor: nat, out: seq<Entry>)
  {
    && after <= cursor
    && (cursor > after ==> cursor <= |rows|)
    && out == if cursor > after then Matching(rows[after..cursor], m) else []
  }

  lemma GatheredOnLonger(rows: seq<Row>, longer: seq<Row>, m: Entry -> bool, after: nat, cursor: nat, out: seq<Entry>)
    requires Gathered(rows, m, after, cursor, out) && rows <= longer
    ensures Gathered(longer, m, after, cursor, out)
  {
    if cursor > after {
      assert rows[after..cursor] == longer[after..cursor];
    }
  }

  lemma GatherOne(rows: seq<Row>, m: Entry -> bool, after: nat, cursor: nat, out: seq<Entry>)
    requires Gathered(rows, m, after, cursor, out) && cursor < |rows|
    ensures Gathered(rows, m, after, cursor + 1, out + (if m(rows[cursor].entry) then [rows[cursor].entry] else []))
  {
    assert rows[after..after] == [];
    OneMore(rows, after, cursor, m);
  }

  lemma GatherRow(rows: seq<Row>, page: seq<Row>, start: nat, i: nat, m: Entry -> bool, after: nat, out: seq<Entry>)
    requires Follows(rows, page, start) && i < |page| && Gathered(rows, m, after, start + i, out)
    ensures page[i].entry.payload.seqNo == start + i + 1
    ensures m(page[i].entry) ==> Gathered(rows, m, after, start + i + 1, out + [page[i].entry])
    ensures !m(page[i].entry) ==> Gathered(rows, m, after, start + i + 1, out)
  {
    assert FollowsAt(rows, page, start, i);
    GatherOne(rows, m, after, start + i, out);
    assert out + [] == out;
  }

  method ScanPage(ghost rows: seq<Row>, page: seq<Row>, start: nat, m: Entry -> bool, ghost after: nat, so: seq<Entry>, most: nat)
    returns (out: seq<Entry>, cursor: nat)
    requires Follows(rows, page, start) && Gathered(rows, m, after, start, so) && |so| < most
    ensures Gathered(rows, m, after, cursor, out) && |out| <= most
    ensures |out| == most ==> cursor > start
    ensures |out| < most ==> cursor == start + |page|
  {
    out, cursor := so, start;
    for i := 0 to |page|
      invariant cursor == start + i && |out| < most && Gathered(rows, m, after, cursor, out)
    {
      GatherRow(rows, page, start, i, m, after, out);
      var e := page[i].entry;
      cursor := e.payload.seqNo;
      if !m(e) {
        continue;
      }
      out := out + [e];
      if |out| == most {
        return;
      }
    }
  }

  lemma GatheredToEnd(rows: seq<Row>, m: Entry -> bool, after: nat, cursor: nat, out: seq<Entry>)
    requires Gathered(rows, m, after, cursor, out) && cursor >= |rows|
    ensures out == Matching(rows[Min(after, |rows|)..], m)
  {
    if cursor > after {
      assert rows[after..|rows|] == rows[after..];
    }
  }

  lemma ShortPageReachesEnd(log: Log, cursor: nat)
    requires Numbered(log.rows) && |log.rows| < U64 - 1 && cursor < U64 - 1 && |PageOf(log, cursor, ScanBatch)| < ScanBatch
    ensures cursor + |PageOf(log, cursor, ScanBatch)| >= |log.rows|
  {
    PageIsSlice(log, cursor, ScanBatch);
  }

  /** calls is how many pages were read, each from the log as it then was. */
  method AuditList(snaps: nat -> Log, first: nat, m: Entry -> bool, after: nat, limit: int)
    returns (out: seq<Entry>, next: nat, calls: nat)
    requires Growing(snaps) && after < U64 - 1
    ensures limit <= 0 ==> out == [] && next == 0 && calls == 0
    ensures limit > 0 ==> calls > 0 && Listing(snaps(first + calls - 1).rows, m, after, limit, out, next)
  {
    out, calls := [], 0;
    if limit <= 0 {
      return out, 0, calls;
    }
    var most := Min(limit, MaxLimit);
    var cursor := after;
    while true
      invariant after <= cursor < U64 - 1 && |out| < most
      invariant Gathered(snaps(first + calls).rows, m, after, cursor, out)
      decreases U64 - cursor
    {
      var log := snaps(first + calls);
      var page := PageOf(log, cursor, ScanBatch);
      PageFollows(log, cursor);
      if |page| < ScanBatch {
        ShortPageReachesEnd(log, cursor);
      }
      out, cursor := ScanPage(log.rows, page, cursor, m, after, out, most);
      calls := calls + 1;
      if |out| == most {
        return out, cursor, calls;
      }
      if |page| < ScanBatch {
        GatheredToEnd(log.rows, m, after, cursor, out);
        return out, 0, calls;
      }
      assert snaps(first + calls - 1).rows <= snaps(first + calls - 1 + 1).rows;
      GatheredOnLonger(log.rows, snaps(first + calls).rows, m, after, cursor, out);
    }
  }

  lemma GatherStretch(rows: seq<Row>, m: Entry -> bool, after: nat, cursor: nat, all: seq<Entry>, end: nat)
    requires Gathered(rows, m, after, cursor, all) && cursor <= end <= |rows|
    ensures all + Matching(rows[cursor..end], m) == Matching(rows[after..end], m)
  {
    if cursor > after {
      MatchingJoins(rows[after..cursor], rows[cursor..end], m);
      assert rows[after..cursor] + rows[cursor..end] == rows[after..end];
    }
  }

  /** One more listing joins what was gathered before it, up to its next position or to the end. */
  lemma GatherMore(rows: seq<Row>, m: Entry -> bool, after: nat, cursor: nat, all: seq<Entry>, limit: int, out: seq<Entry>, next: nat)
    requires Gathered(rows, m, after, cursor, all) && Listing(rows, m, cursor, limit, out, next)
    ensures next != 0 ==> Gathered(rows, m, after, next, all + out)
    ensures next == 0 ==> all + out == Matching(rows[Min(after, |rows|)..], m)
  {
    if next != 0 {
      GatherStretch(rows, m, after, cursor, all, next);
    } else if cursor <= |rows| {
      GatherStretch(rows, m, after, cursor, all, |rows|);
      assert rows[after..|rows|] == rows[after..] && rows[cursor..|rows|] == rows[cursor..];
    }
  }

  /**
  Following next from any position with any positive limits ends, and gives every matching entry
  past that position once and in order, however much is appended between the calls.
  */
  method FollowAll(snaps: nat -> Log, m: Entry -> bool, after: nat, limits: nat -> int) returns (all: seq<Entry>, calls: nat)
    requires Growing(snaps) && after < U64 - 1
    requires forall n :: limits(n) > 0
    ensures calls > 0
    ensures var rows := snaps(calls - 1).rows; all == Matching(rows[Min(after, |rows|)..], m)
  {
    all, calls := [], 0;
    var cursor, turn := after, 0;
    ghost var seen: seq<Row> := [];
    while true
      invariant cursor < U64 - 1 && Gathered(seen, m, after, cursor, all)
      invariant seen == if calls > 0 then snaps(calls - 1).rows else []
      decreases U64 - cursor
    {
      var out, next, n := AuditList(snaps, calls, m, cursor, limits(turn));
      ghost var rows := snaps(calls + n - 1).rows;
      LaterIsLonger(snaps, if calls > 0 then calls - 1 else 0, calls + n - 1);
      GatheredOnLonger(seen, rows, m, after, cursor, all);
      GatherMore(rows, m, after, cursor, all, Min(limits(turn), MaxLimit), out, next);
      seen, calls, turn := rows, calls + n, turn + 1;
      all := all + out;
      if next == 0 {
        return;
      }
      cursor := next;
    }
  }
}
