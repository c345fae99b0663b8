/**
Which UIDs one sync asks for and how far it may move the cursor (internal/imapsync/imapsync.go,
pullSet, filterAbove and uidSetOf).
*/
module UidSets {
  import opened SeqKey
  import opened InboundDb
  import opened Options

  /** One element of an IMAP UID set; Open is "lo:*". */
  datatype UidRange = Closed(lo: nat, hi: nat) | Open(lo: nat)

  predicate InRange(r: UidRange, u: nat)
  {
    r.lo <= u && (r.Closed? ==> u <= r.hi)
  }

  predicate Denotes(ranges: seq<UidRange>, u: nat)
  {
    exists k :: 0 <= k < |ranges| && InRange(ranges[k], u)
  }

  /** What pullSet decides: nothing to fetch, a concrete range, an open range, or an exact list. */
  datatype Request = Nothing | Between(lo: nat, hi: nat) | From(lo: nat) | Exactly(uids: seq<Uint32>)

  datatype Plan = Plan(request: Request, ceiling: Uint32)

  function Above(uids: seq<Uint32>, last: nat): seq<Uint32>
  {
    if uids == [] then []
    else (if uids[0] > last then [uids[0]] else []) + Above(uids[1..], last)
  }

  lemma {:induction false} AboveHolds(uids: seq<Uint32>, last: nat)
    ensures forall u :: u in Above(uids, last) <==> u in uids && u > last
  {
    if uids != [] {
      AboveHolds(uids[1..], last);
      assert forall u :: u in uids <==> u == uids[0] || u in uids[1..];
    }
  }

  /** The unsigned 32-bit successor, which wraps. */
  function Next32(u: Uint32): Uint32
  {
    if u == U32 - 1 then 0 else u + 1
  }

  /** found is the SEARCH SINCE result when a recency cutoff is set. */
  function PlanOf(cutoff: bool, found: seq<Uint32>, uidNext: Uint32, last: Uint32): Plan
  {
    if cutoff then
      var uids := Above(found, last);
      Plan(if uids == [] then Nothing else Exactly(uids), if uidNext > 0 then uidNext - 1 else last)
    else if uidNext > 0 then
      if Next32(last) > uidNext - 1 then Plan(Nothing, last) else Plan(Between(Next32(last), uidNext - 1), uidNext - 1)
    else
      Plan(From(Next32(last)), last)
  }

  // ---- Coalescing an exact list into ranges ----

  predicate Sorted(s: seq<Uint32>)
  {
    forall i, j :: 0 <= i < j < |s| ==> s[i] <= s[j]
  }

  function Insert(u: Uint32, s: seq<Uint32>): (r: seq<Uint32>)
  {
    if s == [] || u <= s[0] then [u] + s else [s[0]] + Insert(u, s[1..])
  }

  /** sort.Slice in ascending order. */
  function Sort(s: seq<Uint32>): seq<Uint32>
  {
    if s == [] then [] else Insert(s[0], Sort(s[1..]))
  }

  lemma {:induction false} InsertSorts(u: Uint32, s: seq<Uint32>)
    requires Sorted(s)
    ensures Sorted(Insert(u, s))
    ensures forall x :: x in Insert(u, s) <==> x == u || x in s
  {
    if s != [] && u > s[0] {
      InsertSorts(u, s[1..]);
      var rest := Insert(u, s[1..]);
      assert forall x :: x in s <==> x == s[0] || x in s[1..];
      forall k | 0 <= k < |rest|
        ensures s[0] <= rest[k]
      {
        assert rest[k] in rest;
        if rest[k] != u {
          var j :| 0 <= j < |s[1..]| && s[1..][j] == rest[k];
          assert s[j + 1] == rest[k];
        }
      }
    }
  }

  lemma {:induction false} SortSorts(s: seq<Uint32>)
    ensures Sorted(Sort(s))
    ensures forall x :: x in Sort(s) <==> x in s
  {
    if s != [] {
      SortSorts(s[1..]);
      InsertSorts(s[0], Sort(s[1..]));
      assert forall x :: x in s <==> x == s[0] || x in s[1..];
    }
  }

  /** Ranges of a strictly ascending list leave a gap between neighbours, so none could be merged further. */
  predicate Separated(ranges: seq<UidRange>)
  {
    forall k :: 0 <= k < |ranges| - 1 ==> ranges[k].Closed? && ranges[k].hi + 1 < ranges[k + 1].lo
  }

  predicate Distinct(s: seq<Uint32>)
  {
    forall i, j :: 0 <= i < j < |s| ==> s[i] != s[j]
  }

  method FilterAbove(uids: seq<Uint32>, last: Uint32) returns (out: seq<Uint32>)
    ensures out == Above(uids, last)
    ensures forall u :: u in out <==> u in uids && u > last
  {
    out := [];
    for i := 0 to |uids|
      invariant out + Above(uids[i..], last) == Above(uids, last)
    {
      if uids[i] > last {
        out := out + [uids[i]];
      }
      assert uids[i..][1..] == uids[i + 1..];
    }
    AboveHolds(uids, last);
  }

  /** The last index of the run of consecutive UIDs that starts at i. */
  method RunEnd(uids: seq<Uint32>, i: nat) returns (j: nat)
    requires i < |uids| && Sorted(uids)
    ensures i <= j < |uids|
    ensures forall k :: i <= k <= j ==> uids[k] == uids[i] + (k - i)
    ensures j + 1 < |uids| ==> uids[j + 1] as int != uids[j] as int + 1
  {
    j := i;
    while j + 1 < |uids| && uids[j + 1] == Next32(uids[j])
      invariant i <= j < |uids|
      invariant forall k :: i <= k <= j ==> uids[k] == uids[i] + (k - i)
    {
      j := j + 1;
    }
  }

  lemma RunIsRange(ranges: seq<UidRange>, uids: seq<Uint32>, i: nat, j: nat)
    requires i <= j < |uids|
    requires forall k :: i <= k <= j ==> uids[k] == uids[i] + (k - i)
    requires forall u :: Denotes(ranges, u) <==> u in uids[..i]
    ensures forall u :: Denotes(ranges + [Closed(uids[i], uids[j])], u) <==> u in uids[..j + 1]
  {
    forall u: nat
      ensures Denotes(ranges + [Closed(uids[i], uids[j])], u) <==> u in uids[..j + 1]
    {
      AppendDenotes(ranges, Closed(uids[i], uids[j]), u);
      if u in uids[..j + 1] {
        var k :| 0 <= k < j + 1 && uids[..j + 1][k] == u;
        if k < i {
          assert uids[..i][k] == u;
        } else {
          assert uids[k] == uids[i] + (k - i);
        }
      }
      if u in uids[..i] {
        var k :| 0 <= k < i && uids[..i][k] == u;
        assert uids[..j + 1][k] == u;
      }
      if uids[i] <= u <= uids[j] {
        var k := i + (u - uids[i]);
        assert uids[j] == uids[i] + (j - i) && uids[k] == u;
        assert uids[..j + 1][k] == u;
      }
    }
  }

  lemma RunStaysSeparated(ranges: seq<UidRange>, lo: nat, hi: nat)
    requires Separated(ranges)
    requires ranges != [] ==> ranges[|ranges| - 1].Closed? && ranges[|ranges| - 1].hi + 1 < lo
    ensures Separated(ranges + [Closed(lo, hi)])
  {
  }

  method UidSetOf(unsorted: seq<Uint32>) returns (ranges: seq<UidRange>)
    ensures forall u :: Denotes(ranges, u) <==> u in unsorted
    ensures Distinct(Sort(unsorted)) ==> Separated(ranges)
  {
    var uids := Sort(unsorted);
    SortSorts(unsorted);
    ranges := [];
    var i := 0;
    while i < |uids|
      invariant 0 <= i <= |uids|
      invariant forall u :: Denotes(ranges, u) <==> u in uids[..i]
      invariant ranges != [] ==> i > 0 && ranges[|ranges| - 1] == Closed(ranges[|ranges| - 1].lo, uids[i - 1])
      invariant 0 < i < |uids| ==> uids[i] as int != uids[i - 1] as int + 1
      invariant Distinct(uids) ==> Separated(ranges)
    {
      var j := RunEnd(uids, i);
      RunIsRange(ranges, uids, i, j);
      if Distinct(uids) {
        RunStaysSeparated(ranges, uids[i], uids[j]);
      }
      ranges := ranges + [Closed(uids[i], uids[j])];
      i := j + 1;
    }
    assert uids[..i] == uids;
  }

  lemma AppendDenotes(ranges: seq<UidRange>, r: UidRange, u: nat)
    ensures Denotes(ranges + [r], u) <==> Denotes(ranges, u) || InRange(r, u)
  {
    var all := ranges + [r];
    assert all[|ranges|] == r;
    assert forall k :: 0 <= k < |ranges| ==> all[k] == ranges[k];
  }

  /** The UIDs a request stands for. */
  predicate Requested(q: Request, u: nat)
  {
    match q
    case Nothing => false
    case Between(lo, hi) => lo <= u <= hi
    case From(lo) => lo <= u
    case Exactly(uids) => u in uids
  }

  /** found is None when the search itself failed; the ranges mean exactly what the plan asks for. */
  method PullSet(cutoff: bool, found: Option<seq<Uint32>>, uidNext: Uint32, last: Uint32)
    returns (plan: Option<Plan>, ranges: seq<UidRange>)
    ensures plan.None? <==> cutoff && found.None?
    ensures plan.Some? ==> plan.value == PlanOf(cutoff, if found.Some? then found.value else [], uidNext, last)
    ensures plan.Some? ==> forall u :: Denotes(ranges, u) <==> Requested(plan.value.request, u)
  {
    ranges := [];
    if cutoff {
      if found.None? {
        return None, [];
      }
      var uids := FilterAbove(found.value, last);
      var ceiling := if uidNext > 0 then uidNext - 1 else last;
      if uids == [] {
        return Some(Plan(Nothing, ceiling)), [];
      }
      ranges := UidSetOf(uids);
      return Some(Plan(Exactly(uids), ceiling)), ranges;
    }
    if uidNext > 0 {
      var hi := uidNext - 1;
      if Next32(last) > hi {
        return Some(Plan(Nothing, last)), [];
      }
      ranges := [Closed(Next32(last), hi)];
      assert forall u :: Denotes(ranges, u) <==> InRange(ranges[0], u);
      return Some(Plan(Between(Next32(last), hi), hi)), ranges;
    }
    ranges := [Open(Next32(last))];
    assert forall u :: Denotes(ranges, u) <==> InRange(ranges[0], u);
    return Some(Plan(From(Next32(last)), last)), ranges;
  }

  /**
  The plan asks for exactly what is new and its ceiling never passes UIDNEXT; at the 32-bit limit
  the successor wraps and the range starts over from zero.
  */
  lemma PlanIsWhatIsNew(cutoff: bool, found: seq<Uint32>, uidNext: Uint32, last: Uint32, u: Uint32)
    ensures var p := PlanOf(cutoff, found, uidNext, last);
            && (cutoff || last < U32 - 1 ==>
                 (Requested(p.request, u) <==> u > last && (if cutoff then u in found else uidNext > 0 ==> u < uidNext)))
            && (!cutoff && last == U32 - 1 && uidNext > 0 ==> p.request == Between(0, uidNext - 1))
            && p.ceiling == (if uidNext > 0 && (cutoff || last < uidNext - 1 || last == U32 - 1) then uidNext - 1 else last)
  {
    AboveHolds(found, last);
  }
}
