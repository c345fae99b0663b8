/**
Covering texts with classifier windows (internal/assessor/classifier.go): overlapping windows, and
a work list on which a window the classifier could not read whole is split and read again.
*/
module Windows {

  const MinSplitRunes := 64

  datatype Window = Window(start: int, end: int)

  /** The windows from start on, one step apart; the last ends at n. */
  function SplitFrom(n: int, size: int, step: int, start: int): (ws: seq<Window>)
    requires 0 < step <= size
    decreases n - start
  {
    if start + size >= n then [Window(start, n)]
    else [Window(start, start + size)] + SplitFrom(n, size, step, start + step)
  }

  function Split(n: int, size: int, overlap: int): seq<Window>
    requires n <= size || 0 <= overlap < size
  {
    if n <= size then [Window(0, n)] else SplitFrom(n, size, size - overlap, 0)
  }

  predicate Inside(w: Window, a: int, b: int)
  {
    w.start <= a && b <= w.end
  }

  ghost predicate SomeInside(ws: seq<Window>, a: int, b: int)
  {
    exists i :: 0 <= i < |ws| && Inside(ws[i], a, b)
  }

  lemma {:induction false} SplitFromCovers(n: int, size: int, step: int, start: int, a: int, b: int)
    requires 0 < step <= size && start <= a <= b <= n && b - a <= size - step
    ensures SomeInside(SplitFrom(n, size, step, start), a, b)
    decreases n - start
  {
    var ws := SplitFrom(n, size, step, start);
    if start + size >= n || b <= start + size {
      assert Inside(ws[0], a, b);
    } else {
      SplitFromCovers(n, size, step, start + step, a, b);
      var rest := SplitFrom(n, size, step, start + step);
      var i :| 0 <= i < |rest| && Inside(rest[i], a, b);
      assert ws[i + 1] == rest[i];
    }
  }

  lemma {:induction false} SplitFromFits(n: int, size: int, step: int, start: int)
    requires 0 < step <= size && start < n
    ensures var ws := SplitFrom(n, size, step, start);
            && ws != [] && ws[|ws| - 1].end == n
            && (forall w :: w in ws ==> start <= w.start < w.end <= n && w.end - w.start <= size)
    decreases n - start
  {
    if start + size < n {
      SplitFromFits(n, size, step, start + step);
    }
  }

  /** Every run of at most overlap runes lies whole in a window. */
  lemma SplitCovers(n: int, size: int, overlap: int, a: int, b: int)
    requires 0 <= overlap && (n <= size || overlap < size) && 0 <= a <= b <= n && b - a <= overlap
    ensures SomeInside(Split(n, size, overlap), a, b)
  {
    if n <= size {
      assert Inside(Split(n, size, overlap)[0], a, b);
    } else {
      SplitFromCovers(n, size, size - overlap, 0, a, b);
    }
  }

  /** Windows stay inside the text and within the size, and the last one ends the text. */
  lemma SplitFits(n: int, size: int, overlap: int)
    requires 0 <= n && 0 <= overlap && (n <= size || overlap < size)
    ensures var ws := Split(n, size, overlap);
            && (forall w :: w in ws ==> 0 <= w.start <= w.end <= n && w.end - w.start <= size)
            && ws != [] && ws[|ws| - 1].end == n
  {
    if n > size {
      SplitFromFits(n, size, size - overlap, 0);
    }
  }

  method SplitWindows(n: int, size: int, overlap: int) returns (out: seq<Window>)
    requires 0 <= n && 0 <= overlap && (n <= size || overlap < size)
    ensures out == Split(n, size, overlap)
  {
    if n <= size {
      return [Window(0, n)];
    }
    var step := size - overlap;
    out := [];
    var start := 0;
    while true
      invariant out + SplitFrom(n, size, step, start) == Split(n, size, overlap)
      decreases n - start
    {
      var end := start + size;
      if end >= n {
        out := out + [Window(start, n)];
        return;
      }
      out := out + [Window(start, end)];
      start := start + step;
    }
  }

  // ---- The work list ----

  /** A window of the text with this index. */
  datatype Job = Job(text: nat, w: Window)

  /** What one call answers; scores carry every configured label. */
  datatype Reply = Broken | Scored(scores: map<string, real>, truncated: bool)

  datatype Outcome = Best(best: map<string, real>) | TooManyWindows | TooManyCalls | CannotSplit | CallFailed

  predicate Fits(texts: seq<string>, j: Job)
  {
    j.text < |texts| && 0 <= j.w.start <= j.w.end <= |texts[j.text]|
  }

  ghost predicate AllFit(texts: seq<string>, jobs: seq<Job>)
  {
    forall i :: 0 <= i < |jobs| ==> Fits(texts, jobs[i])
  }

  predicate Holds(j: Job, t: nat, a: int, b: int)
  {
    j.text == t && Inside(j.w, a, b)
  }

  ghost predicate SomeHolds(jobs: seq<Job>, t: nat, a: int, b: int)
  {
    exists i :: 0 <= i < |jobs| && Holds(jobs[i], t, a, b)
  }

  /** Every run of at most reach runes of every text lies whole in some job of the list. */
  ghost predicate Covers(jobs: seq<Job>, texts: seq<string>, reach: int)
  {
    forall t: nat, a, b :: t < |texts| && 0 <= a <= b <= |texts[t]| && b - a <= reach ==> SomeHolds(jobs, t, a, b)
  }

  function Offset(ws: seq<Window>, delta: int): seq<Window>
  {
    if ws == [] then [] else [Window(ws[0].start + delta, ws[0].end + delta)] + Offset(ws[1..], delta)
  }

  function JobsOf(t: nat, ws: seq<Window>): (jobs: seq<Job>)
    ensures |jobs| == |ws| && forall i :: 0 <= i < |ws| ==> jobs[i] == Job(t, ws[i])
  {
    if ws == [] then [] else [Job(t, ws[0])] + JobsOf(t, ws[1..])
  }

  lemma {:induction false} OffsetShifts(ws: seq<Window>, delta: int)
    ensures |Offset(ws, delta)| == |ws|
    ensures forall i :: 0 <= i < |ws| ==> Offset(ws, delta)[i] == Window(ws[i].start + delta, ws[i].end + delta)
  {
    if ws != [] {
      OffsetShifts(ws[1..], delta);
    }
  }

  function HalfWindows(j: Job, overlap: nat): seq<Window>
    requires j.w.end - j.w.start >= 2
  {
    var n := j.w.end - j.w.start;
    Split(n, (n + 1) / 2 + overlap / 2, overlap / 2)
  }

  /** The two halves of a window, overlapping by half the overlap; both are the window itself when that is too wide. */
  function Halves(j: Job, overlap: nat): seq<Job>
    requires j.w.end - j.w.start >= 2
  {
    JobsOf(j.text, Offset(HalfWindows(j, overlap), j.w.start))
  }

  lemma HalfAt(j: Job, overlap: nat, i: nat)
    requires j.w.end - j.w.start >= 2 && i < |HalfWindows(j, overlap)|
    ensures var w := HalfWindows(j, overlap)[i];
            && |Halves(j, overlap)| == |HalfWindows(j, overlap)|
            && Halves(j, overlap)[i] == Job(j.text, Window(w.start + j.w.start, w.end + j.w.start))
  {
    OffsetShifts(HalfWindows(j, overlap), j.w.start);
  }

  lemma HalvesHold(j: Job, overlap: nat, t: nat, a: int, b: int)
    requires j.w.end - j.w.start >= 2 && Holds(j, t, a, b) && a <= b && b - a <= overlap / 2
    ensures SomeHolds(Halves(j, overlap), t, a, b)
  {
    var n, s := j.w.end - j.w.start, j.w.start;
    SplitCovers(n, (n + 1) / 2 + overlap / 2, overlap / 2, a - s, b - s);
    var i :| 0 <= i < |HalfWindows(j, overlap)| && Inside(HalfWindows(j, overlap)[i], a - s, b - s);
    HalfAt(j, overlap, i);
    assert Holds(Halves(j, overlap)[i], t, a, b);
  }

  lemma HalfFits(texts: seq<string>, j: Job, overlap: nat, i: nat)
    requires Fits(texts, j) && j.w.end - j.w.start >= 2 && i < |Halves(j, overlap)|
    ensures Fits(texts, Halves(j, overlap)[i])
  {
    var n, ws := j.w.end - j.w.start, HalfWindows(j, overlap);
    OffsetShifts(ws, j.w.start);
    HalfAt(j, overlap, i);
    SplitFits(n, (n + 1) / 2 + overlap / 2, overlap / 2);
    var w := ws[i];
    assert w in ws;
    assert 0 <= w.start <= w.end <= n;
  }

  lemma HalvesFit(texts: seq<string>, j: Job, overlap: nat)
    requires Fits(texts, j) && j.w.end - j.w.start >= 2
    ensures AllFit(texts, Halves(j, overlap))
  {
    forall i | 0 <= i < |Halves(j, overlap)|
      ensures Fits(texts, Halves(j, overlap)[i])
    {
      HalfFits(texts, j, overlap, i);
    }
  }

  /** A split need not shrink: it gives the window back unchanged exactly when half the overlap reaches half the window. */
  lemma SplitIsIdleIff(j: Job, overlap: nat)
    requires j.w.end - j.w.start >= 2
    ensures Halves(j, overlap) == [j] <==> overlap / 2 >= (j.w.end - j.w.start) / 2
    ensures overlap / 2 < (j.w.end - j.w.start) / 2 ==> |Halves(j, overlap)| == 2
  {
    var n, o := j.w.end - j.w.start, overlap / 2;
    var size, step := (n + 1) / 2 + o, (n + 1) / 2;
    if n > size {
      assert SplitFrom(n, size, step, step) == [Window(step, n)];
      assert Split(n, size, o) == [Window(0, size), Window(step, n)];
      OffsetShifts(Split(n, size, o), j.w.start);
      assert |Halves(j, overlap)| == 2;
    } else {
      OffsetShifts([Window(0, n)], j.w.start);
      assert Halves(j, overlap)[0] == j;
    }
  }

  function Flatten(groups: seq<seq<Job>>): seq<Job>
  {
    if groups == [] then [] else Flatten(groups[..|groups| - 1]) + groups[|groups| - 1]
  }

  lemma FlattenNext(groups: seq<seq<Job>>, k: nat)
    requires k < |groups|
    ensures Flatten(groups[..k + 1]) == Flatten(groups[..k]) + groups[k]
  {
    assert groups[..k + 1][..k] == groups[..k];
  }

  /** The windows of each text. */
  function TextJobs(texts: seq<string>, window: nat, overlap: nat): seq<seq<Job>>
    requires overlap < window
  {
    seq(|texts|, t requires 0 <= t < |texts| => JobsOf(t, Split(|texts[t]|, window, overlap)))
  }

  function InitialJobs(texts: seq<string>, window: nat, overlap: nat): seq<Job>
    requires overlap < window
  {
    Flatten(TextJobs(texts, window, overlap))
  }

  lemma AppendHolds(left: seq<Job>, right: seq<Job>, t: nat, a: int, b: int)
    requires SomeHolds(left, t, a, b) || SomeHolds(right, t, a, b)
    ensures SomeHolds(left + right, t, a, b)
  {
    if i :| 0 <= i < |left| && Holds(left[i], t, a, b) {
      assert (left + right)[i] == left[i];
    } else {
      var k :| 0 <= k < |right| && Holds(right[k], t, a, b);
      assert (left + right)[|left| + k] == right[k];
    }
  }

  lemma AppendFits(texts: seq<string>, left: seq<Job>, right: seq<Job>)
    requires AllFit(texts, left) && AllFit(texts, right)
    ensures AllFit(texts, left + right)
  {
  }

  /** The windows of one text fit it and hold every run up to the overlap. */
  lemma TextJobsFit(texts: seq<string>, window: nat, overlap: nat, t: nat)
    requires overlap < window && t < |texts|
    ensures AllFit(texts, JobsOf(t, Split(|texts[t]|, window, overlap)))
  {
    var ws := Split(|texts[t]|, window, overlap);
    SplitFits(|texts[t]|, window, overlap);
    forall i | 0 <= i < |JobsOf(t, ws)|
      ensures Fits(texts, JobsOf(t, ws)[i])
    {
      assert ws[i] in ws;
    }
  }

  lemma TextJobsHold(texts: seq<string>, window: nat, overlap: nat, t: nat, a: int, b: int)
    requires overlap < window && t < |texts| && 0 <= a <= b <= |texts[t]| && b - a <= overlap
    ensures SomeHolds(JobsOf(t, Split(|texts[t]|, window, overlap)), t, a, b)
  {
    var ws := Split(|texts[t]|, window, overlap);
    SplitCovers(|texts[t]|, window, overlap, a, b);
    var i :| 0 <= i < |ws| && Inside(ws[i], a, b);
    assert Holds(JobsOf(t, ws)[i], t, a, b);
  }

  lemma {:induction false} FlattenHolds(groups: seq<seq<Job>>, k: nat, t: nat, a: int, b: int)
    requires k < |groups| && SomeHolds(groups[k], t, a, b)
    ensures SomeHolds(Flatten(groups), t, a, b)
  {
    var init, last := groups[..|groups| - 1], groups[|groups| - 1];
    if k < |init| {
      assert init[k] == groups[k];
      FlattenHolds(init, k, t, a, b);
    }
    AppendHolds(Flatten(init), last, t, a, b);
  }

  lemma {:induction false} FlattenFits(texts: seq<string>, groups: seq<seq<Job>>)
    requires forall k :: 0 <= k < |groups| ==> AllFit(texts, groups[k])
    ensures AllFit(texts, Flatten(groups))
  {
    if groups != [] {
      var init, last := groups[..|groups| - 1], groups[|groups| - 1];
      assert forall k :: 0 <= k < |init| ==> init[k] == groups[k];
      FlattenFits(texts, init);
      AppendFits(texts, Flatten(init), last);
    }
  }

  // ---- Reading them ----

  /** The classifier as the caller sees it: the answer to the n-th call, given its text. */
  type Classifier = (nat, string) -> Reply

  function TextOf(texts: seq<string>, j: Job): string
    requires Fits(texts, j)
  {
    texts[j.text][j.w.start..j.w.end]
  }

  /** Confidences keep the higher of the two; a label first enters above zero. */
  function Raised(best: map<string, real>, scores: map<string, real>): map<string, real>
  {
    map l | l in best.Keys + scores.Keys && (l in best || scores[l] > 0.0) ::
      if l in best && (l !in scores || scores[l] <= best[l]) then best[l] else scores[l]
  }

  method Raise(best: map<string, real>, scores: map<string, real>) returns (r: map<string, real>)
    ensures r == Raised(best, scores)
  {
    r := best;
    var todo := scores.Keys;
    while todo != {}
      invariant todo <= scores.Keys
      invariant forall l :: l in best.Keys + scores.Keys ==>
                  if l in todo then (l in r <==> l in best) && (l in r ==> r[l] == best[l])
                  else (l in r <==> l in Raised(best, scores)) && (l in r ==> r[l] == Raised(best, scores)[l])
      invariant r.Keys <= best.Keys + scores.Keys
      decreases todo
    {
      var l :| l in todo;
      todo := todo - {l};
      if scores[l] > (if l in r then r[l] else 0.0) {
        r := r[l := scores[l]];
      }
    }
  }

  /** The answer to call k, when asked lists the jobs in call order. */
  function Answer(texts: seq<string>, c: Classifier, asked: seq<Job>, k: nat): Reply
    requires k < |asked| && Fits(texts, asked[k])
  {
    c(k, TextOf(texts, asked[k]))
  }

  /** The per-label maximum over the calls answered whole. */
  function BestOf(texts: seq<string>, c: Classifier, asked: seq<Job>): map<string, real>
    requires forall i :: 0 <= i < |asked| ==> Fits(texts, asked[i])
  {
    if asked == [] then map[]
    else
      var before := BestOf(texts, c, asked[..|asked| - 1]);
      match Answer(texts, c, asked, |asked| - 1)
      case Scored(scores, false) => Raised(before, scores)
      case _ => before
  }

  predicate ReadWhole(texts: seq<string>, c: Classifier, asked: seq<Job>, k: nat)
  {
    k < |asked| && Fits(texts, asked[k]) && Answer(texts, c, asked, k).Scored? && !Answer(texts, c, asked, k).truncated
  }

  ghost predicate SomeReads(texts: seq<string>, c: Classifier, asked: seq<Job>, t: nat, a: int, b: int)
  {
    exists k: nat :: ReadWhole(texts, c, asked, k) && Holds(asked[k], t, a, b)
  }

  /** BestOf is the maximum: reached by some whole reading, and above every score of every whole reading. */
  lemma {:induction false} BestIsMaximum(texts: seq<string>, c: Classifier, asked: seq<Job>, l: string)
    requires AllFit(texts, asked)
    ensures var best := BestOf(texts, c, asked);
            && (l in best ==> best[l] > 0.0
                              && exists k: nat :: ReadWhole(texts, c, asked, k) && l in Answer(texts, c, asked, k).scores
                                                  && Answer(texts, c, asked, k).scores[l] == best[l])
            && (forall k: nat :: ReadWhole(texts, c, asked, k) && l in Answer(texts, c, asked, k).scores ==>
                  Answer(texts, c, asked, k).scores[l] <= if l in best then best[l] else 0.0)
  {
    if asked != [] {
      var init, last := asked[..|asked| - 1], |asked| - 1;
      BestIsMaximum(texts, c, init, l);
      assert forall k: nat :: k < last ==> init[k] == asked[k];
      assert forall k: nat :: k < last && ReadWhole(texts, c, asked, k) ==>
               ReadWhole(texts, c, init, k) && Answer(texts, c, init, k) == Answer(texts, c, asked, k);
      if k: nat :| ReadWhole(texts, c, init, k) && l in Answer(texts, c, init, k).scores
                   && l in BestOf(texts, c, init) && Answer(texts, c, init, k).scores[l] == BestOf(texts, c, init)[l] {
        assert ReadWhole(texts, c, asked, k) && Answer(texts, c, asked, k) == Answer(texts, c, init, k);
      }
      assert ReadWhole(texts, c, asked, last) || BestOf(texts, c, asked) == BestOf(texts, c, init);
    }
  }

  /** What is not yet read whole is still on the list. */
  ghost predicate Pending(texts: seq<string>, c: Classifier, asked: seq<Job>, jobs: seq<Job>, reach: int)
  {
    forall t: nat, a, b :: t < |texts| && 0 <= a <= b <= |texts[t]| && b - a <= reach ==>
      SomeReads(texts, c, asked, t, a, b) || SomeHolds(jobs, t, a, b)
  }

  lemma SomeReadsGrows(texts: seq<string>, c: Classifier, asked: seq<Job>, j: Job, t: nat, a: int, b: int)
    requires SomeReads(texts, c, asked, t, a, b)
    ensures SomeReads(texts, c, asked + [j], t, a, b)
  {
    var k: nat :| ReadWhole(texts, c, asked, k) && Holds(asked[k], t, a, b);
    assert (asked + [j])[k] == asked[k];
    assert ReadWhole(texts, c, asked + [j], k);
  }

  /** Taking the first job off the list leaves covered what its reading, or the list that replaces it, covers. */
  lemma TakingOff(texts: seq<string>, c: Classifier, asked: seq<Job>, jobs: seq<Job>, instead: seq<Job>, reach: int)
    requires jobs != [] && Pending(texts, c, asked, jobs, reach)
    requires forall t: nat, a, b :: a <= b && b - a <= reach && Holds(jobs[0], t, a, b) ==>
               SomeReads(texts, c, asked + [jobs[0]], t, a, b) || SomeHolds(instead, t, a, b)
    ensures Pending(texts, c, asked + [jobs[0]], instead + jobs[1..], reach)
  {
    var after := instead + jobs[1..];
    forall t: nat, a, b | t < |texts| && 0 <= a <= b <= |texts[t]| && b - a <= reach
      ensures SomeReads(texts, c, asked + [jobs[0]], t, a, b) || SomeHolds(after, t, a, b)
    {
      if SomeReads(texts, c, asked, t, a, b) {
        SomeReadsGrows(texts, c, asked, jobs[0], t, a, b);
      } else {
        var i :| 0 <= i < |jobs| && Holds(jobs[i], t, a, b);
        if i > 0 {
          assert Holds(jobs[1..][i - 1], t, a, b);
        }
        if SomeHolds(instead, t, a, b) || i > 0 {
          AppendHolds(instead, jobs[1..], t, a, b);
        }
      }
    }
  }

  /** Where the work stands: the answers so far are accounted for, and what is not yet read is still listed. */
  ghost predicate Progress(texts: seq<string>, c: Classifier, asked: seq<Job>, jobs: seq<Job>, best: map<string, real>, overlap: nat)
  {
    && AllFit(texts, asked) && AllFit(texts, jobs)
    && best == BestOf(texts, c, asked)
    && Pending(texts, c, asked, jobs, overlap / 2)
  }

  lemma Starting(texts: seq<string>, c: Classifier, window: nat, overlap: nat)
    requires overlap < window
    ensures Progress(texts, c, [], InitialJobs(texts, window, overlap), map[], overlap)
  {
    var groups := TextJobs(texts, window, overlap);
    forall k | 0 <= k < |groups|
      ensures AllFit(texts, groups[k])
    {
      TextJobsFit(texts, window, overlap, k);
    }
    FlattenFits(texts, groups);
    forall t: nat, a, b | t < |texts| && 0 <= a <= b <= |texts[t]| && b - a <= overlap / 2
      ensures SomeHolds(InitialJobs(texts, window, overlap), t, a, b)
    {
      TextJobsHold(texts, window, overlap, t, a, b);
      FlattenHolds(groups, t, t, a, b);
    }
  }

  /** A window that was cut short is replaced by its halves. */
  lemma Splitting(texts: seq<string>, c: Classifier, asked: seq<Job>, jobs: seq<Job>, best: map<string, real>, overlap: nat)
    requires jobs != [] && Progress(texts, c, asked, jobs, best, overlap) && jobs[0].w.end - jobs[0].w.start >= 2
    requires c(|asked|, TextOf(texts, jobs[0])).Scored? && c(|asked|, TextOf(texts, jobs[0])).truncated
    ensures Progress(texts, c, asked + [jobs[0]], Halves(jobs[0], overlap) + jobs[1..], best, overlap)
  {
    HalvesFit(texts, jobs[0], overlap);
    AppendFits(texts, Halves(jobs[0], overlap), jobs[1..]);
    assert (asked + [jobs[0]])[..|asked|] == asked;
    forall t: nat, a, b | a <= b && b - a <= overlap / 2 && Holds(jobs[0], t, a, b)
      ensures SomeHolds(Halves(jobs[0], overlap), t, a, b)
    {
      HalvesHold(jobs[0], overlap, t, a, b);
    }
    TakingOff(texts, c, asked, jobs, Halves(jobs[0], overlap), overlap / 2);
  }

  /** A window read whole is done with. */
  lemma Reading(texts: seq<string>, c: Classifier, asked: seq<Job>, jobs: seq<Job>, best: map<string, real>, overlap: nat)
    requires jobs != [] && Progress(texts, c, asked, jobs, best, overlap)
    requires c(|asked|, TextOf(texts, jobs[0])).Scored? && !c(|asked|, TextOf(texts, jobs[0])).truncated
    ensures Progress(texts, c, asked + [jobs[0]], jobs[1..], Raised(best, c(|asked|, TextOf(texts, jobs[0])).scores), overlap)
  {
    var after := asked + [jobs[0]];
    assert after[..|asked|] == asked;
    assert ReadWhole(texts, c, after, |asked|);
    TakingOff(texts, c, asked, jobs, [], overlap / 2);
    assert [] + jobs[1..] == jobs[1..];
  }

  method CollectJobs(texts: seq<string>, window: nat, overlap: nat) returns (jobs: seq<Job>)
    requires overlap < window
    ensures jobs == InitialJobs(texts, window, overlap)
  {
    jobs := [];
    ghost var groups := TextJobs(texts, window, overlap);
    for k := 0 to |texts|
      invariant jobs == Flatten(groups[..k])
    {
      var ws := SplitWindows(|texts[k]|, window, overlap);
      assert groups[k] == JobsOf(k, ws);
      FlattenNext(groups, k);
      jobs := jobs + JobsOf(k, ws);
    }
    assert groups[..|texts|] == groups;
  }

  predicate ScoredAt(texts: seq<string>, c: Classifier, asked: seq<Job>, k: nat)
  {
    k < |asked| && Fits(texts, asked[k]) && Answer(texts, c, asked, k).Scored?
  }

  /** No call so far was left unanswered. */
  ghost predicate AllScored(texts: seq<string>, c: Classifier, asked: seq<Job>)
  {
    forall k: nat :: k < |asked| ==> ScoredAt(texts, c, asked, k)
  }

  lemma ScoredGrows(texts: seq<string>, c: Classifier, asked: seq<Job>, j: Job)
    requires AllScored(texts, c, asked) && Fits(texts, j) && c(|asked|, TextOf(texts, j)).Scored?
    ensures AllScored(texts, c, asked + [j])
  {
    forall k: nat | k < |asked + [j]|
      ensures ScoredAt(texts, c, asked + [j], k)
    {
      if k < |asked| {
        assert ScoredAt(texts, c, asked, k);
        assert (asked + [j])[k] == asked[k];
      }
    }
  }

  /** Every call is answered, and for the whole of its text. */
  ghost predicate ReadsAll(c: Classifier)
  {
    forall n: nat, text: string :: c(n, text).Scored? && !c(n, text).truncated
  }

  /** With such a classifier the calls go straight through the list. */
  ghost predicate Straight(c: Classifier, asked: seq<Job>, jobs: seq<Job>, all: seq<Job>)
  {
    ReadsAll(c) ==> asked + jobs == all
  }

  lemma StaysStraight(texts: seq<string>, c: Classifier, asked: seq<Job>, jobs: seq<Job>, all: seq<Job>)
    requires jobs != [] && Straight(c, asked, jobs, all)
    ensures Straight(c, asked + [jobs[0]], jobs[1..], all)
  {
    assert (asked + [jobs[0]]) + jobs[1..] == asked + jobs;
  }

  lemma NotReadWhole(c: Classifier, n: nat, text: string)
    requires c(n, text).Broken? || c(n, text).truncated
    ensures !ReadsAll(c)
  {
  }

  lemma FullWhileStraight(c: Classifier, asked: seq<Job>, jobs: seq<Job>, all: seq<Job>, limit: nat)
    requires Straight(c, asked, jobs, all) && |all| <= limit && jobs != [] && |asked| + 1 > limit
    ensures !ReadsAll(c)
  {
    assert |asked + jobs| > limit;
  }

  /**
  asked is every job handed to the classifier, in call order. A result means every run of at most
  half the overlap, of every text, was read whole in one window, and best is the maximum over the
  windows read whole; and there were never more calls than the limit, though splits need not shrink.
  */
  method ClassifyTexts(texts: seq<string>, window: nat, overlap: nat, limit: nat, c: Classifier)
    returns (r: Outcome, ghost asked: seq<Job>, calls: nat)
    requires window >= 2 * MinSplitRunes && 2 * overlap <= window
    ensures calls == |asked| <= limit && AllFit(texts, asked)
    ensures r.TooManyWindows? <==> |InitialJobs(texts, window, overlap)| > limit
    ensures r.Best? ==> r.best == BestOf(texts, c, asked)
    ensures r.Best? ==>
              forall t: nat, a, b :: t < |texts| && 0 <= a <= b <= |texts[t]| && b - a <= overlap / 2 ==> SomeReads(texts, c, asked, t, a, b)
    ensures !r.CallFailed? ==> AllScored(texts, c, asked)
    ensures r.CallFailed? ==> calls > 0 && Answer(texts, c, asked, calls - 1).Broken?
    ensures r.CannotSplit? ==>
              && calls > 0 && asked[calls - 1].w.end - asked[calls - 1].w.start < 2 * MinSplitRunes
              && Answer(texts, c, asked, calls - 1).Scored? && Answer(texts, c, asked, calls - 1).truncated
    ensures r.TooManyCalls? ==> calls == limit && |InitialJobs(texts, window, overlap)| <= limit
    ensures |InitialJobs(texts, window, overlap)| <= limit && ReadsAll(c) ==> r.Best? && asked == InitialJobs(texts, window, overlap)
  {
    var jobs := CollectJobs(texts, window, overlap);
    ghost var all := jobs;
    asked, calls := [], 0;
    if |jobs| > limit {
      return TooManyWindows, asked, calls;
    }
    Starting(texts, c, window, overlap);
    var best: map<string, real> := map[];
    while |jobs| > 0
      invariant calls == |asked| <= limit && Progress(texts, c, asked, jobs, best, overlap)
      invariant AllScored(texts, c, asked)
      invariant Straight(c, asked, jobs, all)
      decreases limit - calls
    {
      var j := jobs[0];
      if calls + 1 > limit {
        FullWhileStraight(c, asked, jobs, all, limit);
        return TooManyCalls, asked, calls;
      }
      assert Fits(texts, j);
      var got := c(calls, TextOf(texts, j));
      ghost var before := asked;
      asked, calls := asked + [j], calls + 1;
      match got
      case Broken =>
        NotReadWhole(c, calls - 1, TextOf(texts, j));
        return CallFailed, asked, calls;
      case Scored(scores, truncated) =>
        ScoredGrows(texts, c, before, j);
        StaysStraight(texts, c, before, jobs, all);
        if truncated {
          NotReadWhole(c, calls - 1, TextOf(texts, j));
          var n := j.w.end - j.w.start;
          if n < 2 * MinSplitRunes {
            return CannotSplit, asked, calls;
          }
          Splitting(texts, c, before, jobs, best, overlap);
          jobs := Halves(j, overlap) + jobs[1..];
        } else {
          Reading(texts, c, before, jobs, best, overlap);
          best := Raise(best, scores);
          jobs := jobs[1..];
        }
    }
    return Best(best), asked, calls;
  }
}
