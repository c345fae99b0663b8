/**
From extraction to disposition (internal/screener/screener.go, internal/riskscore/score.go,
internal/assessor/assessor.go): what it takes for a message to reach the agent without a human.
*/
module Screener {
  import opened MailText
  import opened Options

  const MaxScore := 100

  /** Points are validated non-negative and the threshold within the score range. */
  datatype Config = Config(baselines: map<string, nat>, recipientAdjust: map<string, nat>, factorPoints: map<string, nat>, threshold: nat)

  predicate Validated(c: Config)
  {
    c.threshold <= MaxScore && "unknown" in c.baselines
  }

  datatype Cheap = Cheap(score: int, gated: bool)

  datatype Disposition = AgentHandled | Held

  datatype Result = Result(score: int, disposition: Disposition, shortCircuited: bool, notCleared: bool)

  function Clamp(n: int): int
  {
    if n < 0 then 0 else if n > MaxScore then MaxScore else n
  }

  function Baseline(c: Config, trust: string): nat
    requires Validated(c)
  {
    if trust in c.baselines then c.baselines[trust] else c.baselines["unknown"]
  }

  function PointsOf(points: map<string, nat>, key: string): nat
  {
    if key in points then points[key] else 0
  }

  function CheapScore(c: Config, trust: string, recipient: string): Cheap
    requires Validated(c)
  {
    var score := Clamp(Baseline(c, trust) + PointsOf(c.recipientAdjust, recipient));
    Cheap(score, score >= c.threshold)
  }

  function Sum(c: Config, factors: seq<string>): nat
  {
    if factors == [] then 0 else Sum(c, factors[..|factors| - 1]) + PointsOf(c.factorPoints, factors[|factors| - 1])
  }

  /** The clamped total of cheap terms and every factor, short-circuit or not. */
  function Total(c: Config, cheap: Cheap, factors: seq<string>): int
  {
    Clamp(cheap.score + Sum(c, factors))
  }

  function Composed(c: Config, cheap: Cheap, factors: seq<string>): Result
  {
    if cheap.gated then Result(cheap.score, Held, true, false)
    else
      var total := Total(c, cheap, factors);
      Result(total, if total >= c.threshold then Held else AgentHandled, false, false)
  }

  method Compose(c: Config, cheap: Cheap, factors: seq<string>) returns (r: Result)
    requires Validated(c) && 0 <= cheap.score <= MaxScore && cheap.gated == (cheap.score >= c.threshold)
    ensures r == Composed(c, cheap, factors)
    ensures r.disposition.Held? <==> Total(c, cheap, factors) >= c.threshold
    ensures forall each :: PointsFor(c.factorPoints, factors, each) ==>
              (r.disposition.Held? <==> cheap.score + SumOf(each, |each|) >= c.threshold)
  {
    forall each | PointsFor(c.factorPoints, factors, each)
      ensures Sum(c, factors) == SumOf(each, |each|)
    {
      SumIsOfPoints(c, factors, each, |factors|);
      assert factors[..|factors|] == factors;
    }
    if cheap.gated {
      return Result(cheap.score, Held, true, false);
    }
    var total := cheap.score;
    for i := 0 to |factors|
      invariant total == cheap.score + Sum(c, factors[..i])
    {
      assert factors[..i + 1][..i] == factors[..i];
      total := total + PointsOf(c.factorPoints, factors[i]);
    }
    assert factors[..|factors|] == factors;
    total := Clamp(total);
    return Result(total, if total >= c.threshold then Held else AgentHandled, false, false);
  }

  lemma {:induction false} SumGrows(c: Config, more: seq<string>, factors: seq<string>)
    ensures Sum(c, factors + more) >= Sum(c, factors)
  {
    if more == [] {
      assert factors + more == factors;
    } else {
      assert (factors + more)[..|factors + more| - 1] == factors + more[..|more| - 1];
      SumGrows(c, more[..|more| - 1], factors);
    }
  }

  /** Another flagged factor never clears a message, and holding on the cheap terms alone never holds what the full score would pass. */
  lemma MoreFactorsNeverClear(c: Config, cheap: Cheap, factors: seq<string>, more: seq<string>)
    requires Validated(c) && 0 <= cheap.score <= MaxScore && cheap.gated == (cheap.score >= c.threshold)
    ensures Total(c, cheap, factors) <= Total(c, cheap, factors + more)
    ensures cheap.gated ==> Total(c, cheap, factors) >= c.threshold
  {
    SumGrows(c, more, factors);
  }

  /** The detectors' answer for a content; None is an error or a timeout. */
  type Detector = State -> Option<seq<string>>

  function NotCleared(): Result
  {
    Result(0, Held, false, true)
  }

  /** A truncated message goes to the human whatever its score, which is kept. */
  function HoldTruncated(r: Result): Result
  {
    if r.disposition.Held? then r else r.(disposition := Held)
  }

  predicate Assessed(flatten: string -> string, lim: Limits, message: Parsed, detect: Detector)
  {
    message.Parsed? && detect(Extraction(flatten, lim, message.entity, message.soft)).Some?
  }

  /** The disposition of a message: cheap terms first, then extraction, the detectors, and the caps. */
  function Screened(c: Config, flatten: string -> string, lim: Limits, message: Parsed, trust: string, recipient: string, detect: Detector): Result
    requires Validated(c)
  {
    var cheap := CheapScore(c, trust, recipient);
    if cheap.gated then Composed(c, cheap, [])
    else if message.Unparsable? then NotCleared()
    else
      var content := Extraction(flatten, lim, message.entity, message.soft);
      if content.undecodable || detect(content).None? then NotCleared()
      else
        var r := Composed(c, cheap, detect(content).value);
        if content.truncated then HoldTruncated(r) else r
  }

  method Screen(c: Config, flatten: string -> string, lim: Limits, message: Parsed, trust: string, recipient: string, detect: Detector)
    returns (r: Result)
    requires Validated(c)
    ensures r == Screened(c, flatten, lim, message, trust, recipient, detect)
  {
    var cheap := CheapScore(c, trust, recipient);
    if cheap.gated {
      r := Compose(c, cheap, []);
      return;
    }
    if message.Unparsable? {
      return NotCleared();
    }
    var content := Extraction(flatten, lim, message.entity, message.soft);
    if content.undecodable {
      return NotCleared();
    }
    var factors := detect(content);
    if factors.None? {
      return NotCleared();
    }
    r := Compose(c, cheap, factors.value);
    if content.truncated {
      r := HoldTruncated(r);
    }
  }

  /**
  A message is handled by the agent exactly when it was extracted with neither flag set, the
  detectors answered for that extraction, and cheap terms and factors together stay below the threshold.
  */
  lemma AgentHandledIff(c: Config, flatten: string -> string, lim: Limits, message: Parsed, trust: string, recipient: string, detect: Detector)
    requires Validated(c)
    ensures var r := Screened(c, flatten, lim, message, trust, recipient, detect);
            && (r.disposition.AgentHandled? <==>
                  && Assessed(flatten, lim, message, detect)
                  && Clear(Extraction(flatten, lim, message.entity, message.soft))
                  && Total(c, CheapScore(c, trust, recipient), detect(Extraction(flatten, lim, message.entity, message.soft)).value) < c.threshold)
            && (r.notCleared <==>
                  && !CheapScore(c, trust, recipient).gated
                  && (!Assessed(flatten, lim, message, detect) || Extraction(flatten, lim, message.entity, message.soft).undecodable))
  {
    var cheap := CheapScore(c, trust, recipient);
    if cheap.gated && Assessed(flatten, lim, message, detect) {
      MoreFactorsNeverClear(c, cheap, detect(Extraction(flatten, lim, message.entity, message.soft)).value, []);
    }
  }

  /** The content holds all of the message's text: every body part and text attachment at every depth whole, and all of it decoded. */
  ghost predicate HoldsEverything(flatten: string -> string, lim: Limits, message: Parsed, content: State)
    requires message.Parsed?
  {
    var w := WholeOf(flatten, message.entity);
    && w.clean && !message.soft
    && content.bodyParts == w.bodies && content.atts == w.atts
    && w.height <= lim.maxDepth && (w.leaves > 0 ==> w.leaves <= lim.maxParts) && (w.size > 0 ==> w.size <= lim.maxTotalText)
  }

  /**
  Nothing unassessed passes: a message the agent handles was shown to the detectors, with a content
  that holds everything in it, and their answer to that content is all that the disposition took from them.
  */
  lemma NothingUnassessedPasses(c: Config, flatten: string -> string, lim: Limits, message: Parsed, trust: string, recipient: string,
                                detect: Detector, other: Detector)
    requires Validated(c) && Screened(c, flatten, lim, message, trust, recipient, detect).disposition.AgentHandled?
    ensures message.Parsed?
    ensures var content := Extraction(flatten, lim, message.entity, message.soft);
            && detect(content).Some? && HoldsEverything(flatten, lim, message, content)
            && (Screened(c, flatten, lim, message, trust, recipient, other).disposition.AgentHandled? <==>
                  other(content).Some? && Total(c, CheapScore(c, trust, recipient), other(content).value) < c.threshold)
  {
    AgentHandledIff(c, flatten, lim, message, trust, recipient, detect);
    AgentHandledIff(c, flatten, lim, message, trust, recipient, other);
    UnflaggedIsWhole(flatten, lim, message.entity, message.soft);
  }

  // ---- What the score is made of ----

  function SumOf(ns: seq<nat>, k: nat): nat
    requires k <= |ns|
  {
    if k == 0 then 0 else SumOf(ns, k - 1) + ns[k - 1]
  }

  /** The points of each factor in turn, repeats included; one that is not listed adds nothing. */
  predicate PointsFor(points: map<string, nat>, factors: seq<string>, each: seq<nat>)
  {
    |each| == |factors| && forall i :: 0 <= i < |factors| ==> each[i] == if factors[i] in points then points[factors[i]] else 0
  }

  lemma {:induction false} SumIsOfPoints(c: Config, factors: seq<string>, each: seq<nat>, k: nat)
    requires PointsFor(c.factorPoints, factors, each) && k <= |factors|
    ensures Sum(c, factors[..k]) == SumOf(each, k)
  {
    if k > 0 {
      SumIsOfPoints(c, factors, each, k - 1);
      assert factors[..k][..k - 1] == factors[..k - 1];
    }
  }

  lemma {:induction false} PartOfSum(ns: seq<nat>, i: nat, k: nat)
    requires i < k <= |ns|
    ensures ns[i] <= SumOf(ns, k)
  {
    if i < k - 1 {
      PartOfSum(ns, i, k - 1);
    }
  }

  /** The total is the baseline of the trust level, or of the unknown one, the recipient's adjustment and each factor's points, at most a hundred. */
  lemma TotalIs(c: Config, trust: string, recipient: string, factors: seq<string>, each: seq<nat>)
    requires Validated(c) && PointsFor(c.factorPoints, factors, each)
    ensures var total := (if trust in c.baselines then c.baselines[trust] else c.baselines["unknown"])
                         + (if recipient in c.recipientAdjust then c.recipientAdjust[recipient] else 0) + SumOf(each, |each|);
            Total(c, CheapScore(c, trust, recipient), factors) == if total > 100 then 100 else total
  {
    assert factors[..|factors|] == factors;
    SumIsOfPoints(c, factors, each, |factors|);
  }

  /** An assessed message is handled by the agent exactly when it was extracted whole and these terms stay below the threshold; they are its score. */
  lemma ScoreDecides(c: Config, flatten: string -> string, lim: Limits, message: Parsed, trust: string, recipient: string,
                     detect: Detector, each: seq<nat>)
    requires Validated(c) && Assessed(flatten, lim, message, detect)
    requires PointsFor(c.factorPoints, detect(Extraction(flatten, lim, message.entity, message.soft)).value, each)
    ensures var content := Extraction(flatten, lim, message.entity, message.soft);
            var cheap := (if trust in c.baselines then c.baselines[trust] else c.baselines["unknown"])
                         + (if recipient in c.recipientAdjust then c.recipientAdjust[recipient] else 0);
            var total := cheap + SumOf(each, |each|);
            var r := Screened(c, flatten, lim, message, trust, recipient, detect);
            && (r.disposition.AgentHandled? <==> !content.truncated && !content.undecodable && total < c.threshold)
            && (cheap < c.threshold && !content.undecodable ==> r.score == if total > 100 then 100 else total)
  {
    AgentHandledIff(c, flatten, lim, message, trust, recipient, detect);
    TotalIs(c, trust, recipient, detect(Extraction(flatten, lim, message.entity, message.soft)).value, each);
    TotalIs(c, trust, recipient, [], []);
  }

  /** One flagged factor whose points reach the threshold holds the message, whoever sent it and whatever else was flagged. */
  lemma FactorHolds(c: Config, flatten: string -> string, lim: Limits, message: Parsed, trust: string, recipient: string,
                    detect: Detector, factor: string)
    requires Validated(c) && Assessed(flatten, lim, message, detect)
    requires factor in detect(Extraction(flatten, lim, message.entity, message.soft)).value
    requires factor in c.factorPoints && c.factorPoints[factor] >= c.threshold
    ensures Screened(c, flatten, lim, message, trust, recipient, detect).disposition.Held?
  {
    var factors := detect(Extraction(flatten, lim, message.entity, message.soft)).value;
    var each := seq(|factors|, i requires 0 <= i < |factors| => if factors[i] in c.factorPoints then c.factorPoints[factors[i]] else 0);
    ScoreDecides(c, flatten, lim, message, trust, recipient, detect, each);
    var i :| 0 <= i < |factors| && factors[i] == factor;
    PartOfSum(each, i, |each|);
  }

  /** A baseline and adjustment that reach the threshold hold the message before its content is looked at. */
  lemma CheapTermsHold(c: Config, flatten: string -> string, lim: Limits, message: Parsed, trust: string, recipient: string, detect: Detector)
    requires Validated(c)
    requires (if trust in c.baselines then c.baselines[trust] else c.baselines["unknown"])
             + (if recipient in c.recipientAdjust then c.recipientAdjust[recipient] else 0) >= c.threshold
    ensures var r := Screened(c, flatten, lim, message, trust, recipient, detect);
            r.disposition.Held? && r.shortCircuited && !r.notCleared
  {
    TotalIs(c, trust, recipient, [], []);
  }
}
