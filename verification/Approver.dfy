/**
The approval chain and the operator-identity allowlist (internal/approver/approver.go,
internal/opidentity/opidentity.go): the only two ways a held message can be let go.
*/
module Approver {
  import opened Options
  import opened SeqKey

  datatype Disposition = Hold | Approve | Reject | Other(code: int)

  datatype Verdict = Verdict(disposition: Disposition, amended: Option<Bytes>, reason: string, retryable: bool)

  /** decide answers for the body it is shown; None is an approver error. */
  datatype Stage = Stage(name: string, canEdit: bool, decide: Bytes -> Option<Verdict>)

  datatype Outcome = Outcome(disposition: Disposition, released: Option<Bytes>, reason: string, retryable: bool, decidedBy: string)

  datatype RunResult = Ran(outcome: Outcome) | StageFailed(stage: string) | EditRefused(stage: string) | UnknownDisposition(stage: string)

  /** The stage lets the message through: it approves, and amends only if it may. */
  predicate Passes(st: Stage, body: Bytes)
  {
    && st.decide(body).Some?
    && st.decide(body).value.disposition.Approve?
    && (st.decide(body).value.amended.Some? ==> st.canEdit)
  }

  function Edited(st: Stage, body: Bytes): Bytes
  {
    if st.decide(body).Some? && st.decide(body).value.amended.Some? then st.decide(body).value.amended.value else body
  }

  /** The body stage k is shown: the original with the edits of the stages before it. */
  function Working(stages: seq<Stage>, raw: Bytes, k: nat): Bytes
    requires k <= |stages|
  {
    if k == 0 then raw else Edited(stages[k - 1], Working(stages, raw, k - 1))
  }

  /** Stage k passes the body it is shown. */
  predicate PassesAt(stages: seq<Stage>, raw: Bytes, k: nat)
  {
    k < |stages| && Passes(stages[k], Working(stages, raw, k))
  }

  ghost predicate AllPass(stages: seq<Stage>, raw: Bytes)
  {
    stages != [] && forall k: nat :: k < |stages| ==> PassesAt(stages, raw, k)
  }

  /** Stage n is the first that does not let the message through. */
  ghost predicate StopsAt(stages: seq<Stage>, raw: Bytes, n: nat)
  {
    && n < |stages|
    && !PassesAt(stages, raw, n)
    && forall j: nat :: j < n ==> PassesAt(stages, raw, j)
  }

  ghost predicate RejectsAt(stages: seq<Stage>, raw: Bytes, n: nat, reason: string)
  {
    && StopsAt(stages, raw, n)
    && var v := stages[n].decide(Working(stages, raw, n));
    v.Some? && v.value.disposition.Reject? && v.value.reason == reason
  }

  /** The chain from stage k on, shown this body. */
  function ChainFrom(stages: seq<Stage>, body: Bytes, k: nat): RunResult
    requires k <= |stages| && stages != []
    decreases |stages| - k
  {
    if k == |stages| then Ran(Outcome(Approve, Some(body), "", false, stages[|stages| - 1].name))
    else
      var st := stages[k];
      match st.decide(body)
      case None => StageFailed(st.name)
      case Some(v) =>
        match v.disposition
        case Reject => Ran(Outcome(Reject, None, v.reason, v.retryable, st.name))
        case Hold => Ran(Outcome(Hold, None, "", false, st.name))
        case Other(_) => UnknownDisposition(st.name)
        case Approve => if v.amended.Some? && !st.canEdit then EditRefused(st.name) else ChainFrom(stages, Edited(st, body), k + 1)
  }

  function Chain(stages: seq<Stage>, raw: Bytes): RunResult
  {
    if stages == [] then Ran(Outcome(Hold, None, "", false, "")) else ChainFrom(stages, raw, 0)
  }

  predicate Approved(r: RunResult)
  {
    r.Ran? && r.outcome.disposition.Approve?
  }

  predicate Rejected(r: RunResult)
  {
    r.Ran? && r.outcome.disposition.Reject?
  }

  lemma {:induction false} PassedUpTo(stages: seq<Stage>, raw: Bytes, k: nat)
    requires stages != [] && k <= |stages|
    requires forall j: nat :: j < k ==> PassesAt(stages, raw, j)
    ensures Chain(stages, raw) == ChainFrom(stages, Working(stages, raw, k), k)
  {
    if k > 0 {
      PassedUpTo(stages, raw, k - 1);
      assert PassesAt(stages, raw, k - 1);
    }
  }

  lemma {:induction false} FirstStop(stages: seq<Stage>, raw: Bytes, k: nat) returns (n: nat)
    requires k <= |stages| && stages != [] && !AllPass(stages, raw)
    requires forall j: nat :: j < k ==> PassesAt(stages, raw, j)
    ensures StopsAt(stages, raw, n)
    decreases |stages| - k
  {
    if !PassesAt(stages, raw, k) {
      return k;
    }
    n := FirstStop(stages, raw, k + 1);
  }

  /**
  A chain approves exactly when it has a stage and every stage passes the body it is shown, edits of
  earlier stages included; what it releases is the body after the last edit.
  */
  lemma ChainApprovesIff(stages: seq<Stage>, raw: Bytes)
    ensures var r := Chain(stages, raw);
            && (Approved(r) <==> AllPass(stages, raw))
            && (Approved(r) ==> r.outcome.released == Some(Working(stages, raw, |stages|)))
            && (stages == [] ==> r.Ran? && r.outcome.disposition.Hold?)
  {
    if AllPass(stages, raw) {
      PassedUpTo(stages, raw, |stages|);
    } else if stages != [] {
      var n := FirstStop(stages, raw, 0);
      PassedUpTo(stages, raw, n);
    }
  }

  /** A message is rejected exactly when the first stage that does not pass it rejects it, with that stage's reason. */
  lemma ChainRejectsIff(stages: seq<Stage>, raw: Bytes, reason: string)
    ensures var r := Chain(stages, raw);
            Rejected(r) && r.outcome.reason == reason <==> exists n: nat :: RejectsAt(stages, raw, n, reason)
  {
    if n: nat :| StopsAt(stages, raw, n) {
      PassedUpTo(stages, raw, n);
      forall m: nat | StopsAt(stages, raw, m)
        ensures m == n
      {
        assert m < n ==> PassesAt(stages, raw, m);
        assert n < m ==> PassesAt(stages, raw, n);
      }
      assert RejectsAt(stages, raw, n, reason) <==> Rejected(Chain(stages, raw)) && Chain(stages, raw).outcome.reason == reason;
    } else if stages != [] {
      if !AllPass(stages, raw) {
        var n := FirstStop(stages, raw, 0);
      }
      PassedUpTo(stages, raw, |stages|);
    }
  }

  method Run(raw: Bytes, stages: seq<Stage>) returns (r: RunResult)
    ensures r == Chain(stages, raw)
  {
    if |stages| == 0 {
      return Ran(Outcome(Hold, None, "", false, ""));
    }
    var released := raw;
    for k := 0 to |stages|
      invariant Chain(stages, raw) == ChainFrom(stages, released, k)
    {
      var st := stages[k];
      var v := st.decide(released);
      if v.None? {
        return StageFailed(st.name);
      }
      match v.value.disposition
      case Reject => return Ran(Outcome(Reject, None, v.value.reason, v.value.retryable, st.name));
      case Hold => return Ran(Outcome(Hold, None, "", false, st.name));
      case Other(_) => return UnknownDisposition(st.name);
      case Approve =>
        if v.value.amended.Some? {
          if !st.canEdit {
            return EditRefused(st.name);
          }
          released := v.value.amended.value;
        }
    }
    return Ran(Outcome(Approve, Some(released), "", false, stages[|stages| - 1].name));
  }

  // ---- Operator identities ----

  /** parse is the address parser with its normalisation; None is a refusal. */
  datatype IdentityList = IdentityList(addrs: set<string>, parse: string -> Option<string>)

  function Match(l: IdentityList, addr: string): Option<string>
  {
    if l.addrs == {} then None
    else if l.parse(addr).None? || l.parse(addr).value !in l.addrs then None
    else l.parse(addr)
  }

  predicate AllOperators(l: IdentityList, rcpts: seq<string>)
  {
    rcpts != [] && forall i :: 0 <= i < |rcpts| ==> l.parse(rcpts[i]).Some? && l.parse(rcpts[i]).value in l.addrs
  }

  method AllMatch(l: IdentityList, rcpts: seq<string>) returns (matched: Option<seq<string>>)
    ensures matched.Some? <==> AllOperators(l, rcpts)
    ensures matched.Some? ==> |matched.value| == |rcpts|
                              && forall i :: 0 <= i < |rcpts| ==> matched.value[i] in l.addrs && l.parse(rcpts[i]) == Some(matched.value[i])
  {
    if l.addrs == {} || |rcpts| == 0 {
      assert rcpts != [] ==> l.parse(rcpts[0]).Some? ==> l.parse(rcpts[0]).value !in l.addrs;
      return None;
    }
    var out := [];
    for i := 0 to |rcpts|
      invariant |out| == i
      invariant forall j :: 0 <= j < i ==> out[j] in l.addrs && l.parse(rcpts[j]) == Some(out[j])
    {
      var norm := Match(l, rcpts[i]);
      if norm.None? {
        return None;
      }
      out := out + [norm.value];
    }
    return Some(out);
  }
}
