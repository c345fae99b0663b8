/**
The operator service and the submission queue in front of it, operation by operation
(internal/admin/service.go, cmd/darbaan/main.go): what one approve, re-send or submission leaves in
the store and at the upstream server when nothing else runs.
*/
module AdminService {
  import opened Options
  import opened SeqKey
  import opened BlobStore
  import opened Approver
  import opened Smtp
  import opened Sluice
  import opened SluiceStore
  import opened OutboundWorld

  /** One attempt: whether the inbox has a sender, what the server does, and the text of a failure. */
  datatype Delivery = Delivery(configured: bool, script: Script, contextEnded: bool, text: string)

  function AttemptFor(d: Delivery): Attempt
  {
    if d.configured then AttemptOf(Reported(d.script, d.contextEnded), d.text) else Failed(d.text)
  }

  function CopiesOf(d: Delivery, id: nat): multiset<nat>
  {
    if d.configured && Takes(d.script) then multiset{id} else multiset{}
  }

  /** The upstream servers behind the senders. */
  class Upstream {
    var taken: multiset<nat>

    constructor ()
      ensures taken == multiset{}
    {
      taken := multiset{};
    }

    method SendVia(id: nat, d: Delivery) returns (attempt: Attempt)
      modifies this
      ensures attempt == AttemptFor(d) && taken == old(taken) + CopiesOf(d, id)
    {
      if !d.configured {
        return Failed(d.text);
      }
      if Takes(d.script) {
        taken := taken + multiset{id};
      }
      var err := Smtp.Send(d.script, d.contextEnded);
      return AttemptOf(err, d.text);
    }
  }

  /** NoVerdict is a hold; ChainFailed is a stage that erred, edited without leave, or answered something unknown. */
  datatype ServiceOutcome = Done(status: Status) | Declined(error: StoreError) | NoVerdict | ChainFailed

  /** The record of an attempt: the status and the text it leaves. */
  predicate Shows(m: Message, attempt: Attempt)
  {
    match attempt
    case Delivered => m.status == Sent && m.sendErr == ""
    case MayHaveArrived => m.status == Status.Approved && m.sendErr == "outcome unknown: " + ReasonNoFinalReply
    case Failed(text) => m.status == Status.Approved && m.sendErr == text
  }

  /** Stage n is the first that does not pass the body it is shown, and rejects it so. */
  ghost predicate RejectedBy(stages: seq<Stage>, raw: Bytes, n: nat, reason: string, retryable: bool)
  {
    && StopsAt(stages, raw, n)
    && var v := stages[n].decide(Working(stages, raw, n));
    v.Some? && v.value.disposition.Reject? && v.value.reason == reason && v.value.retryable == retryable
  }

  /** Stage n is the first that does not pass the body it is shown, and it does not reject it either. */
  ghost predicate StoppedBy(stages: seq<Stage>, raw: Bytes, n: nat, r: ServiceOutcome)
  {
    && StopsAt(stages, raw, n)
    && var v := stages[n].decide(Working(stages, raw, n));
    && (v.Some? ==> !v.value.disposition.Reject?)
    && r == if v.Some? && v.value.disposition.Hold? then NoVerdict else ChainFailed
  }

  /** The store, the copies and the answer after an approve, stage by stage. */
  ghost predicate ApproveEffect(before: Box, after: Box, copies: multiset<nat>, id: nat, stages: seq<Stage>, d: Delivery, r: ServiceOutcome)
  {
    if id !in before.messages || before.messages[id].status != Pending then
      after == before && copies == multiset{} && r == ServiceOutcome.Declined(if id !in before.messages then NotFound else NotPending)
    else
      var m := before.messages[id];
      && (AllPass(stages, m.raw) ==>
            && after.lastSeq == before.lastSeq && id in after.messages
            && after.messages == before.messages[id := after.messages[id]]
            && after.messages[id] == m.(status := after.messages[id].status, sendErr := after.messages[id].sendErr,
                                        released := after.messages[id].released, decidedBy := stages[|stages| - 1].name, claim := None)
            && Shows(after.messages[id], AttemptFor(d))
            && (m.released.None? ==> after.messages[id].released == Kept(Some(Working(stages, m.raw, |stages|))))
            && copies == CopiesOf(d, id) && r == Done(after.messages[id].status))
      && (forall n: nat, reason, retryable :: RejectedBy(stages, m.raw, n, reason, retryable) ==>
            && after == Box(before.messages[id := m.(status := Rejected, decidedBy := stages[n].name, reason := reason, retryable := retryable)],
                            before.lastSeq)
            && copies == multiset{} && r == Done(Rejected))
      && (forall n: nat, why :: StoppedBy(stages, m.raw, n, why) ==> after == before && copies == multiset{} && r == why)
      && (stages == [] ==> after == before && copies == multiset{} && r == NoVerdict)
  }

  lemma OnlyOneStop(stages: seq<Stage>, raw: Bytes, n: nat, k: nat)
    requires StopsAt(stages, raw, n) && StopsAt(stages, raw, k)
    ensures n == k && !AllPass(stages, raw)
  {
  }

  /** What the chain answers from the stage that stops it. */
  lemma ChainStops(stages: seq<Stage>, raw: Bytes, n: nat)
    requires StopsAt(stages, raw, n)
    ensures var r, v := Chain(stages, raw), stages[n].decide(Working(stages, raw, n));
            if v.Some? && v.value.disposition.Reject? then r == Ran(Outcome(Disposition.Reject, None, v.value.reason, v.value.retryable, stages[n].name))
            else if v.Some? && v.value.disposition.Hold? then r.Ran? && r.outcome.disposition.Hold?
            else !r.Ran?
  {
    PassedUpTo(stages, raw, n);
  }

  lemma ApprovedMeans(before: Box, after: Box, copies: multiset<nat>, id: nat, stages: seq<Stage>, d: Delivery, r: ServiceOutcome)
    requires id in before.messages && before.messages[id].status.Pending?
    requires Approver.Approved(Chain(stages, before.messages[id].raw))
    requires var o := Chain(stages, before.messages[id].raw).outcome;
             var approved := Sluice.Approve(before, id, o.decidedBy, o.released);
             && approved.Ok? && after == Set(approved.value, id, Recorded(approved.value.messages[id], AttemptFor(d)))
             && copies == CopiesOf(d, id) && r == Done(after.messages[id].status)
    ensures ApproveEffect(before, after, copies, id, stages, d, r)
  {
    var raw := before.messages[id].raw;
    ChainApprovesIff(stages, raw);
    PassedUpTo(stages, raw, |stages|);
    assert AllPass(stages, raw);
    assert forall n: nat :: !StopsAt(stages, raw, n);
    var m, m' := before.messages[id], after.messages[id];
    assert m' == m.(status := m'.status, sendErr := m'.sendErr, released := m'.released, decidedBy := stages[|stages| - 1].name, claim := None);
  }

  lemma StoppedMeans(before: Box, after: Box, id: nat, stages: seq<Stage>, d: Delivery, r: ServiceOutcome)
    requires id in before.messages && before.messages[id].status.Pending?
    requires var ran := Chain(stages, before.messages[id].raw);
             if Approver.Rejected(ran) then
               Sluice.Reject(before, id, ran.outcome.decidedBy, ran.outcome.reason, ran.outcome.retryable) == Result.Ok(after) && r == Done(Status.Rejected)
             else after == before && !Approver.Approved(ran) && r == if ran.Ran? then NoVerdict else ChainFailed
    ensures ApproveEffect(before, after, multiset{}, id, stages, d, r)
  {
    var raw := before.messages[id].raw;
    ChainApprovesIff(stages, raw);
    if stages != [] {
      var n := FirstStop(stages, raw, 0);
      ChainStops(stages, raw, n);
      forall k: nat | StopsAt(stages, raw, k)
        ensures k == n
      {
        OnlyOneStop(stages, raw, n, k);
      }
    }
  }

  class Service {
    const store: Queue
    const upstream: Upstream

    constructor (store: Queue, upstream: Upstream)
      ensures this.store == store && this.upstream == upstream
    {
      this.store, this.upstream := store, upstream;
    }

    method Deliver(id: nat, d: Delivery) returns (r: ServiceOutcome)
      modifies store, upstream
      requires id in store.messages && store.messages[id].status.Approved?
      ensures store.Snapshot() == Set(old(store.Snapshot()), id, Recorded(old(store.messages)[id], AttemptFor(d)))
      ensures upstream.taken == old(upstream.taken) + CopiesOf(d, id)
      ensures r == Done(store.messages[id].status)
    {
      var attempt := upstream.SendVia(id, d);
      var recorded := store.RecordSendAttempt(id, attempt);
      return Done(recorded.value.status);
    }

    method Approve(id: nat, stages: seq<Stage>, d: Delivery) returns (r: ServiceOutcome)
      modifies store, upstream
      ensures ApproveEffect(old(store.Snapshot()), store.Snapshot(), upstream.taken - old(upstream.taken), id, stages, d, r)
      ensures old(upstream.taken) <= upstream.taken
    {
      if id !in store.messages {
        return ServiceOutcome.Declined(NotFound);
      }
      var m := store.messages[id];
      if !m.status.Pending? {
        return ServiceOutcome.Declined(NotPending);
      }
      var ran := Approver.Run(m.raw, stages);
      ghost var before := store.Snapshot();
      match ran
      case Ran(o) =>
        if o.disposition.Approve? {
          var approved := store.Approve(id, o.decidedBy, o.released);
          r := Deliver(id, d);
          ApprovedMeans(before, store.Snapshot(), CopiesOf(d, id), id, stages, d, r);
        } else if o.disposition.Reject? {
          var rejected := store.Reject(id, o.decidedBy, o.reason, o.retryable);
          r := Done(Rejected);
          StoppedMeans(before, store.Snapshot(), id, stages, d, r);
        } else {
          r := NoVerdict;
          StoppedMeans(before, before, id, stages, d, r);
        }
      case _ =>
        r := ChainFailed;
        StoppedMeans(before, before, id, stages, d, r);
    }

    /** A re-send is refused without a copy leaving, or it claims, sends once, records and gives the claim back. */
    method ReSend(id: nat, actor: string, ack: bool, d: Delivery) returns (r: ServiceOutcome)
      modifies store, upstream
      ensures var claimed := Sluice.ClaimResend(old(store.Snapshot()), id, actor, ack);
              if claimed.Err?
              then r == ServiceOutcome.Declined(claimed.error) && store.Snapshot() == old(store.Snapshot()) && upstream.taken == old(upstream.taken)
              else
                && Sluice.RecordSendAttempt(claimed.value, id, AttemptFor(d)) == Result.Ok(store.Snapshot())
                && upstream.taken == old(upstream.taken) + CopiesOf(d, id)
                && store.messages[id].claim.None? && (r == Done(Sent) <==> AttemptFor(d).Delivered?)
      ensures (r.Done? <==> id in old(store.messages) && var m := old(store.messages)[id];
                                m.status.Approved? && m.sendErr != "" && m.claim.None? && ("outcome unknown: " <= m.sendErr ==> ack))
      ensures r.Done? ==>
                && store.messages == old(store.messages)[id := store.messages[id]] && Shows(store.messages[id], AttemptFor(d))
                && upstream.taken == old(upstream.taken) + CopiesOf(d, id) && r == Done(store.messages[id].status)
    {
      ClaimGrantedIff(store.Snapshot(), id, actor, ack);
      if id !in store.messages {
        return ServiceOutcome.Declined(NotFound);
      }
      if !Resendable(store.messages[id]) {
        return ServiceOutcome.Declined(NotResendable);
      }
      var claimed := store.ClaimResend(id, actor, ack);
      if claimed.Err? {
        return ServiceOutcome.Declined(claimed.error);
      }
      r := Deliver(id, d);
    }

    /** The bypass queue: trapped first, then released at once when every recipient is an operator identity. */
    method Enqueue(agent: string, rcpt: seq<string>, raw: Bytes, fault: Fault, list: IdentityList, d: Delivery) returns (r: Result<nat>)
      modifies store, store.blobs, upstream
      ensures r.Ok? <==> fault.NoFault?
      ensures r.Err? ==> store.Snapshot() == old(store.Snapshot()) && upstream.taken == old(upstream.taken)
      ensures r.Ok? ==>
                && r.value == old(store.lastSeq) + 1 && r.value in store.messages
                && store.messages[r.value].raw == raw && store.messages[r.value].rcpt == rcpt
                && (store.messages[r.value].status.Pending? <==> !AllOperators(list, rcpt))
                && store.messages[r.value].agent == agent && store.messages[r.value].released.None?
                && (AllOperators(list, rcpt) ==>
                      Shows(store.messages[r.value], AttemptFor(d)) && store.messages[r.value].decidedBy == "operator-identity bypass (ADR 0034)")
                && upstream.taken == old(upstream.taken) + (if AllOperators(list, rcpt) then CopiesOf(d, r.value) else multiset{})
      ensures forall id :: id in old(store.messages) && id != old(store.lastSeq) + 1 ==>
                id in store.messages && store.messages[id] == old(store.messages)[id]
    {
      r := store.Enqueue(agent, rcpt, raw, fault);
      if r.Err? {
        return;
      }
      var matched := AllMatch(list, rcpt);
      if matched.None? {
        return;
      }
      var released := store.Approve(r.value, "operator-identity bypass (ADR 0034)", None);
      var _ := Deliver(r.value, d);
    }
  }
}
