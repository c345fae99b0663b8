/**
The outbound hold queue (internal/sluice/sluice.go, internal/sluice/bbolt.go): a message's life from
pending to sent, one store transaction at a time.
*/
module Sluice {
  import opened Options
  import opened SeqKey

  datatype Status = Pending | Approved | Rejected | Sent

  /** claim names the operator client of a re-send in flight. */
  datatype Message = Message(agent: string, rcpt: seq<string>, raw: Bytes, status: Status, decidedBy: string,
                             reason: string, retryable: bool, released: Option<Bytes>, sendErr: string, claim: Option<string>)

  datatype Box = Box(messages: map<nat, Message>, lastSeq: nat)

  datatype StoreError = NotFound | NotPending | NotApproved | NotResendable | ResendInProgress | AckRequired | WriteFailed

  datatype Result<+T> = Ok(value: T) | Err(error: StoreError)

  /** What one attempt to send reported; MayHaveArrived is an error that wraps the unknown outcome. */
  datatype Attempt = Delivered | MayHaveArrived | Failed(text: string)

  const UnknownPrefix := "outcome unknown: "
  const ReasonInterrupted := "re-send interrupted"
  const ReasonNoFinalReply := "no final reply from the server"

  predicate IsOutcomeUnknown(sendErr: string)
  {
    UnknownPrefix <= sendErr
  }

  predicate Resendable(m: Message)
  {
    m.status.Approved? && m.sendErr != ""
  }

  // ---- The transactions ----

  function Enqueue(box: Box, agent: string, rcpt: seq<string>, raw: Bytes): Box
  {
    var id := box.lastSeq + 1;
    Box(box.messages[id := Message(agent, rcpt, raw, Pending, "", "", false, None, "", None)], id)
  }

  function Set(box: Box, id: nat, m: Message): Box
  {
    box.(messages := box.messages[id := m])
  }

  function Approve(box: Box, id: nat, decidedBy: string, released: Option<Bytes>): Result<Box>
  {
    if id !in box.messages then Err(NotFound)
    else
      var m := box.messages[id];
      if !m.status.Pending? then Err(NotPending)
      else Ok(Set(box, id, m.(status := Approved, decidedBy := decidedBy,
                              released := if released.Some? && released.value != [] then released else m.released)))
  }

  function Reject(box: Box, id: nat, decidedBy: string, reason: string, retryable: bool): Result<Box>
  {
    if id !in box.messages then Err(NotFound)
    else
      var m := box.messages[id];
      if !m.status.Pending? then Err(NotPending)
      else Ok(Set(box, id, m.(status := Rejected, decidedBy := decidedBy, reason := reason, retryable := retryable)))
  }

  /** The message after an attempt is recorded; the claim goes in the same transaction. */
  function Recorded(m: Message, attempt: Attempt): Message
  {
    match attempt
    case Delivered => m.(status := Sent, sendErr := "", claim := None)
    case MayHaveArrived => m.(sendErr := UnknownPrefix + ReasonNoFinalReply, claim := None)
    case Failed(text) => m.(sendErr := text, claim := None)
  }

  function RecordSendAttempt(box: Box, id: nat, attempt: Attempt): Result<Box>
  {
    if id !in box.messages then Err(NotFound)
    else
      var m := box.messages[id];
      if m.status.Approved? || (m.status.Sent? && attempt.Delivered?) then Ok(Set(box, id, Recorded(m, attempt)))
      else Err(NotApproved)
  }

  function ClaimResend(box: Box, id: nat, actor: string, ack: bool): Result<Box>
  {
    if id !in box.messages then Err(NotFound)
    else
      var m := box.messages[id];
      if !Resendable(m) then Err(NotResendable)
      else if m.claim.Some? then Err(ResendInProgress)
      else if IsOutcomeUnknown(m.sendErr) && !ack then Err(AckRequired)
      else Ok(Set(box, id, m.(claim := Some(actor))))
  }

  function Interrupted(m: Message): Message
  {
    if m.claim.Some? then m.(claim := None, sendErr := UnknownPrefix + ReasonInterrupted) else m
  }

  /** Opening the store turns every claim left behind into an unknown outcome. */
  function ReconcileClaims(box: Box): Box
  {
    box.(messages := map id | id in box.messages :: Interrupted(box.messages[id]))
  }

  // ---- What each transaction answers, by the record's fields ----

  /** A re-send is claimed exactly on an approved, failed, unclaimed message, an unknown outcome needing the acknowledgement; each refusal has its own cause. */
  lemma ClaimGrantedIff(box: Box, id: nat, actor: string, ack: bool)
    ensures var r := ClaimResend(box, id, actor, ack);
            if id !in box.messages then r == Err(NotFound)
            else
              var m := box.messages[id];
              && (r == Err(NotResendable) <==> !m.status.Approved? || m.sendErr == "")
              && (r == Err(ResendInProgress) <==> m.status.Approved? && m.sendErr != "" && m.claim.Some?)
              && (r == Err(AckRequired) <==> m.status.Approved? && m.sendErr != "" && m.claim.None? && "outcome unknown: " <= m.sendErr && !ack)
              && (r.Ok? <==> m.status.Approved? && m.sendErr != "" && m.claim.None? && ("outcome unknown: " <= m.sendErr ==> ack))
              && (r.Ok? ==> r.value == Box(box.messages[id := m.(claim := Some(actor))], box.lastSeq))
  {
  }

  /** A verdict is taken exactly on a pending message; it records its decider, and an approval the body let go unless that is empty. */
  lemma VerdictTakenIff(box: Box, id: nat, who: string, released: Option<Bytes>, reason: string, retryable: bool)
    ensures var yes, no := Approve(box, id, who, released), Reject(box, id, who, reason, retryable);
            if id !in box.messages then yes == Err(NotFound) && no == Err(NotFound)
            else if box.messages[id].status != Pending then yes == Err(NotPending) && no == Err(NotPending)
            else
              var m := box.messages[id];
              && yes.Ok? && no.Ok? && yes.value.lastSeq == no.value.lastSeq == box.lastSeq
              && yes.value.messages == box.messages[id := m.(status := Approved, decidedBy := who,
                                                             released := if released in {None, Some([])} then m.released else released)]
              && no.value.messages == box.messages[id := m.(status := Rejected, decidedBy := who, reason := reason, retryable := retryable)]
  {
  }

  /** An attempt is recorded exactly on an approved message, or as a success again on a sent one; it leaves the outcome's text and no claim. */
  lemma AttemptRecordedIff(box: Box, id: nat, attempt: Attempt)
    ensures var r := RecordSendAttempt(box, id, attempt);
            if id !in box.messages then r == Err(NotFound)
            else
              var m := box.messages[id];
              && (r.Ok? <==> m.status.Approved? || (m.status.Sent? && attempt == Delivered))
              && (r.Err? ==> r == Err(NotApproved))
              && (r.Ok? ==> r.value == Box(box.messages[id := r.value.messages[id]], box.lastSeq) && r.value.messages[id].claim.None?)
              && (r.Ok? && attempt == Delivered ==> r.value.messages[id] == m.(status := Sent, sendErr := "", claim := None))
              && (r.Ok? && attempt == MayHaveArrived ==>
                    r.value.messages[id] == m.(sendErr := "outcome unknown: " + ReasonNoFinalReply, claim := None))
              && (r.Ok? && attempt.Failed? ==> r.value.messages[id] == m.(sendErr := attempt.text, claim := None))
  {
  }

  // ---- What every transaction keeps ----

  predicate Coherent(m: Message)
  {
    && (m.claim.Some? ==> Resendable(m))
    && (!m.status.Approved? ==> m.sendErr == "" && m.claim.None?)
  }

  ghost predicate Sound(box: Box)
  {
    forall id :: id in box.messages ==> 1 <= id <= box.lastSeq && Coherent(box.messages[id])
  }

  /** What may become of a message: one verdict, then at most delivery. */
  predicate Follows(m: Message, m': Message)
  {
    && m'.agent == m.agent && m'.rcpt == m.rcpt && m'.raw == m.raw
    && (m.status.Rejected? ==> m' == m)
    && (m.status.Sent? ==> m' == m)
    && (m.status.Approved? ==> (m'.status.Approved? || m'.status.Sent?) && m'.decidedBy == m.decidedBy && m'.released == m.released)
    && (m'.status.Pending? ==> m' == m)
  }

  ghost predicate Extends(box: Box, box': Box)
  {
    && box.lastSeq <= box'.lastSeq
    && forall id :: id in box.messages ==> id in box'.messages && Follows(box.messages[id], box'.messages[id])
  }

  datatype Tx =
    | Trap(agent: string, rcpt: seq<string>, raw: Bytes)
    | Release(id: nat, decidedBy: string, released: Option<Bytes>)
    | Refuse(id: nat, decidedBy: string, reason: string, retryable: bool)
    | Record(id: nat, attempt: Attempt)
    | Claim(id: nat, actor: string, ack: bool)
    | Settle

  function Apply(box: Box, tx: Tx): Result<Box>
  {
    match tx
    case Trap(agent, rcpt, raw) => Ok(Enqueue(box, agent, rcpt, raw))
    case Release(id, who, released) => Approve(box, id, who, released)
    case Refuse(id, who, reason, retryable) => Reject(box, id, who, reason, retryable)
    case Record(id, attempt) => RecordSendAttempt(box, id, attempt)
    case Claim(id, actor, ack) => ClaimResend(box, id, actor, ack)
    case Settle => Ok(ReconcileClaims(box))
  }

  /** The store after any transactions in turn; a refused one changes nothing. */
  function After(box: Box, txs: seq<Tx>): Box
  {
    if txs == [] then box
    else
      var before := After(box, txs[..|txs| - 1]);
      var r := Apply(before, txs[|txs| - 1]);
      if r.Ok? then r.value else before
  }

  lemma SettingKeeps(box: Box, id: nat, m: Message)
    requires Sound(box) && id in box.messages && Follows(box.messages[id], m) && Coherent(m)
    ensures Sound(Set(box, id, m)) && Extends(box, Set(box, id, m))
  {
  }

  lemma TrappingKeeps(box: Box, agent: string, rcpt: seq<string>, raw: Bytes)
    requires Sound(box)
    ensures Sound(Enqueue(box, agent, rcpt, raw)) && Extends(box, Enqueue(box, agent, rcpt, raw))
    ensures box.lastSeq + 1 !in box.messages
  {
  }

  /** Every transaction keeps the store coherent and every message on its way. */
  lemma EveryTransactionKeeps(box: Box, tx: Tx)
    requires Sound(box) && Apply(box, tx).Ok?
    ensures Sound(Apply(box, tx).value) && Extends(box, Apply(box, tx).value)
  {
    var after := Apply(box, tx).value;
    if tx.Trap? {
      TrappingKeeps(box, tx.agent, tx.rcpt, tx.raw);
    } else if !tx.Settle? {
      assert Coherent(box.messages[tx.id]);
      SettingKeeps(box, tx.id, after.messages[tx.id]);
    }
  }

  lemma BecomesSent(box: Box, tx: Tx, id: nat)
    requires Apply(box, tx).Ok? && id in box.messages && !box.messages[id].status.Sent?
    requires id in Apply(box, tx).value.messages && Apply(box, tx).value.messages[id].status.Sent?
    ensures box.messages[id].status.Approved? && tx == Record(id, Delivered)
  {
  }

  lemma {:induction false} EveryHistoryKeeps(box: Box, txs: seq<Tx>)
    requires Sound(box)
    ensures Sound(After(box, txs)) && Extends(box, After(box, txs))
  {
    if txs != [] {
      var init := txs[..|txs| - 1];
      EveryHistoryKeeps(box, init);
      if Apply(After(box, init), txs[|txs| - 1]).Ok? {
        EveryTransactionKeeps(After(box, init), txs[|txs| - 1]);
      }
    }
  }

  /** A verdict is given once: deciding a decided message fails, whatever happened to it since. */
  lemma VerdictOnlyOnce(box: Box, txs: seq<Tx>, id: nat, who: string, released: Option<Bytes>, reason: string, retryable: bool)
    requires Sound(box) && id in box.messages && !box.messages[id].status.Pending?
    ensures var later := After(box, txs);
            && Approve(later, id, who, released) == Err(NotPending)
            && Reject(later, id, who, reason, retryable) == Err(NotPending)
            && id in later.messages && later.messages[id].decidedBy == box.messages[id].decidedBy
  {
    EveryHistoryKeeps(box, txs);
  }

  /** Once sent, a message stays exactly as it is; it takes no failure, no claim and no verdict. */
  lemma SentIsTerminal(box: Box, txs: seq<Tx>, id: nat, text: string, actor: string, ack: bool)
    requires Sound(box) && id in box.messages && box.messages[id].status.Sent?
    ensures var later := After(box, txs);
            && id in later.messages && later.messages[id] == box.messages[id]
            && RecordSendAttempt(later, id, Failed(text)) == Err(NotApproved) == RecordSendAttempt(later, id, MayHaveArrived)
            && RecordSendAttempt(later, id, Delivered) == Ok(later)
            && ClaimResend(later, id, actor, ack) == Err(NotResendable)
  {
    EveryHistoryKeeps(box, txs);
    var later := After(box, txs);
    assert Coherent(later.messages[id]);
    assert later.messages[id := later.messages[id]] == later.messages;
  }

  /** The k-th transaction of a history records a success on the message, which is approved by then. */
  predicate RecordsSuccess(box: Box, txs: seq<Tx>, id: nat, k: nat)
    requires k < |txs|
  {
    var before := After(box, txs[..k]);
    txs[k] == Record(id, Delivered) && id in before.messages && before.messages[id].status.Approved?
  }

  lemma SuccessInLonger(box: Box, init: seq<Tx>, last: Tx, id: nat, k: nat)
    requires k < |init| && RecordsSuccess(box, init, id, k)
    ensures RecordsSuccess(box, init + [last], id, k)
  {
    assert (init + [last])[..k] == init[..k];
  }

  /** A message is sent after a history only if somewhere in it a success was recorded on it when it was approved. */
  lemma {:induction false} SentOnlyByRecordedSuccess(box: Box, txs: seq<Tx>, id: nat)
    requires Sound(box) && (id in box.messages ==> !box.messages[id].status.Sent?)
    requires id in After(box, txs).messages && After(box, txs).messages[id].status.Sent?
    ensures exists k :: 0 <= k < |txs| && RecordsSuccess(box, txs, id, k)
  {
    if txs != [] {
      var init, last := txs[..|txs| - 1], txs[|txs| - 1];
      assert txs == init + [last];
      var before := After(box, init);
      EveryHistoryKeeps(box, init);
      if id in before.messages && before.messages[id].status.Sent? {
        SentOnlyByRecordedSuccess(box, init, id);
        var k :| 0 <= k < |init| && RecordsSuccess(box, init, id, k);
        SuccessInLonger(box, init, last, id, k);
      } else {
        BecomesSent(before, last, id);
        assert RecordsSuccess(box, txs, id, |init|);
      }
    }
  }

  /** No transaction of the history gives a message's claim back. */
  predicate LeavesClaim(txs: seq<Tx>, id: nat)
  {
    forall i :: 0 <= i < |txs| ==> !txs[i].Settle? && !(txs[i].Record? && txs[i].id == id)
  }

  lemma ClaimStays(box: Box, tx: Tx, id: nat)
    requires Sound(box) && id in box.messages && box.messages[id].claim.Some?
    requires !tx.Settle? && !(tx.Record? && tx.id == id) && Apply(box, tx).Ok?
    ensures id in Apply(box, tx).value.messages && Apply(box, tx).value.messages[id] == box.messages[id]
  {
    assert Coherent(box.messages[id]);
  }

  /** While one re-send holds the claim nobody else gets it, whatever else happens, until an outcome is recorded, which gives it back. */
  lemma {:induction false} ClaimHoldsUntilRecorded(box: Box, txs: seq<Tx>, id: nat, other: string, ack: bool, attempt: Attempt)
    requires Sound(box) && id in box.messages && box.messages[id].claim.Some? && LeavesClaim(txs, id)
    ensures var later := After(box, txs);
            && id in later.messages && later.messages[id] == box.messages[id]
            && ClaimResend(later, id, other, ack) == Err(ResendInProgress)
            && RecordSendAttempt(later, id, attempt).Ok?
            && RecordSendAttempt(later, id, attempt).value.messages[id].claim.None?
  {
    assert Coherent(box.messages[id]);
    if txs != [] {
      var init, last := txs[..|txs| - 1], txs[|txs| - 1];
      assert forall i :: 0 <= i < |init| ==> init[i] == txs[i];
      ClaimHoldsUntilRecorded(box, init, id, other, ack, attempt);
      EveryHistoryKeeps(box, init);
      if Apply(After(box, init), last).Ok? {
        ClaimStays(After(box, init), last, id);
      }
    }
  }

  /** After the claims are reconciled a message that had one needs an acknowledgement to be sent again. */
  lemma InterruptedNeedsAck(box: Box, id: nat, actor: string, ack: bool)
    requires Sound(box) && id in box.messages && box.messages[id].claim.Some?
    ensures ClaimResend(ReconcileClaims(box), id, actor, ack).Ok? <==> ack
    ensures !ack ==> ClaimResend(ReconcileClaims(box), id, actor, ack) == Err(AckRequired)
  {
    assert Coherent(box.messages[id]);
  }
}
