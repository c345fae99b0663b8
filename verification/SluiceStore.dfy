/**
The outbound queue as the object the code keeps (internal/sluice/bbolt.go): its records, its sequence
counter and its blob directory.
*/
module SluiceStore {
  import opened Options
  import opened SeqKey
  import opened BlobStore
  import opened Sluice

  class Queue {
    var messages: map<nat, Message>
    var lastSeq: nat
    const blobs: BlobDir

    function Snapshot(): Box
      reads this
    {
      Box(messages, lastSeq)
    }

    /** Opening sweeps orphaned bodies and settles every claim a stopped process left. */
    constructor Open(box: Box, dir: BlobDir)
      modifies dir
      ensures Snapshot() == ReconcileClaims(box) && blobs == dir
      ensures dir.files == old(dir.files) - Orphans(old(dir.files), box.messages.Keys)
    {
      messages, lastSeq := box.messages, box.lastSeq;
      blobs := dir;
      new;
      var _ := blobs.SweepOrphans(messages.Keys);
      var todo := set id | id in messages && messages[id].claim.Some?;
      while todo != {}
        invariant messages.Keys == box.messages.Keys && lastSeq == box.lastSeq
        invariant todo == set id | id in messages && messages[id].claim.Some?
        invariant forall id :: id in messages ==> messages[id] == if id in todo then box.messages[id] else Interrupted(box.messages[id])
        invariant dir.files == old(dir.files) - Orphans(old(dir.files), box.messages.Keys)
        decreases todo
      {
        var id :| id in todo;
        messages := messages[id := messages[id].(claim := None, sendErr := UnknownPrefix + ReasonInterrupted)];
        todo := todo - {id};
      }
    }

    method Enqueue(agent: string, rcpt: seq<string>, raw: Bytes, fault: Fault) returns (r: Result<nat>)
      modifies this, blobs
      ensures r.Ok? <==> fault.NoFault?
      ensures r.Ok? ==> Snapshot() == Sluice.Enqueue(old(Snapshot()), agent, rcpt, raw) && r.value == lastSeq
      ensures r.Err? ==> Snapshot() == old(Snapshot())
      ensures blobs.files == PutFile(old(blobs.files), old(lastSeq) + 1, raw, fault)
    {
      var id := lastSeq + 1;
      var ok := blobs.Put(id, raw, fault);
      if !ok {
        return Err(WriteFailed);
      }
      lastSeq := id;
      messages := messages[id := Message(agent, rcpt, raw, Pending, "", "", false, None, "", None)];
      return Ok(id);
    }

    method Approve(id: nat, decidedBy: string, released: Option<Bytes>) returns (r: Result<Message>)
      modifies this
      ensures var tx := Sluice.Approve(old(Snapshot()), id, decidedBy, released);
              if tx.Ok? then Snapshot() == tx.value && r == Ok(messages[id]) else r == Err(tx.error) && Snapshot() == old(Snapshot())
    {
      if id !in messages {
        return Err(NotFound);
      }
      var m := messages[id];
      if !m.status.Pending? {
        return Err(NotPending);
      }
      m := m.(status := Approved, decidedBy := decidedBy);
      if released.Some? && |released.value| > 0 {
        m := m.(released := released);
      }
      messages := messages[id := m];
      return Ok(m);
    }

    method Reject(id: nat, decidedBy: string, reason: string, retryable: bool) returns (r: Result<Message>)
      modifies this
      ensures var tx := Sluice.Reject(old(Snapshot()), id, decidedBy, reason, retryable);
              if tx.Ok? then Snapshot() == tx.value && r == Ok(messages[id]) else r == Err(tx.error) && Snapshot() == old(Snapshot())
    {
      if id !in messages {
        return Err(NotFound);
      }
      var m := messages[id];
      if !m.status.Pending? {
        return Err(NotPending);
      }
      m := m.(status := Rejected, decidedBy := decidedBy, reason := reason, retryable := retryable);
      messages := messages[id := m];
      return Ok(m);
    }

    method RecordSendAttempt(id: nat, attempt: Attempt) returns (r: Result<Message>)
      modifies this
      ensures var tx := Sluice.RecordSendAttempt(old(Snapshot()), id, attempt);
              if tx.Ok? then Snapshot() == tx.value && r == Ok(messages[id]) else r == Err(tx.error) && Snapshot() == old(Snapshot())
    {
      if id !in messages {
        return Err(NotFound);
      }
      var m := messages[id];
      if !m.status.Approved? && !(m.status.Sent? && attempt.Delivered?) {
        return Err(NotApproved);
      }
      if attempt.MayHaveArrived? {
        m := m.(sendErr := UnknownPrefix + ReasonNoFinalReply);
      } else if attempt.Failed? {
        m := m.(sendErr := attempt.text);
      } else {
        m := m.(status := Sent, sendErr := "");
      }
      m := m.(claim := None);
      messages := messages[id := m];
      return Ok(m);
    }

    method ClaimResend(id: nat, actor: string, ack: bool) returns (r: Result<Message>)
      modifies this
      ensures var tx := Sluice.ClaimResend(old(Snapshot()), id, actor, ack);
              if tx.Ok? then Snapshot() == tx.value && r == Ok(messages[id]) else r == Err(tx.error) && Snapshot() == old(Snapshot())
      ensures r.Ok? <==> id in old(messages) && var m := old(messages)[id];
                                                 m.status.Approved? && m.sendErr != "" && m.claim.None? && ("outcome unknown: " <= m.sendErr ==> ack)
      ensures r.Ok? ==> messages == old(messages)[id := old(messages)[id].(claim := Some(actor))]
    {
      ClaimGrantedIff(Snapshot(), id, actor, ack);
      if id !in messages {
        return Err(NotFound);
      }
      var m := messages[id];
      if !m.status.Approved? || m.sendErr == "" {
        return Err(NotResendable);
      }
      if m.claim.Some? {
        return Err(ResendInProgress);
      }
      if IsOutcomeUnknown(m.sendErr) && !ack {
        return Err(AckRequired);
      }
      m := m.(claim := Some(actor));
      messages := messages[id := m];
      return Ok(m);
    }
  }
}
