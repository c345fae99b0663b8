/** What every run of OutboundWorld keeps: at most one copy without an acknowledged risk, and no send without a licence. */
module OutboundSafety {
  import opened Options
  import opened SeqKey
  import opened Approver
  import opened Smtp
  import opened Sluice
  import opened OutboundWorld

  ghost predicate Idle(w: World, t: nat, id: nat)
  {
    forall u :: u in w.threads && u != t && w.threads[u].id == id ==> !InSend(w.threads[u])
  }

  /** A step of thread t about message id leaves every other thread and message as it was. */
  ghost predicate Touches(w: World, w': World, t: nat, id: nat)
  {
    && (forall j :: j in w.box.messages ==> j in w'.box.messages)
    && (forall j :: j in w'.box.messages && j != id ==>
          && j in w.box.messages && w'.box.messages[j] == w.box.messages[j]
          && (j in w.licences ==> j in w'.licences && w'.licences[j] == w.licences[j]))
    && (forall j :: j != id ==> w'.upstream[j] == w.upstream[j] && w'.acked[j] == w.acked[j])
    && (forall u :: u in w'.threads && u != t ==> u in w.threads && w'.threads[u] == w.threads[u])
  }

  /** The moved message is still the one that was licensed. */
  ghost predicate SameMail(w: World, w': World, id: nat)
  {
    && id in w'.box.messages
    && (id in w.box.messages ==>
          w'.box.messages[id].raw == w.box.messages[id].raw && w'.box.messages[id].rcpt == w.box.messages[id].rcpt)
  }

  lemma OtherThreadKeeps(w: World, w': World, t: nat, id: nat, u: nat)
    requires Touches(w, w', t, id) && Idle(w, t, id) && SameMail(w, w', id)
    requires u in w.threads && u != t && ThreadOk(w, w.threads[u])
    ensures ThreadOk(w', w.threads[u])
  {
  }

  lemma OthersKeep(w: World, w': World, t: nat, id: nat)
    requires Inv(w) && w.serving && w'.serving && Touches(w, w', t, id) && Idle(w, t, id) && SameMail(w, w', id)
    requires Sluice.Sound(w'.box) && MessageOk(w', id)
    requires t in w'.threads ==> ThreadOk(w', w'.threads[t]) && w'.threads[t].id == id
    ensures Inv(w')
  {
    forall j | j in w'.box.messages
      ensures MessageOk(w', j)
    {
      assert j != id ==> MessageOk(w, j);
    }
    forall u | u in w'.threads
      ensures ThreadOk(w', w'.threads[u])
    {
      if u != t {
        OtherThreadKeeps(w, w', t, id, u);
      }
    }
  }

  /** Nothing but the threads differs. */
  ghost predicate SameBooks(w: World, w': World)
  {
    w'.box == w.box && w'.upstream == w.upstream && w'.acked == w.acked && w'.licences == w.licences
  }

  lemma MessageStays(w: World, w': World, id: nat)
    requires SameBooks(w, w') && id in w.box.messages && MessageOk(w, id)
    ensures MessageOk(w', id)
  {
  }

  lemma ThreadStays(w: World, w': World, t: Thread)
    requires SameBooks(w, w') && ThreadOk(w, t)
    ensures ThreadOk(w', t)
  {
  }

  /** Threads that are all right, with one sender per message, keep the invariant. */
  lemma ThreadsKeep(w: World, w': World)
    requires Inv(w) && SameBooks(w, w') && (!w'.serving ==> w'.threads == map[])
    requires forall t :: t in w'.threads ==> ThreadOk(w, w'.threads[t])
    requires OneSender(w')
    ensures Inv(w')
  {
    forall id | id in w'.box.messages
      ensures MessageOk(w', id)
    {
      MessageStays(w, w', id);
    }
    forall t | t in w'.threads
      ensures ThreadOk(w', w'.threads[t])
    {
      ThreadStays(w, w', w'.threads[t]);
    }
  }

  lemma EndKeeps(w: World, t: nat)
    requires Inv(w)
    ensures Inv(End(w, t))
  {
    ThreadsKeep(w, End(w, t));
  }

  /** A thread that takes up a place outside the send keeps the invariant. */
  lemma MoveKeeps(w: World, t: nat, next: Thread)
    requires Inv(w) && w.serving && ThreadOk(w, next)
    requires InSend(next) ==> Idle(w, t, next.id)
    ensures Inv(Move(w, t, next))
  {
    ThreadsKeep(w, Move(w, t, next));
  }

  lemma SubmitKeeps(w: World, t: nat, agent: string, rcpt: seq<string>, raw: Bytes)
    requires Inv(w) && w.serving && t !in w.threads
    ensures Inv(Move(w, t, Trapped(w.box.lastSeq + 1)).(box := Enqueue(w.box, agent, rcpt, raw)))
  {
    var id := w.box.lastSeq + 1;
    var trapped := w.(box := Enqueue(w.box, agent, rcpt, raw));
    TrappingKeeps(w.box, agent, rcpt, raw);
    NewIdIsIdle(w, t, id);
    assert MessageOk(trapped, id);
    OthersKeep(w, trapped, t, id);
    MoveKeeps(trapped, t, Trapped(id));
  }

  lemma NewIdIsIdle(w: World, t: nat, id: nat)
    requires Inv(w) && id > w.box.lastSeq
    ensures id !in w.box.messages && Idle(w, t, id)
  {
    assert forall u :: u in w.threads ==> ThreadOk(w, w.threads[u]);
  }

  /** No send is under way for a message that is pending, or that a claim could be granted on. */
  lemma QuietIsIdle(w: World, t: nat, id: nat)
    requires Inv(w) && id in w.box.messages
    requires w.box.messages[id].status.Pending? || (Resendable(w.box.messages[id]) && w.box.messages[id].claim.None?)
    ensures Idle(w, t, id)
  {
    forall u | u in w.threads && w.threads[u].id == id
      ensures !InSend(w.threads[u])
    {
      assert ThreadOk(w, w.threads[u]);
    }
  }

  lemma LetMessageIsSettled(m: Message, who: string, licence: Licence, copies: nat, acks: nat)
    requires m.status.Pending? && m.released.None? && Coherent(m) && Settled(m, copies, acks)
    ensures var m' := m.(status := Status.Approved, decidedBy := who, released := Kept(ReleasedBy(licence, m.raw)));
            Settled(m', copies, acks) && copies == 0 && Follows(m, m') && Coherent(m')
  {
  }

  lemma LetMessageIsOk(w: World, t: nat, id: nat, licence: Licence, who: string, released: Option<Bytes>)
    requires Inv(w) && w.serving && t in w.threads && w.threads[t] == Decided(id, Let(licence, who, released))
    requires id in w.box.messages && w.box.messages[id].status.Pending?
    ensures var w' := CommitStep(w, t, id, Let(licence, who, released));
            Sluice.Sound(w'.box) && id in w'.box.messages && MessageOk(w', id) && ThreadOk(w', FirstSend(id))
  {
    var w' := CommitStep(w, t, id, Let(licence, who, released));
    assert ThreadOk(w, w.threads[t]) && MessageOk(w, id) && Coherent(w.box.messages[id]);
    LetMessageIsSettled(w.box.messages[id], who, licence, w.upstream[id], w.acked[id]);
    SettingKeeps(w.box, id, w'.box.messages[id]);
  }

  lemma LettingKeeps(w: World, t: nat, id: nat, licence: Licence, who: string, released: Option<Bytes>)
    requires Inv(w) && w.serving && t in w.threads && w.threads[t] == Decided(id, Let(licence, who, released))
    requires id in w.box.messages && w.box.messages[id].status.Pending?
    ensures Inv(CommitStep(w, t, id, Let(licence, who, released)))
  {
    LetMessageIsOk(w, t, id, licence, who, released);
    QuietIsIdle(w, t, id);
    OthersKeep(w, CommitStep(w, t, id, Let(licence, who, released)), t, id);
  }

  lemma DenyingKeeps(w: World, t: nat, id: nat, who: string, reason: string, retryable: bool)
    requires Inv(w) && w.serving && t in w.threads && w.threads[t] == Decided(id, Deny(who, reason, retryable))
    requires id in w.box.messages && w.box.messages[id].status.Pending?
    ensures Inv(CommitStep(w, t, id, Deny(who, reason, retryable)))
  {
    var m := w.box.messages[id].(status := Rejected, decidedBy := who, reason := reason, retryable := retryable);
    var denied := End(w, t).(box := Set(w.box, id, m));
    assert MessageOk(w, id) && Coherent(w.box.messages[id]);
    SettingKeeps(w.box, id, m);
    QuietIsIdle(w, t, id);
    assert MessageOk(denied, id);
    OthersKeep(w, denied, t, id);
  }

  lemma CommitKeeps(w: World, t: nat, id: nat, d: Decision)
    requires Inv(w) && w.serving && t in w.threads && w.threads[t] == Decided(id, d)
    ensures Inv(CommitStep(w, t, id, d))
  {
    assert ThreadOk(w, w.threads[t]);
    if !w.box.messages[id].status.Pending? {
      EndKeeps(w, t);
    } else {
      match d
      case Let(licence, who, released) => LettingKeeps(w, t, id, licence, who, released);
      case Deny(who, reason, retryable) => DenyingKeeps(w, t, id, who, reason, retryable);
    }
  }

  /** Counting an acknowledged risk makes room for the copy it may add. */
  lemma ClaimSettles(m: Message, actor: string, copies: nat, acks: nat)
    requires Settled(m, copies, acks) && Resendable(m) && m.claim.None?
    ensures var acks' := if IsOutcomeUnknown(m.sendErr) then acks + 1 else acks;
            copies <= acks' && Settled(m.(claim := Some(actor)), copies, acks')
  {
  }

  lemma ClaimedKeeps(w: World, t: nat, id: nat, m: Message, acked: multiset<nat>)
    requires Inv(w) && w.serving && t in w.threads && w.threads[t] == Checked(id) && Idle(w, t, id)
    requires id in w.box.messages && m == w.box.messages[id].(claim := m.claim) && m.claim.Some? && Resendable(m)
    requires w.upstream[id] <= acked[id] && forall j :: j != id ==> acked[j] == w.acked[j]
    ensures Inv(Move(w, t, SecondSend(id)).(box := Set(w.box, id, m), acked := acked))
  {
    var w' := Move(w, t, SecondSend(id)).(box := Set(w.box, id, m), acked := acked);
    assert MessageOk(w, id) && Coherent(w.box.messages[id]);
    SettingKeeps(w.box, id, m);
    assert MessageOk(w', id);
    OthersKeep(w, w', t, id);
  }

  lemma GrantedClaimKeeps(w: World, t: nat, id: nat, actor: string, ack: bool)
    requires Inv(w) && w.serving && t in w.threads && w.threads[t] == Checked(id)
    requires ClaimResend(w.box, id, actor, ack).Ok?
    ensures Inv(ClaimStep(w, t, id, actor, ack))
  {
    var m := w.box.messages[id];
    assert MessageOk(w, id);
    QuietIsIdle(w, t, id);
    ClaimSettles(m, actor, w.upstream[id], w.acked[id]);
    ClaimedKeeps(w, t, id, m.(claim := Some(actor)), ClaimStep(w, t, id, actor, ack).acked);
  }

  lemma ClaimKeeps(w: World, t: nat, id: nat, actor: string, ack: bool)
    requires Inv(w) && w.serving && t in w.threads && w.threads[t] == Checked(id)
    ensures Inv(ClaimStep(w, t, id, actor, ack))
  {
    if ClaimResend(w.box, id, actor, ack).Err? {
      EndKeeps(w, t);
    } else {
      GrantedClaimKeeps(w, t, id, actor, ack);
    }
  }

  lemma SendKeeps(w: World, t: nat, id: nat, script: Script, ended: bool, text: string)
    requires Inv(w) && w.serving && t in w.threads && (w.threads[t] == FirstSend(id) || w.threads[t] == SecondSend(id))
    ensures Inv(SendStep(w, t, id, w.threads[t].SecondSend?, script, ended, text))
  {
    ReportIsHonest(script, ended);
    assert ThreadOk(w, w.threads[t]) && MessageOk(w, id);
    OthersKeep(w, SendStep(w, t, id, w.threads[t].SecondSend?, script, ended, text), t, id);
  }

  lemma NoSenderKeeps(w: World, t: nat, id: nat, text: string)
    requires Inv(w) && w.serving && t in w.threads && (w.threads[t] == FirstSend(id) || w.threads[t] == SecondSend(id))
    ensures Inv(Move(w, t, Replied(id, w.threads[t].SecondSend?, Failed(text))))
  {
    assert ThreadOk(w, w.threads[t]);
    MoveKeeps(w, t, Replied(id, w.threads[t].SecondSend?, Failed(text)));
  }

  lemma RecordKeeps(w: World, t: nat, id: nat, again: bool, attempt: Attempt)
    requires Inv(w) && w.serving && t in w.threads && w.threads[t] == Replied(id, again, attempt)
    ensures Inv(RecordStep(w, t, id, attempt))
  {
    assert ThreadOk(w, w.threads[t]) && MessageOk(w, id);
    SettingKeeps(w.box, id, Recorded(w.box.messages[id], attempt));
    OthersKeep(w, RecordStep(w, t, id, attempt), t, id);
  }

  lemma DecideKeeps(w: World, t: nat, id: nat, stages: seq<Stage>)
    requires Inv(w) && w.serving && t !in w.threads
    ensures Inv(DecideStep(w, t, id, stages))
  {
    if id in w.box.messages {
      ChainApprovesIff(stages, w.box.messages[id].raw);
      var w' := DecideStep(w, t, id, stages);
      if w' != w {
        MoveKeeps(w, t, w'.threads[t]);
      }
    }
  }

  lemma ServingKeeps(w: World, a: Action)
    requires Inv(w) && w.serving && Serving(w, a).Some?
    ensures Inv(Serving(w, a).value)
  {
    match a
    case Submit(t, agent, rcpt, raw) => SubmitKeeps(w, t, agent, rcpt, raw);
    case Decide(t, id, stages) => DecideKeeps(w, t, id, stages);
    case GetForResend(t, id) => MoveKeeps(w, t, Checked(id));
    case Crash => CrashKeeps(w);
    case SettleClaim(_) =>
    case Serve =>
    case _ => ResumedKeeps(w, a.t, a);
  }

  lemma CrashKeeps(w: World)
    requires Inv(w)
    ensures Inv(w.(threads := map[], serving := false))
  {
    ThreadsKeep(w, w.(threads := map[], serving := false));
  }

  lemma IdentitiesKeep(w: World, t: nat, a: Action)
    requires Inv(w) && w.serving && t in w.threads && w.threads[t].Trapped? && a.CheckIdentities?
    ensures Inv(Resumed(w, t, w.threads[t], a).value)
  {
    var id := w.threads[t].id;
    assert ThreadOk(w, w.threads[t]);
    if AllOperators(a.list, w.box.messages[id].rcpt) {
      MoveKeeps(w, t, Decided(id, Let(ByIdentity(a.list), "operator-identity bypass (ADR 0034)", None)));
    } else {
      EndKeeps(w, t);
    }
  }

  lemma ResumedKeeps(w: World, t: nat, a: Action)
    requires Inv(w) && w.serving && t in w.threads && !a.Crash? && !a.SettleClaim? && !a.Serve?
    requires Resumed(w, t, w.threads[t], a).Some?
    ensures Inv(Resumed(w, t, w.threads[t], a).value)
  {
    assert ThreadOk(w, w.threads[t]);
    match (w.threads[t], a)
    case (Trapped(id), CheckIdentities(_, list)) => IdentitiesKeep(w, t, a);
    case (Decided(id, d), Commit(_)) => CommitKeeps(w, t, id, d);
    case (Checked(id), Claim(_, actor, ack)) => ClaimKeeps(w, t, id, actor, ack);
    case (FirstSend(id), Send(_, script, ended, text)) => SendKeeps(w, t, id, script, ended, text);
    case (SecondSend(id), Send(_, script, ended, text)) => SendKeeps(w, t, id, script, ended, text);
    case (FirstSend(id), NoSender(_, text)) => NoSenderKeeps(w, t, id, text);
    case (SecondSend(id), NoSender(_, text)) => NoSenderKeeps(w, t, id, text);
    case (Replied(id, again, attempt), Record(_)) => RecordKeeps(w, t, id, again, attempt);
    case (_, Abandon(_)) => EndKeeps(w, t);
  }

  lemma OpeningKeeps(w: World, a: Action)
    requires Inv(w) && !w.serving && Opening(w, a).Some?
    ensures Inv(Opening(w, a).value)
  {
    var w' := Opening(w, a).value;
    match a
    case SettleClaim(id) =>
      assert Coherent(w.box.messages[id]) && MessageOk(w, id);
      SettingKeeps(w.box, id, Interrupted(w.box.messages[id]));
      assert forall j :: j in w.box.messages && j != id && MessageOk(w, j) ==> MessageOk(w', j);
    case Serve =>
      assert forall j :: j in w.box.messages && MessageOk(w, j) ==> MessageOk(w', j);
    case Crash =>
  }

  lemma {:induction false} RunKeepsInv(acts: seq<Action>)
    requires Reach(acts).Some?
    ensures Inv(Reach(acts).value)
  {
    if acts != [] {
      var before := Reach(acts[..|acts| - 1]).value;
      RunKeepsInv(acts[..|acts| - 1]);
      if before.serving {
        ServingKeeps(before, acts[|acts| - 1]);
      } else {
        OpeningKeeps(before, acts[|acts| - 1]);
      }
    }
  }

  // ---- At most one copy ----

  /** The server never has more copies than one plus the re-sends an operator acknowledged as risky. */
  lemma AtMostOneCopyPlusAcks(acts: seq<Action>, id: nat)
    requires Reach(acts).Some?
    ensures Reach(acts).value.upstream[id] <= 1 + Reach(acts).value.acked[id]
  {
    RunKeepsInv(acts);
    assert id in Reach(acts).value.box.messages ==> MessageOk(Reach(acts).value, id);
  }

  predicate NeverAcks(acts: seq<Action>)
  {
    forall i :: 0 <= i < |acts| && acts[i].Claim? ==> !acts[i].ack
  }

  lemma {:induction false} WithoutAcksNothingIsAcked(acts: seq<Action>)
    requires Reach(acts).Some? && NeverAcks(acts)
    ensures Reach(acts).value.acked == multiset{}
  {
    if acts != [] {
      var init := acts[..|acts| - 1];
      assert forall i :: 0 <= i < |init| ==> init[i] == acts[i];
      WithoutAcksNothingIsAcked(init);
      AckedOnlyByClaims(Reach(init).value, acts[|acts| - 1]);
    }
  }

  lemma AckedOnlyByClaims(w: World, a: Action)
    requires Step(w, a).Some?
    ensures Step(w, a).value.acked == w.acked || (a.Claim? && a.ack)
  {
  }

  /** While nobody acknowledges the risk of a copy, no message is ever taken twice. */
  lemma AtMostOneCopy(acts: seq<Action>, id: nat)
    requires Reach(acts).Some? && NeverAcks(acts)
    ensures Reach(acts).value.upstream[id] <= 1
  {
    WithoutAcksNothingIsAcked(acts);
    AtMostOneCopyPlusAcks(acts, id);
  }

  // ---- Default deny ----

  /**
  Whatever thread is about to hand a message to a sender, and whatever message the server has, has
  been approved, by a non-empty chain every stage of which passed it or because its non-empty
  recipient list is all operator identities.
  */
  lemma NothingLeavesUnlicensed(acts: seq<Action>, id: nat)
    requires Reach(acts).Some?
    requires var w := Reach(acts).value;
             w.upstream[id] > 0 || exists t :: t in w.threads && (w.threads[t] == FirstSend(id) || w.threads[t] == SecondSend(id))
    ensures var w := Reach(acts).value;
            && id in w.box.messages && (w.box.messages[id].status.Approved? || w.box.messages[id].status.Sent?)
            && id in w.licences
            && match w.licences[id]
               case ByChain(stages) => AllPass(stages, w.box.messages[id].raw)
               case ByIdentity(list) => AllOperators(list, w.box.messages[id].rcpt)
  {
    RunKeepsInv(acts);
    var w := Reach(acts).value;
    if t :| t in w.threads && (w.threads[t] == FirstSend(id) || w.threads[t] == SecondSend(id)) {
      assert ThreadOk(w, w.threads[t]);
    }
    assert MessageOk(w, id);
  }

  // ---- The body that leaves ----

  lemma CommitExtends(w: World, t: nat, id: nat, d: Decision)
    requires Sluice.Sound(w.box)
    ensures Extends(w.box, CommitStep(w, t, id, d).box)
  {
    var tx := match d
              case Let(_, who, released) => Release(id, who, released)
              case Deny(who, reason, retryable) => Refuse(id, who, reason, retryable);
    if Apply(w.box, tx).Ok? {
      EveryTransactionKeeps(w.box, tx);
    }
  }

  lemma ClaimExtends(w: World, t: nat, id: nat, actor: string, ack: bool)
    requires Sluice.Sound(w.box)
    ensures Extends(w.box, ClaimStep(w, t, id, actor, ack).box)
  {
    if ClaimResend(w.box, id, actor, ack).Ok? {
      EveryTransactionKeeps(w.box, Tx.Claim(id, actor, ack));
    }
  }

  lemma RecordExtends(w: World, t: nat, id: nat, attempt: Attempt)
    requires Sluice.Sound(w.box)
    ensures Extends(w.box, RecordStep(w, t, id, attempt).box)
  {
    if RecordSendAttempt(w.box, id, attempt).Ok? {
      EveryTransactionKeeps(w.box, Tx.Record(id, attempt));
    }
  }

  lemma SendingKeepsBox(w: World, t: nat, at: Thread, a: Action)
    requires a.CheckIdentities? || a.Send? || a.NoSender? || a.Abandon?
    requires Resumed(w, t, at, a).Some?
    ensures Resumed(w, t, at, a).value.box == w.box
  {
  }

  lemma SettlingExtends(box: Box, id: nat)
    requires Sluice.Sound(box) && id in box.messages
    ensures Extends(box, Set(box, id, Interrupted(box.messages[id])))
  {
    assert Coherent(box.messages[id]);
    SettingKeeps(box, id, Interrupted(box.messages[id]));
  }

  /** Every message stays on its way, whatever anyone does. */
  lemma StepExtends(w: World, a: Action)
    requires Sluice.Sound(w.box) && Step(w, a).Some?
    ensures Extends(w.box, Step(w, a).value.box)
  {
    match a
    case SettleClaim(id) => SettlingExtends(w.box, id);
    case Submit(_, agent, rcpt, raw) => TrappingKeeps(w.box, agent, rcpt, raw);
    case Commit(t) => CommitExtends(w, t, w.threads[t].id, w.threads[t].decision);
    case Claim(t, actor, ack) => ClaimExtends(w, t, w.threads[t].id, actor, ack);
    case Record(t) => RecordExtends(w, t, w.threads[t].id, w.threads[t].attempt);
    case Decide(_, _, _) =>
    case GetForResend(_, _) =>
    case Crash =>
    case Serve =>
    case _ => SendingKeepsBox(w, a.t, w.threads[a.t], a);
  }

  /** Each body the server took is the one the record of an approved message names. */
  ghost predicate BodiesOk(w: World)
  {
    forall p :: p in w.bodies ==> p.0 in w.box.messages && TakenOk(w.box.messages[p.0], p.1)
  }

  predicate TakenOk(m: Message, body: Bytes)
  {
    (m.status.Approved? || m.status.Sent?) && body == BodySent(m)
  }

  lemma StepKeepsBodies(w: World, a: Action)
    requires Inv(w) && BodiesOk(w) && Step(w, a).Some?
    ensures BodiesOk(Step(w, a).value)
  {
    var w' := Step(w, a).value;
    StepExtends(w, a);
    NewBodies(w, a);
    forall p | p in w'.bodies
      ensures p.0 in w'.box.messages && TakenOk(w'.box.messages[p.0], p.1)
    {
      if p in w.bodies {
        assert TakenOk(w.box.messages[p.0], p.1) && Follows(w.box.messages[p.0], w'.box.messages[p.0]);
      }
    }
  }

  lemma SendAddsItsBody(w: World, t: nat, id: nat, again: bool, script: Script, ended: bool, text: string)
    requires id in w.box.messages && w.box.messages[id].status.Approved?
    ensures var w' := SendStep(w, t, id, again, script, ended, text);
            w'.box == w.box && forall p :: p in w'.bodies && p !in w.bodies ==> p.0 == id && TakenOk(w.box.messages[id], p.1)
  {
  }

  lemma OnlySendsAddBodies(w: World, a: Action)
    requires Step(w, a).Some? && !(w.serving && a.Send?)
    ensures Step(w, a).value.bodies == w.bodies
  {
  }

  lemma NewBodies(w: World, a: Action)
    requires Inv(w) && Step(w, a).Some?
    ensures var w' := Step(w, a).value;
            forall p :: p in w'.bodies && p !in w.bodies ==> w'.box == w.box && p.0 in w.box.messages && TakenOk(w.box.messages[p.0], p.1)
  {
    if w.serving && a.Send? {
      var at := w.threads[a.t];
      assert ThreadOk(w, at);
      SendAddsItsBody(w, a.t, at.id, at.SecondSend?, a.script, a.contextEnded, a.text);
      assert Step(w, a).value == SendStep(w, a.t, at.id, at.SecondSend?, a.script, a.contextEnded, a.text);
    } else {
      OnlySendsAddBodies(w, a);
    }
  }

  lemma {:induction false} RunKeepsBodies(acts: seq<Action>)
    requires Reach(acts).Some?
    ensures BodiesOk(Reach(acts).value)
  {
    if acts != [] {
      RunKeepsBodies(acts[..|acts| - 1]);
      RunKeepsInv(acts[..|acts| - 1]);
      StepKeepsBodies(Reach(acts[..|acts| - 1]).value, acts[|acts| - 1]);
    }
  }

  /**
  In every run, every copy the server took carried the body that was approved, the original with the
  edits of the chain that passed it, exactly when that body is not empty or the original is; an edit
  to an empty body sent the original instead.
  */
  lemma EveryCopyIsTheApprovedBodyIff(acts: seq<Action>, id: nat, body: Bytes)
    requires Reach(acts).Some? && (id, body) in Reach(acts).value.bodies
    ensures var w := Reach(acts).value;
            && id in w.box.messages && id in w.licences
            && var raw := w.box.messages[id].raw;
            match w.licences[id]
            case ByIdentity(_) => body == raw
            case ByChain(stages) =>
              var approved := Working(stages, raw, |stages|);
              && AllPass(stages, raw)
              && (body == approved <==> approved != [] || raw == [])
              && (approved == [] ==> body == raw)
  {
    RunKeepsInv(acts);
    RunKeepsBodies(acts);
    var w := Reach(acts).value;
    assert TakenOk(w.box.messages[id], body);
    assert MessageOk(w, id);
  }

  /** A claim belongs to an approved failed message, and at most one live re-send runs on it. */
  lemma ClaimHasOneOwner(acts: seq<Action>, id: nat, t: nat, u: nat)
    requires Reach(acts).Some?
    requires var w := Reach(acts).value; id in w.box.messages && w.box.messages[id].claim.Some?
    ensures var w := Reach(acts).value;
            && w.box.messages[id].status.Approved? && w.box.messages[id].sendErr != ""
            && (t in w.threads && u in w.threads && t != u && w.threads[t].id == id && w.threads[u].id == id ==>
                  !InSend(w.threads[t]) || !InSend(w.threads[u]))
            && (t in w.threads && w.threads[t].id == id && InSend(w.threads[t]) ==>
                  w.threads[t].SecondSend? || (w.threads[t].Replied? && w.threads[t].again))
  {
    RunKeepsInv(acts);
    var w := Reach(acts).value;
    assert Coherent(w.box.messages[id]);
    assert t in w.threads ==> ThreadOk(w, w.threads[t]);
  }

  // ---- The bound is met ----

  lemma ReachSnoc(acts: seq<Action>, a: Action)
    ensures Reach(acts + [a]) == if Reach(acts).Some? then Step(Reach(acts).value, a) else None
  {
    assert (acts + [a])[..|acts|] == acts;
  }

  predicate UnknownOutcome(m: Message)
  {
    m.status.Approved? && m.claim.None? && m.sendErr == UnknownPrefix + ReasonNoFinalReply
  }

  lemma LostReplyRecorded(w: World, t: nat, id: nat, script: Script, ended: bool, text: string)
    requires w.serving && t in w.threads && (w.threads[t] == FirstSend(id) || w.threads[t] == SecondSend(id)) && ThreadOk(w, w.threads[t])
    requires ReachesClose(script) && script.close.Lost?
    ensures var sent := Step(w, Send(t, script, ended, text));
            && sent.Some? && sent.value.serving
            && t in sent.value.threads && sent.value.threads[t] == Replied(id, w.threads[t].SecondSend?, MayHaveArrived)
            && sent.value.upstream[id] == w.upstream[id] + (if script.close.accepted then 1 else 0)
            && sent.value.box == w.box
  {
    ReportIsHonest(script, ended);
  }

  lemma RecordingUnknown(w: World, t: nat, id: nat, again: bool)
    requires w.serving && t in w.threads && w.threads[t] == Replied(id, again, MayHaveArrived) && ThreadOk(w, w.threads[t])
    ensures var r := Step(w, OutboundWorld.Record(t));
            && r.Some? && r.value.serving && t !in r.value.threads && r.value.upstream == w.upstream
            && id in r.value.box.messages && UnknownOutcome(r.value.box.messages[id])
  {
  }

  /** A lost last reply leaves the message approved with an unknown outcome, whether or not the server took it. */
  lemma LostReplyIsUnknown(acts: seq<Action>, t: nat, id: nat, script: Script, ended: bool, text: string)
    requires Reach(acts).Some?
    requires var w := Reach(acts).value; w.serving && t in w.threads && (w.threads[t] == FirstSend(id) || w.threads[t] == SecondSend(id))
    requires ReachesClose(script) && script.close.Lost?
    ensures var w, r := Reach(acts).value, Reach(acts + [Send(t, script, ended, text)] + [OutboundWorld.Record(t)]);
            && r.Some? && r.value.serving && t !in r.value.threads
            && r.value.upstream[id] == w.upstream[id] + (if script.close.accepted then 1 else 0)
            && id in r.value.box.messages && UnknownOutcome(r.value.box.messages[id])
  {
    RunKeepsInv(acts);
    assert ThreadOk(Reach(acts).value, Reach(acts).value.threads[t]);
    LostReplyRecorded(Reach(acts).value, t, id, script, ended, text);
    ReachSnoc(acts, Send(t, script, ended, text));
    var sent := Reach(acts + [Send(t, script, ended, text)]).value;
    RecordingUnknown(sent, t, id, sent.threads[t].again);
    ReachSnoc(acts + [Send(t, script, ended, text)], OutboundWorld.Record(t));
  }

  function Retry(t: nat, id: nat, ack: bool, script: Script): seq<Action>
  {
    [GetForResend(t, id)] + [OutboundWorld.Claim(t, "", ack)] + [Send(t, script, false, "")]
  }

  /** From there another copy is one acknowledged re-send away; without the acknowledgement nothing is sent. */
  lemma OnlyAnAckAddsACopy(acts: seq<Action>, t: nat, id: nat, ack: bool, script: Script)
    requires Reach(acts).Some? && Takes(script)
    requires var w := Reach(acts).value;
             && w.serving && t !in w.threads && id in w.box.messages
             && var m := w.box.messages[id]; Resendable(m) && m.claim.None? && IsOutcomeUnknown(m.sendErr)
    ensures var r := Reach(acts + Retry(t, id, ack, script));
            && (r.Some? <==> ack)
            && (ack ==> r.value.upstream[id] == Reach(acts).value.upstream[id] + 1 && r.value.acked[id] == Reach(acts).value.acked[id] + 1)
  {
    var a1, a2, a3 := GetForResend(t, id), OutboundWorld.Claim(t, "", ack), Send(t, script, false, "");
    assert acts + Retry(t, id, ack, script) == acts + [a1] + [a2] + [a3];
    ReachSnoc(acts, a1);
    assert Reach(acts + [a1]).value == Move(Reach(acts).value, t, Checked(id));
    ReachSnoc(acts + [a1], a2);
    ReachSnoc(acts + [a1] + [a2], a3);
  }

  lemma GrantedRetry(w: World, t: nat, id: nat, ack: bool)
    requires w.serving && t !in w.threads && id in w.box.messages
    requires var m := w.box.messages[id]; Resendable(m) && m.claim.None? && (IsOutcomeUnknown(m.sendErr) ==> ack)
    ensures var got := Step(w, GetForResend(t, id));
            && got.Some? && got.value == Move(w, t, Checked(id))
            && var claimed := Step(got.value, OutboundWorld.Claim(t, "", ack));
            && claimed.Some? && claimed.value.serving && t in claimed.value.threads && claimed.value.threads[t] == SecondSend(id)
            && claimed.value.upstream == w.upstream
            && claimed.value.acked == if IsOutcomeUnknown(w.box.messages[id].sendErr) then w.acked + multiset{id} else w.acked
  {
    ClaimGrantedIff(w.box, id, "", ack);
    var got := Move(w, t, Checked(id));
    assert Step(got, OutboundWorld.Claim(t, "", ack)) == Some(ClaimStep(got, t, id, "", ack));
  }

  /**
  From any reachable state a definite failure, one whose text is not of an unknown outcome, is sent
  again with or without an acknowledgement, and counts as no acknowledged risk.
  */
  lemma DefiniteFailureIsResendable(acts: seq<Action>, t: nat, id: nat, ack: bool, script: Script)
    requires Reach(acts).Some?
    requires var w := Reach(acts).value;
             && w.serving && t !in w.threads && id in w.box.messages
             && var m := w.box.messages[id];
                m.status.Approved? && m.sendErr != "" && m.claim.None? && !("outcome unknown: " <= m.sendErr)
    ensures var w, r := Reach(acts).value, Reach(acts + Retry(t, id, ack, script));
            && r.Some? && r.value.acked == w.acked
            && r.value.upstream == (if Takes(script) then w.upstream + multiset{id} else w.upstream)
            && t in r.value.threads && r.value.threads[t] == Replied(id, true, AttemptOf(Reported(script, false), ""))
  {
    var w := Reach(acts).value;
    GrantedRetry(w, t, id, ack);
    var a1, a2, a3 := GetForResend(t, id), OutboundWorld.Claim(t, "", ack), Send(t, script, false, "");
    assert acts + Retry(t, id, ack, script) == acts + [a1] + [a2] + [a3];
    ReachSnoc(acts, a1);
    ReachSnoc(acts + [a1], a2);
    ReachSnoc(acts + [a1] + [a2], a3);
  }

  // ---- Sent means taken ----

  /** A message marked sent has a copy upstream, and so has one whose success is about to be recorded. */
  ghost predicate SentOk(w: World)
  {
    && (forall id :: id in w.box.messages && w.box.messages[id].status.Sent? ==> w.upstream[id] >= 1)
    && (forall t :: t in w.threads && w.threads[t].Replied? && w.threads[t].attempt.Delivered? ==> w.upstream[w.threads[t].id] >= 1)
  }

  lemma RecordKeepsSent(w: World, t: nat, id: nat, attempt: Attempt)
    requires SentOk(w) && (attempt.Delivered? ==> w.upstream[id] >= 1)
    ensures SentOk(RecordStep(w, t, id, attempt))
  {
  }

  lemma SendKeepsSent(w: World, t: nat, id: nat, again: bool, script: Script, ended: bool, text: string)
    requires SentOk(w)
    ensures SentOk(SendStep(w, t, id, again, script, ended, text))
  {
    ReportIsHonest(script, ended);
  }

  lemma CommitKeepsSent(w: World, t: nat, id: nat, d: Decision)
    requires SentOk(w)
    ensures SentOk(CommitStep(w, t, id, d))
  {
  }

  lemma ClaimKeepsSent(w: World, t: nat, id: nat, actor: string, ack: bool)
    requires SentOk(w)
    ensures SentOk(ClaimStep(w, t, id, actor, ack))
  {
  }

  /** A move that adds no success to be recorded. */
  lemma MoveKeepsSent(w: World, t: nat, next: Thread)
    requires SentOk(w) && (next.Replied? ==> !next.attempt.Delivered?)
    ensures SentOk(Move(w, t, next)) && SentOk(End(w, t))
  {
  }

  lemma QuietStepKeepsSent(w: World, t: nat, a: Action)
    requires SentOk(w) && t in w.threads && (a.CheckIdentities? || a.NoSender? || a.Abandon?)
    requires Resumed(w, t, w.threads[t], a).Some?
    ensures SentOk(Resumed(w, t, w.threads[t], a).value)
  {
    var id := w.threads[t].id;
    if a.CheckIdentities? {
      MoveKeepsSent(w, t, Decided(id, Let(ByIdentity(a.list), "operator-identity bypass (ADR 0034)", None)));
    } else if a.NoSender? {
      MoveKeepsSent(w, t, Replied(id, w.threads[t].SecondSend?, Failed(a.text)));
    } else {
      MoveKeepsSent(w, t, Trapped(id));
    }
  }

  lemma StepKeepsSent(w: World, a: Action)
    requires SentOk(w) && Step(w, a).Some?
    ensures SentOk(Step(w, a).value)
  {
    if w.serving {
      match a
      case Submit(_, _, _, _) =>
      case Decide(t, id, stages) => DecideKeepsSent(w, t, id, stages);
      case GetForResend(t, id) => MoveKeepsSent(w, t, Checked(id));
      case Crash =>
      case Commit(t) => CommitKeepsSent(w, t, w.threads[t].id, w.threads[t].decision);
      case Claim(t, actor, ack) => ClaimKeepsSent(w, t, w.threads[t].id, actor, ack);
      case Send(t, script, ended, text) => SendKeepsSent(w, t, w.threads[t].id, w.threads[t].SecondSend?, script, ended, text);
      case Record(t) => RecordKeepsSent(w, t, w.threads[t].id, w.threads[t].attempt);
      case CheckIdentities(t, _) => QuietStepKeepsSent(w, t, a);
      case NoSender(t, _) => QuietStepKeepsSent(w, t, a);
      case Abandon(t) => QuietStepKeepsSent(w, t, a);
    }
  }

  lemma DecideKeepsSent(w: World, t: nat, id: nat, stages: seq<Stage>)
    requires SentOk(w)
    ensures SentOk(DecideStep(w, t, id, stages))
  {
  }

  lemma {:induction false} RunKeepsSent(acts: seq<Action>)
    requires Reach(acts).Some?
    ensures SentOk(Reach(acts).value)
  {
    if acts != [] {
      RunKeepsSent(acts[..|acts| - 1]);
      StepKeepsSent(Reach(acts[..|acts| - 1]).value, acts[|acts| - 1]);
    }
  }

  /** In every run, a message is marked sent only if the server has taken it. */
  lemma SentMeansTaken(acts: seq<Action>, id: nat)
    requires Reach(acts).Some? && id in Reach(acts).value.box.messages && Reach(acts).value.box.messages[id].status.Sent?
    ensures Reach(acts).value.upstream[id] >= 1
  {
    RunKeepsSent(acts);
  }

  // ---- An empty edit ----

  /** A stage that approves, and may edit, and empties the body. */
  const Emptier := Stage("emptier", true, body => Some(Verdict(Disposition.Approve, Some([]), "", false)))

  function EmptyEditRun(raw: Bytes, script: Script): seq<Action>
  {
    [Submit(0, "", [], raw)] + [Decide(1, 1, [Emptier])] + [Commit(1)] + [Send(1, script, false, "")]
  }

  lemma EmptierReleasesNothing(raw: Bytes)
    ensures Chain([Emptier], raw) == Ran(Outcome(Disposition.Approve, Some([]), "", false, "emptier"))
    ensures Working([Emptier], raw, 1) == []
  {
    assert [Emptier][0] == Emptier;
    assert Edited(Emptier, raw) == [];
    assert ChainFrom([Emptier], [], 1) == Ran(Outcome(Disposition.Approve, Some([]), "", false, "emptier"));
    assert Working([Emptier], raw, 0) == raw;
  }

  lemma EmptyEditIsApproved(raw: Bytes)
    ensures var r := Reach([Submit(0, "", [], raw)] + [Decide(1, 1, [Emptier])] + [Commit(1)]);
            && r.Some? && r.value.serving && r.value.bodies == {} && 1 in r.value.threads && r.value.threads[1] == FirstSend(1)
            && r.value.licences == map[1 := ByChain([Emptier])]
            && 1 in r.value.box.messages && r.value.box.messages[1].raw == raw && r.value.box.messages[1].released.None?
  {
    EmptierReleasesNothing(raw);
    var a1, a2, a3 := Submit(0, "", [], raw), Decide(1, 1, [Emptier]), Commit(1);
    assert [] + [a1] == [a1];
    ReachSnoc([], a1);
    ReachSnoc([a1], a2);
    ReachSnoc([a1] + [a2], a3);
  }

  /** The failing input: the chain passed an empty body, and the server was handed the original. */
  lemma EmptyEditSendsOriginal(raw: Bytes, script: Script)
    requires raw != [] && Takes(script)
    ensures var r := Reach(EmptyEditRun(raw, script));
            && r.Some? && (1, raw) in r.value.bodies
            && r.value.licences == map[1 := ByChain([Emptier])] && Working([Emptier], raw, 1) == []
  {
    EmptierReleasesNothing(raw);
    EmptyEditIsApproved(raw);
    ReachSnoc([Submit(0, "", [], raw)] + [Decide(1, 1, [Emptier])] + [Commit(1)], Send(1, script, false, ""));
  }
}
