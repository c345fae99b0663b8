/**
Approvals, identity bypasses, sends and re-sends running at once, with crashes (internal/admin/service.go,
cmd/darbaan/main.go over the transactions of internal/sluice/bbolt.go): each thread takes one store
transaction or one upstream submission at a time.
*/
module OutboundWorld {
  import opened Options
  import opened SeqKey
  import opened Approver
  import opened Smtp
  import opened Sluice

  /** Why a message may leave: the chain that approved it, or the list all its recipients match. */
  datatype Licence = ByChain(stages: seq<Stage>) | ByIdentity(list: IdentityList)

  datatype Decision = Let(licence: Licence, decidedBy: string, released: Option<Bytes>) | Deny(decidedBy: string, reason: string, retryable: bool)

  /** A thread between two of its steps, with the id of its message. */
  datatype Thread =
    | Trapped(id: nat)
    | Decided(id: nat, decision: Decision)
    | FirstSend(id: nat)
    | Checked(id: nat)
    | SecondSend(id: nat)
    | Replied(id: nat, again: bool, attempt: Attempt)

  /**
  upstream counts the copies the server has taken and bodies holds what they were; acked counts the re-sends claimed over an unknown
  outcome with an acknowledgement; licences keeps what let each approved message go.
  */
  datatype World = World(box: Box, upstream: multiset<nat>, bodies: set<(nat, Bytes)>, acked: multiset<nat>, licences: map<nat, Licence>,
                         threads: map<nat, Thread>, serving: bool)

  datatype Action =
    | Submit(t: nat, agent: string, rcpt: seq<string>, raw: Bytes)
    | CheckIdentities(t: nat, list: IdentityList)
    | Decide(t: nat, id: nat, stages: seq<Stage>)
    | Commit(t: nat)
    | GetForResend(t: nat, id: nat)
    | Claim(t: nat, actor: string, ack: bool)
    | Send(t: nat, script: Script, contextEnded: bool, text: string)
    | NoSender(t: nat, text: string)
    | Record(t: nat)
    | Abandon(t: nat)
    | Crash
    | SettleClaim(id: nat)
    | Serve

  function AttemptOf(err: SendError, text: string): Attempt
  {
    match err
    case NoError => Delivered
    case OutcomeUnknown => MayHaveArrived
    case Definite(_) => Failed(text)
  }

  /** What the sender hands to the server: the released body, or the original. */
  function BodySent(m: Message): Bytes
  {
    if m.released.Some? then m.released.value else m.raw
  }

  /** The body an approval lets go: the chain's, edits included, or none of its own. */
  function ReleasedBy(l: Licence, raw: Bytes): Option<Bytes>
  {
    match l
    case ByChain(stages) => Some(Working(stages, raw, |stages|))
    case ByIdentity(_) => None
  }

  /** What the record keeps of it: an empty body is not kept. */
  function Kept(released: Option<Bytes>): Option<Bytes>
  {
    if released.Some? && released.value != [] then released else None
  }

  function Move(w: World, t: nat, next: Thread): World
  {
    w.(threads := w.threads[t := next])
  }

  function End(w: World, t: nat): World
  {
    w.(threads := w.threads - {t})
  }

  function CommitStep(w: World, t: nat, id: nat, d: Decision): World
  {
    match d
    case Let(licence, who, released) =>
      var tx := Sluice.Approve(w.box, id, who, released);
      if tx.Ok? then Move(w, t, FirstSend(id)).(box := tx.value, licences := w.licences[id := licence]) else End(w, t)
    case Deny(who, reason, retryable) =>
      var tx := Sluice.Reject(w.box, id, who, reason, retryable);
      if tx.Ok? then End(w, t).(box := tx.value) else End(w, t)
  }

  function DecideStep(w: World, t: nat, id: nat, stages: seq<Stage>): World
  {
    if id !in w.box.messages || !w.box.messages[id].status.Pending? then w
    else match Chain(stages, w.box.messages[id].raw)
      case Ran(o) =>
        if o.disposition.Approve? then Move(w, t, Decided(id, Let(ByChain(stages), o.decidedBy, o.released)))
        else if o.disposition.Reject? then Move(w, t, Decided(id, Deny(o.decidedBy, o.reason, o.retryable)))
        else w
      case _ => w
  }

  /** ReSend's claim: granted over an unknown outcome only with an acknowledgement, which is counted. */
  function ClaimStep(w: World, t: nat, id: nat, actor: string, ack: bool): World
  {
    var tx := ClaimResend(w.box, id, actor, ack);
    if tx.Err? then End(w, t)
    else
      Move(w, t, SecondSend(id)).(box := tx.value,
        acked := if IsOutcomeUnknown(w.box.messages[id].sendErr) then w.acked + multiset{id} else w.acked)
  }

  function RecordStep(w: World, t: nat, id: nat, attempt: Attempt): World
  {
    var tx := RecordSendAttempt(w.box, id, attempt);
    if tx.Ok? then End(w, t).(box := tx.value) else End(w, t)
  }

  function Serving(w: World, a: Action): Option<World>
  {
    match a
    case Submit(t, agent, rcpt, raw) =>
      if t in w.threads then None
      else Some(Move(w, t, Trapped(w.box.lastSeq + 1)).(box := Enqueue(w.box, agent, rcpt, raw)))
    case Decide(t, id, stages) => if t in w.threads then None else Some(DecideStep(w, t, id, stages))
    case GetForResend(t, id) =>
      if t in w.threads || id !in w.box.messages || !Resendable(w.box.messages[id]) then None else Some(Move(w, t, Checked(id)))
    case Crash => Some(w.(threads := map[], serving := false))
    case SettleClaim(_) => None
    case Serve => None
    case _ => if a.t in w.threads then Resumed(w, a.t, w.threads[a.t], a) else None
  }

  function Resumed(w: World, t: nat, at: Thread, a: Action): Option<World>
    requires !a.Crash? && !a.SettleClaim? && !a.Serve?
  {
    match (at, a)
    case (Trapped(id), CheckIdentities(_, list)) =>
      if id in w.box.messages && AllOperators(list, w.box.messages[id].rcpt)
      then Some(Move(w, t, Decided(id, Let(ByIdentity(list), "operator-identity bypass (ADR 0034)", None))))
      else Some(End(w, t))
    case (Decided(id, d), Commit(_)) => Some(CommitStep(w, t, id, d))
    case (Checked(id), Claim(_, actor, ack)) => Some(ClaimStep(w, t, id, actor, ack))
    case (FirstSend(id), Send(_, script, ended, text)) => Some(SendStep(w, t, id, false, script, ended, text))
    case (SecondSend(id), Send(_, script, ended, text)) => Some(SendStep(w, t, id, true, script, ended, text))
    case (FirstSend(id), NoSender(_, text)) => Some(Move(w, t, Replied(id, false, Failed(text))))
    case (SecondSend(id), NoSender(_, text)) => Some(Move(w, t, Replied(id, true, Failed(text))))
    case (Replied(id, _, attempt), Record(_)) => Some(RecordStep(w, t, id, attempt))
    case (_, Abandon(_)) => Some(End(w, t))
    case _ => None
  }

  function SendStep(w: World, t: nat, id: nat, again: bool, script: Script, contextEnded: bool, text: string): World
  {
    Move(w, t, Replied(id, again, AttemptOf(Reported(script, contextEnded), text)))
      .(upstream := if Takes(script) then w.upstream + multiset{id} else w.upstream,
        bodies := if Takes(script) && id in w.box.messages then w.bodies + {(id, BodySent(w.box.messages[id]))} else w.bodies)
  }

  /** While the store is being opened only claims are settled, one transaction each; a crash may strike between any two. */
  function Opening(w: World, a: Action): Option<World>
  {
    match a
    case SettleClaim(id) =>
      if id in w.box.messages && w.box.messages[id].claim.Some?
      then Some(w.(box := Set(w.box, id, Interrupted(w.box.messages[id])))) else None
    case Serve => if forall id :: id in w.box.messages ==> w.box.messages[id].claim.None? then Some(w.(serving := true)) else None
    case Crash => Some(w)
    case _ => None
  }

  function Step(w: World, a: Action): Option<World>
  {
    if w.serving then Serving(w, a) else Opening(w, a)
  }

  function Initial(): World
  {
    World(Box(map[], 0), multiset{}, {}, multiset{}, map[], map[], true)
  }

  function Reach(acts: seq<Action>): Option<World>
  {
    if acts == [] then Some(Initial())
    else
      var before := Reach(acts[..|acts| - 1]);
      if before.None? then None else Step(before.value, acts[|acts| - 1])
  }

  // ---- The invariant ----

  predicate InSend(t: Thread)
  {
    t.FirstSend? || t.SecondSend? || t.Replied?
  }

  ghost predicate Valid(l: Licence, m: Message)
  {
    match l
    case ByChain(stages) => AllPass(stages, m.raw)
    case ByIdentity(list) => AllOperators(list, m.rcpt)
  }

  /** The copies upstream against the acknowledged risks, by what the record says. */
  predicate Settled(m: Message, copies: nat, acks: nat)
  {
    && copies <= 1 + acks
    && (m.status.Pending? || m.status.Rejected? ==> copies == 0)
    && (Resendable(m) && !IsOutcomeUnknown(m.sendErr) && m.claim.None? ==> copies <= acks)
  }

  ghost predicate MessageOk(w: World, id: nat)
    requires id in w.box.messages
  {
    var m := w.box.messages[id];
    && Settled(m, w.upstream[id], w.acked[id])
    && (m.status.Pending? ==> m.released.None?)
    && (m.status.Approved? || m.status.Sent? ==>
          id in w.licences && Valid(w.licences[id], m) && m.released == Kept(ReleasedBy(w.licences[id], m.raw)))
  }

  ghost predicate ThreadOk(w: World, t: Thread)
  {
    && t.id in w.box.messages
    && var m := w.box.messages[t.id];
    match t
    case FirstSend(id) => m.status.Approved? && m.sendErr == "" && m.claim.None? && w.upstream[id] <= w.acked[id]
    case SecondSend(id) => m.status.Approved? && m.claim.Some? && w.upstream[id] <= w.acked[id]
    case Replied(id, again, attempt) =>
      && m.status.Approved?
      && (if again then m.claim.Some? else m.sendErr == "" && m.claim.None?)
      && (attempt.Failed? ==> w.upstream[id] <= w.acked[id])
    case Decided(_, d) => d.Let? ==> Valid(d.licence, m) && d.released == ReleasedBy(d.licence, m.raw)
    case _ => true
  }

  ghost predicate OneSender(w: World)
  {
    forall t, u :: t in w.threads && u in w.threads && t != u && InSend(w.threads[t]) && InSend(w.threads[u]) ==>
      w.threads[t].id != w.threads[u].id
  }

  ghost predicate Inv(w: World)
  {
    && Sluice.Sound(w.box)
    && (forall id :: id in w.box.messages ==> MessageOk(w, id))
    && (forall id :: id !in w.box.messages ==> w.upstream[id] == 0 && w.acked[id] == 0)
    && (forall t :: t in w.threads ==> ThreadOk(w, w.threads[t]))
    && OneSender(w)
    && (!w.serving ==> w.threads == map[])
  }
}
