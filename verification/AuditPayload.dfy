/**
The hashed part of an audit entry, as computeHash and Append write it and Verify reads it back
(internal/audit/bbolt.go, Record in internal/audit/audit.go).
*/
module AuditPayload {
  import opened JsonText
  import opened Options

  /** inbox, actor, detail and retryable are left out of the text when empty. */
  datatype Payload = Payload(
    seqNo: nat, time: Text, event: Text, agent: Text, inbox: Text, actor: Text, messageId: Text, detail: Text, retryable: Option<bool>)

  const NumberKey := "{\"seq\":"
  const TimeKey := ",\"time\":\""
  const EventKey := ",\"record\":{\"event\":\""
  const AgentKey := ",\"agent\":\""
  const InboxKey := ",\"inbox\":\""
  const ActorKey := ",\"actor\":\""
  const MessageKey := ",\"message_id\":\""
  const DetailKey := ",\"detail\":\""
  const RetryableKey := ",\"retryable\":"
  const Closing := "}}"

  // ---- Writing ----

  function Digit(d: nat): char
    requires d < 10
  {
    '0' + d as char
  }

  function Digits(n: nat): (s: string)
    ensures s != ""
  {
    if n < 10 then [Digit(n)] else Digits(n / 10) + [Digit(n % 10)]
  }

  function Member(key: string, t: Text, rest: string): string
  {
    key + (Escapes(t) + ("\"" + rest))
  }

  function OptionalMember(key: string, t: Text, rest: string): string
  {
    if t == [] then rest else Member(key, t, rest)
  }

  function RetryableText(b: Option<bool>): string
  {
    match b
    case None => Closing
    case Some(true) => RetryableKey + ("true" + Closing)
    case Some(false) => RetryableKey + ("false" + Closing)
  }

  function FromMessage(p: Payload): string
  {
    Member(MessageKey, p.messageId, OptionalMember(DetailKey, p.detail, RetryableText(p.retryable)))
  }

  function FromEvent(p: Payload): string
  {
    Member(EventKey, p.event, Member(AgentKey, p.agent, OptionalMember(InboxKey, p.inbox, OptionalMember(ActorKey, p.actor, FromMessage(p)))))
  }

  function PayloadText(p: Payload): (s: string)
    ensures s != "" && s[0] == '{'
  {
    NumberKey + (Digits(p.seqNo) + Member(TimeKey, p.time, FromEvent(p)))
  }

  // ---- Reading ----

  predicate IsDigit(c: char)
  {
    '0' <= c <= '9'
  }

  function ReadDigits(n: nat, s: string): Read<nat>
    decreases |s|
  {
    if s != "" && IsDigit(s[0]) then ReadDigits(10 * n + (s[0] as int - '0' as int), s[1..]) else Read(n, s)
  }

  function ReadMember(key: string, s: string): Read<Text>
  {
    if key <= s then ReadText(s[|key|..]) else Failed
  }

  function ReadOptional(key: string, s: string): Read<Text>
  {
    if key <= s then ReadText(s[|key|..]) else Read([], s)
  }

  function ReadRetryable(s: string): Option<Option<bool>>
  {
    if s == Closing then Some(None)
    else if !(RetryableKey <= s) then None
    else if s[|RetryableKey|..] == "true" + Closing then Some(Some(true))
    else if s[|RetryableKey|..] == "false" + Closing then Some(Some(false))
    else None
  }

  /** An entry's payload, its members in the order in which they are written. */
  function ReadPayload(s: string): Option<Payload>
  {
    if !(NumberKey <= s) then None
    else
      var number := ReadDigits(0, s[|NumberKey|..]);
      if number.Failed? then None
      else
        var time := ReadMember(TimeKey, number.rest);
        if time.Failed? then None else ReadRecord(number.value, time.value, time.rest)
  }

  function ReadRecord(seqNo: nat, time: Text, s: string): Option<Payload>
  {
    var event := ReadMember(EventKey, s);
    if event.Failed? then None
    else
      var agent := ReadMember(AgentKey, event.rest);
      if agent.Failed? then None
      else
        var inbox := ReadOptional(InboxKey, agent.rest);
        if inbox.Failed? then None
        else
          var actor := ReadOptional(ActorKey, inbox.rest);
          if actor.Failed? then None
          else
            var id := ReadMember(MessageKey, actor.rest);
            if id.Failed? then None
            else
              var detail := ReadOptional(DetailKey, id.rest);
              if detail.Failed? then None
              else
                var retryable := ReadRetryable(detail.rest);
                if retryable.None? then None
                else
                  Some(Payload(seqNo, time, event.value, agent.value, inbox.value, actor.value, id.value, detail.value, retryable.value))
  }

  // ---- What is read back ----

  /** No stray byte in any text. */
  predicate AllClean(p: Payload)
  {
    Clean(p.time) && Clean(p.event) && Clean(p.agent) && Clean(p.inbox) && Clean(p.actor) && Clean(p.messageId) && Clean(p.detail)
  }

  /** What the entry read back from the log carries. */
  function Restored(p: Payload): (q: Payload)
    ensures AllClean(q) && q.seqNo == p.seqNo && (AllClean(p) ==> q == p)
  {
    Payload(p.seqNo, ReadBack(p.time), ReadBack(p.event), ReadBack(p.agent), ReadBack(p.inbox), ReadBack(p.actor),
            ReadBack(p.messageId), ReadBack(p.detail), p.retryable)
  }

  lemma {:induction false} DigitsReadBack(n: nat, x: string)
    ensures ReadDigits(0, Digits(n) + x) == ReadDigits(n, x)
  {
    if n < 10 {
      assert (Digits(n) + x)[1..] == x;
    } else {
      var more := [Digit(n % 10)] + x;
      assert Digits(n) + x == Digits(n / 10) + more;
      DigitsReadBack(n / 10, more);
      assert more[1..] == x;
    }
  }

  lemma MemberReadsBack(key: string, t: Text, rest: string)
    ensures ReadMember(key, Member(key, t, rest)) == Read(ReadBack(t), rest)
  {
    TextReadsBack(t, rest);
    assert Member(key, t, rest)[|key|..] == Escapes(t) + ("\"" + rest);
  }

  /** A text that does not open with a key. */
  predicate Other(key: string, s: string)
  {
    |key| > 2 && (|s| <= 2 || key[2] != s[2])
  }

  lemma OptionalReadsBack(key: string, t: Text, rest: string)
    requires Other(key, rest)
    ensures ReadOptional(key, OptionalMember(key, t, rest)) == Read(ReadBack(t), rest)
  {
    if t == [] {
      assert ReadBack(t) == [];
      assert |rest| > 2 ==> key[2] != rest[2];
    } else {
      MemberReadsBack(key, t, rest);
    }
  }

  lemma RetryableReadsBack(b: Option<bool>)
    ensures ReadRetryable(RetryableText(b)) == Some(b)
    ensures Other(DetailKey, RetryableText(b))
  {
    match b
    case None =>
    case Some(v) =>
      var value := if v then "true" + Closing else "false" + Closing;
      assert RetryableText(b)[|RetryableKey|..] == value;
      assert RetryableText(b)[0] != Closing[0];
      assert ("true" + Closing)[0] != ("false" + Closing)[0];
  }

  lemma MessageReadsBack(p: Payload, after: string)
    requires after == OptionalMember(DetailKey, p.detail, RetryableText(p.retryable))
    ensures ReadMember(MessageKey, FromMessage(p)) == Read(ReadBack(p.messageId), after)
    ensures ReadOptional(DetailKey, after) == Read(ReadBack(p.detail), RetryableText(p.retryable))
    ensures ReadRetryable(RetryableText(p.retryable)) == Some(p.retryable)
    ensures Other(ActorKey, FromMessage(p)) && Other(InboxKey, OptionalMember(ActorKey, p.actor, FromMessage(p)))
  {
    MemberReadsBack(MessageKey, p.messageId, after);
    RetryableReadsBack(p.retryable);
    OptionalReadsBack(DetailKey, p.detail, RetryableText(p.retryable));
    assert FromMessage(p)[2] == MessageKey[2];
    assert p.actor != [] ==> Member(ActorKey, p.actor, FromMessage(p))[2] == ActorKey[2];
  }

  lemma RecordReadsBack(p: Payload, time: Text)
    ensures ReadRecord(p.seqNo, time, FromEvent(p)) == Some(Restored(p).(time := time))
  {
    var fromActor := OptionalMember(ActorKey, p.actor, FromMessage(p));
    var fromInbox := OptionalMember(InboxKey, p.inbox, fromActor);
    MessageReadsBack(p, OptionalMember(DetailKey, p.detail, RetryableText(p.retryable)));
    OptionalReadsBack(ActorKey, p.actor, FromMessage(p));
    OptionalReadsBack(InboxKey, p.inbox, fromActor);
    MemberReadsBack(AgentKey, p.agent, fromInbox);
    MemberReadsBack(EventKey, p.event, Member(AgentKey, p.agent, fromInbox));
  }

  /** Reading the text of a payload gives the payload with every stray byte replaced. */
  lemma PayloadReadsBack(p: Payload)
    ensures ReadPayload(PayloadText(p)) == Some(Restored(p))
  {
    var text := PayloadText(p);
    var fromTime := Member(TimeKey, p.time, FromEvent(p));
    assert text[|NumberKey|..] == Digits(p.seqNo) + fromTime;
    DigitsReadBack(p.seqNo, fromTime);
    assert fromTime[0] == TimeKey[0] == ',';
    MemberReadsBack(TimeKey, p.time, FromEvent(p));
    RecordReadsBack(p, ReadBack(p.time));
  }

  /** So the text tells payloads apart up to their stray bytes. */
  lemma TextPinsPayload(p: Payload, q: Payload)
    requires PayloadText(p) == PayloadText(q)
    ensures Restored(p) == Restored(q)
  {
    PayloadReadsBack(p);
    PayloadReadsBack(q);
  }

  function AllStrays(p: Payload): (n: nat)
    ensures n == 0 <==> AllClean(p)
  {
    Strays(p.time) + Strays(p.event) + Strays(p.agent) + Strays(p.inbox) + Strays(p.actor) + Strays(p.messageId) + Strays(p.detail)
  }

  /** A payload that was read back is written as its original was exactly when that had no stray byte. */
  lemma RewrittenSameIff(p: Payload)
    ensures PayloadText(Restored(p)) == PayloadText(p) <==> AllClean(p)
  {
    StraysShorten(p.time);
    StraysShorten(p.event);
    StraysShorten(p.agent);
    StraysShorten(p.inbox);
    StraysShorten(p.actor);
    StraysShorten(p.messageId);
    StraysShorten(p.detail);
    assert |PayloadText(Restored(p))| + 5 * AllStrays(p) == |PayloadText(p)|;
  }
}
