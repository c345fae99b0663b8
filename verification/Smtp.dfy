/**
One upstream submission (internal/backend/smtp.go). The server side is a script: how it answers
each step, and at the end of the data whether it takes the message and whether its last reply
arrives. By section 4.1.1.4 of RFC 5321 a server that answers the end of data with a failure has
not taken the message.
*/
module Smtp {
  datatype Reply = Ok | Refused(permanent: bool) | Dropped

  /** The last exchange; a lost reply may follow either decision. */
  datatype LastReply = Accepted | Declined(permanent: bool) | Lost(accepted: bool)

  datatype Script = Script(dial: Reply, tls: Reply, auth: Reply, mail: Reply, rcpt: seq<Reply>, data: Reply, copy: Reply, close: LastReply)

  datatype SendError = NoError | OutcomeUnknown | Definite(permanent: bool)

  function Steps(s: Script): seq<Reply>
  {
    [s.dial, s.tls, s.auth, s.mail] + s.rcpt + [s.data, s.copy]
  }

  predicate ReachesClose(s: Script)
  {
    forall i :: 0 <= i < |Steps(s)| ==> Steps(s)[i].Ok?
  }

  /** The server has taken a copy of the message. */
  predicate Takes(s: Script)
  {
    ReachesClose(s) && (s.close.Accepted? || (s.close.Lost? && s.close.accepted))
  }

  function FirstBad(steps: seq<Reply>): (r: Reply)
    ensures r.Ok? <==> forall i :: 0 <= i < |steps| ==> steps[i].Ok?
  {
    if steps == [] then Ok else if steps[0].Ok? then FirstBad(steps[1..]) else steps[0]
  }

  function Failure(r: Reply): SendError
  {
    Definite(r.Refused? && r.permanent)
  }

  /** What the transaction itself reports: the first failing step, or the last reply. */
  function Transacted(s: Script): SendError
  {
    var bad := FirstBad(Steps(s));
    if !bad.Ok? then Failure(bad)
    else match s.close
      case Accepted => NoError
      case Declined(permanent) => Definite(permanent)
      case Lost(_) => OutcomeUnknown
  }

  /** The error Send reports when its context had ended: an unknown outcome stays unknown, a failure becomes an abort. */
  function SendResult(err: SendError, contextEnded: bool): SendError
  {
    if err.OutcomeUnknown? then err
    else if !err.NoError? && contextEnded then Definite(false)
    else err
  }

  function Reported(s: Script, contextEnded: bool): SendError
  {
    SendResult(Transacted(s), contextEnded)
  }

  /** Success and failure are reported only when true; unknown is exactly a lost last reply, and covers both truths. */
  lemma ReportIsHonest(s: Script, contextEnded: bool)
    ensures Reported(s, contextEnded).NoError? ==> Takes(s)
    ensures Reported(s, contextEnded).Definite? ==> !Takes(s)
    ensures Reported(s, contextEnded).OutcomeUnknown? <==> ReachesClose(s) && s.close.Lost?
    ensures Reported(s, contextEnded).OutcomeUnknown? ==>
              var flipped := s.(close := Lost(!s.close.accepted));
              Takes(flipped) != Takes(s) && Reported(flipped, contextEnded) == Reported(s, contextEnded)
  {
    if ReachesClose(s) && s.close.Lost? {
      assert Steps(s.(close := Lost(!s.close.accepted))) == Steps(s);
    }
  }

  /** Every step before the last exchange is answered with success. */
  lemma ReachesCloseIff(s: Script)
    ensures ReachesClose(s) <==>
              && s.dial.Ok? && s.tls.Ok? && s.auth.Ok? && s.mail.Ok?
              && (forall i :: 0 <= i < |s.rcpt| ==> s.rcpt[i].Ok?) && s.data.Ok? && s.copy.Ok?
  {
    var n := |s.rcpt|;
    assert Steps(s)[0] == s.dial && Steps(s)[1] == s.tls && Steps(s)[2] == s.auth && Steps(s)[3] == s.mail;
    assert Steps(s)[4 + n] == s.data && Steps(s)[5 + n] == s.copy;
    assert forall i :: 0 <= i < n ==> Steps(s)[4 + i] == s.rcpt[i];
    assert forall i :: 4 <= i < 4 + n ==> Steps(s)[i] == s.rcpt[i - 4];
  }

  /** The first step that is not answered with success is answered so. */
  predicate FirstFailure(steps: seq<Reply>, i: nat, r: Reply)
  {
    i < |steps| && steps[i] == r && !r.Ok? && forall j :: 0 <= j < i ==> steps[j].Ok?
  }

  lemma {:induction false} FirstBadIsFirst(steps: seq<Reply>)
    ensures !FirstBad(steps).Ok? ==> exists i: nat :: FirstFailure(steps, i, FirstBad(steps))
    ensures forall i: nat, r :: FirstFailure(steps, i, r) ==> FirstBad(steps) == r
  {
    if steps != [] {
      var rest := steps[1..];
      FirstBadIsFirst(rest);
      if steps[0].Ok? {
        if !FirstBad(rest).Ok? {
          var i: nat :| FirstFailure(rest, i, FirstBad(rest));
          assert FirstFailure(steps, i + 1, FirstBad(steps));
        }
        forall i: nat, r | FirstFailure(steps, i, r)
          ensures FirstBad(steps) == r
        {
          assert rest[i - 1] == r && forall j :: 0 <= j < i - 1 ==> rest[j] == steps[j + 1];
          assert FirstFailure(rest, i - 1, r);
        }
      } else {
        assert FirstFailure(steps, 0, steps[0]);
      }
    }
  }

  /** A report is permanent exactly when the step that failed first, or the last reply, is a permanent refusal, and the context had not ended. */
  lemma PermanentIff(s: Script, contextEnded: bool)
    ensures Reported(s, contextEnded) == Definite(true) <==>
              && !contextEnded
              && ((exists i: nat :: FirstFailure(Steps(s), i, Refused(true))) || (ReachesClose(s) && s.close == Declined(true)))
    ensures Reported(s, contextEnded) == Definite(false) <==>
              || (exists i: nat, r :: FirstFailure(Steps(s), i, r) && (contextEnded || r != Refused(true)))
              || (ReachesClose(s) && s.close.Declined? && (contextEnded || s.close == Declined(false)))
  {
    FirstBadIsFirst(Steps(s));
    var bad := FirstBad(Steps(s));
    if !bad.Ok? {
      var i: nat :| FirstFailure(Steps(s), i, bad);
    }
  }

  lemma ConnectionFailures(s: Script)
    ensures !s.dial.Ok? ==> FirstBad(Steps(s)) == s.dial
    ensures s.dial.Ok? && !s.tls.Ok? ==> FirstBad(Steps(s)) == s.tls
    ensures s.dial.Ok? && s.tls.Ok? && !s.auth.Ok? ==> FirstBad(Steps(s)) == s.auth
    ensures s.dial.Ok? && s.tls.Ok? && s.auth.Ok? ==> FirstBad(Steps(s)) == FirstBad([s.mail] + s.rcpt + [s.data, s.copy])
  {
    var after1, after2 := Steps(s)[1..], Steps(s)[1..][1..];
    assert after1[0] == s.tls && after2[0] == s.auth;
    assert after2[1..] == [s.mail] + s.rcpt + [s.data, s.copy];
    assert s.dial.Ok? ==> FirstBad(Steps(s)) == FirstBad(after1);
    assert s.dial.Ok? && s.tls.Ok? ==> FirstBad(Steps(s)) == FirstBad(after2);
  }

  /** The recipients in order, then the data steps; what is left to fail is what has not been tried. */
  method Transact(s: Script) returns (err: SendError)
    requires s.dial.Ok? && s.tls.Ok? && s.auth.Ok?
    ensures err == Transacted(s)
  {
    var tail := [s.data, s.copy];
    ConnectionFailures(s);
    if !s.mail.Ok? {
      return Failure(s.mail);
    }
    assert ([s.mail] + s.rcpt + tail)[1..] == s.rcpt + tail;
    for i := 0 to |s.rcpt|
      invariant FirstBad(Steps(s)) == FirstBad(s.rcpt[i..] + tail)
    {
      if !s.rcpt[i].Ok? {
        return Failure(s.rcpt[i]);
      }
      assert (s.rcpt[i..] + tail)[1..] == s.rcpt[i + 1..] + tail;
    }
    assert s.rcpt[|s.rcpt|..] + tail == tail && tail[1..] == [s.copy];
    if !s.data.Ok? {
      return Failure(s.data);
    }
    assert [s.copy][1..] == [];
    if !s.copy.Ok? {
      return Failure(s.copy);
    }
    match s.close
    case Accepted => return NoError;
    case Declined(permanent) => return Definite(permanent);
    case Lost(_) => return OutcomeUnknown;
  }

  method Send(s: Script, contextEnded: bool) returns (err: SendError)
    ensures err == Reported(s, contextEnded)
  {
    ConnectionFailures(s);
    if !s.dial.Ok? {
      return SendResult(Failure(s.dial), contextEnded);
    }
    if !s.tls.Ok? {
      return SendResult(Failure(s.tls), contextEnded);
    }
    if !s.auth.Ok? {
      return SendResult(Failure(s.auth), contextEnded);
    }
    var sent := Transact(s);
    return SendResult(sent, contextEnded);
  }
}
