/**
The log as the code configures it: payloads written and read as JSON (internal/audit/bbolt.go), and
when that log passes its own verification.
*/
module AuditEntries {
  import opened Audit
  import opened AuditPayload
  import opened JsonText
  import opened Options
  import opened SeqKey

  function EntryCodec(digest: string -> string): Codec
  {
    Codec(digest, PayloadText, Restored)
  }

  lemma EntryCodecIsFaithful(digest: string -> string)
    ensures Faithful(EntryCodec(digest))
  {
    forall p, q | PayloadText(p) == PayloadText(q)
      ensures Restored(p) == Restored(q)
    {
      TextPinsPayload(p, q);
    }
  }

  /** A payload survives being read back exactly when it has no stray byte, unless its text and its text read back collide. */
  lemma SurvivesIff(digest: string -> string, prevHash: string, p: Payload)
    ensures var c := EntryCodec(digest);
            Survives(c, prevHash, p) <==> AllClean(p) || Collide(c, Input(c, prevHash, Restored(p)), Input(c, prevHash, p))
  {
    var c := EntryCodec(digest);
    var x, y := Input(c, prevHash, Restored(p)), Input(c, prevHash, p);
    RewrittenSameIff(p);
    assert PayloadText(Restored(p)) == x[|prevHash|..] && PayloadText(p) == y[|prevHash|..];
  }

  /** The k-th payload's text and its text read back collide. */
  predicate CollidesWhenRead(c: Codec, ps: seq<Payload>, k: nat)
    requires k < |ps|
  {
    var p, prev := ps[k].(seqNo := k + 1), LastHash(Appended(c, ps[..k]).rows);
    Collide(c, Input(c, prev, Restored(p)), Input(c, prev, p))
  }

  predicate CleanAt(ps: seq<Payload>, k: nat)
    requires k < |ps|
  {
    AllClean(ps[k])
  }

  /**
  A log that appending alone made passes verification exactly when every text in every payload was
  valid UTF-8, unless the hash of a payload's text and of its text read back collide.
  */
  lemma AppendedLogVerifiesIff(digest: string -> string, ps: seq<Payload>)
    requires |ps| < U64
    ensures var c := EntryCodec(digest);
            Intact(c, Appended(c, ps)) <==> forall k :: 0 <= k < |ps| ==> CleanAt(ps, k) || CollidesWhenRead(c, ps, k)
  {
    var c := EntryCodec(digest);
    EntryCodecIsFaithful(digest);
    Audit.AppendedLogVerifiesIff(c, ps);
    forall k | 0 <= k < |ps|
      ensures KeptAt(c, ps, k) <==> CleanAt(ps, k) || CollidesWhenRead(c, ps, k)
    {
      SurvivesIff(digest, LastHash(Appended(c, ps[..k]).rows), ps[k].(seqNo := k + 1));
    }
  }

  /** The detail of a failed send that quotes a server's reply with one byte that is not UTF-8. */
  const StrayReply := Payload(0, [], [], [], [], [], [], [Stray(255)], None)

  /** Appended to an empty log, it makes verification fail, unless the two texts collide. */
  lemma StrayReplyFailsVerify(digest: string -> string)
    ensures var c := EntryCodec(digest);
            Intact(c, Appended(c, [StrayReply])) <==> CollidesWhenRead(c, [StrayReply], 0)
  {
    AppendedLogVerifiesIff(digest, [StrayReply]);
    assert !StrayReply.detail[0].Rune?;
    assert !CleanAt([StrayReply], 0);
  }
}
