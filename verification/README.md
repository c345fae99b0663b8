# Darbaan: a verified model of its protocols

Darbaan is a mail gate. Inbound, it copies a mailbox into a local store, removes the copies of mail
that left the mailbox, screens the text for injected instructions and hands the rest to an agent.
Outbound, it traps what the agent submits and lets it go only after an approval, at most once. This
project models the parts of that where the order of steps, crashes or an adversarial text matter, and
proves what each part is meant to guarantee, for all inputs and all runs.

How it is laid out:

| files | what they model |
|---|---|
| `SeqKey`, `BlobStore`, `InboundDb`, `InboundStore` | fixed-width keys, the blob directory, the inbound store's transactions and its dedup index |
| `UidSets`, `Candidates`, `Syncer` | which UIDs a sync asks for, which records a pass would retract, and the syncer's operations end to end |
| `SyncWorld`, `SyncSafety`, `SyncAlone`, `SyncRetracts` | any number of syncs, reconciliation passes and content fetches interleaved with arrivals, expunges, mailbox resets and crashes |
| `TwoTier`, `OutboundTiers` | the blob tier and the metadata tier of each store with a crash between any two of their steps |
| `Approver`, `Smtp`, `Sluice`, `SluiceStore`, `AdminService` | the approval chain, one SMTP submission, the outbound queue and the operator's operations |
| `OutboundWorld`, `OutboundSafety` | approvals, bypasses, sends and re-sends interleaved, with crashes and claims settled on reopening |
| `JsonText`, `AuditPayload`, `Audit`, `AuditEntries`, `AuditLog` | the hash-chained log, how its entries are written and read back, its verification and its paged listing |
| `Windows` | covering texts with classifier windows, with splitting |
| `MailText`, `MailFlags`, `MailWalk`, `Screener` | bounded MIME extraction, and the gate from extraction to disposition |
| `CaseFold`, `Rewriting`, `RewritingPass`, `Fence`, `Banner`, `BannerBlock`, `BannerApply` | making forged markers inert in fenced text and under the trust banner |
| `Evidence`, `Spans` | the text and spans shown for a flagged factor, against what detection read |

Code that updates state is a class or a loop here too (`Store`, `Syncer`, `Queue`, `Service`, `BoltLog`,
`WalkState`), proved against functions on values; the interleaved protocols are state machines whose
runs are lists of actions, and a theorem about runs holds for every such list.

Five places where the code does less than its comments say came out of the proofs. Each has a lemma
with an input that shows it and a lemma that says exactly when the code does what is promised:

- A mailbox reset between a pass's snapshot and its listing of the store makes the pass retract live,
  headers-only mail (`SyncSafety.ResetInWindowLosesMail`, `SyncSafety.ListingPicksLiveMailIff`).
- An audit entry whose text holds a byte that is not valid UTF-8, as the detail of a failed send may
  when it quotes a server's reply, is hashed with that byte written as an escape and verified with it
  written as a character, so an append-only log fails its own verification
  (`AuditEntries.StrayReplyFailsVerify`, `AuditEntries.AppendedLogVerifiesIff`).
- A stage that edits a body to nothing has the original sent instead of what the chain passed
  (`OutboundSafety.EmptyEditSendsOriginal`, `OutboundSafety.EveryCopyIsTheApprovedBodyIff`).
- A banner note that itself carries the end marker is not replaced exactly by a second banner
  (`BannerApply.EndInNoteStays`, `BannerApply.SecondBannerReplacesFirstIff`).
- A configured pattern whose match starts on the line break between two sources can ask for a slice
  that does not exist (`Spans.BreakBetweenSourcesFails`, `Spans.ServedIff`, `Spans.EvidenceOf`).

Two smaller facts: the state key of an inbox written "" differs from that of "default", although both
name the default inbox elsewhere; and a cap fraction of exactly one never holds a pass.

## Model

| member | source | states |
|---|---|---|
| SyncSafety.NoMailIsLost | internal/imapsync/imapsync.go:155-207 | In every interleaved run that is calm (see Left out), each message still upstream at or below the saved cursor has a local record, or a maximum age is set and the message was older than it |
| SyncSafety.EveryRetractionIsSound | internal/imapsync/reconcile.go:155-244 | Any record a calm run removes from the inbox, by a pass or by a content fetch, had a known validity and an assigned UID, and its message is absent upstream then and in every continuation |
| SyncSafety.StepRemovesOnlyDead | internal/imapsync/imapsync.go:457-507 | One step of any thread removes only records whose message is already gone for good |
| SyncSafety.DeadForever | internal/imapsync/reconcile.go:159-165 | A message once absent below UIDNEXT, or under an older validity, never names mail again (RFC 3501, section 2.3.1.1) |
| SyncSafety.ListingPicksLiveMailIff | internal/imapsync/reconcile.go:208-244 | Listing the store selects a record of live mail exactly when the mailbox was reset since it was examined and a pending record of the new validity exists |
| SyncSafety.ResetInWindowLosesMail | internal/imapsync/reconcile.go:171-188 | A concrete run in which a reset falls in that window and a message behind the cursor ends up without a record |
| SyncSafety.EagerRunsAreCalm | internal/imapsync/imapsync.go:304-312 | With assessment at ingest no record of the inbox is ever pending, so every run is calm |
| SyncSafety.StepKeepsInv | internal/imapsync/reconcile.go:144-301 | Every calm step of every thread keeps the invariant: coverage up to the cursor, cursor below UIDNEXT, and what each thread relies on |
| SyncSafety.OrdinaryPassesStayWithinCap | internal/imapsync/reconcile.go:208-301 | From any state, whatever runs beside it, an ordinary pass that lists the store removes until it ends only candidates of that listing, and nothing unless their number is within the cap of that listing's synced set; a purge of a whole synced set of at least the floor removes nothing when the fraction is below one |
| SyncSafety.LatchHoldsUntilCleared | internal/imapsync/reconcile.go:147-153 | Once latched, the latch survives any syncs, and only passes that had passed their latch check before it was set can still remove anything |
| SyncSafety.BypassComesOnlyFromRelease | internal/imapsync/reconcile.go:310-328 | A pass that bypasses the cap belongs to an earlier release, so after a failed release the next ordinary pass is capped again |
| SyncSafety.UncappedOnlyAfterLatch | internal/imapsync/reconcile.go:310-328 | In every run, a pass that bypasses the cap was preceded by a state in which the inbox was latched |
| SyncAlone.CompleteSyncCovers | internal/imapsync/imapsync.go:255-376 | A sync whose fetch delivered every requested message present leaves every message of the mailbox stored, or older than the maximum age |
| SyncAlone.AlonePassIsARun | internal/imapsync/reconcile.go:144-301 | A pass nobody interrupts ends in a state some interleaved run reaches |
| SyncRetracts.FinishedPassHasRetracted | internal/imapsync/reconcile.go:208-301 | In every run, a pass that lists the store, is not held, goes on to the end of its list and has no removal fail leaves no copy of its validity behind the cursor that its snapshot did not show, and no pending copy of another known validity, whatever ran beside it |
| SyncRetracts.AlonePassReconciles | internal/imapsync/reconcile.go:144-301 | From any reachable unlatched state with the cursor under the mailbox's validity, a pass nobody interrupts, within the cap and without a failed removal, takes out exactly the inbox's copies the mailbox contradicts and leaves all else as it was |
| SyncRetracts.AlonePassLatches | internal/imapsync/reconcile.go:251-267 | Over the cap it takes nothing out and latches the inbox with the number of copies held |
| Syncer.StateKeysDiffer | internal/imapsync/imapsync.go:105-110 | State keys agree exactly when inbox and mailbox agree, for NUL-free names |
| Syncer.StateStore.Save | internal/imapsync/state.go:94-105 | Saving a cursor changes that cursor and no latch |
| Syncer.StateStore.SaveReconcile | internal/imapsync/state.go:124-135 | Saving a latch changes that latch and no cursor |
| Syncer.AddAllLeavesRecords | internal/imapsync/imapsync.go:279-327 | After the fetch loop every message of the stream past the cursor has a record, and every message that had one still has |
| Syncer.PassRemovesExactlyGone | internal/imapsync/reconcile.go:208-301 | A pass that retracts removes exactly the inbox's expunged copies (of the mailbox's validity, behind the cursor, absent from the snapshot) and orphaned ones (pending, of another known validity) whose removal did not fail; every other record is as it was |
| Syncer.PassAloneDoes | internal/imapsync/reconcile.go:144-301 | The whole pass by its guards, the sizes of those two sets of copies against floor and fraction, and which records are left |
| Syncer.Syncer.Reconcile | internal/imapsync/reconcile.go:144-301 | Held, failed, skipped, latched or retracted, each exactly when its guard or the cap says so; which records are left is stated copy by copy, and the count reported is the number of records gone |
| Syncer.Syncer.ReleaseReconcile | internal/imapsync/reconcile.go:310-328 | Refused and without effect unless latched; otherwise the latch is cleared and one uncapped pass takes out exactly the copies to go |
| Syncer.Syncer.Pull | internal/imapsync/imapsync.go:255-338 | What is stored before a failure stays, and success reaches the end of the stream with the highest UID or the ceiling |
| Syncer.Syncer.Sync | internal/imapsync/imapsync.go:155-207 | A failed sync leaves the cursor; a finished one saves the session's validity with the highest UID met or the ceiling covered, which is UIDNEXT - 1 when that is known, was not yet reached and no UID at or past it was met |
| Candidates.SelectCandidates | internal/imapsync/reconcile.go:208-244 | The selection loop collects exactly the expunged and the orphaned copies, and counts those together with the copies in view |
| Candidates.GoneAreExpungedOrOrphaned | internal/imapsync/reconcile.go:208-244 | The candidates are exactly the listed copies that are expunged or orphaned by their own fields |
| Candidates.CountsAreSizes | internal/imapsync/reconcile.go:208-244 | Candidates and synced count are the sizes of those sets of copies |
| UidSets.UidSetOf | internal/imapsync/imapsync.go:391-403 | The coalesced ranges denote exactly the listed UIDs, and for distinct UIDs no two could be merged further |
| UidSets.FilterAbove | internal/imapsync/imapsync.go:379-387 | Keeps exactly the UIDs above the cursor |
| UidSets.PullSet | internal/imapsync/imapsync.go:349-376 | The ranges of the fetch mean exactly what the plan requests; only a failed search fails |
| UidSets.PlanIsWhatIsNew | internal/imapsync/imapsync.go:349-376 | The plan requests exactly the new UIDs below UIDNEXT, and its ceiling is UIDNEXT - 1 exactly when that is known and, without a cutoff, still ahead; at the 32-bit limit the range starts over from zero |
| InboundDb.SyncedKeyInjective | internal/inbound/bbolt.go:343-354 | Dedup keys agree exactly when owner, normalized inbox, validity and UID agree, for NUL-free names |
| InboundDb.AddIsNoOpIffScanFinds | internal/inbound/bbolt.go:178-210 | While index and records agree, adding is a no-op exactly when a scan of all records would find the message |
| InboundDb.AddLeavesRecord | internal/inbound/bbolt.go:178-210 | Whichever branch it takes, a message of known validity has a record afterwards |
| InboundDb.AddSyncedKeeps | internal/inbound/bbolt.go:178-210 | Adding keeps index and records in agreement |
| InboundDb.RemoveSyncedKeeps | internal/inbound/bbolt.go:419-456 | Removing keeps index and records in agreement |
| InboundDb.RemovedMessageReAdds | internal/inbound/bbolt.go:419-456 | A removed message that returns is stored again under a fresh id |
| InboundDb.StampKeepsKnownEntries | internal/inbound/bbolt.go:566-592 | Stamping keeps every entry of nonzero validity pointing at its record |
| InboundDb.StampBreaksAgreement | internal/inbound/bbolt.go:566-592 | Stamping keeps full agreement exactly when it changes nothing or the record is not a synced one |
| InboundDb.RekeyKeepsAgreementIff | internal/inbound/bbolt.go:463-514 | Rekeying keeps agreement exactly when no two synced records share a coordinate |
| InboundDb.RekeyIsIdempotent | internal/inbound/bbolt.go:458-514 | A second rekey changes nothing, and none needs moving after the first |
| InboundStore.ListedIsScope | internal/inbound/bbolt.go:362-388 | A listing holds exactly the records of its owner and inbox, once each, in id order |
| InboundStore.Store.AddSynced | internal/inbound/bbolt.go:178-210 | Failure leaves the database as it was; success is the add transaction, with the body written under the new id first |
| InboundStore.Store.SetContent | internal/inbound/bbolt.go:222-249 | The body is written before the record refers to it, and only for a record in scope |
| InboundStore.Store.RemoveSynced | internal/inbound/bbolt.go:419-456 | Record and entry go together; the body after them, and only if the record had one |
| InboundStore.Store.StampUidValidity | internal/inbound/bbolt.go:566-592 | Fills an unknown validity, keeps a known one, and reports the one now stored |
| InboundStore.Store.RekeyOwnersToInbox | internal/inbound/bbolt.go:463-514 | Collect-then-move equals moving in id order, and the count is the number moved |
| BlobStore.BlobDir.Put | internal/blobstore/blobstore.go:41-67 | The final file appears exactly when the rename happened, whatever fails after it, and no temporary file is left |
| BlobStore.BlobDir.SweepOrphans | internal/blobstore/blobstore.go:97-117 | Deletes exactly the final files no live id claims and counts them; temporary files and subdirectories stay |
| TwoTier.NoDanglingBody | internal/inbound/bbolt.go:222-336 | In every run, crashes at any step included, a committed record that refers to a body has it |
| TwoTier.CommittedBodyIsItsOwn | internal/inbound/bbolt.go:297-336 | From any reachable state, a commit makes visible a present record whose body is the one that transaction wrote |
| TwoTier.LateDeleteHitsNothingLive | internal/inbound/bbolt.go:419-456 | A blob delete that comes after its removal names no record then or later, because ids are not reused after a removal |
| TwoTier.OpeningSweepsExactlyOrphans | internal/inbound/bbolt.go:101-123 | However often opening is interrupted, it ends with exactly the unreferenced final files deleted |
| TwoTier.StepKeeps | internal/inbound/bbolt.go:297-336 | Every step keeps the tiers consistent and never brings an old id back |
| SeqKey.DecodeEncode | internal/seqkey/seqkey.go:10-24 | Decoding inverts encoding for every 64-bit number |
| SeqKey.KeyOrderIsSequenceOrder | internal/seqkey/seqkey.go:10-24 | Keys compare byte by byte as their numbers do |
| Approver.ChainApprovesIff | internal/approver/approver.go:88-130 | A chain approves exactly when it has a stage and every stage passes the body it is shown, earlier edits included, and releases the last edited body |
| Approver.ChainRejectsIff | internal/approver/approver.go:88-130 | A message is rejected with a reason exactly when the first stage that does not pass it rejects it with that reason |
| Approver.Run | internal/approver/approver.go:88-130 | The loop over stages computes that chain |
| Approver.AllMatch | internal/opidentity/opidentity.go:151-164 | Matches exactly a non-empty recipient list all of whose addresses are operator identities, giving their canonical forms in order |
| Smtp.ReportIsHonest | internal/backend/smtp.go:60-73 | Success is reported only when the server took the message, failure only when it did not, unknown exactly when the last reply was lost, and then either is possible (RFC 5321, section 4.1.1.4) |
| Smtp.PermanentIff | internal/backend/smtp.go:60-73 | A report is permanent exactly when the step that failed first, or the last reply, is a permanent refusal and the context had not ended |
| Smtp.Transact | internal/backend/smtp.go:127-155 | The stepwise transaction reports the first failing step, or the last reply |
| Smtp.Send | internal/backend/smtp.go:52-110 | The whole send reports the same, with an ended context turning failures, but never an unknown outcome, into an abort |
| Sluice.EveryTransactionKeeps | internal/sluice/bbolt.go:291-382 | Every transaction keeps: a claim implies approved with a recorded failure, sent carries neither failure nor claim, pending and rejected carry neither |
| Sluice.ClaimGrantedIff | internal/sluice/bbolt.go:358-382 | A re-send is claimed exactly on an approved, failed, unclaimed message, an unknown outcome needing the acknowledgement; each refusal has its own exact cause |
| Sluice.VerdictTakenIff | internal/sluice/bbolt.go:260-289 | A verdict is taken exactly on a pending message, with decider, reason, retryability and released body recorded |
| Sluice.AttemptRecordedIff | internal/sluice/bbolt.go:300-329 | An attempt is recorded exactly on an approved message, or as a success again on a sent one, with the text of its outcome and no claim |
| Sluice.VerdictOnlyOnce | internal/sluice/bbolt.go:388-411 | After any history a decided message refuses every further verdict and keeps its decider |
| Sluice.SentIsTerminal | internal/sluice/bbolt.go:291-333 | After any history a sent message is unchanged and refuses failures, claims and verdicts |
| Sluice.SentOnlyByRecordedSuccess | internal/sluice/bbolt.go:300-321 | After any history a message is sent only if somewhere in it a success was recorded on it while it was approved |
| Sluice.ClaimHoldsUntilRecorded | internal/sluice/bbolt.go:358-382 | A granted claim refuses every other through any history, until an outcome is recorded, which gives it back |
| Sluice.InterruptedNeedsAck | internal/sluice/bbolt.go:92-129 | After the claims are settled at open, a message that had one is claimed again exactly with an acknowledgement |
| SluiceStore.Queue.Open | internal/sluice/bbolt.go:71-129 | Opening sweeps orphaned bodies and turns every claim left into an unknown outcome |
| SluiceStore.Queue.RecordSendAttempt | internal/sluice/bbolt.go:291-333 | The recorded text, status and released claim for each outcome, and refusal of anything but approved, or sent again |
| SluiceStore.Queue.ClaimResend | internal/sluice/bbolt.go:358-382 | Granted exactly on an approved, failed, unclaimed record, with the acknowledgement where the outcome is unknown; only the claim changes |
| AdminService.Service.Approve | internal/admin/service.go:634-790 | Stage by stage: all pass, and the record carries the last stage's name, the released body and the outcome of the one send; the first stage that does not pass rejects, and its name, reason and retryability are recorded; or it holds, fails or answers something unknown, and nothing changes; each with its answer |
| AdminService.Service.ReSend | internal/admin/service.go:937-1000 | Carried out exactly when the record is approved, failed and unclaimed and an unknown outcome is acknowledged: one send, its outcome recorded, the claim given back; otherwise refused without a copy leaving |
| AdminService.Service.Enqueue | cmd/darbaan/main.go:325-341 | Trapped first; released at once, under the bypass as decider and with the outcome recorded, exactly when every recipient is an operator identity; all other messages untouched |
| OutboundSafety.AtMostOneCopyPlusAcks | internal/admin/service.go:937-980 | In every run with concurrent approvals, re-sends, lost replies, unrecorded outcomes and crashes, the server takes at most one copy more than the re-sends that were acknowledged over an unknown outcome |
| OutboundSafety.AtMostOneCopy | internal/sluice/bbolt.go:358-382 | While no claim is acknowledged no message is taken twice |
| OutboundSafety.LostReplyIsUnknown | internal/backend/smtp.go:127-155 | From any reachable send, a lost last reply is recorded as unknown whether or not the server took the message |
| OutboundSafety.OnlyAnAckAddsACopy | internal/sluice/bbolt.go:358-382 | From any reachable unknown outcome a further copy is taken exactly if the re-send is acknowledged, and the bound is met |
| OutboundSafety.DefiniteFailureIsResendable | internal/sluice/bbolt.go:358-382 | From any reachable state a definite failure is sent again with or without an acknowledgement, and counts as no acknowledged risk |
| OutboundSafety.SentMeansTaken | internal/sluice/bbolt.go:300-321 | In every run a message is marked sent only if the server has taken it |
| OutboundSafety.NothingLeavesUnlicensed | internal/admin/service.go:832-863 | In every run, whatever is about to be sent or was taken was approved by a non-empty chain that passed it, or because its non-empty recipient list is all operator identities |
| OutboundSafety.ClaimHasOneOwner | internal/sluice/bbolt.go:92-129 | In every run a claim belongs to an approved failed message and at most one live re-send |
| OutboundSafety.EveryCopyIsTheApprovedBodyIff | internal/backend/smtp.go:101-106 | In every run each copy the server took is the body the chain passed, edits included, exactly when that body is not empty or the original is empty too; after an edit to nothing it is the original |
| OutboundSafety.EmptyEditSendsOriginal | internal/sluice/bbolt.go:260-274 | A run in which a chain passes an empty body and the original is sent |
| OutboundTiers.EveryRecordHasItsBody | internal/sluice/bbolt.go:170-200 | In every run, crashes at any step included, each outbound record's body is on disk as it was submitted |
| OutboundTiers.SubmissionIsKept | internal/sluice/bbolt.go:71-200 | A committed submission and its body survive every continuation, sweeps, crashes and settled claims included |
| JsonText.TextReadsBack | internal/audit/bbolt.go:65-76 | Reading a text that was written as JSON gives it back with every byte that is not valid UTF-8 replaced, and stops at its closing quote |
| AuditPayload.PayloadReadsBack | internal/audit/bbolt.go:190-207 | The same for the whole hashed record, its optional members included, so its text pins it down up to such bytes |
| AuditPayload.RewrittenSameIff | internal/audit/bbolt.go:190-207 | A record read back is written as it first was exactly when all its texts were valid UTF-8 |
| Audit.AppendKeepsIntactIff | internal/audit/bbolt.go:45-76 | A log from which nothing was deleted verifies after one more append exactly when it did before and the new payload hashes as what it reads back as does |
| AuditEntries.EntryCodecIsFaithful | internal/audit/bbolt.go:190-207 | The JSON encoding has the properties the chain results ask of an encoding |
| AuditEntries.AppendedLogVerifiesIff | internal/audit/bbolt.go:45-132 | A log that appending alone made passes verification exactly when every text in it was valid UTF-8, unless the hash collides between an entry's text and its text read back |
| AuditEntries.StrayReplyFailsVerify | internal/sluice/bbolt.go:343-354 | One failed send whose detail holds such a byte makes the log fail |
| Audit.HeadHashPinsTheLog | internal/audit/bbolt.go:190-207 | Two verified logs with the same last hash are equal row by row, unless two of their own hashed texts collide |
| Audit.DeletionIsEvident | internal/audit/bbolt.go:89-129 | Delete any rows, keep the counter, append anything: verification fails ever after |
| Audit.PageIsSlice | internal/audit/bbolt.go:140-168 | On a log whose rows carry their numbers a page is the slice of entries after the given number |
| Audit.AllOnesStartsOver | internal/audit/bbolt.go:140-168 | The all-ones position wraps and its page starts over from the first entry |
| AuditLog.BoltLog.Append | internal/audit/bbolt.go:45-76 | One linked row under the next number, hashed as given and stored as it reads back; an intact log stays intact exactly when the two hash alike |
| AuditLog.BoltLog.Verify | internal/audit/bbolt.go:82-132 | The walk accepts exactly the intact logs |
| AuditLog.BoltLog.Page | internal/audit/bbolt.go:140-168 | Seek and collect give the page |
| AuditLog.AuditList | internal/admin/service.go:572-614 | One call over a growing log returns the matching entries of a stretch, at most the capped limit, with the place to resume or the news that the log is exhausted |
| AuditLog.FollowAll | internal/admin/service.go:572-614 | Following the resume position with any positive limits ends, and yields each matching entry once and in order, whatever is appended meanwhile |
| Windows.SplitWindows | internal/assessor/classifier.go:569-585 | The loop gives the windows of the specification |
| Windows.SplitCovers | internal/assessor/classifier.go:566-585 | Every run of at most the overlap lies whole in one window |
| Windows.SplitIsIdleIff | internal/assessor/classifier.go:358-371 | A split gives back the same window exactly when half the overlap reaches half the window, and two halves otherwise |
| Windows.ClassifyTexts | internal/assessor/classifier.go:330-380 | On success every run of at most half the overlap of every text was read whole in one window, the result is computed from exactly the windows read whole, and no more calls than the limit are made; each failure has its cause, and a classifier that reads every window whole within the limit gives a result |
| Windows.BestIsMaximum | internal/assessor/classifier.go:373-378 | The result is, per label, the greatest confidence among those readings |
| MailText.WalkExact | internal/mailtext/mailtext.go:163-282 | From clear flags the walk of a tree leaves them clear exactly when the tree is clean and within every limit, and then it added all of the tree's text and attachments |
| MailText.UnflaggedIsWhole | internal/mailtext/mailtext.go:123-150 | An extraction has neither flag exactly when the message is clean and within the limits; it is then the unlimited one, and in every case its text stays within the total |
| MailFlags.FlagsExact | internal/mailtext/mailtext.go:163-330 | Truncated exactly when the walk met a cap (depth, parts, a body's own, or the total); undecodable exactly when it met a decode warning, a body that fails before its cap, a broken part stream or an unparsable message |
| MailWalk.WalkState.Walk | internal/mailtext/mailtext.go:163-195 | The recursive descent with mutable state computes that walk and keeps the body joined from its parts |
| MailWalk.WalkState.BudgetText | internal/mailtext/mailtext.go:303-316 | Cuts text to the remaining budget, counts it and flags a cut |
| MailWalk.Extract | internal/mailtext/mailtext.go:123-150 | Fails exactly on an unreadable message, otherwise returns the walk from the root |
| Screener.Screen | internal/screener/screener.go:112-153 | Cheap terms, extraction, detection and caps, in that order, give the screening function |
| Screener.AgentHandledIff | internal/screener/screener.go:112-168 | A message is agent-handled exactly when it was extracted with neither flag, the detectors answered, and the total stays below the threshold |
| Screener.TotalIs | internal/riskscore/score.go:122-189 | The total is the baseline configured for the trust, or for unknown, the recipient's adjustment and each factor's points, repeats counted and unlisted keys adding nothing, at most a hundred |
| Screener.ScoreDecides | internal/screener/screener.go:112-153 | An assessed message is agent-handled exactly when it has neither flag and these terms stay below the threshold; they are its score |
| Screener.FactorHolds | internal/riskscore/score.go:162-189 | One flagged factor whose points reach the threshold holds the message, whoever sent it and whatever else was flagged |
| Screener.CheapTermsHold | internal/screener/screener.go:112-117 | Baseline and adjustment that reach the threshold hold the message before its content is looked at |
| Screener.NothingUnassessedPasses | internal/screener/screener.go:155-168 | A message the agent handles was shown to the detectors with every text part at every depth whole and decoded, and their answer to that content is all that decided it |
| Screener.Compose | internal/riskscore/score.go:162-189 | Held exactly when the cheap score and the points of each factor reach the threshold, short-circuit included |
| Screener.MoreFactorsNeverClear | internal/riskscore/score.go:141-189 | More factors never lower the score, and a hold on the cheap terms alone agrees with the full score |
| Rewriting.RewriteIsSafe | internal/assessor/fence.go:46-62 | One pass leaves no match in the folded text, a second changes nothing, and a text is unchanged exactly when it hid none |
| Rewriting.BeforeMatchesIsKept | internal/assessor/fence.go:46-62 | What stands before the first match is kept rune for rune, and what follows is rewritten on its own |
| RewritingPass.RewriteMatches | internal/assessor/fence.go:46-98 | Fold, match and splice through the rune index equals rewriting rune by rune, every rune outside a match kept |
| Fence.NeutralizedIsSafe | internal/assessor/fence.go:36-62 | The same for the fence's markers, in any case and through any fold that is the identity on ASCII and yields an opening bracket only first |
| Fence.BeginSpoofIsDefused | internal/assessor/fence.go:36-62 | A plainly spelled begin marker after text without an opening bracket has its space replaced, and nothing else is touched |
| Fence.EndSpoofIsDefused | internal/assessor/fence.go:36-62 | The same for an end marker |
| Fence.NeutralizeMarkers | internal/assessor/fence.go:46-62 | The code's pass computes the neutralized text |
| Fence.FenceText | internal/assessor/fence.go:28-33 | The frame of the sanitized label around the neutralized text |
| Fence.FenceIsUnbroken | internal/assessor/fence.go:28-33 | A fenced text shows the matcher exactly two markers, its own, whatever the payload, for a label that folds to no bracket |
| Banner.MarkerMeans | internal/provenance/banner.go:179-208 | A marker is matched at the start of a text exactly when that stretch, its invisible runes left out, spells it in any case, and begins and ends visibly |
| Banner.NoMarkerMeans | internal/provenance/banner.go:179-208 | A text holds no marker exactly when no stretch of it is such a disguise |
| Banner.OnlyMarkersChange | internal/provenance/banner.go:226-264 | A marker in any disguise among other text is all that changes: what stands before it is kept, and what follows is treated on its own |
| BannerBlock.OneRoundSuffices | internal/provenance/banner.go:249-264 | One round leaves no marker of either kind, invisible runes and case included, and a second changes nothing |
| BannerBlock.DisguisedBeginIsDefanged | internal/provenance/banner.go:249-264 | A begin marker in any disguise is written over as a whole, and what follows it is treated on its own |
| BannerBlock.SplitBeginIsDefanged | internal/provenance/banner.go:179-208 | So is one split anywhere by zero width spaces |
| BannerBlock.NeutralizeBanners | internal/provenance/banner.go:249-264 | The fixpoint loop ends within two rounds, so its panic is unreachable |
| BannerApply.StripInvertsApply | internal/provenance/banner.go:157-177 | Stripping a bannered body gives back the body when the banner's own fields carry no end marker |
| BannerApply.SecondBannerReplacesFirstIff | internal/provenance/banner.go:125-139 | A second banner replaces the first exactly when the first one's trust and header-safe note carry no end marker |
| BannerApply.EndInNoteStays | internal/provenance/banner.go:141-177 | With the end marker as its note, a first banner is not replaced |
| BannerApply.BodyHoldsNoMarker | internal/provenance/banner.go:125-139 | Under an applied banner no live marker is left |
| BannerApply.StripIsExact | internal/provenance/banner.go:157-177 | A body that does not open with the begin line, or holds no end line, is stripped to itself, and any other to what follows its first end line and one blank line |
| BannerApply.FirstBannerKeepsBody | internal/provenance/banner.go:125-139 | A body without any marker stands under the banner character for character |
| BannerApply.BlockShows | internal/provenance/banner.go:141-155 | The block opens with the begin line and carries the trust, and the note when there is one |
| BannerApply.ApplyBanner | internal/provenance/banner.go:125-155 | Strip, neutralize, prepend; a body without any marker is kept whole under the block |
| Evidence.StrippedIsFiltered | internal/assessor/heuristic.go:108-127 | Stripping drops exactly the ignorable runes |
| Evidence.ScopedSegments | internal/assessor/evidence.go:67-98 | The scoped text is what detection reads, stripped; the segments cut it into the stripped body and the stripped text of each attachment that has some, in order, each under its filename or number, separated by single line breaks |
| Evidence.TextForScope | internal/assessor/heuristic.go:154-181 | The text of a scope is its non-empty texts joined by line breaks |
| Spans.Detect | internal/assessor/heuristic.go:80-97 | Reports exactly the factors of the rules that match |
| Spans.HitsMean | internal/assessor/evidence.go:102-115 | The matches shown start, in ascending order, exactly where some pattern matches; where several do, the first pattern's first match is shown |
| Spans.ShowFirst | internal/assessor/evidence.go:115-123 | The first three are shown, each with its snippet under the source found for it, exactly when the slice of each exists |
| Spans.CollectSpans | internal/assessor/evidence.go:102-123 | The same for the matches of the patterns |
| Spans.EvidenceOf | internal/assessor/evidence.go:42-55 | A rule's evidence is shown exactly when the slice of each of its first three matches exists, always when no match starts between two sources, and then has a span if the rule fires |
| Spans.ContextStaysInSegment | internal/assessor/evidence.go:145-170 | A short match is shown whole and its context never leaves its own source |
| Spans.SnippetIsMatchInContext | internal/assessor/evidence.go:145-190 | A match inside its source is shown whole with up to forty runes of that source on each side, within two hundred in all, and ellipses where text goes on; a longer one by its first 199 runes |
| Spans.OnlyBreaksAreStray | internal/assessor/evidence.go:67-98 | Every position that is not a line break lies in some source |
| Spans.ServedIff | internal/assessor/evidence.go:127-170 | The slice for a match exists exactly when the match is long, starts in some source, or the last source begins no later than the context behind the match ends |
| Spans.BreakBetweenSourcesFails | internal/assessor/evidence.go:102-170 | For a one-letter body, an attachment of a hundred letters and a short one, the first match of a line break has no slice |

## Left out

- SyncSafety.NoMailIsLost: holds for calm runs, those in which no pass lists the store between a mailbox reset and its own next snapshot while a pending record of the new validity exists; SyncSafety.ListingPicksLiveMailIff shows that this is exactly where it fails.
- Syncer.Syncer.Sync: what the mailbox answers comes in as parameters; keyword and label replication after the cursor is saved is not part of the model.
- Stamping an unknown validity: the check of the server's validity against the cursor and of the Message-ID is reduced to "the UID has been assigned in this session"; the model therefore allows more stamps than the code does.
- The recency search is exact to the clock here; the server's SEARCH SINCE works by day, which only finds more.
- The cap fraction is a real number, so rounding of the product is not modelled.
- Other fields of inbound records (sender, subject, keywords, assessment, hold decision) and the operations on them, which do not touch what is proved.
- AdminService.Service.Approve: approving under another inbox's identity, bounces and audit rows of the outbound operations are not modelled.
- Sender rewriting, DKIM signing and the configuration of senders; a missing sender is a failure that sends nothing.
- Audit.HeadHashPinsTheLog: the hash is a parameter, assumed only to give digests of fixed width; log numbers stay below 2 to the 64.
- JsonText.TextReadsBack: halves of surrogate pairs, which the encoder never writes, are not read; AuditPayload.ReadPayload reads members in the order in which they are written.
- Windows.ClassifyTexts: what the classifier answers is a function of the call and its text; URL placeholders, duplicate texts and thresholds are not modelled.
- MailText.WalkExact: MIME parsing, transfer and charset decoding and HTML flattening are parameters; part sizes count characters, and the outer trimming of the joined body is not modelled.
- Fence.NeutralizedIsSafe: the NFKC and lookalike tables are a parameter; text is a sequence of runes, so bytes that are not valid UTF-8 are not told apart.
- Fence.FenceIsUnbroken: the label is the caller's fixed text and is taken to fold to no bracket; its sanitizing replaces only the ASCII ones.
- BannerApply.ApplyBanner: transfer encodings of the body, and the choice of bodies that get a banner, are not modelled; the class of invisible runes is a parameter that holds no ASCII rune and not the long s.
- Spans.EvidenceOf: patterns are functions from a text to their matches; regular expressions themselves are not modelled.
- Network protocols, the admin API, the CLI, configuration, logging, telemetry and the Telegram client: plumbing around these parts.
- Filter rules, agent grants, inbox routing, score bands and keyword sets: simple next to what is here.
