# sooqa: verified models

sooqa is a durable media pipeline: a browser userscript submits media through a local companion, an
inbox stores each submission as a versioned envelope, workers download, probe, adapt and store it, and
a publisher posts it to Telegram. This project models the protocols and codecs in which that pipeline
can go wrong, and proves what they promise for every input and every run.

| file | what it models |
|---|---|
| `Adaptation.dfy` | bounded video adaptation: remux, constant quality, two-pass or ladder, one fallback, one winner, a guard that owns every candidate file |
| `FilePublication.dfy` | hard-link publication without overwriting, under every interleaving of publishers |
| `FencedSend.dfy` | the Telegram send under a publication lease: crashes, lost leases, ambiguous errors, reconciliation |
| `WorkerLoop.dfy` | the polling worker: claim, heartbeat, handler, shutdown, settlement |
| `Serde.dfy`, `Envelope.dfy`, `IngestStatus.dfy` | the ingest envelope with its legacy upgrade, and the status relation |
| `SubmitMachine.dfy` | the userscript's action panel and its accepted history |
| `Limiter.dfy`, `CompanionIntake.dfy` | the companion's rate limiter and its validation against the inbox's |
| `Avcc.dfy`, `Hexdump.dfy`, `CodecMime.dfy` | the avcC record (section 5.3.3.1 of ISO/IEC 14496-15), its hexdump, and the codec declaration |
| `Ranking.dfy` | the ranking of duplicate videos |
| `DiskAdmission.dfy` | admission of large operations against free disk space |
| `Classifiers.dfy` | the two media classifiers, over a probe and over its stored JSON |
| `NumericText.dfy`, `Text.dfy`, `Prelude.dfy` | digests and durations as text, and shared vocabulary |

Where the source updates things in place the model is a class or a method with loops, proved against a
function of its inputs or against a property stated outright. The two protocols whose subject is
interleaving (`FilePublication`, `FencedSend`) are a step function over a value state, on which the
safety theorems are proved by induction over runs; the code itself is then a class whose methods make
those steps one by one, with the steps of everybody else in between, and is proved to be a run of the
machine that ends with the result it returns.

Everything outside a component is an arbitrary input: encoder results and sizes, system calls and
whether they fail, database answers (including errors after a commit), Telegram's answers, clocks, the
order of races, URL and RFC 3339 parsing, the alignment of video fingerprints, and the serialized size
of a JSON value. Digests stand for the content they are taken of.

What the protocol models assume is written into them: a publication is claimed only from `queued` and
at the expected revision, its writes are fenced by generation and token, only a retry requeues, and
reconciliation only ever fences; an error that the handler does not treat as ambiguous means that the
request had no effect; temporary and candidate names, send tokens and action identifiers are fresh.

Five results are about where a property stops:

* The saturating admission chain is exact when a reserve is kept or the demand fits 64 bits; with no
  reserve and a larger demand it admits on a full 64-bit measurement (`DiskAdmission.ChainExactly`). The
  configuration refuses a zero reserve (crates/config/src/lib.rs).
* Operations of one byte bound are safe together; of mixed sizes they are not, and a start is safe for every
  measurement exactly when the other shares of its budget cover what the others may still write, when no
  measurement can admit it, or in the saturated cases that `DiskAdmission.Affordable` spells out
  (`DiskAdmission.SafeExactly`, `DiskAdmission.MixedSizesAreNotSafe`).
* A derived codec string that is fed back is confirmed exactly when the codec tag has no point of its
  own (`CodecMime.DerivedIsStable`); `avc1` and `avc3` have none.
* The status relation lets a retry go straight to storing or fingerprinting. No stage is skipped exactly
  when each such retry comes after normalizing (`IngestStatus.NothingIsSkippedExactly`).
* The panel's sending flag means that a request is in flight, unless reading the token throws: the flag is
  set before the read and nothing resets it, so the panel then ignores everything for good
  (`SubmitMachine.StuckExactly`, `SubmitMachine.StuckStays`).

## Model

| member | source | states |
|---|---|---|
| `Adaptation.VideoCandidateSet.Run` | apps/worker/src/normalization.rs:441-571 | over every encoder, ladder, two-pass offer, failure and rival worker: the recorded moments run from the start to the end one effect at a time and show every candidate produced; at every moment each candidate on disk is guarded and, when removals succeed, at most two exist; nothing the guard can remove is left; the destination is never replaced, whoever links it and whenever; a finished run fails with the storage error exactly when every candidate was too large and reports the largest; however a run ends, nothing is encoded after the first candidate within target and limit, and a finished run publishes that one; a finished run with no such candidate has made the remux, if there is one, and then two encodes where two-pass is offered or one for every rung of the ladder, and publishes the first that fits the storage, or the two-pass result where that is smaller; it was planned, logged and cleaned up without a failure; every other outcome is traced to an answer the run itself received at that point (the encode, plan, pass logs, removal or publication that failed or was interrupted, missing video or dimensions, or other content at the destination), so a run whose own calls work finishes or was beaten to the destination |
| `Adaptation.VideoCandidateSet.Adapt` | apps/worker/src/normalization.rs:450-570 | the phases in order, each leaving the invariant and the verdict about everything produced |
| `Adaptation.VideoCandidateSet.Consider` | apps/worker/src/normalization.rs:359-394 | which result is selected, in terms of all earlier results; the fallback is always the first result that fits the storage, and a rejected file is removed |
| `Adaptation.VideoCandidateSet.RemoveCandidate` | apps/worker/src/normalization.rs:613-625 | a name is given up only once its file is gone, whatever the removal does, and the run is dropped only by an interrupted removal |
| `Adaptation.VideoCandidateSet.Publish` | apps/worker/src/normalization.rs:627-653 | another worker may link the destination at any moment; the run links it only where nothing is, publishes only with working I/O, fails exactly on broken I/O or other content there, is dropped only by an interrupted publication or removal, and a published run leaves no candidate when removals succeed |
| `Adaptation.DestinationStays` | apps/worker/src/normalization.rs:453-457 | in no history of effects is a destination replaced, whoever linked it |
| `Adaptation.VideoCandidateSet.PublishFallback` | apps/worker/src/normalization.rs:396-403 | with nothing selected, the fallback is the winner; with no fallback, the largest oversized result is reported |
| `Adaptation.VideoCandidateSet.TryTwoPass` | apps/worker/src/normalization.rs:509-536 | the two-pass result replaces the ladder and beats the fallback only when it is smaller |
| `Adaptation.VideoCandidateSet.TryLadder` | apps/worker/src/normalization.rs:542-559 | the rungs below the first are tried one by one until one is within the target |
| `Adaptation.VideoCandidateSet.NextPath` | apps/worker/src/normalization.rs:348-353 | a name is guarded before anything is written to it |
| `Adaptation.VideoCandidateSet.DropGuard` | apps/worker/src/normalization.rs:307-315 | the destructor removes every guarded file that can be removed, and only those |
| `Adaptation.Forget` | apps/worker/src/normalization.rs:302-304 | exactly the given name leaves the guard |
| `Adaptation.WinnerMeaning` | apps/worker/src/normalization.rs:364-393 | the reference winner in plain terms: none exactly when nothing fits, a preferred result always, always within the limit |
| `Adaptation.WholeSchedule` | apps/worker/src/normalization.rs:509-570 | with nothing within the target, every candidate of the schedule is made, counted in remux, two-pass and rungs, and the winner is the first that fits or a smaller two-pass result |
| `Adaptation.FirstFittingMeaning` | apps/worker/src/normalization.rs:385-392 | the fallback is the first result within the storage limit |
| `Adaptation.LargestOversizedMeaning` | apps/worker/src/normalization.rs:380-383 | the reported size is the maximum of the results above the limit |
| `FilePublication.StepKeeps` | crates/media/src/publication.rs:120-164 | every single system call of any publisher, a link that goes through after its publisher was dropped included, keeps the invariant and leaves an existing destination alone |
| `FilePublication.RunKeeps` | crates/media/src/publication.rs:120-164 | the same for every interleaving |
| `FilePublication.DestinationIsFixed` | crates/media/src/publication.rs:141-149 | once the destination exists, no continuation changes its content or who created it |
| `FilePublication.ResultsAgreeWithDestination` | crates/media/src/publication.rs:152-164 | at the end of every run, a publisher that returned Ok has the destination's content, one that returned a conflict has different content, and at most one created it |
| `FilePublication.DestinationOrigin` | crates/media/src/publication.rs:141-142 | the destination holds what its first linker wrote, or what was there before |
| `FilePublication.Workspace.PublishOrReuse` | crates/media/src/publication.rs:120-149 | the code, with arbitrary calls of others between its own, is a run of the machine that ends with the returned result; an invalid workspace is reported exactly when the checks fail, an I/O error only when one of its calls failed, any other result only when none of the calls it takes did, and then the destination and its creator alone decide between published, reused, conflict and not a regular file |
| `FilePublication.Workspace.CompareOrConflict` | crates/media/src/publication.rs:152-164 | the comparison against an existing destination ends in the machine's verdict exactly when none of the calls it takes failed |
| `FilePublication.ResultIsVerdict` | crates/media/src/publication.rs:152-164 | every result other than a failed call or an invalid workspace is the one the destination's content, kind and creator call for |
| `FilePublication.Workspace.HardLink` | crates/media/src/publication.rs:141-148 | the link is made exactly where nothing was and shares the temporary's content; an existing destination is left as it was |
| `FilePublication.TempArtifact.Remove` | crates/media/src/publication.rs:64-69 | the guard gives up its name exactly when the call removed the file, and the destination survives the removal |
| `FilePublication.TempArtifact.Dispose` | crates/media/src/publication.rs:72-78 | dropping the guard at any stage removes the temporary if that is possible, and the destination survives |
| `FencedSend.AtMostOnce` | apps/worker/src/publication.rs:61-188 | over every run of any number of handlers, crashes and retries at most one send per post takes effect, and a published post records exactly that message |
| `FencedSend.RequeueMeansNothingWasSent` | apps/worker/src/publication.rs:206-258 | a step takes a post out of `sending` to a state it can be sent from only when no request under that claim took effect or still can |
| `FencedSend.LandedStaysFenced` | apps/worker/src/publication.rs:163-188 | after a message landed, no continuation makes the post sendable again or lands another |
| `FencedSend.TerminalStatesStay` | crates/persistence/src/publisher.rs:982-1168 | once published, unknown or cancelled, a post never changes again in any run |
| `FencedSend.OnlyTheHolderWrites` | crates/persistence/src/publisher.rs:1017-1141 | apart from claiming and reconciling, a handler changes the post only while it holds the lease |
| `FencedSend.UndisturbedDelivery` | apps/worker/src/publication.rs:61-188 | an undisturbed invocation on a queued post delivers one message and publishes the post with it |
| `FencedSend.StepKeeps` | apps/worker/src/publication.rs:61-276 | every step of every actor keeps the invariant that ties handler stages to requests and to the post |
| `FencedSend.RunKeeps` | apps/worker/src/publication.rs:61-276 | the same for every run |
| `FencedSend.ClaimKeeps` | crates/persistence/src/publisher.rs:982-1015 | a claim, also one whose commit is reported as an error, leaves at most one handler engaged |
| `FencedSend.ReconcileKeeps` | crates/persistence/src/publisher.rs:1143-1168 | reconciliation keeps the invariant, and all it can do to the post is fence an interrupted send as unknown |
| `FencedSend.CompleteKeeps` | crates/persistence/src/publisher.rs:1017-1060 | completion keeps the invariant, and only the holder of the lease publishes, with the one message that landed |
| `FencedSend.SettleKeeps` | crates/persistence/src/publisher.rs:1062-1141 | retry and fail keep the invariant, act only under the lease, make a post sendable only when no request had or can have an effect, and only a retry requeues |
| `FencedSend.Publication.PublishPost` | apps/worker/src/publication.rs:61-188 | the handler, with arbitrary steps of everyone else between its own, goes step by step where the machine driven by those surroundings goes and returns the result that machine ends with, with at most one message landed; with nobody in the way, every receipt, every answer of Telegram and every reply of the database decides the post and the result: a missing or invalid receipt fails the post, a failed lookup and an error without effect requeue it while attempts are left, a caption error fails it, an ambiguous one leaves it unknown, any other fails it, an unavailable copy is sent as a file if there is one, a landed message is published, and a refused, lost or failed claim leaves the post to others, fencing only one that is being sent |
| `FencedSend.Publication.SendFound` | apps/worker/src/publication.rs:135-188 | copy, fallback send, completion and their error branches end where the driven machine ends; with nobody in the way, the answers decide how, as above |
| `FencedSend.Publication.SettleLease` | apps/worker/src/publication.rs:206-276 | Done exactly for a lost lease, whether reported or found, Retryable exactly for a post that was requeued, and Permanent for a database error and for every other settlement |
| `FencedSend.DrivenIsRun` | apps/worker/src/publication.rs:61-188 | the handler driven by its surroundings makes a run of the machine, so every safety theorem applies to it |
| `FencedSend.OneEnd` | apps/worker/src/publication.rs:61-188 | surroundings determine how an invocation ends: state, result and message |
| `FencedSend.UndisturbedEnds` | apps/worker/src/publication.rs:61-188 | how the driven invocation of a claimable post ends, for every receipt, every answer of Telegram and every reply of the database: the post's state, its message and the result |
| `FencedSend.UnclaimedEnd` | apps/worker/src/publication.rs:66-83 | how an invocation ends that gets no claim: lost lease, database error with or without a hidden commit, a post in sending, a stale or unqueued post, dependencies that are not ready |
| `FencedSend.RevisionsFence` | crates/persistence/src/publisher.rs:642-1168 | over every run a revision stands for one post, so whoever finds the revision it expects finds the post it expects |
| `FencedSend.ScheduleMakesClaimable` | crates/persistence/src/publisher.rs:674-735 | a scheduled post can be claimed at its new revision and at no earlier one |
| `FencedSend.EditFencesOldJobs` | crates/persistence/src/publisher.rs:622-672 | an edit changes only the revision, and nothing that expects an earlier revision can claim the post |
| `FencedSend.CancelIsFinal` | crates/persistence/src/publisher.rs:953-980 | a post that is cancelled before it is sent stays cancelled in every run, and nothing is ever sent for it |
| `FencedSend.TerminalJobIsSettled` | crates/persistence/src/publisher.rs:2145-2180 | settling a terminal job leaves no send under way and nothing for that job to claim, and touches no other post |
| `WorkerLoop.Worker.RunLoop` | apps/worker/src/runner.rs:97-173 | over every script of polls: exactly the polls that must be made are made, the loop stops exactly on a shutdown and breaks exactly on a failed claim, heartbeat or settlement, and exactly the jobs handed out are claimed; each claim gets the one settlement call its race calls for and no other: a retry for a retryable failure that is neither deferred nor left to reconciliation, a deferral for a deferred one, each with the failure's own flag, a shutdown retry for an unheard shutdown, completion for a sound execution, and a failure for the rest; what becomes of the claim, and which counter it adds to, follows from that call, its acceptance and whether the job was requeued; claimed = succeeded + retried + failed + requeued at shutdown + deferred + left for reconciliation + aborted, and at most one is aborted |
| `WorkerLoop.PolledOnce` | apps/worker/src/runner.rs:97-173 | a script determines how far the loop gets and how it ends |
| `WorkerLoop.Worker.ProcessJob` | apps/worker/src/runner.rs:116-169 | one claim is entered in the ledger with its one fate, and when the loop goes on |
| `WorkerLoop.Worker.RunHandler` | apps/worker/src/runner.rs:136-165 | each outcome of the race is settled once |
| `WorkerLoop.Worker.FinishJob` | apps/worker/src/runner.rs:267-352 | the settlement call is the one the handler's failure or success calls for, flag by flag, and exactly the counter that follows from it grows |
| `WorkerLoop.ExecuteHandler` | apps/worker/src/runner.rs:188-264 | what each race between handler, heartbeat and shutdown yields, and exactly when it is a worker error |
| `WorkerLoop.CompletionNeedsSoundness` | apps/worker/src/runner.rs:274-279 | completion is asked for exactly when a registered handler returned Ok, the heartbeat ended without error and no unheard shutdown came first |
| `WorkerLoop.ExpectedMeaning` | apps/worker/src/runner.rs:116-352 | each kind of settlement is asked for exactly under its own condition on the lease, the handler, the race and the failure |
| `WorkerLoop.LedgerIsRight` | apps/worker/src/runner.rs:116-352 | in every ledger the calls made for a claim, and what became of it, are those its execution calls for |
| `WorkerLoop.AfterMeaning` | apps/worker/src/runner.rs:97-173 | exactly which polls stop the loop and which break it |
| `WorkerLoop.LedgerMeaning` | apps/worker/src/runner.rs:97-173 | what the ledger says about a whole run |
| `WorkerLoop.Conservation` | apps/worker/src/runner.rs:97-173 | every claim meets exactly one fate |
| `Serde.FieldsRoundTrip` | crates/inbox/src/lib.rs:244-270 | a derived record codec reads back what it wrote, next to any other keys |
| `Serde.ValueRoundTrip` | crates/inbox/src/lib.rs:244-270 | the same for every kind of value, nested records included |
| `Serde.DecodesExactly` | crates/inbox/src/lib.rs:244-270 | decoding a value gives exactly what the JSON says of its kind, and fails exactly when it says nothing of it |
| `Serde.FieldsDecodeExactly` | crates/inbox/src/lib.rs:244-270 | the same field by field for a record: a missing key or null stands for the absent value exactly where the field may be absent |
| `Serde.DecodedFieldsFit` | crates/inbox/src/lib.rs:244-270 | whatever decodes has the declared types |
| `Serde.UnnamedEncode` | crates/inbox/src/lib.rs:100-150 | flattened extensions survive unchanged beside the named fields |
| `Envelope.RoundTrip` | crates/inbox/src/lib.rs:313-438 | decode(encode(d)) = d for every envelope that encodes, both extension maps included |
| `Envelope.UpgradeIsStable` | crates/inbox/src/lib.rs:313-438 | whatever decodes, of any age, encodes exactly when it fits the byte limit, and then decodes to itself |
| `Envelope.DecodedIsTyped` | crates/inbox/src/lib.rs:313-421 | whatever decodes is a well-typed valid envelope |
| `Envelope.LegacyExactly` | crates/inbox/src/lib.rs:341-509 | an early object decodes to an envelope exactly when it fits and says it: the source part in its three shapes, every stage that is there (and refused if it says nothing), an inspection filled in only where it must be, an object for a probe, version 1 for a decision, and the extensions |
| `Envelope.VersionedExactly` | crates/inbox/src/lib.rs:313-421 | a versioned object decodes to an envelope exactly when it fits and says it, key by key |
| `Envelope.WrittenSays` | crates/inbox/src/lib.rs:425-438 | what is written for an envelope says that envelope again, with no key for an absent stage |
| `Envelope.NamedKeysSurvive` | crates/inbox/src/lib.rs:341-400 | from an early object read to the object written, every stage key stays or stays away and says the same in both, and so do the named keys of the source |
| `Envelope.BareUrlIsKept` | crates/inbox/src/lib.rs:348-357 | a source that is a text is the URL |
| `Envelope.RefusalsAreTold` | crates/inbox/src/lib.rs:313-339 | exactly which objects are refused as too large, as no object, for an invalid and for an unsupported version |
| `Envelope.UnknownKeysSurvive` | crates/inbox/src/lib.rs:341-400 | from the legacy object read to the object written, every unknown key of a wrapped or unwrapped object survives with its value, in its place, and none is invented |
| `Envelope.VersionedUnknownKeysSurvive` | crates/inbox/src/lib.rs:313-339 | the same from a versioned object to the object written, for the envelope and for its source |
| `Envelope.WrittenKeepsExtensions` | crates/inbox/src/lib.rs:425-438 | what is written holds both extension maps, and outside the named keys nothing else |
| `Envelope.UpgradeLegacy` | crates/inbox/src/lib.rs:341-400 | the step-by-step upgrade accepts exactly the early objects that say an envelope, and gives that one |
| `Envelope.RemoveStages` | crates/inbox/src/lib.rs:364-377 | exactly the stage keys are removed |
| `Envelope.CollectExtensions` | crates/inbox/src/lib.rs:392-398 | exactly the keys that nothing names are kept |
| `Envelope.LegacyStageHasKind` | crates/inbox/src/lib.rs:440-509 | a legacy stage, the leniently read inspection included, is a value of its declared type |
| `Envelope.SourceIsWellFormed` | crates/inbox/src/lib.rs:40-79 | the reserved source keys are distinct |
| `Envelope.StagesAreWellFormed` | crates/inbox/src/lib.rs:25-38 | the reserved envelope keys are distinct from each other and from version and source |
| `IngestStatus.NothingIsSkippedExactly` | crates/inbox/src/lib.rs:721-758 | in a history nothing is fingerprinted, stored or completed that was not queued, downloaded, probed and normalized, exactly when every retry that goes straight back to storing or fingerprinting comes after normalizing |
| `IngestStatus.RetriesMaySkip` | crates/inbox/src/lib.rs:738-757 | the relation by itself allows a history in which a retry skips every stage |
| `IngestStatus.LateStagesAreEarned` | crates/inbox/src/lib.rs:738-757 | in such a history whatever is fingerprinted, pending, stored or completed was queued, downloaded, probed and normalized before |
| `IngestStatus.NeverStuck` | crates/inbox/src/lib.rs:721-757 | every history that is not terminal can still be completed without a further failure, can fail and be cancelled, and after a failure be retried from the queue, fingerprinting or storing |
| `IngestStatus.DetoursAreHistories` | crates/inbox/src/lib.rs:738-757 | the pipeline with each of its detours is a history |
| `IngestStatus.OnlyForward` | crates/inbox/src/lib.rs:738-757 | without a failure the pipeline goes back only from a pending duplicate to the queue or from storing to fingerprinting |
| `IngestStatus.TerminalStays` | crates/inbox/src/lib.rs:721-728 | a terminal status, once reached, never changes |
| `IngestStatus.Ingest.TransitionTo` | crates/inbox/src/lib.rs:1099-1105 | the status changes exactly when the relation allows it |
| `SubmitMachine.Panel.Run` | userscripts/sooqa-2ch-save.user.js:869-973 | over every sequence of clicks, form results and callbacks the panel sends, answers and records exactly what the step function says, with at most one request in flight, sending and collecting never overlapping, equal identifiers carrying equal payloads with no response between, buttons disabled exactly while sending or collecting, sending exactly while a request is in flight or after a token read that threw, and exactly the accepted responses recorded |
| `SubmitMachine.EveryRunIsSound` | userscripts/sooqa-2ch-save.user.js:869-973 | the step function keeps those laws over every sequence of events |
| `SubmitMachine.SendMeaning` | userscripts/sooqa-2ch-save.user.js:887-951 | whatever event sends a request, it repeats the kept attempt, which was never answered, or carries an identifier never used before; a click on the action of the kept attempt always repeats it |
| `SubmitMachine.FailureIsRetried` | userscripts/sooqa-2ch-save.user.js:917-968 | after any events, a request that failed is repeated, identifier and payload, by the next click on its action that can send, however many clicks on it found no token or no API in between |
| `SubmitMachine.PlainIsSent` | userscripts/sooqa-2ch-save.user.js:887-951 | a plain action clicked while nothing can be sent is sent later with the title of that first click, once, under an unused identifier |
| `SubmitMachine.PlainIsSentAtOnce` | userscripts/sooqa-2ch-save.user.js:887-951 | and at once where it can be sent |
| `SubmitMachine.FormIsSent` | userscripts/sooqa-2ch-save.user.js:891-951 | a filled form sends the clicked action with exactly that metadata under an unused identifier, whatever is clicked while it is open |
| `SubmitMachine.FormIsDropped` | userscripts/sooqa-2ch-save.user.js:891-914 | a form that is not filled sends nothing and leaves no attempt |
| `SubmitMachine.AnswerEndsAttempt` | userscripts/sooqa-2ch-save.user.js:937-972 | while a request is out only its answer counts; the answer is recorded if it accepts, and the attempt is over |
| `SubmitMachine.StuckExactly` | userscripts/sooqa-2ch-save.user.js:917-923 | the panel stays in sending with no request exactly when an event reaches the token read and the read throws |
| `SubmitMachine.StuckStays` | userscripts/sooqa-2ch-save.user.js:887-923 | from then on no sequence of events changes anything |
| `SubmitMachine.Panel.Click` | userscripts/sooqa-2ch-save.user.js:887-973 | submit, up to the form, the request or a token read that throws, does what the step function says |
| `SubmitMachine.Panel.FormDone` | userscripts/sooqa-2ch-save.user.js:896-915 | a settled form does what the step function says: a filled one sends a fresh attempt with its metadata, anything else sends nothing |
| `SubmitMachine.Panel.OnLoad` | userscripts/sooqa-2ch-save.user.js:952-962 | any response ends the attempt and the request, and exactly a success is recorded, under its identifier |
| `SubmitMachine.Panel.OnFailure` | userscripts/sooqa-2ch-save.user.js:963-972 | a failed request ends, and its attempt is kept for a retry |
| `SubmitMachine.SendExtends` | userscripts/sooqa-2ch-save.user.js:917-951 | sending the kept attempt keeps identifiers and payloads consistent |
| `SubmitMachine.AcceptedHistory.Load` | userscripts/sooqa-2ch-save.user.js:644-667 | loaded once: the usable entries of the stored array in their order, the newest 200 of them; JSON text of anything but an array throws and leaves nothing remembered, and anything else is an empty history |
| `SubmitMachine.MarkersMeaning` | userscripts/sooqa-2ch-save.user.js:656-665 | filtering keeps exactly the entries with usable keys, in order |
| `SubmitMachine.AcceptedHistory.Record` | userscripts/sooqa-2ch-save.user.js:703-723 | the history after an acceptance, which is recorded exactly when the history loads |
| `SubmitMachine.RecordMeaning` | userscripts/sooqa-2ch-save.user.js:703-723 | the accepted action is newest and occurs once, no other entry is invented, and no action comes to occur twice |
| `SubmitMachine.AcceptedHistory.Session` | userscripts/sooqa-2ch-save.user.js:703-729 | any sequence of acceptances and clears on a loaded history |
| `SubmitMachine.SessionMeaning` | userscripts/sooqa-2ch-save.user.js:703-729 | over every session at most 200 entries, and no action twice if none was |
| `SubmitMachine.AcceptedStays` | userscripts/sooqa-2ch-save.user.js:703-723 | an accepted action stays until it is cleared or 200 further acceptances have come |
| `Limiter.RequestLimiter.Allow` | apps/companion/src/lib.rs:134-149 | for every non-decreasing sequence of calls the deque is exactly the young acceptances, a call is allowed exactly when the sixty seconds that end with it hold fewer than sixty of them, and no half-open window holds more than sixty |
| `Limiter.WindowBound` | apps/companion/src/lib.rs:134-149 | the window bound, wherever the window starts |
| `Limiter.YoungIsCounted` | apps/companion/src/lib.rs:134-149 | the young calls are those of the window that ends with the call |
| `CompanionIntake.AcceptedIsDelivered` | apps/companion/src/lib.rs:305-367 | every submission the companion accepts passes the inbox, except a queue time that is not in the future where freshness is enforced; the key, action, instant, caption, title, description and URL arrive unchanged, the URLs normalized as well, and the tags in lower case, each once |
| `CompanionIntake.ValidationIsIdempotent` | apps/companion/src/lib.rs:305-417 | validating a validated submission changes nothing |
| `CompanionIntake.AcceptedExactly` | apps/companion/src/lib.rs:305-417 | the companion accepts a submission as another exactly when every text is the trimmed one within its bound and alphabet, the URLs are web URLs without credentials, the time parses, the intent allows time and caption, and the at most 32 tags are kept once each, in order |
| `CompanionIntake.BuiltExactly` | crates/inbox/src/lib.rs:883-942 | the inbox makes an ingest of an input exactly when its URLs normalize, its key and tags are not blank or too long and its intent holds, and then of the trimmed texts, the normalized URLs and the lower-case tags |
| `CompanionIntake.BareSaveIsAccepted` | apps/companion/src/lib.rs:305-367 | a bare request to save any URL the companion takes unchanged is accepted as it is, so the laws about accepted submissions are not empty |
| `CompanionIntake.DueQueueTimeIsRefused` | crates/inbox/src/lib.rs:1284-1291 | the exception is real: for every URL and every valid time text, the companion accepts a queue time that is no longer in the future, and the inbox refuses it exactly where freshness is enforced |
| `CompanionIntake.TryNewInner` | crates/inbox/src/lib.rs:883-942 | the inbox's construction accepts exactly the inputs that it can make an ingest of, and makes exactly that |
| `CompanionIntake.ValidateSubmission` | apps/companion/src/lib.rs:305-367 | the field-by-field rewriting accepts exactly the submissions that can be accepted, and as exactly what |
| `CompanionIntake.IntentAgrees` | crates/inbox/src/lib.rs:1255-1299 | the inbox's intent check refuses a validated submission only for a stale time |
| `CompanionIntake.PrefixedKey` | crates/inbox/src/lib.rs:1223-1239 | the prefixed idempotency key is within bounds and kept as it is |
| `CompanionIntake.BoundedTagsPass` | crates/inbox/src/lib.rs:895-904 | bounded tags are never refused, and exactly their lower-case forms remain |
| `CompanionIntake.TagsAreClean` | apps/companion/src/lib.rs:354-364 | validated tags are bounded, distinct and no more than came in |
| `CompanionIntake.MultilineIsFixed` | apps/companion/src/lib.rs:382-400 | optional multi-line text is fixed by both normalizations |
| `CompanionIntake.UrlIsFixed` | apps/companion/src/lib.rs:402-417 | a URL the companion accepts is fixed, and the inbox's scheme, host and credential checks accept it |
| `Avcc.ParseBytes` | crates/media/src/ffprobe.rs:407-437 | exactly the byte strings that are a record with four-byte lengths, at least one SPS and one PPS, and any tail are accepted, with the header's profile, compatibility and level |
| `Avcc.ParseComplete` | crates/media/src/ffprobe.rs:407-437 | every laid-out record parses to what its header declares |
| `Avcc.ParseSound` | crates/media/src/ffprobe.rs:407-437 | whatever parses is such a record |
| `Avcc.SkipComplete` | crates/media/src/ffprobe.rs:420-427 | a list of length-prefixed entries is stepped over |
| `Avcc.SkipSound` | crates/media/src/ffprobe.rs:420-427 | what was stepped over is a list of length-prefixed entries |
| `Hexdump.ParseExtradata` | crates/media/src/ffprobe.rs:383-405 | the nested loops accept exactly the texts whose first 4096 bytes are a record, with what it declares |
| `Hexdump.CollectBytes` | crates/media/src/ffprobe.rs:384-403 | stopping early is truncation |
| `Hexdump.DumpRoundTrip` | crates/media/src/ffprobe.rs:383-405 | a dump of even chunks, with any addresses and notes, is read back byte for byte exactly when no text column begins with a four-digit word |
| `Hexdump.DumpDeclares` | crates/media/src/ffprobe.rs:383-405 | such a dump, of any length, declares exactly what its first 4096 bytes declare |
| `Hexdump.NoColonNoBytes` | crates/media/src/ffprobe.rs:386 | text without a colon declares nothing |
| `CodecMime.DeclarationIsConsistent` | crates/media/src/ffprobe.rs:439-481 | for H.264 avc1 and avc3 with extradata, a string is returned exactly when there is a record that a reported string repeats, and its suffix spells the record's bytes |
| `CodecMime.ConfirmedExactly` | crates/media/src/ffprobe.rs:458-470 | a reported string stands exactly when the text after its first point spells the record |
| `CodecMime.MimeExactly` | crates/media/src/ffprobe.rs:439-481 | for every stream: a reported string is returned as it is or not at all, and exactly when; without one the string is the tag, a point and the record in lower-case hexadecimal, exactly when tag and record are there |
| `CodecMime.DerivedIsStable` | crates/media/src/ffprobe.rs:472-478 | a derived string fed back is returned unchanged exactly when the tag has no point |
| `CodecMime.BlankKeepsReported` | crates/media/src/ffprobe.rs:453-472 | blank extradata leaves the reported string as it is |
| `CodecMime.MergeTargeted` | crates/media/src/ffprobe.rs:290-311 | the in-place merge rewrites each stream by itself |
| `CodecMime.MergeIsSound` | crates/media/src/ffprobe.rs:290-311 | a merge never changes a declared stream, fills in only what the probed record declares, and is idempotent |
| `CodecMime.MergeExactly` | crates/media/src/ffprobe.rs:290-311 | a merge changes nothing but a missing string, and fills it in exactly for an avc1 or avc3 video stream whose probed extradata holds a record |
| `CodecMime.ExtradataExactly` | crates/media/src/ffprobe.rs:297-302 | the probed extradata is that of the first entry with the stream's index |
| `Ranking.AlignVideoIdentity` | apps/worker/src/identity.rs:599-646 | the collected, sorted and truncated vector gives a decision exactly when every candidate aligns, no match exactly when none is a strong duplicate, and otherwise the evidence in terms of the candidates alone |
| `Ranking.OrderIndependent` | apps/worker/src/identity.rs:599-646 | when a media id names one candidate, neither the decision nor whether there is one depends on candidate order |
| `Ranking.DecisionMeaning` | apps/worker/src/identity.rs:599-646 | a failure exactly when some candidate fails, no match exactly when nothing is a strong duplicate, and otherwise at most three matches, led by a strong duplicate, with no dropped match above a kept one |
| `Ranking.DecidedExactly` | apps/worker/src/identity.rs:599-646 | the evidence is at most three matches, each made by a candidate, strong before partial, then by score, shared tokens and id; a match that is left out was left out for three that may stand before it |
| `Ranking.MatchesExactly` | apps/worker/src/identity.rs:604-679 | exactly the aligned candidates that are duplicates make a match, with the candidate's and the alignment's figures |
| `Ranking.SortSorts` | apps/worker/src/identity.rs:626-632 | the order is class, score and shared tokens descending, then id ascending, and nothing is lost |
| `Ranking.SortIsStable` | apps/worker/src/identity.rs:626-632 | matches that tie stay in candidate order |
| `Ranking.CollectExactly` | apps/worker/src/identity.rs:604-625 | collecting succeeds exactly when every candidate aligns, with the matches in candidate order |
| `DiskAdmission.ChainExactly` | crates/media/src/disk.rs:16-36 | the saturating chain admits exactly when free space covers the reserve and the unbounded product, with the one exception spelled out |
| `DiskAdmission.SharedBoundIsSafe` | apps/worker/src/common.rs:71-83 | in every run of at most two operations sharing one byte bound, free space covers the reserve and everything still unwritten |
| `DiskAdmission.RunStaysCovered` | apps/worker/src/common.rs:71-83 | the same for any concurrency and any sizes, as long as each start fits |
| `DiskAdmission.SafeExactly` | crates/media/src/disk.rs:31-36 | for all 64-bit inputs, a start is safe for every measurement exactly when no slot is free or it is affordable: the other shares of its budget cover what the others may still write, or one of the saturated cases holds |
| `DiskAdmission.MixedSizesAreNotSafe` | apps/worker/src/normalization.rs:196-201 | with mixed sizes a run from an idle volume ends with less free space than the reserve and what the admitted operations may still write |
| `Classifiers.ClassifiersAgree` | apps/worker/src/normalization.rs:844-878 | classifying a probe and classifying its serialization agree, for attached pictures, missing containers and other stream kinds too |
| `Classifiers.RepresentationAgrees` | crates/inbox/src/lib.rs:175-233 | so does any stored JSON whose fields stand for the probe, such as one from before covers were marked |
| `Classifiers.StreamIsRepresented` | crates/media/src/ffprobe.rs:106-156 | the derived serialization of a stream carries what the stored classifier reads |
| `Classifiers.ProbeKindMeaning` | apps/worker/src/normalization.rs:844-878 | each kind in terms of the container, the codecs of the video streams that are no covers, and the audio streams |
| `Classifiers.StoredKindMeaning` | crates/inbox/src/lib.rs:175-233 | the same for any stored value, whether or not it stands for a probe |
| `NumericText.DigestRoundTrip` | apps/worker/src/identity.rs:859-893 | decoding inverts encoding on every 32-byte digest |
| `NumericText.TextRoundTrip` | apps/worker/src/identity.rs:859-893 | decoding and encoding again gives the lower-case form, for exactly the texts of 64 hexadecimal digits |
| `NumericText.HexDigest` | crates/media/src/hashing.rs:86-94 | the digest is spelled in lower case, high digit first |
| `NumericText.DecodeSha256` | apps/worker/src/identity.rs:859-893 | exactly the 64-digit texts decode, to the bytes they spell |
| `NumericText.ParseDuration` | crates/media/src/ffprobe.rs:501-520 | w.f is read as floor(1000 * w.f) milliseconds, failing exactly when the text is no such number or the value exceeds 64 bits |
| `NumericText.ThousandthsSplit` | crates/media/src/ffprobe.rs:505-519 | whole seconds and truncated, padded milliseconds add up to the floor of the exact value |

## Left out

- SQL: transactions of the publisher repository are single atomic steps; whether a job lease is still held is not modelled, so any call may be refused for that reason.
- URL normalization (setters, default ports, tracking parameters): a total function after the checks; the two versions in the repository differ and neither is modelled.
- The arithmetic of the normalization planner, the resolution ladder and the two-pass bitrate, `validate_adapted_dimensions`, and frame alignment: arbitrary inputs.
- Running ffmpeg, ffprobe and yt-dlp, their timeouts and process groups: an encode either produces a file or fails, with or without a leftover.
- FilePublication.StepKeeps: a link may go through after its publisher was dropped, but a write that was still on its way then is not modelled; it could only reach a temporary that nobody links.
- Parent-directory checks of a publication: one flag; `TempDirectory` guards follow the same discipline as `TempArtifact` and would only add easy members.
- Adaptation.VideoCandidateSet.RemoveCandidate: takes the existence check of a path to be truthful, so a file that exists but cannot be inspected is not modelled.
- WorkerLoop.Worker.RunLoop: a run is a finite script of polls; periodic recovery of stale leases, poll intervals and log output are not modelled.
- Serde.FieldsRoundTrip: structs written as JSON arrays, duplicate keys and the simple, braced and URN forms of a UUID are not modelled.
- Envelope.RoundTrip: the serialized size is an arbitrary function of the value, and whether an inspection error mentions a missing field is an arbitrary predicate.
- SubmitMachine.Panel.Run: assembling the payload field by field is left out; a payload is represented by everything it is assembled from. Dialogs, focus and status texts are user interface.
- Limiter.RequestLimiter.Allow: call times are non-decreasing, because `serve` handles one request at a time; the instant is read before the mutex is taken, so the mutex alone would not order them. A poisoned mutex is not modelled.
- Hexdump.DumpRoundTrip: an odd last byte is part of the text column, because the decoder drops it.
- CompanionIntake.AcceptedIsDelivered: transport of the key in an HTTP header is not modelled.
- Ranking.OrderIndependent: the text of a failure is left open, because the first failing candidate is reported.
- Frame rates, rotation and the other numeric probe fields: independent one-branch parsers.
- HTTP routing, dashboards, configuration loading, direct download and address filtering.
