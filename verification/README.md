# Verified model of the MPC co-signer

A Dafny model of the parts of the co-signer where a mistake would sign twice,
sign the wrong thing, lose a decision or leak capacity, and proofs about every
run of them.

- **Approval journal** (`JournalRecords`, `JournalSpec`, `JournalInvariant`,
  `JournalRuns`, `JournalAnswers`, `Journal`): five write-once records per
  organization and request, on a directory modelled as what is visible and what
  is durable. Every I/O point of every call can fail; a crash keeps the durable
  part and any of the rest.
- **Sign gate** (`SignGate`, `GateEvidence`), **dispatcher**
  (`DispatcherProtocol`, `DispatcherSpec`, `DispatcherLaws`, `Dispatcher`) and
  **managed open** (`ManagedOpen`) on top of that disk. `ApprovedSigning` joins
  the gate with the prepared transactions below: what is bound for execution is a
  transfer that was approved.
- **Local router** (`FrameText`, `FrameValidator`, `FrameKeys`,
  `FrameIdentity`, `Router`, `RouterDelivery`): the frame validator with its
  three maps, and the three-party router as a state machine over its mutex
  sections, `Once`s and channel operations.
- **Sessions** (`Lifecycle`, `TransportDispatch`, `Polling`, `Permits`,
  `Scheduler`, `SessionTypes`, `SessionWorker`, `SessionLaws`, `SessionRun`):
  permits and reservations, the admission loop, and one whole session against
  any script of backend answers, clock readings, transport stops and process
  stops. A script that runs out means that the process is stopping, so every
  finite prefix of an endless retry loop is covered.
- **DKG results** (`Artifacts`, `DkgTerminal`, `TerminalContents`,
  `ListingOrder`, `Reconcile`, `ReconcileAnswers`): the live path and startup
  reconciliation, what they publish, and that they publish the same bytes.
- **Prepared transactions** (`Decimals`, `Hex`, `Base64`, `BigEndian`,
  `TransferCall`, `Rlp`, `Protobuf`, `Authorization`, `EthereumPrepared`,
  `TronPrepared`, `Prepared`, `PreparedTerms`) and the **retry delay** (`Retry`).

Hashes, signatures, JSON, protobuf and RLP decoders, Base58Check and Core are
arbitrary deterministic functions held in `Lib` values. Where a proof needs a
property of one it is a hypothesis: `Faithful` (a record that passes its
validator decodes from its own encoding) and `CollisionFree` (the frame
digests). Time, entropy, network answers and I/O failures are parameters.

Some properties one would like to state are not true of the code. Each of these
has a concrete counterexample and the exact condition under which it does hold:

- A store marker or an identity file used alone, after the other was lost, can
  be bound to a fresh identity (`LostMarkerRebinds`, `LostIdentityRebinds`;
  exact condition `LaterOpenExactly`).
- A frame's sequence text joins free-text fields on NUL, so the validator can
  accept two different messages under one sender and sequence number when those
  fields contain NUL (`NulFramesBothAccepted`). A frame shares its number only
  with the same message, in every trace, if and only if it is broadcast or its
  text has one reading (`IdentifiedExactly`).
- A reused frame key need not be a duplicate: with other contents it is a
  conflict (`ReusedKeyCanConflict`). The exact verdict is `ReusedKeyVerdict`,
  and `ReusedKeyVerdictForAnyNames` where party names contain "|". That the
  conflict is never raised by the key itself, only by the sequence number, holds
  if and only if the party names cannot be confused across the "|" separator
  (`NeverLateConflictExactly`; `BarFreeNamesAreDistinguishable` covers the
  deployed names).
- The poll cursor can pass an undelivered message when the backend repeats an old
  delivery number (`StaleNumberIsLeftBehind`, a run of two polls). Nothing below
  the cursor is missing if and only if the last batch was handed over whole or
  was cut at a number not below the cursor it was requested from
  (`NothingMissingExactly`).
- Startup reconstruction repeats a live COMPLETED job exactly when both artifacts
  can be read; otherwise it publishes FAILED (`UnreadableArtifactsFailExactly`).

## Model

| member | source | states |
|---|---|---|
| `Journal.Journal.PublishFile` | internal/approval/files.go:46-80 | stage by stage, the directory and the answer are those of publication without replacement, for every set of failing stages |
| `Journal.Journal.PutRecord` | internal/approval/files.go:111-129 | publishes, or confirms byte for byte and resyncs what already holds the name |
| `Journal.Journal.LoadState` | internal/approval/journal_read.go:20-50 | the four loaders in order, and nothing returned before the directory is synced |
| `Journal.Journal.AdmitRequest` | internal/approval/journal.go:82-101 | a first admission is published; a later one must agree with it but for its time |
| `Journal.Journal.SaveDecision` | internal/approval/journal.go:103-117 | a receipt is published only behind its admission |
| `Journal.Journal.AcknowledgeDelivery` | internal/approval/journal.go:119-139 | an acknowledgement names the stored receipt by hash |
| `Journal.Journal.Bind` | internal/approval/journal.go:141-165 | execution-known is published, then execution, behind valid evidence |
| `Journal.Journal.Close` | internal/approval/journal.go:67-80 | a closed journal stays closed and its scan is dropped |
| `Journal.Journal.PendingReceipts` | internal/approval/journal_read.go:131-188 | the first pending receipt the scan meets, if any, and durable; an empty answer without error means every entry it reached is settled; it fails exactly on an entry it got to and could not read |
| `Journal.Journal.Examine` | internal/approval/journal_read.go:161-181 | one scanned file: readable exactly when its record decodes, has its own name and its request loads; found exactly when unacknowledged |
| `JournalInvariant.PutKeepsInv` | internal/approval/files.go:53-129 | publishing a valid next record keeps every key's records valid and in order under all failures |
| `JournalInvariant.LoadKeepsInv` | internal/approval/journal_read.go:20-50 | a load keeps the journal invariant, and on success all visible records are durable |
| `JournalInvariant.AdmitKeepsInv` | internal/approval/journal.go:82-101 | admission keeps the journal invariant, failed or not |
| `JournalInvariant.SaveReceiptKeepsInv` | internal/approval/journal.go:103-117 | saving keeps the invariant, and a success leaves exactly that receipt durable |
| `JournalInvariant.AcknowledgeKeepsInv` | internal/approval/journal.go:119-139 | acknowledging keeps the journal invariant, failed or not |
| `JournalInvariant.BindKeepsInv` | internal/approval/journal.go:141-165 | binding keeps the journal invariant through a failure between its two files |
| `JournalInvariant.CrashKeepsInv` | internal/approval/files.go:53-80 | so does a power loss that keeps any part of what was not durable |
| `JournalInvariant.RecordsArePrefixes` | internal/approval/journal_read.go:20-127 | the records of a key are a prefix of the publication order, in view and on disk, at most one apart |
| `JournalInvariant.LoadRejectsExactly` | internal/approval/journal_read.go:20-127 | without I/O failure a request loads if and only if its prefix does not end at execution-known and no other request has its hash |
| `JournalRuns.RunKeepsInv` | internal/approval/journal.go:82-165 | every run of calls with any failures, write-backs and crashes keeps the invariant |
| `JournalRuns.EveryRunKeepsPrefixes` | internal/approval/journal_read.go:20-127 | from an empty journal, after any run, records are prefixes and the disk lags by at most one |
| `JournalRuns.StepKeepsDurable` | internal/approval/files.go:53-129 | no call, failed or not, and no crash loses a durable record; a successful binding leaves both its files durable |
| `JournalRuns.BoundStaysDurable` | internal/approval/journal.go:141-165 | whatever was bound in a run is on disk, in both files, at its end |
| `JournalRuns.SingleBinding` | internal/approval/journal.go:141-165 | all successful bindings of one organization and request in a run are the same binding, with no assumption on the hash |
| `JournalAnswers.LoadExactly` | internal/approval/journal_read.go:20-127 | without I/O failure a request loads exactly when its records are its own and do not stop at execution-known, and then yields what the files decode to |
| `JournalAnswers.PublishExactly` | internal/approval/files.go:46-80 | a file is published exactly when no stage fails and its name is free; only a failed directory sync leaves it visible but not durable |
| `JournalAnswers.AdmittedTerms` | internal/approval/journal.go:82-101 | a successful admission, under any failures, leaves a durable admission with just these terms: authorization, mode and endpoint |
| `JournalAnswers.AdmitExactly` | internal/approval/journal.go:82-101 | without I/O failure an admission succeeds if and only if none is stored or the stored one has the same terms, and conflicts if and only if it has others |
| `JournalAnswers.SaveReceiptExactly` | internal/approval/journal.go:103-117 | without I/O failure a receipt is saved if and only if it verifies for the stored admission and its name is free or holds it |
| `JournalAnswers.AcknowledgedAnswer` | internal/approval/journal.go:119-139 | a successful acknowledgement leaves on disk the answer itself, bound to the durable receipt by hash |
| `JournalAnswers.AcknowledgeExactly` | internal/approval/journal.go:119-139 | without I/O failure an answer is recorded if and only if it is for this request, its receipt is stored and no other answer is |
| `JournalAnswers.BindExactly` | internal/approval/journal.go:141-165 | without I/O failure a binding succeeds if and only if the stored receipt approves, its application was applied, the terms fit the admission and no other binding is stored |
| `JournalAnswers.EvidenceChain` | internal/approval/journal_read.go:20-127 | from an empty journal, after any run, the records of a key are of one request and authorization, each bound to the one before it |
| `SignGate.AuthorizeIntent` | internal/approval/sign_gate.go:28-105 | the gate on the journal object does what the gate function says, whose exact meaning the next rows give |
| `SignGate.AuthorizeKeepsDurable` | internal/approval/sign_gate.go:28-105 | an authorization loses nothing durable, and on success both execution files of its intent are durable |
| `SignGate.AuthorizedStaysDurable` | internal/approval/sign_gate.go:28-105 | every success stays durable through all later failures, crashes and restarts |
| `SignGate.SingleAuthorization` | internal/approval/sign_gate.go:28-105 | all successful authorizations of one organization and request carry the same outgoing ID, digest, payload type and hash algorithm |
| `GateEvidence.AuthorizedOnEvidence` | internal/approval/sign_gate.go:28-105 | an authorization that succeeds, under any failures and interleaving, rests on an approval and its application on disk that match the echo, and on a prepared transaction that verified for the payload's organization, wallet, key and derivation |
| `GateEvidence.AuthorizedBinding` | internal/approval/sign_gate.go:95-104 | what is bound on disk is this intent's outgoing ID, authorization, digest, payload type and hash algorithm |
| `GateEvidence.MalformedIsRefused` | internal/approval/sign_gate.go:28-35 | an intent of another version, or without evidence of its own or a prepared transaction, is refused before anything is read |
| `GateEvidence.AuthorizeExactly` | internal/approval/sign_gate.go:28-105 | undisturbed, the gate agrees if and only if the evidence is stored, the transaction matches and no other binding is stored; it is pending if and only if only the application is missing |
| `GateEvidence.EveryAuthorizationHasEvidence` | internal/approval/sign_gate.go:28-105 | over every run, whatever was authorized has its evidence on disk at the end and had a matching transaction |
| `ApprovedSigning.BoundIsApproved` | internal/approval/sign_gate.go:71-105 | the digest bound for execution is that of a transaction which is, in every term, the transfer of an authorization whose hash is the one admitted and approved on disk |
| `DispatcherProtocol.PlayKeepsInv` | internal/approval/dispatcher.go:122-325 | every run of dispatcher moves, gate calls, crashes and restarts keeps the journal invariant, the work in hand and the record of what was sent consistent |
| `DispatcherProtocol.SentBodiesAreTheDurableReceipt` | internal/approval/dispatcher.go:166-267 | every body ever sent is the body of the request's durable receipt, so all bodies sent for one request are identical |
| `DispatcherProtocol.NeverReevaluated` | internal/approval/dispatcher.go:166-228 | the organization is never asked about a request whose receipt is visible |
| `DispatcherSpec.SavedEntriesStay` | internal/approval/dispatcher.go:88-120 | putting a key off never evicts or changes another saved-receipt entry |
| `DispatcherSpec.PostponedWaits` | internal/approval/dispatcher.go:88-120 | what is put off waits exactly until then, one attempt later, wherever the table has room; otherwise nothing changes |
| `DispatcherLaws.SettledOrWaiting` | internal/approval/dispatcher.go:245-267 | after a delivery the receipt is settled, with the backend's very answer on disk and no entry left, or it waits; it counts as delivered only if settled without conflict |
| `DispatcherLaws.ProcessedRequest` | internal/approval/dispatcher.go:166-227 | the organization is asked at most once, only about a request without receipt that is not put off and whose admission is on disk with this configuration; at most one body is sent, that of the receipt on disk |
| `DispatcherLaws.DueReceiptIsSent` | internal/approval/dispatcher.go:166-189 | a stored receipt that is neither acknowledged nor put off is sent whenever its request is processed |
| `Dispatcher.Dispatcher.FindOldestFresh` | internal/approval/dispatcher.go:103-110 | the fresh entry of least sequence number, or none when every entry is a saved receipt |
| `Dispatcher.Dispatcher.Suppress` | internal/approval/dispatcher.go:88-120 | the table stays within 1000 uniquely numbered entries, attempts count up to 1024; a full one gives up its oldest fresh entry, or drops the new one |
| `Dispatcher.Dispatcher.Postpone` | internal/approval/dispatcher.go:250-257 | a failed delivery waits until the given time wherever the table has room, and every other saved entry stays as it is |
| `Dispatcher.Dispatcher.DeliveryHints` | internal/approval/dispatcher.go:269-276 | counts the saved-receipt entries |
| `Dispatcher.Dispatcher.FindDueHint` | internal/approval/dispatcher.go:278-288 | the due saved-receipt entry waiting longest, or none when none is due |
| `Dispatcher.Dispatcher.Deliver` | internal/approval/dispatcher.go:245-267 | sends exactly the receipt's body, once; a failed send or acknowledgement waits until the given time, a recorded one leaves no entry; other saved entries are untouched |
| `Dispatcher.Dispatcher.FinishDelivery` | internal/approval/dispatcher.go:254-267 | a failed acknowledgement puts the receipt off; a recorded one drops its entry, and is a success unless the backend reports a terminal conflict |
| `Dispatcher.Dispatcher.RetrySavedHint` | internal/approval/dispatcher.go:278-303 | takes the due hint waiting longest, if any: puts it off if its receipt does not load, drops it if acknowledged, delivers it otherwise |
| `Dispatcher.Dispatcher.RecoverScanned` | internal/approval/dispatcher.go:314-320 | delivers the first pending receipt of the scan exactly when it is due; reports failure exactly when the scan or the delivery failed |
| `Dispatcher.Dispatcher.RecoverSaved` | internal/approval/dispatcher.go:305-325 | turns alternate: the longest due hint first in one, the first scanned receipt in the other; at most one body is sent, and an idle success leaves no due hint untried |
| `Dispatcher.Dispatcher.Process` | internal/approval/dispatcher.go:166-227 | the whole effect of one item on directory, table, bodies and evaluations, for every failure and answer |
| `Dispatcher.Dispatcher.EvaluateFresh` | internal/approval/dispatcher.go:191-227 | admitted or nothing; asked once in external mode; decided and saved before sent, or put off |
| `Dispatcher.Dispatcher.SaveAndDeliver` | internal/approval/dispatcher.go:218-227 | nothing is sent that was not saved; a saved decision drops the fresh entry and is delivered |
| `Dispatcher.Dispatcher.Step` | internal/approval/dispatcher.go:122-164 | every item of the page is processed, in order, until the context ends; the cursor moves on, stays or restarts as the page says; success means every item succeeded |
| `ManagedOpen.Store.PublishFile` | internal/approval/files.go:53-80 | the identity files are published without replacement |
| `ManagedOpen.Store.OpenManaged` | internal/approval/journal_init.go:29-151 | the two-file protocol, stage by stage, equals the open function |
| `ManagedOpen.OpenMeansDurablePair` | internal/approval/journal_init.go:84-151 | every successful open on a consistent disk, under any failures, leaves marker and identity durable and equal: a half pair is never usable |
| `ManagedOpen.RunKeepsConsistent` | internal/approval/journal_init.go:29-151 | every run of opens with any failures, crashes and losses keeps the disk consistent: what is durable is visible, and the folder of a visible identity file is durable |
| `ManagedOpen.FreshIdentityExactly` | internal/approval/journal_init.go:84-151 | for every mode and every set of failures: an unmarked store is opened if and only if neither file is found, the directory is there or may be made, and no stage fails; it then gets the fresh identity |
| `ManagedOpen.ReopenExactly` | internal/approval/journal_init.go:84-120 | a marked store opens if and only if its pair of files is usable and none of its five I/O points fails, and yields the pair's identity |
| `ManagedOpen.StoreKeepsIdentity` | internal/approval/journal_init.go:84-151 | while the marker is kept, every later open with that store yields the same identity or fails |
| `ManagedOpen.DirectoryKeepsIdentity` | internal/approval/journal_init.go:84-151 | while the identity file is kept, every later open with that directory yields the same identity or fails |
| `ManagedOpen.PairKeepsIdentity` | internal/approval/journal_init.go:84-151 | the pair opened together keeps its identity through crashes and the loss of one of the two files |
| `ManagedOpen.OpenedIdentityStays` | internal/approval/journal_init.go:84-151 | from an empty disk, after any interrupted attempts, crashes and losses, an open that succeeds leaves a durable pair, and every later open of that pair yields the same identity or fails unless both files are lost |
| `ManagedOpen.LaterOpenExactly` | internal/approval/journal_init.go:84-151 | on any disk, an open without I/O failure yields only the given identity if and only if the marked pair is unusable or is that identity, or, unmarked, some identity file is met, the directory may not be made or the fresh identity is the same |
| `ManagedOpen.LostMarkerRebinds` | internal/approval/journal_init.go:84-151 | with the marker lost, the store in another directory gets a fresh identity |
| `ManagedOpen.LostIdentityRebinds` | internal/approval/journal_init.go:84-151 | with the identity file lost, the directory with another store gets a fresh identity |
| `FrameText.SequenceTextDetermines` | internal/localrouter/validation.go:159-175 | equal sequence texts agree on every field but the recipient, the message ID and the split of the middle part |
| `FrameText.TextIdentifiesExactly` | internal/localrouter/validation.go:159-175 | a sequence text identifies its frame up to the recipient if and only if its middle part has one reading |
| `FrameText.NulFreeHasOneReading` | internal/localrouter/validation.go:159-175 | it has whenever the free-text fields hold no NUL |
| `FrameText.NulMakesTextAmbiguous` | internal/localrouter/validation.go:159-175 | two different frame texts that coincide, with NUL in a field |
| `FrameValidator.Validator.ValidateAndRecord` | internal/localrouter/validation.go:49-119 | the three maps always agree with the accepted frames; the verdict is the one they determine; a rejected frame changes nothing |
| `FrameValidator.EveryTraceIsSound` | internal/localrouter/validation.go:49-101 | in every trace sequence numbers per sender never decrease, frames sharing one agree on message ID and digest, and no key repeats |
| `FrameValidator.SequenceNumberIdentifiesMessage` | internal/localrouter/validation.go:49-101 | accepted frames sharing sender and sequence number agree on everything but the recipient, provided the text of one of them has one reading |
| `FrameValidator.AtMostTwoPerSequence` | internal/localrouter/validation.go:49-119 | at most two accepted frames share sender and sequence number, one if it is broadcast |
| `FrameValidator.HeaderExactly` | internal/localrouter/validation.go:50-71 | a header passes if and only if the frame is its sender's and proper: session, stage, folded protocol, number, one round, payload, hash and recipient |
| `FrameValidator.AcceptedHeaders` | internal/localrouter/validation.go:49-101 | every frame accepted in any trace is proper and comes from a party |
| `FrameKeys.NoLateConflict` | internal/localrouter/validation.go:85-95 | with distinguishable senders the key check never finds other contents: any conflict was already raised by the sequence number |
| `FrameKeys.IndistinguishableSendersConflict` | internal/localrouter/validation.go:126-138 | otherwise one accepted frame makes a fresh frame of another sender a conflict |
| `FrameKeys.NeverLateConflictExactly` | internal/localrouter/validation.go:85-95 | the key check never raises a conflict of its own, in any trace, if and only if senders are distinguishable |
| `FrameKeys.BarFreeNamesAreDistinguishable` | internal/localrouter/validation.go:126-138 | names without the bar separator are distinguishable |
| `FrameIdentity.IdentifiedExactly` | internal/localrouter/validation.go:49-101 | a frame shares its sender and sequence number only with the same message, in every trace, if and only if it is broadcast or its text has one reading |
| `FrameIdentity.TwinAccepted` | internal/localrouter/validation.go:49-101 | every second reading of a unicast gives a two-frame trace with one sequence number and different contents |
| `FrameIdentity.NulFramesBothAccepted` | internal/localrouter/validation.go:49-101 | the validator accepts two frames of one sender and sequence number with different message types, with NUL in a field |
| `FrameIdentity.ReusedKeyCanConflict` | internal/localrouter/validation.go:75-95 | a reused key with another payload is a conflict, also from the same sender |
| `FrameIdentity.ReusedKeyVerdict` | internal/localrouter/validation.go:75-95 | with distinguishable senders a reused key is invalid exactly when late, a duplicate exactly when in time with the same message ID and text, a conflict otherwise, and never accepted |
| `FrameIdentity.ReusedKeyVerdictForAnyNames` | internal/localrouter/validation.go:75-95 | with any party names the same, where a duplicate must repeat the whole text and its number must belong to no other message |
| `FrameIdentity.NewNumberIsAccepted` | internal/localrouter/validation.go:49-101 | with distinguishable senders every proper frame with a number above all its sender used is accepted |
| `Router.TerminalErrorIsFinal` | internal/localrouter/router.go:285-298 | no step changes a terminal error, and the done channel closes at most once |
| `Router.NothingRecordedAfterFinish` | internal/localrouter/router.go:139-166 | once Finish has begun no frame is recorded |
| `Router.NothingHandedThroughout` | internal/localrouter/router.go:330-348 | once the done channel is closed no receive hands over a frame, at whichever of its steps the close found it |
| `Router.FinishReportsTheReceiver` | internal/localrouter/router.go:85-180 | under every interleaving: one close, and Finish returns nil exactly when the receiver never failed, its error otherwise |
| `Router.ReceiverFailsExactly` | internal/localrouter/router.go:182-283 | the router fails exactly by a receiver step with a cause, which becomes the terminal error; a cancellation during Finish is no cause |
| `Router.OutcomesExactly` | internal/localrouter/router.go:243-283 | a copy is placed exactly while fewer than 256 frames wait, overflows exactly at 256, and a closed router is noticed on a local queue only |
| `Router.StartExactly` | internal/localrouter/router.go:85-106 | the receiver runs exactly when Start comes first, before Finish and without an error |
| `Router.NothingWorksAfterFinish` | internal/localrouter/router.go:326-348 | after Finish has returned no frame is accepted, every send and every receive fails at its entry, and no receive begun before hands over a frame, even with frames buffered |
| `RouterDelivery.RouteIsAddressees` | internal/localrouter/router.go:182-265 | an accepted frame's route is exactly its addressees, once each, never its sender, and local queues before the network |
| `RouterDelivery.DeliveryThroughout` | internal/localrouter/router.go:182-283 | every run keeps placements along routes, in order, within capacity, and complete for every routing that returned |
| `RouterDelivery.SuccessPlacesExactlyOnce` | internal/localrouter/router.go:182-283 | a routing that succeeded placed one copy with each addressed party and none elsewhere |
| `RouterDelivery.QueuesAreBoundedAndOrdered` | internal/localrouter/router.go:182-283 | queues hold at most 256 frames, and every place receives each sender's frames in acceptance order |
| `RouterDelivery.ReceivedInOrder` | internal/localrouter/router.go:330-348 | frames handed to a receiver were placed there and addressed to it, none twice, and each sender's come in acceptance order |
| `TransportDispatch.HttpTransport.Begin` | internal/transport/http_transport.go:73-93 | one more start in the transport's history, whose state the fields are |
| `TransportDispatch.HttpTransport.StopNow` | internal/transport/http_transport.go:147-167 | one more stop: only the first sets the error and cancels |
| `TransportDispatch.HttpTransport.Dispatch` | internal/transport/http_transport.go:119-145 | one more reservation, answered as the history decides |
| `TransportDispatch.AtMostOneRun` | internal/transport/http_transport.go:119-145 | whatever the interleaving, at most one reservation lets Core run |
| `TransportDispatch.PriorStopForbids` | internal/transport/http_transport.go:119-167 | every reservation after the first stop is refused with that stop's error |
| `TransportDispatch.LaterStopCancels` | internal/transport/http_transport.go:119-167 | no stop precedes a granted reservation, and the execution is cancelled exactly when one follows |
| `TransportDispatch.RunsCoreExactly` | internal/transport/http_transport.go:119-145 | Core runs on a reservation if and only if it comes under a live context, after no stop and after no other reservation that ran Core |
| `TransportDispatch.PollingExactly` | internal/transport/http_transport.go:73-93 | polling has begun exactly when a start came before every stop, and is cancelled exactly when the transport stopped after that |
| `Polling.DeliverMessages` | internal/transport/http_transport_poll.go:78-94 | hands over the first messages in order and leaves the cursor at their maximum |
| `Polling.Poll` | internal/transport/http_transport_poll.go:13-55 | accepts exactly the observations fetched until the first turn that makes it leave, each checked against the one before; it stops the transport exactly on a lifecycle error |
| `Polling.ObservationsAgree` | internal/transport/http_transport_poll.go:57-76 | all accepted SIGN observations have the same start, deadline and expiry, the earlier of start plus 300 s and deadline |
| `Polling.ObservationsAreLive` | internal/transport/http_transport_poll.go:57-76 | every accepted observation is of this session and deadline; a SIGN one is running, with deadline and expiry after the time it was checked |
| `Lifecycle.ValidExactly` | internal/monolith/types.go:52-86 | a session observation is valid if and only if it is bound to the operation and its times fit its status |
| `Polling.CursorIsLargestHandedOver` | internal/transport/http_transport_poll.go:78-94 | the cursor is the largest delivery number handed over, zero before the first |
| `Polling.NothingSmallerLeftExactly` | internal/transport/http_transport_poll.go:78-94 | wherever a batch is cut short nothing below the cursor is left behind, if and only if no number in it is below the requested cursor |
| `Polling.StaleNumberIsLeftBehind` | internal/transport/http_transport_poll.go:78-94 | in a run of two polls a repeated old number is left behind the cursor |
| `Polling.NothingMissingExactly` | internal/transport/http_transport_poll.go:13-94 | in a whole run every fetched message below the cursor was handed over if and only if the last batch is whole or was cut at a number not below the cursor it was requested from |
| `Permits.PlayKeepsInv` | internal/worker/permits.go:20-123 | every interleaving of admission, release, completion and drain steps keeps slots, leases and reservations consistent |
| `Permits.EveryRunConservesPermits` | internal/worker/permits.go:20-123 | occupied slots are live tokens plus drained ones, no two leases hold the DKG guard and every DKG lease with a slot holds it, no non-empty intent has two live sessions |
| `Permits.RefusalGivesBack` | internal/worker/scheduler.go:220-275 | between admissions the reserved identifiers are exactly the live sessions' |
| `Permits.DrainIsFinal` | cmd/co-signer/runtime_helpers.go:192-206 | once every slot is drained no lease holds one and none is ever acquired again |
| `Scheduler.Scheduler.ReserveIntentId` | internal/worker/scheduler.go:257-275 | reserves exactly a free or empty identifier |
| `Scheduler.Scheduler.TryAcquireSign` | internal/worker/permits.go:60-72 | takes a general slot exactly when there is one |
| `Scheduler.Scheduler.TryAcquireDkg` | internal/worker/permits.go:74-93 | takes guard and slot, or neither |
| `Scheduler.Scheduler.Admit` | internal/worker/scheduler.go:220-252 | launches exactly when identifier, slot and guard are free; a refusal leaves the scheduler as it was |
| `Scheduler.Scheduler.DispatchBatch` | internal/worker/scheduler.go:182-255 | launches one worker for each intent that is to be launched and no other, until the first cancelled turn; only the first DKG intent counts |
| `Scheduler.Scheduler.DrainWorkers` | cmd/co-signer/runtime_helpers.go:192-206 | every turn drains a slot, finds all taken or ends the drain; success means every slot is drained and no lease holds one |
| `SessionWorker.ClaimWithRecovery` | internal/worker/session_worker.go:304-364 | every attempt but the last is open; the error is the last answer's, marked for cleanup exactly when an earlier attempt was open and this one refuses; undisturbed, it ends in an answer |
| `SessionWorker.JudgeClaim` | internal/worker/session_worker.go:304-364 | an answer ends the claim loop exactly when it is not open; its error is marked for cleanup exactly on a refusal after an open attempt |
| `SessionTypes.AnswersArePartitioned` | internal/worker/session_worker.go:304-364 | every answer is exactly one of five: accepted, rejected for this very intent, open, turned down, unknown |
| `SessionTypes.ResultCodes` | internal/worker/errors.go:27-73 | a result completes exactly without error; otherwise the first matching class, or the context, gives its code |
| `SessionWorker.WaitForReadiness` | internal/worker/sign_session.go:31-78 | a SIGN session is ready only on a valid RUNNING observation with matching start and expiry and time left; undisturbed, it waits until the first observation that settles it, and is ready exactly on that |
| `SessionWorker.AuthorizeSign` | internal/worker/approval_gate.go:12-36 | asks again exactly while the evidence is pending, and succeeds only on the gate's agreement |
| `SessionWorker.DeliverSignResult` | internal/worker/session_result.go:106-149 | posts only this result, stops at the first effect that settles it, and gives up only when the process is stopping |
| `SessionWorker.PublishDkg` | internal/worker/session_result.go:15-104 | publishes at most once, and returns only when it is settled or the process is stopping |
| `SessionWorker.TryDispatch` | internal/transport/http_transport.go:119-145 | a refused reservation follows a stop or an ended context |
| `SessionWorker.RunCore` | internal/worker/sign_session.go:92-103 | Core runs on a granted reservation, and a stop meanwhile cancels it |
| `SessionWorker.RunSignProtocol` | internal/worker/sign_session.go:85-121 | Core runs at most once and first of all, unless the context ended or the transport stopped; no error means that Core succeeded, and undisturbed the error is Core's |
| `SessionRun.GiveUp` | internal/worker/session_worker.go:201-257 | a claimed intent failed before execution keeps its lease until the failure is settled or the process stops |
| `SessionRun.RunSign` | internal/worker/session_worker.go:268-293 | the closed transport's error prevails over Core's |
| `SessionRun.AfterClaim` | internal/worker/session_worker.go:142-235 | every ending of the claim loop leads to a log with the session's shape |
| `SessionRun.AfterRefusal` | internal/worker/session_worker.go:142-184 | a claim that was not accepted is reported failed exactly when it may stand, with its code, and not at all when the process stops |
| `SessionRun.Execute` | internal/worker/session_worker.go:237-302 | an execution starts only before the deadline and gives the session its shape; undisturbed, it waits, runs once if cleared, and reports what it returned |
| `SessionRun.RunSession` | internal/worker/session_worker.go:87-302 | for every script the session's log is lawful and ends with the release of the lease; undisturbed, an entitling claim with time left is waited for and run, any other is reported invalid or expired, and the session does not block |
| `SessionLaws.CoreHolds` | internal/worker/session_worker.go:186-302 | Core rests on a matching valid claim, a ready observation and the gate's agreement, in that order, and the lease waits until its result is settled or the process stops |
| `SessionLaws.CoreRestsOnTheAdmitted` | internal/worker/session_worker.go:186-302 | spelled out: Core rests on a claim with the admitted ID and, where listed, session, organization, key and deadline, on a running session of that claim with more than two seconds left, and on the gate, in this order |
| `SessionLaws.NamesHold` | internal/worker/session_result.go:106-149 | nothing is reported under another ID than the admitted or a claimed one |
| `SessionLaws.ResolvesExactly` | internal/worker/session_result.go:127-145 | an intent is settled exactly by an accepted or conflicting post of it, by an ended session with the times it had, or by a publication |
| `SessionLaws.ClaimHolds` | internal/worker/session_worker.go:141-184 | after an ambiguous attempt that ended in a refusal or at the deadline a failure is settled before the release, unless the process stops |
| `SessionLaws.CompletionHolds` | internal/worker/session_worker.go:290-301 | COMPLETED is posted only after a Core that returned no error |
| `SessionLaws.AcceptedHolds` | internal/worker/session_worker.go:186-302 | an accepted claim is settled before the release, unless the process stops |
| `SessionLaws.AuthorizedRunsHolds` | internal/worker/session_worker.go:252-282 | once the gate agreed Core is next, unless the context ended or the transport stopped |
| `SessionLaws.ShapeIsLawful` | internal/worker/session_worker.go:87-302 | all laws together: one release and last, Core at most once and never after a stop, and the laws above |
| `Artifacts.EvidenceIsBound` | internal/sharestore/runtime_loader.go:73-126 | evidence is bound to the asked context, the store's party and purpose, the descriptor's fingerprint and chain code hash, and the bytes |
| `Artifacts.Store.PublishDurably` | internal/sharestore/publisher.go:43-83 | success makes the bytes durable under a name that was free; nothing visible ever changes |
| `Artifacts.ArtifactsNeverChange` | internal/sharestore/publisher.go:43-83 | after a successful publication the key holds those bytes for ever, through later publications and power losses |
| `Artifacts.PublishExactly` | internal/sharestore/publisher.go:43-83 | a name is taken exactly when it is free and no stage before the directory sync fails; the call succeeds exactly when that stage does not fail either |
| `DkgTerminal.ContextNamesParties` | internal/worker/dkg_coordinator.go:216-261 | a validated context has the standard parties, the descriptor's key and the fingerprint's text |
| `DkgTerminal.EvidenceChecksAgree` | internal/reconcile/reconciler.go:381-404 | the live and the startup comparison of evidence decide alike, both ways |
| `DkgTerminal.RestartRepeatsTheLiveJob` | internal/reconcile/reconciler.go:331-379 | where the live path built a COMPLETED job, startup builds the same job, byte for byte; what it says is `TerminalContents.LiveJobSays` |
| `DkgTerminal.RestartRepeatsTheLiveJobFromDisk` | internal/reconcile/reconciler.go:331-379 | after both publications succeeded and the live job completed, startup over the two disks after any later publications and power losses builds the same job |
| `DkgTerminal.StartupJobIsTheLiveJob` | internal/worker/session_result.go:52-74 | a COMPLETED startup job is the one a live run over those artifacts publishes |
| `DkgTerminal.UnreadableArtifactsFailExactly` | internal/reconcile/reconciler.go:341-356 | startup repeats the live job if and only if both artifacts were read, and publishes FAILED otherwise |
| `TerminalContents.InspectExactly` | internal/sharestore/runtime_loader.go:73-126 | inspection succeeds exactly on an artifact that opens for this party, session and descriptor with the right chain code hash, and yields what is in it |
| `TerminalContents.DescriptorContract` | internal/worker/dkg_coordinator.go:228-242 | a valid descriptor is an ECDSA secp256k1 key, two of the three standard parties |
| `TerminalContents.RunnableExactly` | internal/worker/dkg_coordinator.go:216-261 | a DKG intent is run if and only if it is complete, unexpired, of the standard parties, and its fingerprint and chain code hash are right |
| `TerminalContents.LiveJobSays` | internal/terminal/publisher.go:48-107 | a live job is COMPLETED if and only if the protocol succeeded on a runnable intent and both artifacts hold shares of one key; it carries both artifact fingerprints, primary first, the key, and the intent's chain code hash and descriptor fingerprint, and the FAILED result otherwise |
| `TerminalContents.StartupJobSays` | internal/reconcile/reconciler.go:331-404 | the same for the startup job, over the artifacts it reads |
| `ListingOrder.IsOrdered` | internal/reconcile/reconciler.go:406-420 | comparing neighbours decides the order of all pairs |
| `Reconcile.ValidateListing` | internal/reconcile/reconciler.go:225-283 | accepts exactly the good listings |
| `Reconcile.CheckItems` | internal/reconcile/reconciler.go:236-277 | every item is valid and no identifier repeats, both ways |
| `Reconcile.CollectActionable` | internal/reconcile/reconciler.go:140-148 | own claimed intents first, then the pending DKG ones |
| `Reconcile.LookUp` | internal/reconcile/reconciler.go:150-164 | both lookups of every intent, or the first that failed, and the number of candidates |
| `Reconcile.ResolveCandidate` | internal/reconcile/reconciler.go:179-219 | the only candidate is reconstructed if claimed, else claimed once and failed if the claim repeats its identity |
| `Reconcile.Decide` | internal/reconcile/reconciler.go:165-222 | none, one or several candidates decide the answer; the trailing Eligible after the second pass is never reached |
| `Reconcile.Reconcile` | internal/reconcile/reconciler.go:108-223 | the answer and the calls for every listing, store state and claim response |
| `Reconcile.StartupJobExists` | internal/reconcile/reconciler.go:331-379 | a validated intent always has a startup job |
| `Reconcile.ClaimComesLast` | internal/reconcile/reconciler.go:108-205 | at most one claim, the last call, after validation, preflight and every lookup |
| `Reconcile.JobIsTheCandidates` | internal/reconcile/reconciler.go:165-219 | a job is returned only for the unique candidate |
| `Reconcile.CompletedNeedsBothArtifacts` | internal/reconcile/reconciler.go:331-404 | COMPLETED only for an own claimed intent with two matching artifacts |
| `Reconcile.EligibleExactly` | internal/reconcile/reconciler.go:168-177 | Eligible if and only if nothing listed needs a publication and every check passed |
| `ReconcileAnswers.GoodListingExactly` | internal/reconcile/reconciler.go:225-283 | a listing is good if and only if it answers 200, has at most one sound own claimed DKG, sound unexpired pending ones in order of time and identifier, and no identifier twice |
| `ReconcileAnswers.ActionableIsListed` | internal/reconcile/reconciler.go:140-148 | every own claimed and every pending DKG intent is looked at, and nothing else |
| `ReconcileAnswers.EligibleMeansNoWork` | internal/reconcile/reconciler.go:140-177 | Eligible if and only if all stores answered and no listed intent is claimed or has an artifact |
| `ReconcileAnswers.TwoThatNeedWork` | internal/reconcile/reconciler.go:165-177 | two intents that need work are never resolved: no claim, no publication |
| `ReconcileAnswers.OnlyWorkIsResolved` | internal/reconcile/reconciler.go:165-219 | the only one is published from its artifacts if claimed; otherwise it is claimed once, last, and published as failed exactly when the claim repeats all of it |
| `Base64.DecodeInvertsEncode` | internal/contract/mpc2of3/digest.go:11-29 | base64 of section 5 of RFC 4648 decodes to what was encoded |
| `Base64.DigestRoundTrip` | internal/contract/mpc2of3/digest.go:11-29 | a text parses to a digest if and only if it is that digest's text |
| `Base64.StdEncodeInjective` | internal/approval/sign_gate.go:95-104 | the padded text of an execution digest determines it |
| `Base64.Alphabets` | internal/contract/mpc2of3/digest.go:11-29 | the two alphabets of RFC 4648, sections 4 and 5 |
| `Hex.EncodeInvertsDecode` | internal/signingpolicy/prepared.go:110-113 | lower-case hexadecimal decodes and encodes back to itself |
| `Hex.DecodesExactly` | internal/signingpolicy/prepared.go:110-113 | a text decodes exactly when it is pairs of hexadecimal digits of either case |
| `Decimals.CanonicalIsDec` | internal/signingpolicy/numbers.go:8-21 | canonical decimals are exactly the texts of naturals |
| `Decimals.CanonicalUint` | internal/signingpolicy/numbers.go:8-21 | the scan accepts exactly those |
| `Decimals.DecInjective` | internal/signingpolicy/numbers.go:25-32 | different naturals have different texts |
| `TransferCall.EncodeTransfer` | internal/signingpolicy/token_call.go:9-20 | fills the 68-byte buffer with the specified call, or yields nothing |
| `TransferCall.DecodeInvertsCallData` | internal/signingpolicy/token_call.go:9-20 | a built call is 68 bytes and decodes to exactly its recipient and amount |
| `TransferCall.CallDataInvertsDecode` | internal/signingpolicy/token_call.go:9-20 | whatever decodes is the call of its recipient and amount |
| `TransferCall.EvmAddressBytes` | internal/contract/approval/ethereum.go:12-12 | a canonical address names twenty bytes and is their only canonical text |
| `TransferCall.PrefixIsDropped` | internal/signingpolicy/token_call.go:9-20 | exactly the prefix 0x is dropped, once |
| `TransferCall.SignedNumbers` | internal/signingpolicy/token_call.go:9-20 | an amount may carry one sign, and needs a digit |
| `Rlp.StrReadsBack` | internal/signingpolicy/ethereum_prepared.go:34-52 | an RLP string reads back from the front of any bytes |
| `Rlp.EncodeTxInjective` | internal/signingpolicy/ethereum_prepared.go:34-52 | the bytes of an unsigned type 2 transaction determine it |
| `Rlp.TxLayout` | internal/signingpolicy/ethereum_prepared.go:34-44 | the eight fields of EIP-1559 in order, then an empty access list, in one list |
| `Protobuf.VarintSize` | internal/signingpolicy/tron_prepared.go:149-156 | the shifting loop yields the length of the encoding |
| `Protobuf.VarintIsShortest` | internal/signingpolicy/tron_prepared.go:149-156 | that length is the least s with n < 128^s |
| `Protobuf.SignedSizeIsExact` | internal/signingpolicy/tron_prepared.go:124-127 | the computed size is the exact length of the signed transaction |
| `EthereumPrepared.AtMostOneTransaction` | internal/signingpolicy/ethereum_prepared.go:46-66 | one policy accepts at most one byte string, whatever the decoder does |
| `EthereumPrepared.BytesBindTheTerms` | internal/signingpolicy/ethereum_prepared.go:46-66 | two policies that accept the same bytes agree on chain, nonce, gas and fees, and on the transfer where both are native or both are token transfers |
| `EthereumPrepared.SameTransaction` | internal/signingpolicy/ethereum_prepared.go:46-66 | whatever the two decoders, bytes accepted twice decode to one transaction on one chain |
| `EthereumPrepared.TokenCallIsTheTransfer` | internal/signingpolicy/ethereum_prepared.go:55-64 | an accepted token transfer carries the call of just that recipient and amount |
| `TronPrepared.Budget` | internal/signingpolicy/tron_prepared.go:114-148 | the text of the worst-case fee exactly when the quote is honoured |
| `TronPrepared.BandwidthIsExact` | internal/signingpolicy/tron_prepared.go:124-130 | the charged bandwidth is the signed length plus 64 for every signature |
| `TronPrepared.TokenCallIsTheTransfer` | internal/signingpolicy/tron_prepared.go:100-111 | an accepted token transfer is the approved sender's call of the approved contract with just that recipient and amount |
| `Prepared.OneEthereumTransaction` | internal/signingpolicy/prepared.go:86-123 | for a fixed Ethereum policy at most one unsigned transaction and digest is accepted |
| `Prepared.SameBytesSameTransfer` | internal/signingpolicy/prepared.go:86-123 | two approvals that accept the same Ethereum bytes agree on chain, recipient, amount and contract; a native and a token transfer never share bytes |
| `Prepared.EthereumTokenCall` | internal/signingpolicy/prepared.go:86-123 | an accepted ERC-20 transfer calls the approved contract with the approved recipient and amount; a failed encoding is never matched |
| `Prepared.TronTokenCall` | internal/signingpolicy/prepared.go:86-123 | the same for TRC-20: the approved sender is the owner, the approved contract is called, with the approved Base58Check recipient and amount |
| `Prepared.EthereumFeeWithinCap` | internal/signingpolicy/prepared.go:86-123 | acceptance keeps gas times maximum fee within the approved cap |
| `Prepared.TronFeeWithinCap` | internal/signingpolicy/prepared.go:86-123 | acceptance keeps the worst-case TRON fee within the approved cap |
| `PreparedTerms.EthereumBytesExactly` | internal/signingpolicy/ethereum_prepared.go:46-66 | bytes are accepted if and only if they are a type 2 transaction with the policy's chain, nonce, gas and fees that pays its recipient its amount, in numbers and addresses |
| `PreparedTerms.TronBytesExactly` | internal/signingpolicy/tron_prepared.go:88-112 | bytes are accepted if and only if they are a plain, timely transaction that pays as the policy says, in TRX or by a token call |
| `PreparedTerms.ApprovedExactly` | internal/signingpolicy/prepared.go:90-101 | an authorization is approved if and only if it is the hashed one of this request and its terms are those of its chain |
| `PreparedTerms.QuotesExactly` | internal/signingpolicy/tron_prepared.go:114-148 | a quote is honoured if and only if it states the cost in full: with a fee limit, to an existing and to a missing destination |
| `PreparedTerms.EthereumAcceptedExactly` | internal/signingpolicy/prepared.go:86-123 | an Ethereum check accepts if and only if the authorization is the hashed one, its terms are the chain's and the policy's, and the bytes with this digest are that transfer within the cap |
| `PreparedTerms.TronAcceptedExactly` | internal/signingpolicy/prepared.go:86-123 | a TRON check accepts under the same conditions, at a fee the quote states |
| `PreparedTerms.EthereumNativeTransfer` | internal/signingpolicy/ethereum_prepared.go:55-59 | an approved transfer of ETH sends the approved amount to the approved recipient, with no data |
| `PreparedTerms.TronNativeTransfer` | internal/signingpolicy/tron_prepared.go:95-99 | an approved transfer of TRX is one transfer with no fee limit from the approved sender to the approved recipient of the approved amount |
| `Retry.DelayIsCappedDoubling` | internal/terminal/retry.go:95-108 | in 64-bit arithmetic the delay is the initial one doubled attempt - 1 times, at most the maximum, with no overflow |
| `Retry.DelayNeverShrinks` | internal/terminal/retry.go:95-108 | later attempts never wait less |
| `Retry.JitterStaysInRange` | internal/terminal/retry.go:65-93 | any jitter stays between zero and the maximum |
| `Retry.AttemptsKeepWaiting` | internal/terminal/retry.go:137-142 | the attempt counter saturates, and the delay with it |

## Left out

- HTTP clients, request signing and response decoding: answers are arbitrary.
- Platform filesystem calls: rename without replacement and fsync are assumed to do what they promise; temporary files, capability probes, permissions and lock files are not modelled.
- SHA-256, Keccak, Ed25519, AES-GCM, secp256k1, Base58Check, JSON canonicalization and the protobuf and RLP decoders: arbitrary deterministic functions.
- MPC Core: a call with an arbitrary result.
- The field-by-field checks of a claimed intent's payload: one arbitrary predicate that the session consults.
- Metrics, logging, health, configuration, build identity, lifecycle coordination, active-pair registration and pre-parameter pools: they would only add easy members.
- Floating-point backoff and jitter: arbitrary values; only the clamping around them is modelled.
- The dispatcher's 64-bit sequence counter is unbounded here.
- Scheduler.Scheduler.DispatchBatch: other threads act between the intents of a batch, not within one admission; the interleavings within an admission are those of the `Permits` state machine.
- SessionWorker.RunSignProtocol: a transport stop is placed before the reservation, during Core or after it; further stops have no effect.
- SessionRun.RunSign: no contract forces a transport stop offered during or after Core to take effect; the log shows the stops that did.
- SessionRun.Execute: what an undisturbed SIGN reports is stated only for a transport that was not stopped; after a stop only the order of effects, the prevailing transport error and the settlement are.
- Router: the three per-party sends, one receive at a time per party and the network receiver are steps of one machine; frames are not copied, because values are never shared.
