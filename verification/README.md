# AgentWharf in Dafny

AgentWharf is a session gateway. Its Hub keeps one durable, numbered event stream per Session, fans it
out to clients that may come and go, and hands commands and credentials to adapters that own provider
processes. This project models the parts of it that are state machines or loops over unbounded runs, and
proves what they promise over every run and every input.

A concurrent protocol is a state machine whose steps are the source's critical sections, ledger calls and
socket writes; its theorems speak about every execution, given as a sequence of states. Where the source
updates an object in place or works in a loop, a class or a method with loops does the same and is proved
against the functions that those theorems are about. Clocks, randomness, I/O failures, provider answers
and what the kernel reports are parameters.

| modules | part of the system |
|---|---|
| `PublicationGate` | the FIFO gate that serialises a Session's publications |
| `Subscriptions`, `Delivery`, `DeliveryProofs`, `DeliveryHistory`, `GatedDelivery`, `DeliveryRuns` | replay-to-live handoff and fan-out of one Session, composed with the gate |
| `ClientCursor` | the TypeScript client's cursor across reconnects, composed with all of the above |
| `EventBatcher` | the adapter event batcher |
| `Masking`, `MaskingProofs`, `MaskingText`, `MaskingStreams` | the streaming secret masker, its writer and its reader |
| `CommandLedger`, `CommandRows`, `CommandVerdicts` | durable command delivery and what the waiting peers are told |
| `TargetJoin`, `TargetJoinRuns`, `TargetJoinHandler` | the Ping/Pong barrier before a bearer is handed over |
| `CredentialIssuer`, `CredentialLifetimes`, `CredentialRotation` | credential lineages in the Hub and in the adapter |
| `OwnershipStorage`, `OwnershipFiles`, `ProcessOwnership`, `ProcessCalls`, `ProcessRecords`, `ProcessOwner`, `ProcessInventory` | crash-safe ownership of a provider's process tree |
| `ByteEncoding`, `SettingsEncoding`, `FileReferenceEncoding` | the byte encodings behind capability fingerprints |
| `HistoryPages`, `SettingsChange` | history paging, settings outcomes and launch settings |
| `Utf8Text`, `MessageSplit`, `ToolResult` | output loops that cut on rune boundaries |

Assumptions of the delivery theorems: a hello names each Session once; append and broadcast happen inside
the gate; no event published live has a filtered type; a replay yields consecutive events up to at least
the latest one at its start; one socket at a time, no encryption and no tail skip for the client theorem.
A publication that returns after its append and before its broadcast is part of the model: those of its
events that were never broadcast are `abandoned`.

Where a promise does not hold on all inputs the code is kept as it is, the failing case is given, and the
exact condition is proved:

- Masking does not depend on chunking exactly when no kept secret ends strictly inside another one. A
  secret that is a suffix of another one is harmless, so "no proper substring" is sufficient, not necessary.
- Masking a whole text secret by secret replaces a byte of every occurrence of every kept secret, but a later
  secret may match across a marker that an earlier one left, so the result is not always made of whole markers.
- A filtered durable event that arrives live during replay is marked sent at once. The coming drain still
  writes everything it owed exactly when no buffered event lies between the old mark and the filtered one.
- A connection lacks an unfiltered event up to the newest one it dealt with exactly when the event was
  abandoned, lies above what that connection's replay yielded, and was not republished to it before
  something higher. A client lacks exactly what the connection over which its cursor passed the event lacks.
- A peer whose command was acknowledged hears a rejection from a timeout or disconnect as well exactly when
  that one took the waiter between the acknowledgement's look-up and its answer. The acknowledgement is the
  only one to speak exactly when the waiter was still registered as it answered, no other acknowledgement
  of the command had looked the waiter up, and the write did not fail. A rejection stands over a completed
  row exactly when it is a terminal rejection, or its own resolution took effect though it reported an
  error, or the resolution of another acknowledgement took effect.
- The issuer's comment promises that a preflighted activation cannot fail. That holds after every run of
  calls on other bearers exactly when the bearer is still pending; an active one can be replaced.
- A rejected bearer stays rejected exactly as long as no call evicts it from the full retired set and none
  activates it after it was prepared again.
- A restart that yields an owner yields a quarantined one exactly when the manifest it reads is not clean;
  a directory that does not read at all, or a quarantine that cannot be committed, yields no owner. A
  committed quarantine therefore lasts; one whose commit failed is forgotten when the directory still reads
  clean.
- Message splitting ends on every valid text exactly when each text of at least two bytes and less than
  twice its first rune fits. Tool-result shrinking ends for every budget exactly when the first 128 runes
  of the name take at most 256 bytes.
- The mapper's settings encoder agrees with the codec's exactly when neither change mode is "unsupported".

## Model

| member | source | states |
|---|---|---|
| `PublicationGate.StepKeepsValid` | hub/event_batcher.go:21-52 | every entry, admission, cancellation relay and release keeps the invariant of tickets, links, tail entries and grants |
| `PublicationGate.MutualExclusion` | hub/event_batcher.go:16-52 | in every run at most one caller per Session is inside the gate |
| `PublicationGate.NoBypass` | hub/event_batcher.go:31-42 | nobody enters before every earlier caller of the Session, admitted or cancelled, has released |
| `PublicationGate.GrantsAreFifo` | hub/event_batcher.go:21-43 | grants within a Session follow ticket order |
| `PublicationGate.TailIsExact` | hub/event_batcher.go:45-52 | a Session has a tail entry exactly while some ticket of it is unreleased |
| `PublicationGate.NoStuckSession` | hub/event_batcher.go:21-52 | while a ticket is unreleased, the oldest such ticket of its Session can make its next move |
| `PublicationGate.PassedOverIffCancelled` | hub/event_batcher.go:31-42 | in every run a ticket leaves the queue without being let in exactly when it was cancelled while waiting |
| `PublicationGate.CancelledIsNeverLetIn` | hub/event_batcher.go:34-41 | a cancelled ticket is never granted at any later point |
| `PublicationGate.SessionPublicationGates.Acquire` | hub/event_batcher.go:21-29 | taking a ticket queues it behind the Session's tail and admits it at once when there is none |
| `PublicationGate.SessionPublicationGates.Await` | hub/event_batcher.go:31-43 | a waiter enters when its predecessor is done; cancelled, it leaves and relays its release |
| `PublicationGate.SessionPublicationGates.ReleaseTicket` | hub/event_batcher.go:45-52 | release closes the ticket and drops the tail entry only if it is the tail |
| `Subscriptions.OfferKeepsWellFormed` | hub/websocket.go:3969-3987 | the replay buffer stays within 1024 events and each ephemeral index points at its type's entry |
| `Subscriptions.BufferHoldsNewest` | hub/websocket.go:3969-3987 | over any events offered during replay the buffer holds, where the first of its type stood, exactly the last ephemeral of each type, and every durable event, up to the bound |
| `Subscriptions.FilteredDuringReplay` | hub/websocket.go:3959-3962 | a filtered live event during replay loses a buffered event exactly when one lies between the old mark and it |
| `Subscriptions.FilteredDuringReplayLoses` | hub/websocket.go:3959-3962 | a buffer that loses its event to a filtered one with a higher number |
| `Subscriptions.DrainLaw` | hub/websocket.go:4006-4046 | draining writes, in rising order, exactly the buffered numbers above the mark that stand before any higher one, and ends at the highest, which was written |
| `Subscriptions.DrainInOrder` | hub/websocket.go:4006-4046 | with the buffer in publication order every durable event above the mark is written |
| `Subscriptions.DrainPicks` | hub/websocket.go:4006-4046 | a drain writes every buffered ephemeral and every durable event that is not stale when its turn comes, in buffer order, and nothing else |
| `Subscriptions.ClientConnection.SendLiveEvent` | hub/websocket.go:3946-3999 | a live event is buffered, takes the place of its type, is skipped as stale, written, or overflows, and the state is that of the specification whose buffer `BufferHoldsNewest` describes |
| `Subscriptions.ClientConnection.WriteReplayEvent` | hub/websocket.go:3934-3944 | a replayed event is written and then marked, a filtered one only marked |
| `Subscriptions.ClientConnection.WriteBufferedEvent` | hub/websocket.go:4032-4046 | a buffered event is written exactly when it is not stale |
| `Subscriptions.ClientConnection.FinishReplay` | hub/websocket.go:4006-4030 | the drain loop writes exactly what is owed and goes live, or stops where the socket fails |
| `Subscriptions.ClientConnection.MarkEventSent` | hub/websocket.go:4048-4058 | marking raises the mark of the event's Session and nothing else |
| `DeliveryProofs.StepKeepsState` | hub/websocket.go:851-919 | every interleaved step of registration, replay, drain, publication, broadcast and disconnect keeps each connection's invariant |
| `DeliveryHistory.StepKeepsHistory` | hub/websocket.go:3934-4058 | every step keeps each wire equal to what replay yielded and what was offered in time, and every fed connection within reach of all that was broadcast |
| `GatedDelivery.AtMostOnePublication` | hub/websocket.go:3665-3672 | the gate lets at most one publication of the Session be under way |
| `GatedDelivery.StepSimulates` | hub/connection_dispatch.go:205-235 | the gated system refines the one with a single publisher |
| `GatedDelivery.DeliveredInOrder` | hub/websocket.go:3934-4058 | in every run each connection's durable events rise strictly from its hello cursor without duplicate or reordering, and exactly the missed events are absent: abandoned, above what replay yielded, and not republished in time |
| `GatedDelivery.SettledIsCaughtUp` | hub/websocket.go:851-895 | a live connection outside publications was sent everything up to the latest event, except exactly what it missed |
| `GatedDelivery.AbandonedEventIsSkipped` | hub/websocket.go:1467-1482 | a run in which a publication returns before its broadcast and a live connection never sees that event |
| `DeliveryRuns.NewestEphemeral` | hub/websocket.go:3946-3999 | in every run the last ephemeral of a type that a connection carries, written, in flight or waiting, is exactly the newest one sent to it that it took, unless its replay ended with an error |
| `DeliveryRuns.LiveCarriesWire` | hub/websocket.go:4006-4030 | once replay has handed over to live sends all of that is on the wire |
| `DeliveryRuns.FinishedIsOffered` | hub/connection_dispatch.go:205-235 | when a publication finishes, each event it appended or republished was broadcast and offered to every connection that was there at its start and is still registered |
| `DeliveryRuns.ClosedIff` | hub/websocket.go:3946-3999 | a connection is closed exactly when its client disconnected, and is written nothing from then on |
| `ClientCursor.HandledExactlyOnce` | client-ts/src/index.ts:1045-1057 | over any number of reconnects the handlers see each durable event at most once, in order, and up to the cursor exactly those are missing that the connection in use missed |
| `ClientCursor.UpToDateSawEverything` | client-ts/src/index.ts:1162-1181 | a client that caught up has handled the whole stream above its first cursor, except exactly what its connections missed |
| `ClientCursor.HandlersSeeTheSocket` | client-ts/src/index.ts:1045-1057 | in every run the handlers were last called with exactly what the open socket has handed over, in order, ephemeral events included |
| `ClientCursor.AgentWharfClient.HandleEvent` | client-ts/src/index.ts:1045-1057 | every event reaches the handlers, and its Session's cursor, no other's, moves up to it |
| `ClientCursor.AgentWharfClient.LastSeq` | client-ts/src/index.ts:646-648 | the cursor of a Session, zero when unknown |
| `EventBatcher.ItemsConserved` | hub/event_batcher.go:114-203 | flushed batches, current batch and queue are the accepted items in order; batches before shutdown hold 1 to maxEvents items |
| `EventBatcher.StoppedIsFinal` | hub/event_batcher.go:197-200 | after the loop stopped nothing is flushed; a later item stays on the queue |
| `EventBatcher.NumbersRise` | hub/event_batcher.go:205-238 | broadcast sequence numbers rise strictly and are in the Store |
| `EventBatcher.ConsecutiveNumbers` | hub/event_batcher.go:220-237 | with no failed append and no other writer the flushed items go out under consecutive numbers |
| `EventBatcher.FlushedIsHanded` | hub/event_batcher.go:173-238 | the batches flushed are exactly those that a full batch, the timer or the shutdown handed over, in order |
| `EventBatcher.StoredIsBroadcast` | hub/event_batcher.go:205-238 | every item of a flush whose append succeeded is broadcast under the Store's newest number at that step plus its place in the batch |
| `EventBatcher.BroadcastWasStored` | hub/event_batcher.go:205-238 | and everything broadcast is such an item of such a flush, in order |
| `EventBatcher.FailedAppendIsSilent` | hub/event_batcher.go:221-225 | a flush whose append fails leaves the log and the Store's newest number alone |
| `EventBatcher.PhaseIff` | hub/event_batcher.go:165-203 | the loop is cancelled, draining and stopped exactly when those steps were taken, never draining before it was cancelled |
| `EventBatcher.AdapterEventBatcher.Put` | hub/event_batcher.go:114-137 | an item is accepted at the end of the queue while there is room |
| `EventBatcher.AdapterEventBatcher.FlushBatch` | hub/event_batcher.go:205-238 | a persisted batch is broadcast from the Store's first number on; a failed one is dropped |
| `EventBatcher.AdapterEventBatcher.ReceiveItem` | hub/event_batcher.go:186-194 | an item joins the batch, which is flushed when full |
| `EventBatcher.AdapterEventBatcher.Shutdown` | hub/event_batcher.go:173-200 | the drain and the final flush leave nothing behind |
| `MaskingProofs.NoSecretLeavesRaw` | masking/masking.go:138-171 | for any secrets and chunking every occurrence of a kept secret in the input has a replaced byte |
| `MaskingProofs.FeedConserves` | masking/masking.go:138-171 | a call accounts for all its data and holds back at most maxLen-1 bytes |
| `MaskingProofs.StreamConserves` | masking/masking.go:138-171 | a whole stream is accounted for however it was cut |
| `MaskingProofs.ChunkIndependence` | masking/masking.go:138-188 | the output equals masking the whole input for every chunking exactly when no kept secret ends strictly inside another |
| `MaskingProofs.SingleSecretStream` | masking/masking.go:48-56 | with one secret the stream's output is what MaskString gives for the whole input |
| `MaskingText.NoSecretStaysWhole` | masking/masking.go:48-56 | for any number of secrets the masked text is made of bytes of the text in order and bytes of markers, and every occurrence of every kept secret lost a byte |
| `MaskingText.CleanTextStays` | masking/masking.go:48-56 | a text in which no kept secret occurs comes back unchanged |
| `MaskingText.MarkerIsCut` | masking/masking.go:48-56 | a text in which a later secret matches across the marker of an earlier one |
| `MaskingStreams.NewWithReplacement` | masking/masking.go:21-46 | keeps the distinct secrets of at least four bytes and holds back one byte less than the longest |
| `MaskingStreams.NextMatch` | masking/masking.go:173-188 | the leftmost match, the longest one there |
| `MaskingStreams.MaskStreamChunk` | masking/masking.go:138-171 | the loop writes and holds back what the piecewise model says |
| `MaskingStreams.MaskString` | masking/masking.go:48-56 | one replacement pass per secret in order, the function that `NoSecretStaysWhole` is about; with one secret it is the reference scan |
| `MaskingStreams.Writer.Write` | masking/masking.go:108-119 | the chunk is consumed, the sink gets what it takes of the masked bytes, the result says whether it took all, and the sink is the whole masking so far exactly while nothing was lost |
| `MaskingStreams.Writer.Close` | masking/masking.go:121-136 | after closing the sink holds the masking of the whole stream exactly when it took everything; a failed flush leaves it open |
| `MaskingStreams.Reader.Read` | masking/masking.go:70-95 | at end of file what was delivered, in pieces of any size, is the masking of everything read |
| `CommandLedger.StepOk` | hub/websocket.go:2765-2856 | every step of sends, redeliveries, acknowledgements, timeouts and disconnects keeps claims, writes and verdicts consistent with the ledger |
| `CommandLedger.WrittenAtMostOnce` | hub/websocket.go:3280-3330 | over any run each command reaches an adapter at most once, counting writes that reported an error, and only after its row was claimed |
| `CommandLedger.AcceptedMeansCompleted` | hub/websocket.go:2341-2378 | a peer is told accepted only for a row that is completed, then and ever after |
| `CommandLedger.AcceptedIsAcknowledged` | hub/websocket.go:2341-2378 | a peer is told accepted only by an adapter's acknowledgement of acceptance for its own command |
| `CommandLedger.RowsAreFinal` | store/store.go:234-268 | a completed row stays completed, an outcome-unknown one stays unknown, and no row goes back to pending |
| `CommandRows.RowIffStored` | store/store.go:234-268 | in every run a command has a row exactly when an earlier send stored it, committed or refused after the commit took effect |
| `CommandRows.UnknownIffGivenUp` | hub/websocket.go:2583-2594 | a row is outcome-unknown exactly when an earlier step that gives the command up took effect while the row was pending or received |
| `CommandRows.LeftPendingIff` | hub/websocket.go:3280-3330 | a row has left pending exactly when an earlier claim took effect or it was given up while pending |
| `CommandRows.WrittenIff` | hub/websocket.go:2765-2856 | a command was written exactly when an earlier write step of a thread that registered it took effect |
| `CommandRows.AcceptedIff` | hub/websocket.go:2341-2378 | a command is in the cache of accepted ones exactly when an acknowledgement of acceptance was finished |
| `CommandRows.AnsweredAtOnceIff` | hub/websocket.go:2765-2827 | a peer is answered without a thread exactly by a refused send or a duplicate |
| `CommandVerdicts.TraceOk` | hub/websocket.go:2341-2378 | in every run each thread that spoke to a peer is logged exactly once with its verdict, and acknowledgements and timeouts speak to the waiter that the row's claimant registered |
| `CommandVerdicts.TakenIffBetween` | hub/websocket.go:2363-2378 | a timeout or disconnect also speaks to a waiter that an acknowledgement answers exactly when it took the waiter between that acknowledgement's look-up and its answer |
| `CommandVerdicts.TakerTellsToo` | hub/websocket.go:2583-2594 | in that case the peer has the acknowledgement's verdict and has or is about to get a rejection |
| `CommandVerdicts.OneVoiceIff` | hub/websocket.go:2363-2378 | an acknowledgement is the only one to speak to its waiter exactly when the entry was still there as it answered, no other acknowledgement had looked it up, and the write did not fail |
| `CommandVerdicts.OneVerdict` | hub/websocket.go:2363-2378 | the log then holds exactly one verdict of any thread for the command |
| `CommandVerdicts.DoneIffCompleted` | hub/websocket.go:2363-2369 | in every run a row is completed exactly when some resolution of the received row took effect, whatever it reported |
| `CommandVerdicts.RejectedOverCompletedIff` | hub/websocket.go:2363-2373 | a rejection, also of a refused send, stands over a completed row exactly when it is a terminal rejection, its own resolution took effect though it reported an error, or the resolution of another acknowledgement took effect |
| `CommandVerdicts.TakerRejectsCompletedIff` | hub/websocket.go:2583-2594 | a timeout or disconnect rejects a completed row exactly when the resolution of an acknowledgement that started before it took effect |
| `CommandVerdicts.TimeoutRacesAcknowledgement` | hub/websocket.go:2583-2594 | a run in which the same peer is told rejected by the timeout and then accepted |
| `CommandVerdicts.StrayAcknowledgementRejects` | hub/websocket.go:2341-2349 | a run in which a second acknowledgement contradicts the first though no timeout took the waiter |
| `CommandVerdicts.TerminalRejectionCompletes` | hub/websocket.go:2370-2373 | a run in which a terminal rejection completes the row it rejects |
| `CommandVerdicts.LostAnswerRejectsCompleted` | hub/websocket.go:2364-2368 | a run in which a resolution completes the row, reports an error, and the peer is told rejected |
| `CommandVerdicts.RefusedSendCompletes` | hub/websocket.go:2816-2827 | a run in which a send is refused after its commit stored the row, and a redelivery completes it |
| `TargetJoin.MapsInBijection` | hub/warm_attach_credential.go:86-95 | the nonce and attach maps hold the same entries, at most 64 |
| `TargetJoin.NoLaterWrite` | hub/warm_attach_credential.go:147-182 | once the reader decoded a data frame or the entry left the maps, no run writes its bearer |
| `TargetJoin.OwnPongReleases` | hub/warm_attach_credential.go:251-262 | a frame is written only by a Pong on the entry's own socket that echoes the delivery's own nonce, while the entry is registered, unexpired and its reader reading |
| `TargetJoin.DeliveredOnce` | hub/warm_attach_credential.go:219-273 | at most one frame per entry; a delivery that succeeded is the one that was written |
| `TargetJoin.ResultSentOnce` | hub/warm_attach_credential.go:165-182 | no result channel is ever sent a second value, so a send under the lock never blocks |
| `TargetJoin.ResultIff` | hub/warm_attach_credential.go:165-182 | a delivery was sent a result exactly when an accepted Pong, saying whether its frame was written, or observed input, as a refusal, settled it |
| `TargetJoin.OutcomeIff` | hub/warm_attach_credential.go:219-250 | the delivering call returned exactly what its result says, or failure because it was refused or gave up |
| `TargetJoin.WrittenIffTold` | hub/warm_attach_credential.go:251-273 | a frame was written on a socket exactly for the delivery of that socket that was told success |
| `TargetJoinRuns.RegisteredIff` | hub/warm_attach_credential.go:64-130 | in every run an entry is registered exactly when it was admitted, unexpired, with room and a free attach ID, and no later step expired, cancelled, settled or forgot it |
| `TargetJoinRuns.ClaimedIff` | hub/warm_attach_credential.go:184-198 | an entry is claimed exactly when an earlier claim presented its nonce while it was registered and unexpired |
| `TargetJoinRuns.ClaimedOnce` | hub/warm_attach_credential.go:184-198 | no run claims an entry twice |
| `TargetJoinRuns.ReadingIff` | hub/warm_attach_credential.go:147-163 | its socket is being read exactly when a reader was started on the claimed entry and has decoded nothing since |
| `TargetJoinRuns.HoldsIff` | hub/warm_attach_credential.go:219-242 | an entry holds a delivery exactly when that was the last one that armed it |
| `TargetJoin.StepKeeps` | hub/warm_attach_credential.go:64-362 | every critical section keeps maps, entries and deliveries consistent |
| `TargetJoinHandler.PendingTargetJoins.Begin` | hub/warm_attach_credential.go:86-95 | a join is registered unless expired, full or taken |
| `TargetJoinHandler.PendingTargetJoins.Claim` | hub/warm_attach_credential.go:184-198 | only a registered, unclaimed, unexpired entry is bound to the socket that presents its nonce |
| `TargetJoinHandler.PendingTargetJoins.StartDelivery` | hub/warm_attach_credential.go:219-242 | a delivery arms the barrier with its own nonce, frame and channel |
| `TargetJoinHandler.PendingTargetJoins.CompleteDelivery` | hub/warm_attach_credential.go:251-273 | the Pong that echoes the armed nonce writes the frame, settles the delivery and removes the entry |
| `TargetJoinHandler.PendingTargetJoins.ObserveInput` | hub/warm_attach_credential.go:165-182 | observed input settles a waiting delivery as refused and removes the entry |
| `TargetJoinHandler.PendingTargetJoins.PruneExpired` | hub/warm_attach_credential.go:353-362 | exactly the expired entries leave both maps |
| `TargetJoinHandler.PendingTargetJoins.Forget` | hub/warm_attach_credential.go:331-347 | an entry is finished and leaves both maps |
| `CredentialIssuer.ExecutionOk` | auth/session_credential_issuer.go:56-201 | in every run active bearers are prepared, not pending and filed under their own key; pending ones are prepared; both stores hold at most 128 |
| `CredentialIssuer.KeyIsInjective` | auth/session_credential_issuer.go:292-294 | a lineage key determines its Session and kind, whatever the Session ID holds |
| `CredentialLifetimes.InfallibleIffPending` | auth/session_credential_issuer.go:117-136 | a validated credential activates after every run of calls on other bearers before it expires exactly when it is pending |
| `CredentialLifetimes.PreflightHolds` | auth/session_credential_issuer.go:117-136 | a pending preflighted bearer still activates after any calls on other bearers before it expires |
| `CredentialLifetimes.ActiveIsReplaceable` | auth/session_credential_issuer.go:107-113 | a preflighted bearer that is not pending is active, and some run of calls on other bearers makes its activation fail |
| `CredentialIssuer.ActivationReplaces` | auth/session_credential_issuer.go:93-115 | activation makes the bearer the accepted one and at once rejects its predecessor |
| `CredentialIssuer.PreparedIsNotAccepted` | auth/session_credential_issuer.go:76-87 | a prepared bearer is not accepted before it is activated |
| `CredentialIssuer.DiscardRejects` | auth/session_credential_issuer.go:140-156 | a discarded bearer is rejected at once |
| `CredentialLifetimes.StaysRejectedIff` | auth/session_credential_issuer.go:167-201 | a rejected bearer is rejected at every later point of the run, for any clock and any seal, exactly when no call evicts it and none activates it again |
| `CredentialLifetimes.RejectedIffBarred` | auth/session_credential_issuer.go:167-188 | a bearer is rejected for any clock and any seal exactly when it is retired and not active |
| `CredentialLifetimes.RevivedBearerIsAccepted` | auth/session_credential_issuer.go:76-115 | a run in which a discarded credential is prepared again, activated and accepted |
| `CredentialLifetimes.EvictedBearerOpensAgain` | auth/session_credential_issuer.go:190-201 | a run that fills the retired set and evicts a rejected bearer, which is then judged by its seal alone |
| `CredentialIssuer.LocalSessionCredentialIssuer.DiscardExpired` | auth/session_credential_issuer.go:280-290 | exactly the expired bearers leave the maps |
| `CredentialIssuer.LocalSessionCredentialIssuer.PrepareCredential` | auth/session_credential_issuer.go:56-87 | an invalid or expired request changes nothing; otherwise preparing is idempotent per bearer and bounded |
| `CredentialIssuer.LocalSessionCredentialIssuer.ActivateCredential` | auth/session_credential_issuer.go:93-115 | activation updates the four maps as specified and succeeds exactly on a known credential |
| `CredentialIssuer.LocalSessionCredentialIssuer.DiscardCredential` | auth/session_credential_issuer.go:140-156 | discarding removes and retires the bearer |
| `CredentialIssuer.LocalSessionCredentialIssuer.ActiveCredential` | auth/session_credential_issuer.go:168-188 | a bearer is accepted exactly when it is the active one of its lineage, or unknown, not retired and sealed |
| `CredentialRotation.GenerationsOrdered` | adapter/core/reconnect.go:83-174 | in every run prior, active and pending generations rise strictly, and a revoked or terminal rotation holds no credential |
| `CredentialRotation.RunsAdvance` | adapter/core/reconnect.go:192-208 | epochs and active generations only increase |
| `CredentialRotation.OldReceiptIsStale` | adapter/core/reconnect.go:117-174 | a possession receipt from before a reconnect never activates after it |
| `CredentialRotation.ReceiptActivates` | adapter/core/reconnect.go:117-174 | a possession receipt activates in the state that issued it and installs what was acknowledged |
| `CredentialRotation.AuthorityIsNotRestored` | adapter/core/reconnect.go:251-337 | once revoked, terminal or authority-lost, no later call restores authority |
| `CredentialRotation.ActivationInstallsPending` | adapter/core/reconnect.go:139-174 | an activation installs exactly the pending credential and keeps the old one as prior |
| `CredentialRotation.PendingIff` | adapter/core/reconnect.go:83-115 | in every run a credential is pending exactly when a call took it, the slot being free and its generation later than the active one, and no later step ended it |
| `CredentialRotation.PreparedIff` | adapter/core/reconnect.go:83-115 | a call to prepare, first or repeated, succeeds exactly when what is pending afterwards has its rotation ID and its metadata |
| `CredentialRotation.ActiveIff` | adapter/core/reconnect.go:139-174 | a credential is active exactly when it was the first or was installed from pending by its own receipt, and no later step retired it |
| `CredentialRotation.EpochIff` | adapter/core/reconnect.go:192-208 | the epoch is that of the highest reconnect taken: a higher epoch, the active generation, live authority |
| `CredentialRotation.AuthorityIff` | adapter/core/reconnect.go:251-337 | authority lasts exactly until a step gives it up or finds the active credential expired |
| `CredentialRotation.RotationCompletes` | adapter/core/reconnect.go:83-174 | a rotation that nothing interferes with takes the next generation, gets its receipt and installs it, keeping the old one as prior |
| `CredentialRotation.CredentialRotationState.PrepareRotation` | adapter/core/reconnect.go:83-115 | a rotation is prepared, repeated or refused as specified, keeping the order |
| `CredentialRotation.CredentialRotationState.Acknowledge` | adapter/core/reconnect.go:117-137 | a receipt is issued for the pending rotation of the current epoch |
| `CredentialRotation.CredentialRotationState.ActivateRotation` | adapter/core/reconnect.go:139-174 | activation follows the receipt exactly, keeping the order |
| `CredentialRotation.CredentialRotationState.ReconnectAt` | adapter/core/reconnect.go:192-208 | a reconnect takes a higher epoch of the active generation only |
| `CredentialRotation.CredentialRotationState.CheckAuthorized` | adapter/core/reconnect.go:251-264 | an expired active credential gives authority up |
| `OwnershipStorage.CommitRoundTrip` | adapter/core/process_owner_linux.go:641-657 | a commit that succeeds is durable and reads back, after any crash too |
| `OwnershipStorage.CommitIsAtomic` | adapter/core/process_owner_linux.go:569-711 | whatever part of a commit survives a crash, a successful read gives the old manifest or the new one with exactly its record files |
| `OwnershipStorage.CommitHolds` | adapter/core/process_owner_linux.go:641-711 | a commit, complete or not, adds only its own manifest to what the directory may hold |
| `OwnershipStorage.ReadTracks` | adapter/core/process_owner_linux.go:569-640 | whatever is read back lists proper processes under distinct IDs, each with its own file at its version, and none when clean |
| `OwnershipFiles.OwnershipRoot.ReadManifest` | adapter/core/process_owner_linux.go:569-593 | reads a manifest of the right schema with sound, digested records in order that its record files match, and nothing else |
| `OwnershipFiles.OwnershipRoot.ValidateRecords` | adapter/core/process_owner_linux.go:609-640 | the scan accepts exactly the directories whose record files are the manifest's at its version |
| `OwnershipFiles.OwnershipRoot.WriteManifest` | adapter/core/process_owner_linux.go:641-657 | the writes, the sync and the removals follow the commit model, failing where told |
| `OwnershipFiles.OwnershipRoot.RemoveStale` | adapter/core/process_owner_linux.go:691-711 | exactly the record files the manifest does not list are removed |
| `ProcessOwnership.StartIsSafe` | adapter/core/process_owner_linux.go:103-132 | over all restarts, crashes and failed commits a start is allowed only when no earlier tree may live and the directory reads clean with no record files |
| `ProcessOwnership.RestartQuarantines` | adapter/core/process_owner_linux.go:65-102 | an owner that a restart yields is quarantined, durably, exactly when the manifest it read is not clean; while an earlier tree may live it always is |
| `ProcessOwnership.QuarantineIsForever` | adapter/core/process_owner_linux.go:262-276 | from a committed quarantine on every owner of every restart is quarantined |
| `ProcessOwnership.QuarantineKeepsRecords` | adapter/core/process_owner_linux.go:262-269 | a committed quarantine keeps the records of every tracked process |
| `ProcessOwnership.OwnerStaysQuarantined` | adapter/core/process_owner_linux.go:262-276 | within one owner quarantine is absorbing |
| `ProcessCalls.QuarantinedIff` | adapter/core/process_owner_linux.go:65-276 | in every run the owner is quarantined exactly when it was opened over a manifest that was not clean or one of its calls found what it could not account for |
| `ProcessCalls.MayLiveIff` | adapter/core/process_owner_linux.go:103-132 | a tree may be alive exactly when a call allowed it to start, numbered, on a clean directory, the previous tree settled, children listed and the manifest committed, and no later call found it gone |
| `ProcessCalls.CancelledStart` | adapter/core/process_owner_linux.go:103-132 | a start cancelled after the previous tree was settled writes nothing and leaves a clean owner |
| `ProcessRecords.CallsCommit` | adapter/core/process_owner_linux.go:465-483 | in every run a call whose commit succeeds leaves the synced manifest of the next version with the owner's new state and attempt and exactly the records of that state |
| `ProcessRecords.ObservedIsOnDisk` | adapter/core/process_owner_linux.go:151-177 | after an observed start whose commit succeeded the synced manifest and record files are exactly the inventory |
| `ProcessRecords.RecordsSurvive` | adapter/core/process_owner_linux.go:65-102 | until the next commit, whatever crashes follow, the owner of every restart holds exactly those records |
| `ProcessOwnership.UncommittedQuarantineIsForgotten` | adapter/core/process_owner_linux.go:65-102 | a run in which a quarantine that could not be committed is gone after a restart on a directory that still reads clean |
| `ProcessOwnership.StepOk` | adapter/core/process_owner_linux.go:65-260 | every call, death and crash keeps what a live tree and a committed quarantine require of the directory |
| `ProcessOwner.LinuxProcessTreeOwnership.PrepareStart` | adapter/core/process_owner_linux.go:103-132 | refuses unless the directory reloads clean and the previous tree is gone, and then persists the prepared attempt; anything unprovable quarantines |
| `ProcessOwner.LinuxProcessTreeOwnership.AbortStart` | adapter/core/process_owner_linux.go:133-150 | a prepared start is undone when no unexpected child is left, else quarantined |
| `ProcessOwner.LinuxProcessTreeOwnership.ObserveStarted` | adapter/core/process_owner_linux.go:151-177 | the started tree is recorded, or the owner quarantined |
| `ProcessOwner.LinuxProcessTreeOwnership.Quiesce` | adapter/core/process_owner_linux.go:178-245 | the owner becomes clean only when the tree stopped and no unknown child is left |
| `ProcessOwner.LinuxProcessTreeOwnership.EnterQuarantine` | adapter/core/process_owner_linux.go:262-276 | quarantine keeps the tracked records and is persisted if it can be |
| `ProcessOwner.LinuxProcessTreeOwnership.Persist` | adapter/core/process_owner_linux.go:465-483 | the version advances only when the commit succeeds, and never wraps; which records are written is stated by `CallsCommit` |
| `ProcessOwner.LinuxProcessTreeOwnership.ReloadClean` | adapter/core/process_owner_linux.go:277-286 | whether the directory reads as this runtime's clean manifest |
| `ProcessOwner.LinuxProcessTreeOwnership.ReconcilePrevious` | adapter/core/process_owner_linux.go:287-307 | a previous tree is given up only once it is gone |
| `ProcessInventory.Inventory` | adapter/core/process_owner_linux.go:308-336 | terminates; succeeds exactly when the root is in the table and its tree within the bound, and then returns the root and all its descendants |
| `ProcessInventory.ClosedIsTree` | adapter/core/process_owner_linux.go:320-336 | a set of descendants closed under children is the whole reflexive-transitive tree |
| `SettingsEncoding.DecodeInverts` | protocol/codec.go:1686-1759 | decoding the encoding of any valid capability, v1 or v2, gives it back |
| `SettingsEncoding.EncodingIsInjective` | protocol/codec.go:1686-1759 | two valid capabilities with the same bytes are the same |
| `SettingsEncoding.EncodeCapability` | protocol/codec.go:1686-1759 | the appending encoder produces that encoding |
| `SettingsEncoding.EncodeByMapper` | adapter/acp/mapper.go:989-1032 | the mapper's appending encoder, and when it gives the codec's bytes |
| `SettingsEncoding.MapperAgrees` | adapter/acp/mapper.go:989-1032 | on v1 both encoders agree exactly when neither change mode is "unsupported" |
| `SettingsEncoding.MapperAgreesOnValid` | protocol/codec.go:1313-1318 | so they agree on every capability the validator accepts |
| `SettingsEncoding.EncodingFollowsDocument` | spec/v2.md:882-895 | the bytes are, field by field, those of the protocol document; the first version leaves the efforts out |
| `FileReferenceEncoding.DecodeInverts` | protocol/codec.go:1372-1424 | decoding the encoding of any valid file-reference capability gives it back |
| `FileReferenceEncoding.EncodingIsInjective` | protocol/codec.go:1372-1424 | two valid file-reference capabilities with the same bytes are the same |
| `FileReferenceEncoding.EncodingFollowsDocument` | spec/v1.md:582-589 | the bytes are, field by field, those of the protocol document |
| `FileReferenceEncoding.Encode` | protocol/codec.go:1372-1424 | bytes exactly for a valid capability, and they decode to it |
| `HistoryPages.AcceptedWalkVisits` | hub/websocket.go:778-818 | following the cursors through any accepted pages, gaps included, visits events in strictly ascending order within the first page's range, and the cursor falls with every page |
| `HistoryPages.AcceptedWalkFills` | hub/websocket.go:778-818 | every page of an accepted walk but the last is full, so what was visited is as much as was asked for |
| `HistoryPages.WalkVisits` | hub/websocket.go:778-818 | after any number of complete pages exactly the events from where the walk stands to the first page's latest were visited once |
| `HistoryPages.WalkEnds` | hub/websocket.go:797-816 | the walk ends with 1 to the latest event visited once, in at most that many pages |
| `HistoryPages.AcceptedPagePasses` | protocol/codec.go:2065-2078 | every page the Hub accepts passes the codec's and the client's checks |
| `HistoryPages.ValidHistoryPage` | hub/websocket.go:778-818 | the Hub's check accepts exactly the pages described |
| `HistoryPages.ValidResponse` | protocol/codec.go:2065-2078 | the codec's check accepts exactly the pages described |
| `SettingsChange.AppliedMeansOverlay` | cmd/agentwharf/acp_settings.go:757-905 | for any provider answers an execution published as applied reports exactly the requested values over the reserved ones |
| `SettingsChange.AppliedIff` | cmd/agentwharf/acp_settings.go:757-905 | applied is published exactly when the reservation is current and every needed value could be sent, was updated, and the values reported last are the requested ones over the reserved |
| `SettingsChange.FaithfulProviderApplies` | cmd/agentwharf/acp_settings.go:757-905 | with a provider that does what it is asked a change is applied exactly when the reservation is current, what it needs may be sent, and the rest is as reserved |
| `SettingsChange.SilentIff` | cmd/agentwharf/acp_settings.go:757-928 | nothing is published and the Session is terminated exactly when the current values are unknown or an operation left open what is in effect |
| `SettingsChange.PublishedState` | cmd/agentwharf/acp_settings.go:757-936 | what is published is about the newest state known, except that a rejected change is published with the reserved one |
| `SettingsChange.ReconcileLaw` | cmd/agentwharf/acp_settings.go:938-948 | after reconciling, applied is published exactly when the capability did not move on; otherwise the result is about the newer one |
| `SettingsChange.UntouchedOutcomes` | cmd/agentwharf/acp_settings.go:836-928 | rejected and stale are published exactly when the first needed operation was sent and failed that way, before anything changed |
| `SettingsChange.FirstOperationWasAllowed` | cmd/agentwharf/acp_settings.go:836-890 | anything but a mismatch is published only if the first needed value was changeable, configured and, model aside, advertised |
| `SettingsChange.RecordedOutcome` | hub/websocket.go:2476-2498 | the Hub records the adapter's outcome or a mismatch; applied, rejected and stale exactly under their conditions |
| `SettingsChange.AppliedIsRecorded` | cmd/agentwharf/acp_settings.go:938-948 | what is published as applied after reconciling is recorded as applied |
| `SettingsChange.ApplyLaunchSettings` | cmd/agentwharf/acp_settings.go:965-1080 | the loop ends after at most two requests per kind, with every value in effect, unchangeable or tried twice |
| `Utf8Text.FindPrefixEnd` | adapter/acp/mapper.go:1303-1311 | the last rune boundary at or before the limit |
| `Utf8Text.CutIsValid` | adapter/acp/mapper.go:1303-1311 | cutting valid UTF-8 at a boundary gives two valid texts |
| `Utf8Text.TakeRunesCount` | adapter/acp/mapper.go:1504-1510 | the first n runes are n runes, or all of a shorter text |
| `MessageSplit.PartsLaw` | adapter/acp/mapper.go:1279-1301 | the parts are non-empty, end on rune boundaries, fit unless a single byte, and join to the input |
| `MessageSplit.WholeWhenItFits` | adapter/acp/mapper.go:1279-1301 | a text of at most 8192 bytes that fits is one part |
| `MessageSplit.PartsAreTight` | adapter/acp/mapper.go:1279-1301 | every part takes the longest run of whole runes that the size limit admits, unless one about twice as long does not fit |
| `MessageSplit.SplittingEnds` | adapter/acp/mapper.go:1292-1296 | splitting ends on every valid text exactly when every small text fits |
| `MessageSplit.SplitStalls` | adapter/acp/mapper.go:1284-1299 | a two-byte text on which the loop never ends |
| `MessageSplit.EmptyChunkRepeats` | adapter/acp/mapper.go:1284-1299 | an empty chunk leaves the loop where it was, for any number of rounds |
| `MessageSplit.SplitMessage` | adapter/acp/mapper.go:1279-1301 | the loop returns those parts, or nothing where it would not end |
| `ToolResult.ShrinkingEnds` | adapter/acp/mapper.go:635-688 | shrinking ends for every budget exactly when the name's first 128 runes take at most 256 bytes |
| `ToolResult.RoundIsSmaller` | adapter/acp/mapper.go:660-684 | a round lowers output, diff count, diff text and name lexicographically, or changes nothing |
| `ToolResult.ShrunkLaw` | adapter/acp/mapper.go:635-688 | the result fits or is exhausted, its output is a prefix of the given one, and a draft that fits is kept whole |
| `ToolResult.ShrunkKeeps` | adapter/acp/mapper.go:635-688 | the loop ends at the first draft that fits; output goes first, then diffs from the end, then the texts of the first, then the name, each a prefix of what it was and marked as cut exactly when shorter |
| `ToolResult.RoundHalvesOutput` | adapter/acp/mapper.go:660-666 | a round that cuts the output leaves its longest valid prefix of at most half the bytes and changes nothing else |
| `ToolResult.ShrinkDiffLaw` | adapter/acp/mapper.go:814-844 | a diff shrinks to the last rune boundary in the first half of each of its own sides, and goes exactly when both are short or no rune is left |
| `ToolResult.ShrinkDiffIsSmaller` | adapter/acp/mapper.go:814-844 | a shrunk diff has less text |
| `ToolResult.UnchangedRoundRepeats` | adapter/acp/mapper.go:681-684 | a round that changes nothing is repeated forever |
| `ToolResult.ShrinkResult` | adapter/acp/mapper.go:635-688 | the loop returns that result, or nothing where it would not end |

## Left out

- Store implementations, transports, timers, metrics and JSON decoding; the Store's contracts are assumptions of the models that use it.
- HMAC, AES-GCM, SHA-256 and base64: a credential carries its bearer, what a seal opens to is arbitrary, and encodings are modelled up to the hash.
- The recovered run-control broadcast outside the gate (hub/websocket.go:1799-1803), tail bootstrap (hub/bootstrap.go) and the encrypted client lane are not part of the delivery theorems.
- Delivery is modelled for one Session; an event is its sequence number, or its type and body when ephemeral.
- The steps of `Delivery`, `CommandLedger` and the client loop are modelled on values, one critical section or call per step, because several threads take them in turn; `ClientConnection`, `SessionPublicationGates` and `AgentWharfClient` are the parts with fields of their own.
- SettingsEncoding.DecodeInverts: the alphabet and order of identifiers and the Unicode form of labels are not required, so it covers more than the valid capabilities.
- OwnershipStorage: whether a record's digest is that of its ID is a field of the record, since SHA-256 is not modelled.
- ProcessOwnership: an open that is refused because the directory holds something else, such as a temporary file left by a crash, changes nothing and is not a step.
- ProcessInventory.Inventory stops before pidfds are opened.
- ProcessOwnership: one owner at a time uses the directory, and a check that finds no unexpected child is taken to mean that the tree is gone; signals, waiting and reaping are its parameters.
- TargetJoin: nonces are fresh; timers and contexts are steps that may happen at any time.
- ToolResult.ShrinkResult requires a name that is valid UTF-8, as decoded JSON strings are.
- CredentialRotation.CredentialRotationState.constructor requires what NewCredentialRotation checks, because a constructor cannot fail.
- CredentialRotation: RetryActivation, ActiveReceipt and RecoveryPermit only read; they appear as the authorization check they begin with.
- EventBatcher.ItemsConserved puts no bound on the final batch: producers may keep adding while it is drained.
- The acpSettingsTracker, which turns provider lines into states, is not modelled; its states are the provider's arbitrary answers.
- GroupSupervisor, the session state table, scope checks, command discovery and the CLI would only add easy members.
