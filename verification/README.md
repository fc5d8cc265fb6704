# Verified models of the auth and voice server

This project models the protocols of the server in Dafny and proves what they keep. Almost all of them are
small concurrent protocols over shared state: a stored document changed by atomic conditional updates, a
warehouse changed by transactions, or maps in memory changed between awaits. Each such operation, and each
synchronous stretch between two awaits, is one atomic step. Any number of actors interleave, time is a
parameter, and every external call may fail.

Each component has one module. A stateful module holds

- the state as a datatype and one function per step;
- `Next` and a run over any sequence of steps;
- the invariants, proved for each step and for every run, and the theorems drawn from them;
- a class with the fields of the source's object, whose methods are shown to do what the step functions say; the
  table below lists those that branch or loop, not the ones that set a field.

Where a property holds only under a condition, the condition is proved exact, or a lemma gives a concrete run
in which the property fails without it.

| file | component |
|---|---|
| AudioAccounting.dfy | byte cap, pacing and billing of realtime audio |
| RealtimeService.dfy | admission, slots and the daily budget across sessions |
| RealtimeSession.dfy | the session controller, from the call that starts it to its one terminal |
| RealtimeRefinement.dfy | controllers under their service, refined to the service model |
| RealtimeSocket.dfy | the socket route in front of a session |
| SendLedger.dfy | the optional-email send ledger with leases and reclaims |
| PendingAuthTable.dfy, PendingAuthStore.dfy | the bounded table of pending sign-ins, its status machine and long polls |
| PendingAuthHistory.dfy, PendingAuthWakeups.dfy | what every history of that store keeps; no lost wake-up |
| PendingAuthActions.dfy | what each action and long poll does, and decisions that are for good |
| PendingAuthClass.dfy | the store as an object, refined to its steps |
| ClientPresence.dfy | long polls for a first registered device |
| EventSuppression.dfy | recording an event against suppressing its account |
| GlossaryRevocation.dfy | adding glossary words against revoking their bridge; the context budget |
| RegistrationCap.dfy | insert, re-rank and self-revoke under the bridge cap |
| BridgeStatusReports.dfy | out-of-order status events of a bridge |
| TranscriptBound.dfy | the longest transcript prefix within a byte budget |
| ExportAccounting.dfy | scan, staging and reconciliation of the analytics export |
| ExportLease.dfy | the export lease and the publication transaction |
| PreferenceCas.dfy | the idempotent preference compare-and-set with a tombstone |
| BridgeTracker.dfy | debounced online and offline pushes |
| Activation.dfy | activation milestones, reminder markers and sweeps |
| Prelude.dfy | optional values and sums over finite maps |

`dafny verify dfyconfig.toml` checks everything.

Two places where the code and its documentation differ:

- The server's README states that daily usage is overshot by at most N sessions of M seconds. This is not quite
  so. What holds in every run is the limit D, plus min(N, G) - 1 sessions of min(M, D) seconds for the per-user
  ceiling N and the global ceiling G, plus the seconds billed for failed starts (`OvershootBound`). The second
  term is sharper than the documented one and is attained (`OvershootIsAttained`). The third has no bound
  (`FailedStartsOverrun`), and it is zero, so that the documented bound holds (`DocumentedBound`), unless a start
  fails while its terminal has seconds to bill. That takes a provider that reports progress before the first byte
  of audio, and then, in the microtasks between the provider connection and the last abort check of `start`, both
  a provider error that begins the terminal and a start signal that was aborted inside the ready callback.
- The comment on the bridge cap says overshoot is bounded by the registrations in flight.
  `OvershootIsBounded` gives the exact form: those between their count and their insert, less one.
  `CapHoldsExactly` says when there is none: exactly if no insert displaces a decided bridge.

## Model

| member | source | states |
|---|---|---|
| AudioAccounting.AcceptedIsExact | src/services/realtime-audio-accounting.ts:11-20 | with an aligned count so far, the accepted part of an aligned frame ends on a sample and is cut only by the cap |
| AudioAccounting.FrameOutcome | src/services/realtime-session-terminal.ts:73-132 | each frame is forwarded whole, cut at the cap, or refused, each exactly in its case, and `limit` comes out only at exactly the cap |
| AudioAccounting.PaceIsExact | src/services/realtime-audio-accounting.ts:32-51 | a frame is refused for pace exactly when the forwarded bytes would exceed elapsed time plus the burst |
| AudioAccounting.BillCovers | src/services/realtime-audio-accounting.ts:53-61 | the bill is at most n seconds if and only if n seconds cover both the bytes and the provider progress |
| AudioAccounting.StreamAccounting | src/services/realtime-session-controller.ts:132-177 | for every frame sequence the forwarded bytes sum to the attempted count, stay aligned and never pass the cap |
| AudioAccounting.OpenStreamNeverRefusedAtLimit | src/services/realtime-session-terminal.ts:73-132 | a stream that is still open was never at the cap, so that refusal cannot occur in a session |
| AudioAccounting.StreamKeepsPace | src/services/realtime-audio-accounting.ts:32-51 | every byte count a session reaches was within the real-time-plus-burst allowance when its last frame went out |
| AudioAccounting.PacedClientIsNeverRefused | src/services/realtime-audio-accounting.ts:32-51 | a client that is never ahead of real time by more than the burst is never refused for pace |
| AudioAccounting.BillWithinLimit | src/services/realtime-session-terminal.ts:175-186 | a stream is never billed beyond its admitted limit |
| AudioAccounting.UnitsOfAudio | src/services/realtime-audio-accounting.ts:1-31 | samples have 16 bits in every channel; a frame is aligned exactly when it is a positive number of whole samples |
| RealtimeService.AcquireIsExact | src/services/realtime-transcription-service.ts:196-213 | taking a slot keeps the per-user tallies exact and both ceilings |
| RealtimeService.ReleaseIsExact | src/services/realtime-transcription-service.ts:177-194 | releasing any session keeps the tallies exact, without zero entries, and frees only its own slot |
| RealtimeService.ReleaseIsIdempotent | src/services/realtime-transcription-service.ts:177-194 | a second release changes nothing |
| RealtimeService.ReleaseUndoesAcquire | src/services/realtime-transcription-service.ts:177-213 | taking and releasing a slot leaves the service as it was |
| RealtimeService.StepIsValid | src/services/realtime-transcription-service.ts:71-138 | every step of any number of sessions keeps slots, ceilings and each session accounting |
| RealtimeService.RunIsValid | src/services/realtime-transcription-service.ts:71-194 | the same in every reachable state of the service |
| RealtimeService.OthersOweAtMost | src/services/realtime-transcription-service.ts:71-138 | while one session reads the budget, the others of that user owe at most one ceiling less than may run at once |
| RealtimeService.StepStaysWithinBudget | src/services/realtime-transcription-service.ts:221-237 | recorded plus still owed seconds never pass the limit, the overshoot and what failed starts have billed, step by step |
| RealtimeService.OvershootBound | README.md:416-421 | in every interleaving, recorded seconds stay within D + (min(N, G) - 1) min(M, D) plus the seconds billed for failed starts |
| RealtimeService.DocumentedBound | README.md:416-421 | unless a start fails while its terminal has seconds to bill, they stay within D + (min(N, G) - 1) min(M, D), hence within the documented D + N M |
| RealtimeService.OvershootIsAttained | src/services/realtime-transcription-service.ts:71-138 | for every policy that admits anyone, some run without failed starts, whose sessions stream in real time, reaches that sharper bound exactly |
| RealtimeService.FailedStartsOverrun | src/services/realtime-transcription-service.ts:96-138 | for every such policy and every k, some run with k failed starts records k session ceilings more, so the documented bound fails |
| RealtimeService.RealtimeTranscriptionService.ThrowIfAtCapacity | src/services/realtime-transcription-service.ts:196-207 | refuses exactly at one of the two ceilings |
| RealtimeService.RealtimeTranscriptionService.Admit | src/services/realtime-transcription-service.ts:71-90 | the synchronous block of start: refusal, or a slot taken at once |
| RealtimeService.RealtimeTranscriptionService.ReleaseSession | src/services/realtime-transcription-service.ts:177-194 | frees the slot of the session, if it still has one |
| RealtimeService.RealtimeTranscriptionService.DropSlot | src/services/realtime-transcription-service.ts:177-194 | the decrement drops an entry that reaches zero |
| RealtimeService.RealtimeTranscriptionService.RecordUsage | src/services/realtime-transcription-service.ts:221-237 | writes nothing for a zero bill, and reports what is left of the day |
| RealtimeService.ShutdownDisposes | src/services/realtime-transcription-service.ts:140-160 | shutdown disposes the service for good: no start is admitted or returns any more |
| RealtimeService.AdmissionDecides | src/services/realtime-transcription-service.ts:71-90 | a start is refused exactly while disposed or at one of the ceilings; an admitted one holds a slot and no seconds yet |
| RealtimeService.BudgetReadDecides | src/services/realtime-transcription-service.ts:96-114 | a spent day or a disposed service fails the start and frees the slot; otherwise it is admitted for min(M, D - used) seconds and keeps the slot |
| RealtimeService.StartReturns | src/services/realtime-transcription-service.ts:116-127 | a start under way returns unless the service was disposed |
| RealtimeService.StartFailsFreeing | src/services/realtime-transcription-service.ts:128-138 | a failing start frees the slot in any case and closes a session whose terminal has not begun |
| RealtimeService.AudioStreams | src/services/realtime-session-controller.ts:132-177 | only a returned session that has not ended takes audio |
| RealtimeService.ProgressCounts | src/services/realtime-session-controller.ts:244-276 | progress past the admitted seconds ends the session unbilled, any other only grows |
| RealtimeService.TerminalBills | src/services/realtime-session-terminal.ts:175-186 | a terminal bills the least number of seconds that covers bytes and progress, or nothing when told so |
| RealtimeService.UsageIsWritten | src/services/realtime-transcription-service.ts:221-237 | a successful usage write adds the bill to the day; the terminal goes on either way |
| RealtimeService.SlotIsFreed | src/services/realtime-transcription-service.ts:177-194 | after the usage write a terminal frees its slot |
| RealtimeService.AdmittedHaveSeconds | src/services/realtime-transcription-service.ts:97-114 | in every run nobody reaches the provider without seconds to use |
| RealtimeSession.EventStaysValid | src/services/realtime-session-controller.ts:95-333 | every event of a session, from the call that starts it, keeps at most one terminal, one usage request and the releases that are due |
| RealtimeSession.RunIsValid | src/services/realtime-session-controller.ts:95-333 | the same for every sequence of events |
| RealtimeSession.OneTerminal | src/services/realtime-session-controller.ts:286-333 | over every sequence of events from the first call: one usage request at most, one client event at most, billed within the admitted seconds; the slot is freed once by the settled terminal and once by a failed start |
| RealtimeSession.TerminalIsFinal | src/services/realtime-session-controller.ts:286-296 | after the first terminal decision no audio is forwarded and the bill stays |
| RealtimeSession.SettledIsInert | src/services/realtime-session-controller.ts:286-333 | whatever still fires after settlement and the end of the start changes nothing |
| RealtimeSession.AbandonedIsInert | src/services/realtime-transcription-service.ts:129-138 | a start that fails before any terminal leaves a session that never bills, reports or changes again |
| RealtimeSession.FirstDecisionStands | src/services/realtime-session-controller.ts:286-296 | the first of timers, provider events, client frames and shutdown decides |
| RealtimeSession.RealtimeSessionController.Connect | src/services/realtime-session-controller.ts:95-130 | a session closed while connecting refuses, any other one arms its timers |
| RealtimeSession.RealtimeSessionController.RunTerminal | src/services/realtime-session-controller.ts:302-333 | up to the usage write: bill computed once, or settled at once without billing |
| RealtimeSession.RealtimeSessionController.Finish | src/services/realtime-session-controller.ts:217-242 | finishing is begun once and only while streaming |
| RealtimeSession.RealtimeSessionController.SendFrame | src/services/realtime-session-controller.ts:132-177 | a frame is accounted, and reaching the cap begins the finish |
| RealtimeSession.RealtimeSessionController.OnTranscript | src/services/realtime-session-controller.ts:244-284 | progress never runs back and the limit ends the session |
| RealtimeSession.UsageFollowsDecision | src/services/realtime-session-controller.ts:302-333 | over every run: completion, silence and recorded errors ask for exactly the bill, an error not to be recorded for nothing; and what the client is told |
| RealtimeSession.ClientEndings | src/services/realtime-session-controller.ts:179-200 | cancelling, disconnecting, a silent client and shutdown end the session with their own decision, billed for what it used |
| RealtimeSession.ProviderEndings | src/services/realtime-session-controller.ts:234-284 | a failing provider ends the session billed, a malformed one unbilled, its end completes a finish |
| RealtimeSession.FinishingFinishes | src/services/realtime-session-controller.ts:217-242 | finishing waits for the provider if anything is to be billed, and completes at once otherwise |
| RealtimeSession.TranscriptsProgress | src/services/realtime-session-controller.ts:244-276 | progress past the limit ends the session unbilled; otherwise it is the largest reported |
| RealtimeSession.FramesStream | src/services/realtime-session-controller.ts:132-177 | each frame is forwarded up to the cap, whose last byte starts the finish, or ends the session billed |
| RealtimeSession.AnswersSettle | src/services/realtime-session-controller.ts:315-333 | the answer of the usage write settles: the client hears of it and the slot is freed |
| RealtimeSession.StartProceeds | src/services/realtime-session-controller.ts:82-130 | budget, connection and return act once each, in this order, and a closed session is not connected |
| RealtimeSession.FailingStartsRelease | src/services/realtime-transcription-service.ts:128-138 | a failing start closes the session and frees the slot, and leaves a begun terminal to itself |
| RealtimeSession.NobodyComesEarly | src/services/realtime-session-controller.ts:132-284 | before the start returns nobody but the provider reaches a session |
| RealtimeSession.StartingOpens | src/services/realtime-session-controller.ts:82-130 | budget, connection and return open a streaming session with both timers armed |
| RealtimeRefinement.EventSimulates | src/services/realtime-session-controller.ts:132-333 | every event of a controller is a few steps of the service: same session, slot freed exactly when released, exactly the requested seconds recorded |
| RealtimeRefinement.RunRefines | src/services/realtime-transcription-service.ts:71-194 | every run of any number of controllers under their service is a run of the service model |
| RealtimeRefinement.ControllersStayWithinBudget | README.md:416-421 | the overshoot bound of the controllers themselves, over every interleaving of their events |
| RealtimeRefinement.ControllersKeepDocumentedBound | README.md:416-421 | the documented bound of the controllers, unless a start fails while its terminal awaits the usage write |
| RealtimeRefinement.SlotsFollowControllers | src/services/realtime-transcription-service.ts:177-213 | a controller holds its slot exactly until it settles or its start fails |
| RealtimeSocket.SendIsOrderly | src/routes/voice-realtime-support.ts:62-138 | one send adds at most one frame, and anything but the frame asked for is terminal |
| RealtimeSocket.StepIsValid | src/routes/voice-realtime-socket.ts:52-125 | every socket event keeps terminal frames unique and last |
| RealtimeSocket.OneTerminalFrame | src/routes/voice-realtime-socket.ts:244-326 | over every run at most one terminal frame reaches the client and nothing after it |
| RealtimeSocket.ClosedRouteOnlyEnds | src/routes/voice-realtime-socket.ts:277-326 | a closed route never opens again and adds at most one terminal frame |
| RealtimeSocket.SocketContext.Send | src/routes/voice-realtime-support.ts:74-138 | a slow peer or an oversized event turns the send into its own notice and a close |
| RealtimeSocket.SocketContext.Terminate | src/routes/voice-realtime-socket.ts:277-305 | ending an active session waits for its cancel |
| RealtimeSocket.SocketContext.TerminationContinues | src/routes/voice-realtime-socket.ts:277-305 | after the cancel, the terminal frame is sent unless one went out meanwhile |
| RealtimeSocket.SocketContext.ForwardOrAbandon | src/routes/voice-realtime-socket.ts:244-314 | an event that cannot be delivered abandons the client |
| RealtimeSocket.SocketContext.OnMessage | src/routes/voice-realtime-socket.ts:135-185 | messages are dispatched by state |
| RealtimeSocket.SocketContext.OnFirstMessage | src/routes/voice-realtime-socket.ts:187-230 | the first message must be a start frame |
| RealtimeSocket.SendReaches | src/routes/voice-realtime-support.ts:74-138 | a delivered send adds exactly its frame; a slow peer, an oversized event or a failing send leave the notice there was room for, and close |
| RealtimeSocket.WaitingEnds | src/routes/voice-realtime-socket.ts:52-98 | before the first message the deadline and shutdown end the route with their own error, later they do nothing |
| RealtimeSocket.FirstMessageStarts | src/routes/voice-realtime-socket.ts:187-204 | a valid start frame starts the session, anything else ends the route with its own error |
| RealtimeSocket.StreamingHandles | src/routes/voice-realtime-socket.ts:135-185 | audio goes on, controls finish or cancel, malformed messages terminate with their own error |
| RealtimeSocket.OthersRefuse | src/routes/voice-realtime-socket.ts:91-125 | a message out of order ends a start, audio ends a finish, a closed route ignores it |
| RealtimeSocket.StartsSettle | src/routes/voice-realtime-socket.ts:206-242 | a resolved start opens the stream, a refused one tells the client why, unless the route closed meanwhile |
| RealtimeSocket.FramesReach | src/routes/voice-realtime-socket.ts:244-256 | while the route is open every frame of the session reaches the client |
| RealtimeSocket.EndsReach | src/routes/voice-realtime-socket.ts:257-275 | the end of the session is told unless the end was decided before |
| RealtimeSocket.UnreachableIsAbandoned | src/routes/voice-realtime-socket.ts:244-314 | a client that cannot be reached is abandoned |
| RealtimeSocket.CancelsReturn | src/routes/voice-realtime-socket.ts:277-295 | after the cancel the termination is told and the socket closed |
| RealtimeSocket.DisconnectEnds | src/routes/voice-realtime-socket.ts:67-80 | a disconnect closes the route without a frame |
| RealtimeSocket.OrdinarySession | src/routes/voice-realtime-socket.ts:52-275 | a whole session delivers ready, transcript and completion in this order and closes |
| SendLedger.StepIsValid | src/repositories/optional-email-send-repo.ts:31-375 | every operation of any worker keeps: a lease is stored exactly when reserved or in flight, the reason of every end is stored, attempts recorded, leases used once |
| SendLedger.RunIsValid | src/repositories/optional-email-send-repo.ts:31-375 | the same over every interleaving, on any stale snapshot and any clock |
| SendLedger.SupersededForever | src/repositories/optional-email-send-repo.ts:220-375 | once a lease is superseded every later mark with it is refused, in every continuation |
| SendLedger.TakingOverSupersedes | src/repositories/optional-email-send-repo.ts:53-203 | every reclaim supersedes the lease it takes over, and every final mark gives its lease up |
| SendLedger.FinalSendsStay | src/repositories/optional-email-send-repo.ts:259-348 | accepted and blocked sends never change, so at most one acceptance succeeds |
| SendLedger.ProviderAttempts | src/repositories/optional-email-send-repo.ts:73-257 | every attempt lies within 23 hours of the first one, the count is the number of marked attempts, each lease makes at most one |
| SendLedger.FirstAttemptIsWrittenOnce | src/repositories/optional-email-send-repo.ts:220-257 | the first attempt time never changes |
| SendLedger.AttemptsSpacedForward | src/repositories/optional-email-send-repo.ts:53-211 | with clocks that never run back, successive attempts are over five minutes apart unless the first failed in between |
| SendLedger.BackwardClockDeferralBringsAttemptsTogether | src/repositories/optional-email-send-repo.ts:350-375 | with a clock that runs back, a deferral lets two attempts coincide: a concrete run |
| SendLedger.OptionalEmailSendRepository.Insert | src/repositories/optional-email-send-repo.ts:31-70 | the insert succeeds exactly when the key is new |
| SendLedger.OptionalEmailSendRepository.ReserveExisting | src/repositories/optional-email-send-repo.ts:73-203 | after a collision: each of the reclaim paths under its own condition, on a possibly stale snapshot |
| SendLedger.OptionalEmailSendRepository.FindOneAndReclaim | src/repositories/optional-email-send-repo.ts:73-203 | the conditional update takes over exactly when the stored send still matches the snapshot |
| SendLedger.OptionalEmailSendRepository.SetInFlight | src/repositories/optional-email-send-repo.ts:220-257 | authorises an attempt exactly for the stored lease of a reserved send |
| SendLedger.OptionalEmailSendRepository.SetAccepted | src/repositories/optional-email-send-repo.ts:259-287 | accepts exactly for the stored lease of a send in flight |
| SendLedger.OptionalEmailSendRepository.End | src/repositories/optional-email-send-repo.ts:289-375 | accepting, failing, blocking and deferring give the lease up exactly when it is the stored one of their status, and store their reason |
| SendLedger.VerdictIsExact | src/repositories/optional-email-send-repo.ts:73-203 | a taken send is a duplicate, one that may be retried is reclaimed, any other is expired, spelled out on status, age and first attempt |
| SendLedger.ReservingTakesOver | src/repositories/optional-email-send-repo.ts:73-203 | on the stored send a new lease takes over exactly when the send may be retried: failed, deferred or stale, within 23 hours of its first attempt |
| SendLedger.StaleSnapshotsTakeNothing | src/repositories/optional-email-send-repo.ts:85-203 | a snapshot left behind takes nothing over |
| SendLedger.FirstReservation | src/repositories/optional-email-send-repo.ts:31-70 | the first reservation stores a fresh lease and nothing attempted |
| SendLedger.AttemptIsAuthorised | src/repositories/optional-email-send-repo.ts:220-257 | an attempt is authorised exactly for the stored lease, at most five minutes old, within 23 hours of the first attempt, and what it stores |
| SendLedger.EndingsLand | src/repositories/optional-email-send-repo.ts:259-375 | each mark lands exactly from its own status for its own lease, and what it stores |
| SendLedger.FailedSendIsRetried | src/repositories/optional-email-send-repo.ts:143-166 | a send that failed within the window is reserved and attempted again, and can still be accepted |
| PendingAuthTable.PutIsValid | src/services/pending-auth-store.ts:616-630 | storing a session keeps both reverse indexes exact if and only if no other live session uses its OAuth state, even under eviction |
| PendingAuthTable.PutStores | src/services/pending-auth-store.ts:616-630 | a store changes the sessions by the stored entry and the eviction of the least recently used one |
| PendingAuthTable.DropIsValid | src/services/pending-auth-store.ts:122-130 | disposal of an entry keeps recency and both indexes exact |
| PendingAuthTable.TouchIsValid | src/services/pending-auth-store.ts:602-614 | a read keeps the recency list exact |
| PendingAuthTable.TouchIsMostRecent | src/services/pending-auth-store.ts:602-614 | a read makes its entry the most recent and leaves the order of the others |
| PendingAuthTable.EvictsLeastRecent | src/services/pending-auth-store.ts:122-130 | a full table evicts exactly for a new key, and the least recently used entry |
| PendingAuthTable.PutIsMostRecent | src/services/pending-auth-store.ts:616-630 | a stored entry is the most recent and the others keep their order |
| PendingAuthStore.NotifyFacts | src/services/pending-auth-store.ts:649-676 | notification settles exactly the waiters it wakes, once, with the given outcome, and forgets nobody |
| PendingAuthStore.StepIsFactual | src/services/pending-auth-store.ts:145-571 | what each operation may do: tables exact, sessions only as its action says, answers kept, only its own waiter added |
| PendingAuthHistory.RunIsValid | src/services/pending-auth-store.ts:122-169 | in every run whose callers supply distinct states, tables, sessions and waiters stay consistent |
| PendingAuthHistory.IndexesAreExact | src/services/pending-auth-store.ts:616-647 | in every reachable state the state and code indexes invert the live sessions and the size is bounded |
| PendingAuthHistory.SuppliedStatesAreNeeded | src/services/pending-auth-store.ts:145-169 | one creation breaks the table exactly when it reuses the state of another live session |
| PendingAuthHistory.TerminalIsFinal | src/services/pending-auth-store.ts:209-381 | no transition leaves a terminal status, except through the direct-completion test seam or a re-creation |
| PendingAuthHistory.TerminalStays | src/services/pending-auth-store.ts:209-381 | the same over any stretch of a run |
| PendingAuthHistory.AbsentUntilCreated | src/services/pending-auth-store.ts:602-647 | a session that is gone stays gone until it is created again |
| PendingAuthHistory.ReadableMeansConfirmed | src/services/pending-auth-store.ts:230-403 | a readable completion was staged, then confirmed, with nothing done in between, no re-creation since, and is what was staged last |
| PendingAuthHistory.CompletedIsStored | src/services/pending-auth-store.ts:384-403 | a completion is readable exactly for a live, unexpired, complete session |
| PendingAuthHistory.StageThenConfirm | src/services/pending-auth-store.ts:230-289 | staging and confirming an undecided session makes exactly that completion readable |
| PendingAuthHistory.ConsumedOncePerCreation | src/services/pending-auth-store.ts:411-449 | between two consumptions that yield, the session was created anew |
| PendingAuthActions.ActionTouchesOneSession | src/services/pending-auth-store.ts:573-600 | an action on a live session leaves the others, and its identity and expiry, alone |
| PendingAuthActions.UndecidedObeys | src/services/pending-auth-store.ts:209-381 | an undecided session is denied, failed, marked and staged as asked, with exactly the fields each leaves |
| PendingAuthActions.ConfirmationCompletes | src/services/pending-auth-store.ts:267-289 | confirming completes exactly a staged session awaiting it, with what was staged |
| PendingAuthActions.DecidedRefuses | src/services/pending-auth-store.ts:209-381 | a decided session refuses every action; the test seam alone overwrites a completed one |
| PendingAuthActions.SeamCompletes | src/services/pending-auth-store.ts:298-319 | the test seam completes an undecided session |
| PendingAuthActions.ExpiredIsNotActedOn | src/services/pending-auth-store.ts:602-614 | an expired session is removed instead of acted on |
| PendingAuthActions.CreationIsPending | src/services/pending-auth-store.ts:145-169 | a new session is pending for the whole time to live with nothing staged; a used code creates nothing |
| PendingAuthActions.DecisionIsForGood | src/services/pending-auth-store.ts:325-381 | after a denial or failure that took effect no completion becomes readable until a re-creation, whatever is staged and confirmed |
| PendingAuthActions.ReadsExpire | src/services/pending-auth-store.ts:602-614 | a read removes an expired session, tells its waiters so, and leaves a live one alone |
| PendingAuthActions.ConsumptionTells | src/services/pending-auth-store.ts:411-449 | a consumption that yields removes the session and tells its waiters |
| PendingAuthActions.SweepRemovesExpired | src/services/pending-auth-store.ts:551-557 | the sweep removes exactly the expired sessions and tells their waiters |
| PendingAuthActions.PollsAreAnswered | src/services/pending-auth-store.ts:459-544 | what a new long poll is told, or that it waits from the present status, each in its case |
| PendingAuthActions.AbortAnswersItself | src/services/pending-auth-store.ts:522-527 | an abort answers its own poll with nothing, and nobody else |
| PendingAuthActions.TimersAnswer | src/services/pending-auth-store.ts:489-498 | a poll timer reports expiry, the status, or that there is no session |
| PendingAuthActions.ShutdownTells | src/services/pending-auth-store.ts:559-571 | shutdown tells every poll that it is one, or that its session has expired, or that there is none |
| PendingAuthWakeups.OverwriteWakes | src/services/pending-auth-store.ts:573-600 | a status update answers, with the new status, everyone who waited from another one |
| PendingAuthWakeups.CreateFresh | src/services/pending-auth-store.ts:145-169 | a re-creation keeps every waiter current exactly when all of them wait from pending |
| PendingAuthWakeups.StepFresh | src/services/pending-auth-store.ts:459-571 | every other operation keeps every waiter current |
| PendingAuthWakeups.NoLostWakeUp | src/services/pending-auth-store.ts:459-544 | whatever the operation, a changed status or a removed session answers everyone waiting on it |
| PendingAuthWakeups.FreshThroughout | src/services/pending-auth-store.ts:459-571 | within one session life nobody waits from a status that is past |
| PendingAuthWakeups.AnswersAreRight | src/services/pending-auth-store.ts:632-647 | expiry answers with expired and consumption with consumed |
| PendingAuthWakeups.ActionAnswersStatus | src/services/pending-auth-store.ts:573-600 | an action that changes the status answers each waiter with the new status |
| PendingAuthWakeups.NobodyIsForgotten | src/services/pending-auth-store.ts:459-571 | everyone who asked is still registered or has been answered, never both |
| PendingAuthWakeups.AnsweredOnce | src/services/pending-auth-store.ts:649-676 | an answer is never revised |
| PendingAuthWakeups.NobodyWaitsAfterRelease | src/services/pending-auth-store.ts:559-571 | after shutdown no waiter is ever stored |
| PendingAuthWakeups.RecreationLosesAWakeUp | src/services/pending-auth-store.ts:145-169 | re-creating a session under a waiter on a later status loses its wake-up: a concrete run |
| PendingAuthClass.PendingAuthStore.NotifyWaiters | src/services/pending-auth-store.ts:649-676 | the loop over the snapshot settles exactly the waking waiters and drops an emptied set |
| PendingAuthClass.PendingAuthStore.CacheDelete | src/services/pending-auth-store.ts:122-130 | disposal clears both indexes and settles leftover waiters |
| PendingAuthClass.PendingAuthStore.CacheSet | src/services/pending-auth-store.ts:122-130 | storing evicts the least recently used entry when full |
| PendingAuthClass.PendingAuthStore.GetActiveEntry | src/services/pending-auth-store.ts:602-614 | a read returns the entry, or removes it when expired |
| PendingAuthClass.PendingAuthStore.GenerateUniqueUserCode | src/services/pending-auth-store.ts:693-706 | the first of 32 draws that is unused; malformed draws and exhaustion are reported exactly |
| PendingAuthClass.PendingAuthStore.CreateSession | src/services/pending-auth-store.ts:145-169 | creates under a generated code, and changes nothing if none was found |
| PendingAuthClass.PendingAuthStore.UpdateSession | src/services/pending-auth-store.ts:573-600 | rereads the entry, overwrites it and notifies |
| PendingAuthClass.PendingAuthStore.ConfirmSession | src/services/pending-auth-store.ts:267-289 | only on a staged session awaiting confirmation |
| PendingAuthClass.PendingAuthStore.ConsumeCompletion | src/services/pending-auth-store.ts:411-449 | returns the completion and removes the session |
| PendingAuthClass.PendingAuthStore.WaitForStatusChange | src/services/pending-auth-store.ts:459-544 | answers at once, or registers and checks once more |
| PendingAuthClass.PendingAuthStore.TimeoutFires | src/services/pending-auth-store.ts:489-498 | a poll timer reports expiry or the current status |
| PendingAuthClass.PendingAuthStore.ExpireExpiredSessions | src/services/pending-auth-store.ts:551-557 | the sweep removes exactly the expired sessions it meets |
| PendingAuthClass.PendingAuthStore.ReleaseWaiters | src/services/pending-auth-store.ts:559-571 | shutdown settles the waiters of every key, once |
| ClientPresence.StepIsValid | src/services/app-client-presence-service.ts:133-238 | every step of reads, rechecks, timers, aborts, registrations and shutdown keeps the stored waiters exact |
| ClientPresence.StoredOnceUntilSettled | src/services/app-client-presence-service.ts:302-386 | a call is stored for its user exactly while it waits unsettled |
| ClientPresence.SettledOnce | src/services/app-client-presence-service.ts:370-386 | the first settlement of a waiter stands |
| ClientPresence.NobodyWaitsAfterRelease | src/services/app-client-presence-service.ts:227-238 | after shutdown no waiter is ever stored |
| ClientPresence.NoMissedRegistration | src/services/app-client-presence-service.ts:96-112 | after a finished registration nobody waits on once every recheck has run |
| ClientPresence.AppClientPresenceService.SettleWaiter | src/services/app-client-presence-service.ts:370-386 | true exactly for the first settlement; unlinks the waiter |
| ClientPresence.AppClientPresenceService.SettleSnapshot | src/services/app-client-presence-service.ts:105-112 | settles every waiter of one user |
| ClientPresence.AppClientPresenceService.ReleaseWaiters | src/services/app-client-presence-service.ts:227-238 | shutdown settles every waiter of every user |
| ClientPresence.CallsStart | src/services/app-client-presence-service.ts:133-156 | a new call is turned away for a gone client or shutdown, and reads otherwise |
| ClientPresence.FirstReadDecides | src/services/app-client-presence-service.ts:156-175 | the outcomes of the first read |
| ClientPresence.AbsentCallsWait | src/services/app-client-presence-service.ts:176-199 | without a device the call waits, unless released, aborted or out of time, each with its answer |
| ClientPresence.WaitersAreTold | src/services/app-client-presence-service.ts:200-225 | timer, abort and recheck settle a waiter each with its own outcome |
| ClientPresence.RegistrationWakesItsUser | src/services/app-client-presence-service.ts:96-112 | a written registration settles everyone waiting for its user and nobody else |
| ClientPresence.RegistrationEndsTheWait | src/services/app-client-presence-service.ts:96-200 | from an idle service a call that waits is told of the first registration |
| ClientPresence.TokensAreSeen | src/services/app-client-presence-service.ts:90-112 | written tokens are there until removed |
| ClientPresence.ShutdownTellsEveryone | src/services/app-client-presence-service.ts:227-238 | shutdown settles every waiter, once |
| EventSuppression.OnlyUncheckedRowsSurvive | src/services/product-analytics-event-service.ts:51-63 | once a suppression has deleted, only rows of calls still between insert and the end of their re-check remain |
| EventSuppression.NoRowSurvivesSuppression | src/services/product-analytics-deletion-service.ts:58-73 | when a suppression and all record calls have ended, none by a crash after its insert, the account has no event row |
| EventSuppression.RecordedStays | src/services/product-analytics-event-service.ts:35-63 | without a tombstone a recorded event stays, and every row lies in the time window |
| EventSuppression.CrashLeavesRow | src/services/product-analytics-event-service.ts:51-63 | a call that crashes after its insert leaves its row: a concrete run |
| EventSuppression.AnalyticsStore.SuppressAndHandoff | src/services/product-analytics-deletion-service.ts:46-73 | undisturbed: tombstone, delete, hand-off, leaving no row |
| EventSuppression.RangeIsExact | src/services/product-analytics-event-service.ts:35-49 | in range is at most 72 hours old and at most 300 seconds ahead |
| EventSuppression.RefusedEvents | src/services/product-analytics-event-service.ts:35-55 | an event out of range, or of a disabled or suppressed account, stores nothing |
| EventSuppression.EnabledEventsAreStored | src/services/product-analytics-event-service.ts:51-63 | an event of an enabled account is stored and recorded |
| EventSuppression.TombstonedEventsAreWithdrawn | src/services/product-analytics-event-service.ts:59-63 | a tombstone found by the re-check withdraws the rows |
| EventSuppression.SuppressionProceeds | src/services/product-analytics-deletion-service.ts:58-73 | tombstone, delete and hand-off follow each other, each with its effect |
| EventSuppression.PhasesInOrder | src/services/product-analytics-event-service.ts:35-63 | each operation acts only in its own phase of its own call |
| EventSuppression.TombstoneStays | src/services/product-analytics-deletion-service.ts:58-65 | nothing but a suppression sets the tombstone and nothing takes it away |
| EventSuppression.CrashesStop | src/services/product-analytics-event-service.ts:35-63 | a crash ends a call where it stands |
| EventSuppression.HandedOffMeansDeleted | src/services/product-analytics-deletion-service.ts:58-73 | in every run whatever was handed off had its rows deleted after a tombstone before |
| GlossaryRevocation.ClearStays | src/services/glossary-service.ts:59-74 | a cleaned revoked bridge stays clean up to calls that still have their second check ahead |
| GlossaryRevocation.StepIsValid | src/services/bridge-service.ts:129-158 | each phase of a revocation has achieved what it must, in any interleaving |
| GlossaryRevocation.NoWordSurvivesRevocation | src/services/bridge-service.ts:129-158 | when a revocation that covers a bridge and all calls adding its words have ended, it has no glossary row |
| GlossaryRevocation.CoverageIsExact | src/repositories/bridge-repo.ts:264-295 | one revocation covers its bridge if the user ever had it; revoking all covers every bridge that was active |
| GlossaryRevocation.CrashLeavesWords | src/services/glossary-service.ts:59-74 | a call that crashes after its insert leaves its words: a concrete run |
| GlossaryRevocation.GlossaryStore.AddWordsToScope | src/repositories/glossary-entry-repo.ts:175-204 | adds the words and reports exactly those that were new |
| GlossaryRevocation.LongerListsJoinLonger | src/services/glossary-service.ts:88-111 | a longer list of words never renders shorter |
| GlossaryRevocation.GetContextWords | src/services/glossary-service.ts:88-111 | the longest prefix of the sorted words whose rendered prompt stays within 8,000 characters |
| GlossaryRevocation.WordsAreAdded | src/services/glossary-service.ts:35-74 | words are added to those of an active bridge and to no other |
| GlossaryRevocation.InactiveBridgesAreRefused | src/services/glossary-service.ts:113-118 | an inactive bridge refuses the call, and nothing is stored |
| GlossaryRevocation.LateWordsAreWithdrawn | src/services/glossary-service.ts:65-73 | a call whose bridge was revoked meanwhile deletes the row and is refused |
| GlossaryRevocation.OneRevocationProceeds | src/services/bridge-service.ts:129-143 | revoking one bridge ends it and deletes its row whether or not this call ended it |
| GlossaryRevocation.FullRevocationProceeds | src/services/bridge-service.ts:145-158 | revoking all ends every active bridge and deletes the rows of every revoked one |
| GlossaryRevocation.AddingInOrder | src/services/glossary-service.ts:35-74 | each operation of adding words acts only in its own phase of its own call |
| GlossaryRevocation.RevokingInOrder | src/services/bridge-service.ts:129-158 | and so does each operation of a revocation |
| GlossaryRevocation.ActiveBridgesAreSpared | src/services/bridge-service.ts:152-158 | the recheck of the candidates spares a bridge registered concurrently |
| GlossaryRevocation.WordsLeaveOnlyThen | src/services/glossary-service.ts:40-87 | words leave only by removal, cleaning or withdrawal |
| GlossaryRevocation.WordsComeOnlyThen | src/services/glossary-service.ts:40-74 | words come only by the insert of a checked call |
| GlossaryRevocation.SmallOperations | src/services/glossary-service.ts:76-87 | removing words, dropping an empty row, registering |
| GlossaryRevocation.CrashesStop | src/services/glossary-service.ts:40-74 | a crash leaves rows and bridges as they are |
| RegistrationCap.FirstSize | src/services/bridge-service.ts:101-107 | exactly min(cap, n) of n bridges rank among the first cap |
| RegistrationCap.RankPastCapAgrees | src/services/bridge-service.ts:101-107 | with the first cap bridges present, the re-read ranks a bridge past the cap exactly when all insertions do |
| RegistrationCap.StepIsValid | src/services/bridge-service.ts:79-111 | every step keeps the first cap bridges active |
| RegistrationCap.FirstAreNeverRevoked | src/services/bridge-service.ts:79-111 | in any interleaving a bridge among the first cap ever inserted is never revoked |
| RegistrationCap.RerankIsExact | src/services/bridge-service.ts:101-107 | a registration revokes itself exactly when it is past the cap among all bridges inserted so far |
| RegistrationCap.StepOvertakes | src/services/bridge-service.ts:79-111 | a step leaves a decided bridge past the cap exactly when one was before or the step inserts below the decided bridge in the last place |
| RegistrationCap.RunOvertakes | src/services/bridge-service.ts:79-111 | at the end every existing or kept bridge ranks within the cap if and only if at most cap existed and no insert ever displaced one |
| RegistrationCap.CapHoldsExactly | src/services/bridge-service.ts:79-111 | when all registrations ended, exactly the first cap bridges are active if and only if at most cap existed and no insert displaced a decided bridge from the last place, judged when it happens |
| RegistrationCap.BurstFillsCap | src/services/bridge-service.ts:79-111 | a burst inserted above everything decided leaves exactly the first min(cap, n) bridges |
| RegistrationCap.InsertedInRankOrder | src/services/bridge-service.ts:79-90 | insertion in rank order meets that condition |
| RegistrationCap.RerankedAfterAllInserts | src/services/bridge-service.ts:101-111 | so do re-ranks that all read after every insert |
| RegistrationCap.OvershootIsBounded | src/services/bridge-service.ts:79-100 | with at most k registrations between count and insert, at most cap - 1 + k bridges are ever active |
| RegistrationCap.OvertakingOvershoots | src/services/bridge-service.ts:79-111 | a lower-ranked insert after a kept higher one passes the cap: a concrete run |
| RegistrationCap.IndexIsRank | src/services/bridge-service.ts:103-106 | the index in the sorted re-read is the rank |
| RegistrationCap.BridgeService.RerankOwn | src/services/bridge-service.ts:101-107 | overflow exactly when the own bridge is cut off beyond fifty |
| RegistrationCap.OrderIsTotal | src/services/bridge-service.ts:101-105 | earlier additions rank first, then smaller ids: a strict total order |
| RegistrationCap.RegistrationEnters | src/services/bridge-service.ts:79-90 | refused at the cap, admitted and stored below it |
| RegistrationCap.RegistrationSettles | src/services/bridge-service.ts:101-111 | revokes itself exactly when cap or more active bridges come before it |
| RegistrationCap.PhasesInOrder | src/services/bridge-service.ts:79-111 | each operation acts only in its own phase |
| BridgeStatusReports.NewestDecides | src/repositories/bridge-repo.ts:195-237 | after any events the bridge has the status and the time of a newest one |
| BridgeStatusReports.ArrivalOrderDoesNotMatter | src/repositories/bridge-repo.ts:195-237 | with distinct times the order of arrival does not matter |
| BridgeStatusReports.BridgeRepository.RecordStatusChange | src/repositories/bridge-repo.ts:195-237 | not found exactly when revoked; applied exactly when not stale; a change is reported exactly when the status changed |
| BridgeStatusReports.LastOfTheNewestDecides | src/repositories/bridge-repo.ts:195-237 | of events at the same time the last to arrive decides |
| BridgeStatusReports.ReportsCount | src/repositories/bridge-repo.ts:195-237 | a report counts exactly on a live bridge that was not seen later |
| TranscriptBound.ByteLengthAppend | src/models/voice.ts:261-263 | UTF-8 length is additive where no surrogate pair is split |
| TranscriptBound.EscapedLengthIsCost | src/models/voice.ts:261-263 | the escaped length is the sum of the costs of the code points |
| TranscriptBound.PrefixReparses | src/models/voice.ts:244-258 | the first k code points, joined and read again, are those k code points |
| TranscriptBound.UncutPrefixIsPoints | src/models/voice.ts:227-231 | every prefix that cuts no surrogate pair consists of whole code points |
| TranscriptBound.CapCutsNoPair | src/models/voice.ts:265-275 | the character cap never cuts a pair and changes nothing exactly within the cap |
| TranscriptBound.FittingIsLongest | src/models/voice.ts:244-258 | k code points fit the budget exactly up to the longest fitting prefix |
| TranscriptBound.BoundedIsLongest | src/models/voice.ts:227-259 | of the capped text the bound keeps the longest uncut prefix that fits the budget |
| TranscriptBound.BoundedUnchanged | src/models/voice.ts:233-242 | a text is left alone exactly within both limits |
| TranscriptBound.BoundToEscapedBytes | src/models/voice.ts:233-259 | the binary search finds that prefix and its length |
| TranscriptBound.BoundRealtimeTranscript | src/models/voice.ts:218-225 | the confirmed text spends the shared budget first |
| TranscriptBound.SerializedBytes | src/models/voice.ts:196-205 | an event costs the fixed scaffolding plus both escaped fields |
| TranscriptBound.BoundAlwaysFits | src/models/voice.ts:207-225 | a bounded event serializes within 65,536 bytes |
| TranscriptBound.BoundKeepsMost | src/models/voice.ts:207-259 | nothing that would fit is cut: the longest uncut prefix of the confirmed text within the cap and the event, then of the provisional text next to it |
| TranscriptBound.BoundCutsNoPair | src/models/voice.ts:207-225 | both bounded fields are prefixes that cut no surrogate pair |
| TranscriptBound.BoundChangesNothingThatFits | src/models/voice.ts:218-225 | the bound changes nothing exactly when both fields fit |
| TranscriptBound.BoundIsIdempotent | src/models/voice.ts:218-225 | bounding twice is bounding once |
| TranscriptBound.AdmitTranscript | src/api/soniox-realtime-api.ts:121-133 | the adapter rejects exactly what the bound would change |
| TranscriptBound.EmitterAgreesWithAdapter | src/services/realtime-transcription-events.ts:42-61 | the emitter accepts exactly the events that fit and carry text |
| TranscriptBound.EscapeReadsBack | src/models/voice.ts:261-263 | what escaping writes reads back exactly, unpaired surrogates included |
| TranscriptBound.SurrogatesAndBytes | src/models/voice.ts:227-263 | the surrogate ranges, and the UTF-8 length of units and pairs |
| ExportAccounting.WeeksAgree | src/services/product-analytics-export-service.ts:100-108 | the program and the warehouse put an account into the same Monday-based week |
| ExportAccounting.WarehouseGroupsByCohort | src/repositories/product-analytics-export-repo.ts:373-409 | removed rows grouped by the warehouse are grouped by cohort |
| ExportAccounting.ScanKeepsBooks | src/services/product-analytics-export-service.ts:327-381 | scanning one user keeps every counter, cohort and staged row accurate |
| ExportAccounting.GuardHolds | src/services/product-analytics-export-service.ts:436-445 | the reconciliation guard holds whenever it is evaluated |
| ExportAccounting.RowsPerWeek | src/repositories/product-analytics-export-repo.ts:373-409 | rows counted week by week add up to the rows |
| ExportAccounting.DeductionReconciles | src/services/product-analytics-export-service.ts:436-445 | deducting one week leaves the others pending and the books consistent |
| ExportAccounting.KindsAddUp | src/services/product-analytics-export-service.ts:327-381 | every scanned user is of exactly one kind: the counts of the kinds add up to the users, and three of them to the external accounts |
| ExportAccounting.CohortsAreValid | src/services/product-analytics-export-service.ts:136-232 | enabled and 1 <= 7 <= 30 day counts never exceed the total of the cohort |
| ExportAccounting.ValidationRejects | src/repositories/product-analytics-export-repo.ts:451-509 | what the validation rejects: milestones outside the life of the account, windows or opt-ins out of proportion, totals that do not add up |
| ExportAccounting.AccurateBooksValidate | src/repositories/product-analytics-export-repo.ts:451-509 | accurate books always pass the validation before publication |
| ExportAccounting.ExportRun.ScanBatch | src/services/product-analytics-export-service.ts:314-381 | one page of users |
| ExportAccounting.ExportRun.RemoveUserKeys | src/repositories/product-analytics-export-repo.ts:373-409 | deletes the rows of the keys and counts them by week |
| ExportAccounting.ExportRun.ReconcileBatch | src/services/product-analytics-export-service.ts:409-447 | fails only for an observed suppression; otherwise the books are accurate without the changed accounts |
| ExportAccounting.ExportRun.DeductRemoved | src/services/product-analytics-export-service.ts:436-445 | the loop over the removed weeks restores accurate books |
| ExportAccounting.RunExport | src/services/product-analytics-export-service.ts:281-499 | the checks of the run itself fail exactly on clocks out of order, a late suppression or changed controls; what it publishes accounts for every scanned user once, holds the rows of exactly the enabled accounts that did not change late, each column its own evidence between creation and cutoff, counts the windows from that evidence, and passes the validation |
| ExportAccounting.WeeksStartOnMonday | src/services/product-analytics-export-service.ts:100-108 | the week of an account starts on the Monday on or before its UTC day of creation |
| ExportLease.LeaseStaysExact | src/repositories/product-analytics-export-repo.ts:648-688 | whoever holds an unexpired lease is the active run of the state row, with a newer cutoff than the last publication |
| ExportLease.AlwaysValid | src/repositories/product-analytics-export-repo.ts:511-688 | the same over all runs of any number of exporters |
| ExportLease.OneHolder | src/repositories/product-analytics-export-repo.ts:648-676 | there is never more than one unexpired lease holder |
| ExportLease.PublishedIsLastPublication | src/repositories/product-analytics-export-repo.ts:511-577 | cutoffs strictly increase, and milestones and cohorts are the staging of the last published run |
| ExportLease.DesktopDaysAreLastStaged | src/repositories/product-analytics-export-repo.ts:528-532 | the desktop events of a day are those staged by the last published run whose window covered it |
| ExportLease.PublishesExactlyWhenHeld | src/repositories/product-analytics-export-repo.ts:511-577 | a run publishes exactly while it holds the lease with its staging there; otherwise nothing changes |
| ExportLease.OnlyPublicationsPublish | src/repositories/product-analytics-export-repo.ts:511-577 | no other operation changes what is published |
| ExportLease.LaterGuardsNeverFire | src/repositories/product-analytics-export-repo.ts:513-576 | with the lease held, the cutoff test and the final row-count assertion cannot fail |
| ExportLease.OvertakenForever | src/repositories/product-analytics-export-repo.ts:648-688 | a run that lost its lease never publishes again |
| ExportLease.ProductAnalyticsExportRepository.BeginRun | src/repositories/product-analytics-export-repo.ts:172-223 | acquires exactly when the lease is free or expired and the cutoff newer |
| ExportLease.ProductAnalyticsExportRepository.ValidateAndPromote | src/repositories/product-analytics-export-repo.ts:511-599 | the script commits exactly when its first assertion holds, else changes nothing |
| ExportLease.WindowIsSevenClosedDays | src/services/product-analytics-export-service.ts:386-392 | the desktop window is the seven whole UTC days before the day of the cutoff |
| ExportLease.AcquisitionDecides | src/repositories/product-analytics-export-repo.ts:172-223 | a new run takes the lease exactly when nobody holds it and its cutoff is newer than every publication |
| ExportLease.ReleasingFrees | src/repositories/product-analytics-export-repo.ts:678-688 | releasing frees exactly the own lease |
| ExportLease.StagingIsKept | src/repositories/product-analytics-export-repo.ts:225-372 | staging is replaced per run, within the days of the run |
| ExportLease.ExportPublishes | src/repositories/product-analytics-export-repo.ts:511-577 | acquiring, staging and promoting publishes the tables, and of desktop days exactly those of the window are replaced |
| ExportLease.FirstExport | src/repositories/product-analytics-export-repo.ts:511-577 | the first export publishes exactly what it staged |
| PreferenceCas.StepIsValid | src/repositories/user-repo.ts:172-316 | the revision grows by at most one per operation and stays a safe integer; a tombstone stays |
| PreferenceCas.NeverBackwards | src/repositories/user-repo.ts:172-316 | over any run the revision never falls and the tombstone never changes |
| PreferenceCas.DisabledForever | src/repositories/user-repo.ts:77-98 | after the tombstone the stored and the shown preference are disabled for good |
| PreferenceCas.TakesEffectOnce | src/repositories/user-repo.ts:195-240 | expected revisions of effective updates strictly increase: nothing takes effect twice |
| PreferenceCas.RevisionCounts | src/repositories/user-repo.ts:172-316 | the revision counts the effective updates, plus one for the suppression unless the counter was full |
| PreferenceCas.RetryIsIdempotent | src/repositories/user-repo.ts:198-246 | an immediate retry is accepted and returns the committed record unchanged |
| PreferenceCas.RetryIsAcceptedWhileCommitted | src/repositories/user-repo.ts:198-257 | a later retry is accepted exactly while the document still is the committed one |
| PreferenceCas.ConflictIsReadLater | src/repositories/user-repo.ts:248-256 | the record of a conflict, from a second query, is no older than the refusing document and newer than every update that took effect in between |
| PreferenceCas.UserRepository.UpdateProductAnalyticsPreference | src/repositories/user-repo.ts:172-257 | the conditional update: accepted, not matched and malformed, each exactly in its case |
| PreferenceCas.UserRepository.SuppressProductAnalyticsExport | src/repositories/user-repo.ts:259-316 | the first suppression wins and is reported by repetitions |
| PreferenceCas.ReadersSee | src/repositories/user-repo.ts:77-98 | a suppressed account never reads as enabled |
| PreferenceCas.UpdateDecides | src/repositories/user-repo.ts:182-257 | a new operation at the current revision takes effect, a repetition is accepted as it stands, anything else is refused; a tombstone refuses opting in |
| PreferenceCas.OptingOutIsAccepted | src/repositories/user-repo.ts:172-257 | with the revision just read, opting out always works, and opting in until the tombstone |
| PreferenceCas.SuppressionLands | src/repositories/user-repo.ts:259-316 | what the first suppression writes |
| BridgeTracker.OnStatusIsValid | src/services/bridge-state-tracker.ts:54-106 | a status event keeps timers, generations and pushes consistent |
| BridgeTracker.OneTimer | src/services/bridge-state-tracker.ts:140-185 | an entry has at most one armed timer |
| BridgeTracker.OnStatusStaysClean | src/services/bridge-state-tracker.ts:54-106 | a status event endangers alternation exactly when it doubles a push in flight |
| BridgeTracker.PushAlternates | src/services/bridge-state-tracker.ts:187-207 | a push alternates exactly when its status is not the one last told |
| BridgeTracker.SpentNeverSends | src/services/bridge-state-tracker.ts:140-216 | a cancelled or sent notification is never sent again |
| BridgeTracker.CancelSpends | src/services/bridge-state-tracker.ts:209-216 | cancelling spends the pending notification |
| BridgeTracker.ObservedDeviceIsExcluded | src/services/bridge-state-tracker.ts:108-124 | an observed device is left out of the online push of its connection |
| BridgeTracker.ObservedBeforeSubmission | src/services/notification-service.ts:113-120 | a device observed on the connection of an online push is left out of every push sharing its live set that is submitted later, even one whose send had begun |
| BridgeTracker.StepIsValid | src/services/bridge-state-tracker.ts:54-237 | every step keeps every entry consistent |
| BridgeTracker.EveryOnlineAnswersOffline | src/services/bridge-state-tracker.ts:239-255 | in every reachable state each entry starts with an offline push and its only timer is its pending one |
| BridgeTracker.PushesAlternate | src/services/bridge-state-tracker.ts:54-106 | pushes strictly alternate, offline first, unless a status event doubles a push in flight |
| BridgeTracker.DoublingRepeats | src/services/bridge-state-tracker.ts:54-106 | doubling can repeat a push: a concrete run |
| BridgeTracker.NothingSentAfterDispose | src/services/bridge-state-tracker.ts:218-237 | after disposal nothing is sent and nothing changes |
| BridgeTracker.BridgeStateTracker.HandleStatusChangeForBridge | src/services/bridge-state-tracker.ts:54-106 | suppress, cancel, ignore, or schedule |
| BridgeTracker.BridgeStateTracker.TimerCallback | src/services/bridge-state-tracker.ts:174-200 | sends only for the notification the timer was set for |
| BridgeTracker.BridgeStateTracker.DisposeOnce | src/services/bridge-state-tracker.ts:224-237 | the loop cancels every entry, then the tracker is emptied |
| BridgeTracker.SuppressedEventCancels | src/services/bridge-state-tracker.ts:69-74 | a suppressed event only takes back a pending online push |
| BridgeTracker.ReturningWithdraws | src/services/bridge-state-tracker.ts:76-82 | a change back to the status last told withdraws the pending push |
| BridgeTracker.NewsIsScheduled | src/services/bridge-state-tracker.ts:76-106 | any other news replaces what was pending, five seconds or two minutes ahead; without news nothing changes |
| BridgeTracker.NewsExcludes | src/services/bridge-state-tracker.ts:150-168 | a new online push leaves out the devices observed early on its connection and those of the push it replaces |
| BridgeTracker.TimerSends | src/services/bridge-state-tracker.ts:174-200 | the timer of the pending notification sends it, any other nothing |
| BridgeTracker.SendClears | src/services/bridge-state-tracker.ts:187-207 | a finished send clears its notification unless another took its place |
| BridgeTracker.EarlyDevicesAreRemembered | src/services/bridge-state-tracker.ts:108-124 | early devices are remembered for their connection alone |
| BridgeTracker.SubmissionReadsSet | src/services/notification-service.ts:113-120 | a submission leaves out exactly the live set |
| BridgeTracker.SubmissionsEnd | src/services/notification-service.ts:113-120 | nothing is submitted twice or for a send that is over |
| BridgeTracker.QuickRestartIsSilent | src/services/bridge-state-tracker.ts:239-255 | a computer back before its offline push was due is not heard of |
| BridgeTracker.OfflineIsReported | src/services/bridge-state-tracker.ts:54-207 | from a new tracker, going away and coming back is reported offline, then online |
| BridgeTracker.AbsenceIsReported | src/services/bridge-state-tracker.ts:54-106 | one that stays away is reported offline, and online when it returns |
| Activation.PostImageIsStored | src/repositories/activation-state-repo.ts:175-262 | on every pre-image the reconstruction equals the two-stage aggregation, and reports exactly the first milestones |
| Activation.WriteOnce | src/repositories/activation-state-repo.ts:166-388 | milestones, markers and the backfill mark are write-once and the first session only gets earlier |
| Activation.ToldOnce | src/repositories/activation-state-repo.ts:256-260 | at most one caller is told that it recorded a milestone: mobile set-up, bridge set-up or first session |
| Activation.ToldIsStored | src/repositories/activation-state-repo.ts:256-260 | a caller is told only of a milestone that was not there, and what it is told stays stored, a first session possibly moved earlier |
| Activation.SomebodyWroteIt | src/repositories/activation-state-repo.ts:265-330 | a stored milestone was first told to a caller or came from the one backfill |
| Activation.FirstSessionIsEarliest | src/repositories/activation-state-repo.ts:180-195 | the first session is the minimum of the candidates that counted |
| Activation.MarkedOnce | src/repositories/activation-state-repo.ts:370-388 | each reminder is marked at most once |
| Activation.SecondAfterFirst | src/repositories/activation-state-repo.ts:43-67 | the second bridge reminder is marked only after the first |
| Activation.NeverBothInOneSweep | src/services/activation-reminder-service.ts:11-17 | whatever others write meanwhile, one sweep never sends a user both bridge reminders |
| Activation.OtherOrderSendsBoth | src/services/activation-reminder-service.ts:11-17 | in the other order the first marker would make the second reminder due at once |
| Activation.ActivationStateRepository.RecordMilestonesWithResult | src/repositories/activation-state-repo.ts:166-263 | returns the stored state and the milestones it claimed |
| Activation.ActivationStateRepository.ApplyBackfillOnce | src/repositories/activation-state-repo.ts:265-330 | applied exactly when no backfill was stored |
| Activation.ActivationStateRepository.MarkReminderSentIfStillDue | src/repositories/activation-state-repo.ts:370-388 | marks exactly when still due |
| Activation.EveryReminderCountedOnce | src/services/activation-reminder-service.ts:220-293 | sent, skipped and failed exclude each other and leave out only what disposal cut short |
| Activation.ActivationReminderService.SweepOnce | src/services/activation-reminder-service.ts:117-146 | a sweep starts exactly when enabled, available and none is in flight |
| Activation.ActivationReminderService.ProcessKind | src/services/activation-reminder-service.ts:204-218 | the counters are the numbers of due reminders of each outcome |
| Activation.ActivationReminderService.ProcessReminder | src/services/activation-reminder-service.ts:220-293 | one due reminder counts in exactly one way |
| Activation.RecordingFillsIn | src/repositories/activation-state-repo.ts:175-230 | a recording fills in what is missing; an earlier first session replaces a later one |
| Activation.BaselinesFollowMilestones | src/repositories/activation-state-repo.ts:196-222 | without a backfill the reminder baselines are the mobile set-up and the later of both set-ups |
| Activation.BackfillFillsIn | src/repositories/activation-state-repo.ts:265-330 | the first backfill fills in what is missing and restarts the one reminder left open |
| Activation.MarkingNeedsDue | src/repositories/activation-state-repo.ts:43-67 | a reminder is marked exactly while it is due, spelled out |
| Activation.DueIsSent | src/services/activation-reminder-service.ts:220-293 | a reminder is sent in its stage exactly if found due, and marked after the send |
| Activation.SweepInOrder | src/services/activation-reminder-service.ts:204-293 | nothing is sent unchecked or twice, or marked without having been sent |
| Activation.StagesFollow | src/services/activation-reminder-service.ts:11-17 | the stages of a sweep follow each other |
| Activation.OutcomesAreRight | src/services/activation-reminder-service.ts:220-293 | what each outcome counts as |

## Left out

- HTTP and WebSocket transport, request parsing, rate limiting, HTML pages and configuration: input and output around the protocols; the socket is a trace of events, each with the fate of its send.
- MongoDB, BigQuery, the speech provider, push delivery and OAuth clients: only the atomic effect of each call is kept, and it may fail.
- Hashing, randomness and ObjectIds: user keys are an injective function of user ids, and lease, run, bridge and waiter ids are fresh values.
- Real timers, promises and abort signals: they are steps that may happen at any time; nothing is claimed about the provider or a timer eventually acting. In the session controller no timer fires between the provider connection and the return of `start`, because only microtasks run there.
- Rounding: bytes, milliseconds and limits are integers, and provider progress is a real number.
- Usage written by the non-realtime transcription route and the change of the UTC day: both share the counter but lie outside the overshoot bound.
- The mapping of provider errors to protocol codes: the code of a failed send is an input.
- RealtimeService.DocumentedBound: stated under the condition that no start fails while its terminal has seconds to bill, because the documented bound does not hold without it, as FailedStartsOverrun shows; OvershootBound has no condition.
- PendingAuthHistory.RunIsValid: assumes that creations supply OAuth states distinct across live sessions; SuppliedStatesAreNeeded shows the condition is exact for one creation.
- PendingAuthWakeups.FreshThroughout: a waiter that survives a re-creation of its key from a non-pending status is outside the guarantee, as RecreationLosesAWakeUp shows.
- The LRU library under the pending sign-ins: modelled by its recency list, not by its internal layout.
- The draining of presence reads at shutdown: it only waits for reads to end.
- Provider, PKCE verifier, client type and device of a pending sign-in: carried along unread.
- EventSuppression.NoRowSurvivesSuppression: excludes calls that crash between their insert and the end of their re-check, as CrashLeavesRow shows they must be.
- GlossaryRevocation.NoWordSurvivesRevocation: excludes calls that crash between their insert and the end of their second check, as CrashLeavesWords shows they must be.
- Glossary capacity: the counts are read before the insert and race by design; the words a call ends up adding are arbitrary here.
- GlossaryRevocation.GetContextWords: takes the sorted, duplicate-free words as its input; the sort is a library call.
- RegistrationCap.BridgeService.RerankOwn: takes the sorted re-read as its input; the sort is a library call.
- Re-registration of a known bridge by id or host key: updates in place and inserts nothing, so it does not touch the cap.
- The columns of desktop events: a day's events are a sequence of opaque rows.
- ExportLease.ProductAnalyticsExportRepository.ValidateAndPromote: models the publication script; the validation query before it is modelled by AccurateBooksValidate in ExportAccounting.
- The account-not-found results of the preference operations, and malformed stored preferences: every modelled document is complete.
- Payload text, tray keys and collapse keys of pushes: single-branch formatting.
- Sends of a bridge entry that was dropped or disposed: their set of excluded devices is out of reach by then, and what becomes of them is not followed.
- Activation.ActivationReminderService.ProcessKind: how each external call turns out is an input; disposal appears as an outcome of a single reminder.
- Per-device settings, feedback, legal documents and command-line parsing: easy or single-branch.
