# Verified model of the Lili session pipeline

Lili shows what coding-agent sessions are doing: hooks report session events, a local server applies
them, and a desktop pet shows the strongest thing that is waiting. This project models the parts
that decide what is shown, kept, delivered and written, and proves what they promise over all runs.
Check it with `dafny verify dfyconfig.toml`.

## What is modelled

- **Session reducer** (`SessionTypes`, `ReducerModel`, `PersistenceModel`, `SessionReducer`). Sessions,
  turns, notification cards, the window of recent deliveries, the presentation with its minimum dwell
  and activity reminder, and the lossy save and restore. The state functions are the specification;
  the class `SessionReducer` updates fields in place and every method is proved equal to its function.
  `ReducerInvariant`, `DeliveryEffects`, `AttentionCards`, `DeliveryOnce`, `DeliveryOrder`,
  `Presentation`, `PresentationDwell`, `RestoreNormalForm`, `RestorableDocuments`, `RetiredTurns`,
  `KeptSessions`, `CutSessions`, `Restarts` and `Surprises` hold the theorems.
- **Store** (`StoreModel`, `StoreSafety`, `SaveRefusals`, `AppState`). Validate, write, or put the
  old reducer back, with a store that may fail at any save and a process that may restart at any time.
- **Titles** (`TitleModel`, `TitleSafety`, `TitleScheduling`, `TitleDispatch`). Scheduling, workers,
  reconfiguration and shutdown as interleaved steps, each the work done under one holding of the locks.
- **Spool** (`SpoolModel`, `SpoolLimits`, `SpoolConservation`, `SpoolSafety`, `SpoolCounters`,
  `SpoolDrain`, `SpoolBounds`, `SpoolSurprises`, `SpoolNames`, `SpoolStore`). The directory as a map
  from names to contents, enqueue in two steps, claims, commits, releases, crashes and recovery; a
  ledger says what became of each record.
- **Forwarding** (`ReplayWindow`, `ForwardingVerifier`, `Encodings`, `EventIdentities`). The replay
  window over time, and the length-prefixed strings that are hashed or signed.
- **Codex evidence** (`PluginSources`, `EvidenceModel`, `EvidenceSafety`, `EvidenceCoverage`,
  `CodexAdapter`). Plugin marks in event sources, coverage, and the bounded memory of authenticated
  plugin deliveries.
- **Ingestion** (`IngestionModel`, `IngestionSafety`, `ForwardingSurprises`, `NativeIngestion`). The
  actor that joins the verifier, the persisted reducer and the evidence.
- **Integration** (`JsonTree`, `HooksModel`, `HooksRoundTrip`, `ShellCommands`, `IntegrationModel`,
  `IntegrationRoundTrip`, `Reinstallation`, `Uninstallation`, `IntegrationSurprises`, `CodexHome`).
  Installing hooks and the notify command, once or repeatedly, and taking them out.
- **Window placement** (`WindowPlacement`). Restoring a saved window in exact arithmetic.

`Basics` and `Ordering` are shared vocabulary. Clocks, random numbers, new allocations, the order in
which a directory is listed, and failures of the store are parameters.

## Where the code does less than it seems to

- An ended session may keep an unresolved Attention card: an end event that names a turn resolves the
  cards of that turn only. `AttentionCards.EndedQuietExactly` gives the exact condition,
  `Surprises.EndedSessionMayKeepAttention` a run. The native hooks end sessions without a turn.
- A delivery can leave a session whose current turn counts as retired, and a state with such a session
  among those kept cannot be restored. `RetiredTurns.Misplaces` tells beforehand which deliveries do:
  a known turn that was retired becomes current again by a late event; a new turn comes too late to
  take the place of the current one, which it retires all the same, as can happen among events of one
  millisecond; or a retired turn passes for a new one because its session was resumed without a
  current turn. `Surprises` has a run for each of the three. The persisted operations refuse to save
  such a state and stay restorable; `SaveRefusals.InvalidExactly` says from the state before exactly
  when, which also covers an operation that would move a cut session of this kind among those kept.
- After a restart an event absorbed before can be applied once more: exactly when its session was cut
  on saving, or what the restored session remembers no longer covers it
  (`Restarts.ReplayAfterRestartExactly`; `Surprises.RestartAppliesAgain` is a run).
- A forwarded message dated after its acceptance can be accepted again once its nonce is forgotten
  (`ReplayWindow.ReplayableExactly`; `ForwardingSurprises.AcceptedAgain` is such a message).
- An enqueue can report a failure although its record was promoted by a recovery in the meantime and
  is being delivered: exactly when the record was promoted before and is no longer pending and
  readable (`SpoolSafety.FinishFailsExactly`; `SpoolSurprises.FailureIsReportedWhileDelivering` is a
  run).
- A message whose event could not be saved has used up its nonce
  (`IngestionSafety.UnsavedMessageIsSpent`; `ForwardingSurprises.UnsavedThenRefused` is such a message).
- However often a home without anything of ours was installed into, uninstalling recognises our hooks
  exactly if the last installation was from the hook binary of the first: a later one from another
  path, which is where an application that was moved finds its binary, records that path but leaves
  the handlers as they are, so that all of them are refused as changed, uninstalling is incomplete and
  none is removed. The configuration comes back exactly if a notify command of someone else was kept
  beside ours by each installation, an exclusive one forgetting it, and, where there was no
  configuration, all were from one binary, as otherwise an empty one is left
  (`Reinstallation.InstalledRepeatedlyComesBackExactly`, for two installations
  `Reinstallation.TwiceInstalledComesBackExactly`; `IntegrationSurprises.MovedIsLeftBehind` and
  `IntegrationSurprises.OriginalIsLost` are such homes).
- A restored window keeps its logical placement but not always its pixel when the result is restored
  again: `WindowPlacement.ResolvingStaysExactly` says exactly when it does, and
  `WindowPlacement.MayMoveToItsUnit` is a window held by an edge that moves.

## Model

| member | source | states |
|---|---|---|
| ReducerInvariant.RunKeepsInv | lili-session/src/reducer.rs:199-317 | every run keeps: sessions under their key, the current turn recorded, retired turns distinct and at most 16, at most one card per session and always of a known session, recent queue distinct, bounded and equal to its set |
| ReducerInvariant.DeliverKeepsInv | lili-session/src/reducer.rs:199-255 | one delivery, applied or refused, keeps all of that |
| ReducerInvariant.QueueAppend | lili-session/src/reducer.rs:637-648 | appending to a bounded queue without repetition keeps it distinct and bounded, with the elements the set bookkeeping expects |
| ReducerInvariant.RetiredStaysBounded | lili-session/src/reducer.rs:889-901 | remembering a retired turn keeps the list distinct and at most 16, newest last, and loses none while there is room |
| DeliveryEffects.TurnIsRecorded | lili-session/src/reducer.rs:522-581 | an applied turn event becomes the last of its turn in the phase of its kind, reopens the session, never moves its time back, makes its turn current unless a later one is, gives the session its project unless a later event came before, and touches no other turn or session |
| DeliveryEffects.TerminalTurnsStayTerminal | lili-session/src/reducer.rs:835-863 | no delivery takes a turn out of a terminal phase or moves its last event back |
| DeliveryEffects.BoundaryIsRecorded | lili-session/src/reducer.rs:476-520 | an applied start or end is the last event of its session, keeps its turns, and leaves it open without a current turn, or ended; a project told at a start replaces the one known |
| DeliveryEffects.AppliedIsLater | lili-session/src/reducer.rs:541-551 | an event is applied to a known turn, or to a known session with a new turn, only if it is later in time, at one time if its identity is greater |
| DeliveryEffects.CardIsShown | lili-session/src/reducer.rs:583-618 | the card an applied event calls for becomes the only card of its session, unless one as late is there; then the cards stay |
| DeliveryEffects.QuestionsAreAnswered | lili-session/src/reducer.rs:620-635 | after a resolution or the end of a turn no question of that turn is open |
| DeliveryEffects.OtherCardsStay | lili-session/src/reducer.rs:583-635 | cards of other sessions are untouched by a delivery |
| DeliveryEffects.OnlyQuestionsAreResolved | lili-session/src/reducer.rs:620-635 | nothing is resolved by a delivery but questions of its session, and of its turn if it names one |
| AttentionCards.RunKeepsAttentionOpen | lili-session/src/reducer.rs:522-635 | in every run an unresolved Attention card never speaks of a turn recorded as completed or failed |
| AttentionCards.EndedQuietExactly | lili-session/src/reducer.rs:229-255 | a delivery breaks "ended sessions have no unresolved Attention" exactly when it is an applied end that names a turn and another turn's question is open |
| AttentionCards.RunKeepsEndedQuiet | lili-session/src/reducer.rs:229-255 | runs whose ends name no turn never leave an unresolved Attention on an ended session |
| DeliveryOnce.RefusedLeavesNoTrace | lili-session/src/reducer.rs:199-255 | a Duplicate changes nothing; a stale event changes nothing but the recent-delivery window, not even by the session entry it creates on the way; an applied one raises the revision by one |
| DeliveryOnce.AppliedAtMostOnce | lili-session/src/reducer.rs:522-551 | an identical turn event is applied at most once in any run, also after its identity has left the window |
| DeliveryOnce.DeliveredAgainIsDuplicate | lili-session/src/reducer.rs:637-666 | a turn event that comes again before 4,096 other operations is a duplicate and changes nothing |
| DeliveryOrder.LatestTerminalEventDecides | lili-session/src/reducer.rs:522-618 | delivering any distinct turn events of a fresh session whose greatest one ends a turn leaves the phase, current turn, time and the one Unread card that this event gives |
| DeliveryOrder.ArrivalOrderIrrelevant | lili-session/src/reducer.rs:522-618 | so any two permutations of the deliveries leave the same summary and card |
| Presentation.RunNeverUnder | lili-session/src/reducer.rs:668-715 | under a clock that never runs back the pet never shows less than what is wanted |
| Presentation.AppliedIsTight | lili-session/src/reducer.rs:668-715 | after an applied delivery the pet shows what is wanted or something stronger whose dwell has not passed |
| Presentation.AdvanceSettles | lili-session/src/reducer.rs:288-296 | advancing at the end of the minimum dwell or later shows exactly what is wanted |
| Presentation.DismissShowsDesired | lili-session/src/reducer.rs:263-286 | dismissing a card shows what is wanted at once |
| PresentationDwell.ShownForItsDwell | lili-session/src/reducer.rs:668-691 | a tick, a reminder or a delivery that replaces no card gives up the shown state for a weaker one only after its minimum dwell, but for the activity reminder coming or running out |
| PresentationDwell.ChangesAreDated | lili-session/src/reducer.rs:239-249 | every operation that changes what is shown dates it with its own time |
| PresentationDwell.TickChangesExactly | lili-session/src/reducer.rs:286-296 | a tick changes what is shown exactly if something else is asked for that is stronger, a reminder, the end of one, or due after the dwell |
| PresentationDwell.ReplacedCardIsShown | lili-session/src/reducer.rs:239-250 | a card that takes the place of another is shown at once |
| PresentationDwell.DesiredIsStrongest | lili-session/src/reducer.rs:692-716 | what is asked for is the strongest of what the cards and the reminder ask for one by one |
| PresentationDwell.DismissalIs | lili-session/src/reducer.rs:263-284 | a dismissal marks exactly an unread card as acknowledged and changes nothing else about cards and sessions |
| PresentationDwell.DismissedQuestionWaits | lili-session/src/reducer.rs:263-284 | a dismissed question keeps the pet waiting |
| PresentationDwell.DismissedNewsIsSilent | lili-session/src/reducer.rs:263-284 | a dismissed failure or completion asks for nothing any more |
| PresentationDwell.ActivityIsReminded | lili-session/src/reducer.rs:224-232 | exactly starts and answers extend the reminder, to five seconds from their acceptance, and nothing shortens it |
| PresentationDwell.ReminderLasts | lili-session/src/reducer.rs:257-261 | a restarted reminder shows for five seconds and then gives way, if no card asks for anything |
| RestoreNormalForm.SaveRestoreNormalForm | lili-session/src/reducer.rs:319-446 | saving and restoring any reachable state fails only with RetiredCurrentTurn, exactly when a kept session's current turn is among its retired ones; otherwise saving the restored state gives the identical document |
| RestoreNormalForm.CutKeepsPresentation | lili-session/src/reducer.rs:319-397 | cutting to 128 sessions never changes what is shown after a restart: it is the strongest kind among all Unread cards |
| RestoreNormalForm.RestoreSessionExactly | lili-session/src/reducer.rs:768-833 | one session survives saving and restoring exactly if its current turn is not in its own retired list |
| RestoreNormalForm.RestoreCardsExactly | lili-session/src/reducer.rs:399-446 | the saved cards of kept sessions restore, each under its own identity |
| RestoreNormalForm.RestoredPersists | lili-session/src/reducer.rs:319-397 | the restored state keeps the same sessions and cards in the same order when saved again |
| RestorableDocuments.RestorableExactly | lili-session/src/reducer.rs:399-446 | a document, whoever wrote it, can be restored exactly if it has at most 128 sessions under different keys, at most 16 different retired turns each, the current turn recorded and not retired, and unread cards of its sessions, one of each |
| RestorableDocuments.RestoredSessionsAre | lili-session/src/reducer.rs:791-832 | restoring gives exactly the sessions of the document, each of which would be saved as it was |
| Restarts.RestoreYieldsInv | lili-session/src/reducer.rs:399-446 | whatever document is restored successfully, the result satisfies the invariant |
| Restarts.LifeKeepsEverything | lili-session/src/reducer.rs:199-446 | runs with saves and restarts anywhere keep the invariant and the Attention properties |
| Restarts.ReplayAfterRestartExactly | lili-session/src/reducer.rs:399-446 | an event absorbed before a restart is applied again exactly when its session was cut, or was kept but remembers neither its turn nor a later position |
| Restarts.LifeNeverUnder | lili-session/src/reducer.rs:434-444 | in no run with restarts, each of which starts the clock anew, does the pet show less than what is wanted |
| Surprises.EndedSessionMayKeepAttention | lili-session/src/reducer.rs:229-255 | a concrete run that ends a session with an open question |
| Surprises.LateEventBlocksRestore | lili-session/src/reducer.rs:865-887 | a concrete run in which a late event makes a retired turn current and restoring fails |
| Surprises.NewTurnRetiresCurrent | lili-session/src/reducer.rs:541-561 | a concrete run of one millisecond in which a new turn retires the current one without taking its place and restoring fails |
| Surprises.RetiredTurnPassesForNew | lili-session/src/reducer.rs:399-446 | a concrete run in which, after a restart, an end and a resume, an event of a retired turn is taken for a new turn and restoring fails |
| Surprises.RestartAppliesAgain | lili-session/src/reducer.rs:399-446 | a concrete run after which a restart applies an event a second time |
| SessionReducer.SessionReducer.WithMinimumDwell | lili-session/src/reducer.rs:187-192 | a new reducer is the initial state with the given dwell |
| SessionReducer.SessionReducer.ReduceAt | lili-session/src/reducer.rs:199-255 | acts as the specified delivery, outcome included |
| SessionReducer.SessionReducer.SettleTransition | lili-session/src/reducer.rs:224-255 | reminder, cards and presentation follow a transition as specified |
| SessionReducer.SessionReducer.RestartActivityReminder | lili-session/src/reducer.rs:257-261 | restarts the reminder and refreshes what is shown as specified |
| SessionReducer.SessionReducer.AcknowledgeNotification | lili-session/src/reducer.rs:263-286 | acts as the specified dismissal, stale when the card is unknown or read |
| SessionReducer.SessionReducer.AdvancePresentation | lili-session/src/reducer.rs:288-296 | acts as the specified tick |
| SessionReducer.SessionReducer.UpdateNotificationTitle | lili-session/src/reducer.rs:298-317 | writes the title exactly when the card is the same unread allocation and the title is new and well formed |
| SessionReducer.SessionReducer.PersistentState | lili-session/src/reducer.rs:319-397 | ranks, cuts, chooses and lists in loops what the specification saves |
| SessionReducer.SessionReducer.KeepSessions | lili-session/src/reducer.rs:319-353 | the sessions kept are the first 128 of the specified ranking |
| SessionReducer.SessionReducer.ChooseCards | lili-session/src/reducer.rs:359-384 | the card chosen for a session is its Unread card that supersedes the others |
| SessionReducer.SessionReducer.RankCards | lili-session/src/reducer.rs:385-391 | the chosen cards in the specified order |
| SessionReducer.SessionReducer.FromPersistentState | lili-session/src/reducer.rs:399-446 | restores exactly when and as specified, with the specified error otherwise |
| SessionReducer.SessionReducer.IntoRecord | lili-session/src/reducer.rs:791-833 | restores one session or reports why not, as specified |
| SessionReducer.SessionReducer.ApplySessionEvent | lili-session/src/reducer.rs:476-520 | starts, resumes or ends a session as specified |
| SessionReducer.SessionReducer.ApplyTurnEvent | lili-session/src/reducer.rs:522-581 | records a turn event as specified, entering the session before its guards |
| SessionReducer.SessionReducer.InsertNotification | lili-session/src/reducer.rs:583-618 | replaces the session's card unless one as late is there, and tells whether it did |
| SessionReducer.SessionReducer.ResolveAttention | lili-session/src/reducer.rs:620-635 | resolves the Attention cards of a session, or of one turn of it |
| SessionReducer.SessionReducer.RememberEvent | lili-session/src/reducer.rs:637-648 | keeps queue and set together and drops the oldest identity |
| SessionReducer.SessionReducer.RefreshPresentation | lili-session/src/reducer.rs:668-690 | shows what is wanted when it is stronger or the dwell has passed, as specified |
| SessionReducer.SessionReducer.RememberRetiredTurn | lili-session/src/reducer.rs:889-901 | appends to the bounded list of retired turns as specified |
| StoreSafety.PerformIsSafe | lili-app-state/src/lib.rs:478-562 | one persisted operation under any store failure: an error leaves memory and disk as they were, a saved change leaves disk equal to the projection of memory, both stay restorable, and a single writer is never rejected as outdated |
| SaveRefusals.InvalidExactly | lili-app-state/src/persistence.rs:233-247 | an operation is refused as invalid exactly if it changes something and some session has, or is left with, a retired turn as current while ranking among those kept; all told from the state before |
| SaveRefusals.InvalidWhileAllAreKept | lili-app-state/src/persistence.rs:233-247 | while all sessions are kept, exactly the accepted deliveries that misplace a turn of a known session are refused |
| SaveRefusals.AnswersExactly | lili-app-state/src/lib.rs:478-505 | a persisted operation is saved exactly if it changes something, spoils no kept session, the store does not fail and the revision fits the database; each other answer has its own exact condition |
| SaveRefusals.PerformsTheOperation | lili-app-state/src/lib.rs:478-505 | in memory an operation that does not fail does what it does without a store, and a saved activity starts the five seconds of the reminder over after the save |
| SaveRefusals.ChangesExactly | lili-app-state/src/lib.rs:478-562 | an operation has something to save exactly if its guard holds before it |
| RetiredTurns.AppliedExactly | lili-session/src/reducer.rs:199-255 | a delivery is applied exactly if its event is new where it counts and not out of date, told from the state before |
| RetiredTurns.LeavesRetiredExactly | lili-session/src/reducer.rs:541-581 | a delivery leaves its session with a retired turn as current exactly in the three cases told beforehand, or if an end keeps one |
| RetiredTurns.MisplacesExactly | lili-session/src/reducer.rs:865-887 | the same for turn events of a known session |
| KeptSessions.KeptExactly | lili-session/src/reducer.rs:340-353 | a session is kept exactly if fewer than 128 rank before it |
| CutSessions.KeptGoBeforeCut | lili-session/src/reducer.rs:318-357 | as many sessions are kept as there is room for, and each goes before each that is cut: for its unread card, then its phase, then the later time, then the smaller identity |
| CutSessions.SavedSessionsInOrder | lili-session/src/reducer.rs:338-357 | the document lists exactly the kept sessions in that order |
| CutSessions.SavedCardsInOrder | lili-session/src/reducer.rs:386-392 | the document lists the cards by strength, then the latest first, then by identity |
| KeptSessions.UnreadIsAfter | lili-session/src/reducer.rs:583-635 | the strength of a session's unread card after a delivery, told from the state before |
| KeptSessions.RecordIsAfter | lili-session/src/reducer.rs:865-887 | the phase and time of a session after a delivery, told from the state before |
| StoreSafety.LoadIsSafe | lili-app-state/src/persistence.rs:268-296 | loading what was saved always succeeds and is in step with the disk |
| StoreSafety.LifeIsSafe | lili-app-state/src/lib.rs:478-562 | all of that in every run of persisted operations, ticks and restarts |
| StoreSafety.StartIsSafe | lili-app-state/src/persistence.rs:268-296 | an empty reducer over an empty row is a start |
| StoreSafety.RestorableExactly | lili-app-state/src/persistence.rs:233-247 | a state passes validation before a save exactly if no kept session's current turn is retired |
| AppState.AppState.ApplySessionEventPersisted | lili-app-state/src/lib.rs:478-515 | reduce, save, or put the old reducer back, then restart the reminder: acts as the specified command |
| AppState.AppState.AcknowledgeNotificationPersisted | lili-app-state/src/lib.rs:539-562 | dismiss and save, or put the old reducer back |
| AppState.AppState.SaveNotificationTitle | lili-app-state/src/title.rs:150-172 | write a title and save, or put the old reducer back |
| TitleSafety.RunKeepsInv | lili-app-state/src/title.rs:23-148 | every interleaving keeps at most 256 pending titles, entries that name their own worker under the current configuration, and writers that own their entry |
| TitleSafety.IdleIsInv | lili-app-state/src/title.rs:12-16 | an application without workers is a start |
| TitleSafety.OnlyTheWorkerWrites | lili-app-state/src/title.rs:97-172 | a title changes only when a worker writes whose token is pending for the card, under the current configuration, onto the same still unread allocation it was spawned for |
| TitleSafety.WritesOnce | lili-app-state/src/title.rs:97-148 | a worker that has written never writes again |
| TitleSafety.QuietAfterShutdown | lili-app-state/src/title.rs:84-95 | after a shutdown nothing is pending and no title is written until actions are configured again |
| TitleSafety.ReconfigureRetiresWorkers | lili-app-state/src/lib.rs:694-727 | no worker spawned before a reconfiguration writes after it |
| TitleSafety.AdmitIsOk | lili-app-state/src/title.rs:50-79 | entering cards one by one keeps the bound, gives each a fresh token and one worker, and spawns none for a card already pending |
| TitleScheduling.AdmitExactly | lili-app-state/src/title.rs:51-86 | cards enter in the order they are listed as long as there is room: exactly the first of those that are unread, asked for and not pending yet, with the next tokens |
| TitleScheduling.ScheduledExactly | lili-app-state/src/title.rs:23-86 | a scheduling call keeps exactly the entries of unread cards and enters exactly the first missing ones, each with a worker of the current configuration; with room every card asked for is pending |
| TitleScheduling.UndisturbedWorkerWrites | lili-app-state/src/title.rs:105-158 | a worker nobody disturbs writes the title it resolved and leaves the table |
| TitleScheduling.SilentWorkerLeaves | lili-app-state/src/title.rs:105-158 | a worker without a title, or whose save fails, leaves the table and changes nothing else |
| TitleScheduling.TitleIsWritten | lili-session/src/reducer.rs:298-316 | a title goes onto that unread allocation only, changes nothing else but the revision, and is not written twice |
| TitleScheduling.FreshTitleIsWritten | lili-session/src/reducer.rs:298-316 | onto a card as it was read exactly another title of 1 to 256 characters without control characters is written |
| TitleDispatch.TitleDispatch.Schedule | lili-app-state/src/title.rs:33-79 | prunes the entries of cards no longer unread and enters the wanted ones as specified, unless closed |
| TitleDispatch.TitleDispatch.Take | lili-app-state/src/title.rs:113-124 | a worker goes on only if its token is the pending one and it has a title |
| TitleDispatch.TitleDispatch.Finish | lili-app-state/src/title.rs:140-147 | an entry is taken out only by the worker it belongs to |
| TitleDispatch.TitleDispatch.Close | lili-app-state/src/title.rs:87 | nothing more is entered; what is pending stays |
| TitleDispatch.TitleDispatch.Drain | lili-app-state/src/title.rs:91 | all entries are handed over and none stay |
| TitleDispatch.TitleDispatch.Reopen | lili-app-state/src/lib.rs:706-711 | the table is open and empty again |
| SpoolSafety.RunConserves | lili-session/src/spool.rs:117-208 | over any interleaving of enqueue, claim, commit, release, crash and recovery a promoted record has one final fate or sits unchanged in exactly one file |
| SpoolSafety.RunKeepsInv | lili-session/src/spool.rs:117-208 | every interleaving keeps one file per record and the ledger in step with the directory |
| SpoolSafety.CommittedOnce | lili-session/src/spool.rs:379-406 | a commit that succeeds removes the record its consumer was given, and no other commit of it ever succeeds |
| SpoolSafety.StepPreserves | lili-session/src/spool.rs:117-208 | what entered the queue never changes and a fate is final |
| SpoolSafety.FinishFailsExactly | lili-session/src/spool.rs:141-148 | an enqueue that reaches the lock fails exactly if its record was promoted before and is no longer pending and readable |
| SpoolSurprises.FailureIsReportedWhileDelivering | lili-session/src/spool.rs:596-613 | a concrete run in which an enqueue reports a missing record while a consumer holds it |
| SpoolSafety.FinishTells | lili-session/src/spool.rs:141-160 | what each outcome of an enqueue says about its record |
| SpoolSafety.OpenedIsInv | lili-session/src/spool.rs:210-247 | any directory with one file per record is a start |
| SpoolSafety.PromoteMovesUp | lili-session/src/spool.rs:596-613 | promotion moves the staged file up or finds that a recovery did |
| SpoolSafety.RecoverMovesUp | lili-session/src/spool.rs:166-208 | recovery in any order only moves staged and claimed files up to pending, stopping at an unreadable one |
| SpoolCounters.RunCounts | lili-session/src/spool.rs:255-314 | after any run the drop counters are those found on opening plus exactly the drops of each kind, saturating |
| SpoolCounters.OpenedCounts | lili-session/src/spool.rs:316-343 | on opening nothing has been dropped yet |
| SpoolLimits.EvictionIsShortest | lili-session/src/spool.rs:292-314 | the queue ends within its limits by the shortest sufficient run of the weakest records; none evicted outranks any kept |
| SpoolLimits.EvictedExactly | lili-session/src/spool.rs:292-314 | a record is evicted exactly if it and everything outranking it exceed the limits together |
| SpoolLimits.EnqueueKeepsLimits | lili-session/src/spool.rs:117-160 | after an enqueue the queue is readable, unexpired and within count and bytes |
| SpoolLimits.StoredExactly | lili-session/src/spool.rs:152-160 | an enqueue reports Stored exactly if its record and everything outranking it fit the limits |
| SpoolLimits.EnqueuedContends | lili-session/src/spool.rs:141-148 | a staged record that is not overdue takes part |
| SpoolLimits.SweepLeavesFreshRecords | lili-session/src/spool.rs:255-290 | collecting removes exactly what is overdue or unreadable |
| SpoolDrain.DrainDelivers | lili-session/src/spool.rs:210-247 | repeated claim and commit delivers every readable unexpired record exactly once by priority, time and path |
| SpoolDrain.DrainEmpties | lili-session/src/spool.rs:210-247 | then the queue is empty, staged files and foreign claims untouched |
| SpoolDrain.ClaimIsMostUrgent | lili-session/src/spool.rs:551-560 | no deliverable record is more urgent than the one claimed next |
| SpoolDrain.EvictionSparesUrgent | lili-session/src/spool.rs:292-314 | eviction never takes a record and keeps a less urgent one |
| SpoolBounds.CollectedExactly | lili-session/src/spool.rs:255-290 | collecting removes exactly the pending files that cannot be read or whose record is older than the greatest age, and raises the two counters by their numbers |
| SpoolBounds.ClaimIsFirst | lili-session/src/spool.rs:210-253 | a claim hands out a readable record in date exactly if there is one, and every other is less urgent, or as urgent and enqueued later |
| SpoolBounds.EnforcedFits | lili-session/src/spool.rs:292-318 | number and bytes of the queue are within the limits afterwards; only its records went, each counted |
| SpoolBounds.FittingStays | lili-session/src/spool.rs:292-318 | a queue within the limits loses nothing |
| SpoolBounds.GoneGoesBeforeKept | lili-session/src/spool.rs:292-318 | what is evicted is less urgent than what is kept, or as urgent and enqueued earlier |
| SpoolBounds.LastGoneDidNotFit | lili-session/src/spool.rs:292-318 | the last record evicted did not fit beside what is kept |
| SpoolBounds.EnqueueFits | lili-session/src/spool.rs:117-208 | after an enqueue the queue is within number and bytes, readable and in date |
| SpoolBounds.StagedExactly | lili-session/src/spool.rs:117-145 | a record is written exactly within the hard bounds, with a whole event, up to 65,536 bytes; the checks are made in that order |
| SpoolBounds.ReleasedIsPending | lili-session/src/spool.rs:386-408 | a record given back is pending again under its own name or a new one, and nothing else moves |
| SpoolBounds.ReleasedGoesOn | lili-session/src/spool.rs:386-408 | a record given back in date is handed out again unless another one goes first |
| SpoolDrain.RecoverExactly | lili-session/src/spool.rs:166-208 | recovery succeeds exactly when every staged and claimed file is readable, then makes all pending whatever the listing order, and counts them |
| SpoolDrain.RecoverThenDrain | lili-session/src/spool.rs:162-247 | after a crash, recovery and a drain deliver every record still in the directory that is not overdue |
| SpoolNames.NamesRank | lili-session/src/spool.rs:562-569 | pending files sort by name exactly as by time, then number |
| SpoolNames.ConversionsRoundTrip | lili-session/src/spool.rs:571-594 | the three names of a record convert into one another |
| SpoolNames.KindsAreRecognised | lili-session/src/spool.rs:166-200 | recovery and collection take every file for what it is |
| SpoolNames.PaddedRanks | lili-session/src/spool.rs:562-569 | zero-padded numbers compare as text as they compare as numbers |
| SpoolStore.SpoolStore.Stage | lili-session/src/spool.rs:117-139 | checks limits, event and size in order and writes the staged file |
| SpoolStore.SpoolStore.FinishEnqueue | lili-session/src/spool.rs:141-160 | promotes, collects and evicts as specified, and tells whether the record was retained |
| SpoolStore.SpoolStore.CollectPending | lili-session/src/spool.rs:255-290 | removes and counts as specified, one file at a time, and lists the rest |
| SpoolStore.SpoolStore.EnforceLimits | lili-session/src/spool.rs:292-314 | the eviction loop with its running total removes exactly the specified records |
| SpoolStore.SpoolStore.ClaimNext | lili-session/src/spool.rs:210-247 | claims the first in order, as specified, after the limits check |
| SpoolStore.SpoolStore.Commit | lili-session/src/spool.rs:379-384 | removes the claimed file, or fails when it is gone |
| SpoolStore.SpoolStore.Release | lili-session/src/spool.rs:392-406 | puts the record back under its name, or a new one when that is taken |
| SpoolStore.SpoolStore.RecoverClaims | lili-session/src/spool.rs:166-208 | moves files in listing order as specified, ending at an unreadable one |
| SpoolStore.SpoolStore.Order | lili-session/src/spool.rs:217-223 | sorts by the specified order, ascending or descending in priority |
| ReplayWindow.AcceptedTwice | lili-session/src/forwarding.rs:425-498 | a nonce accepted twice implies that more than the window has passed or that as many others as are remembered were accepted in between |
| ReplayWindow.HonestDateNeverReplays | lili-session/src/forwarding.rs:440-442 | a message dated no later than its acceptance is never accepted again without such overflow |
| ReplayWindow.ReplayableExactly | lili-session/src/forwarding.rs:440-498 | an accepted message sent again right away is accepted again at some moment exactly if it was dated after its acceptance |
| ForwardingSurprises.AcceptedAgain | lili-session/src/forwarding.rs:425-498 | a concrete message dated ahead that is accepted twice |
| ReplayWindow.RefusedExactly | lili-session/src/forwarding.rs:425-498 | an accepted message that comes again next and in date is refused as a replay exactly within the window, if the clock never ran back |
| ReplayWindow.AcceptedExactly | lili-session/src/forwarding.rs:425-498 | a message is accepted exactly if it passes the other checks, is dated within the window before or after the clock, and its nonce was not accepted within the window; outside it is expired, a known nonce is a replay |
| ReplayWindow.AcceptedIsInDate | lili-session/src/forwarding.rs:440-442 | whatever the clock did, what is accepted is dated within the window before or after it |
| ReplayWindow.ChecksInOrder | lili-session/src/forwarding.rs:425-466 | the failure of an earlier check hides those of later ones and leaves the memory alone |
| ReplayWindow.RemembersTheNewest | lili-session/src/forwarding.rs:466-498 | the memory after an acceptance is the newest nonces within the window, as many as there is room for, and the new one |
| ReplayWindow.PruneKeepsExactly | lili-session/src/forwarding.rs:486-498 | under a clock that never runs back, pruning leaves exactly the nonces within the window |
| ReplayWindow.VerifyKeepsChronological | lili-session/src/forwarding.rs:425-484 | the queue stays in order of time |
| ForwardingVerifier.ForwardingVerifier.VerifyPayload | lili-session/src/forwarding.rs:425-484 | queue and index agree and stay within capacity; queue and verdict are as specified |
| ForwardingVerifier.ForwardingVerifier.PruneNonces | lili-session/src/forwarding.rs:486-498 | removes old nonces from queue and index together |
| ForwardingVerifier.ForwardingVerifier.WithLimits | lili-session/src/forwarding.rs:411-423 | starts empty with a capacity of at least one |
| Encodings.FieldsDetermine | lili-session/src/forwarding.rs:532-545 | length-prefixed fields followed by anything determine the fields and what follows |
| Encodings.FieldRoundTrip | lili-session/src/codex.rs:651-654 | reading a field gives it back with the rest |
| Encodings.EvidenceDetermines | lili-session/src/forwarding.rs:532-545 | what is signed as evidence determines domain and payload |
| Encodings.DomainsAreSeparate | lili-session/src/forwarding.rs:522-545 | a signed message never equals signed evidence |
| Encodings.AppendFields | lili-session/src/forwarding.rs:536-543 | appending length and bytes field by field gives the specified string |
| EventIdentities.LifecycleDetermines | lili-session/src/codex.rs:604-654 | two hook deliveries share an identity string exactly if they agree on the hook and on every identifying field |
| EventIdentities.NativeShows | lili-session/src/codex.rs:607-610 | a native permission request never shares a string with a legacy one |
| EventIdentities.OptionalDetermines | lili-session/src/codex.rs:641-649 | an optional field is told from an absent one |
| EventIdentities.NotifyDetermines | lili-session/src/codex.rs:588-602 | a completed turn is identified by its thread and turn |
| EventIdentities.FallbackDetermines | lili-session/src/normalization.rs:219-245 | a fallback identity string determines provider, kind, session, turn or its absence, time and source |
| EvidenceSafety.RunKeepsInv | lili-session/src/codex.rs:298-401 | every run keeps surfaces strictly sorted, coverage a function of them, at most 16 pieces of evidence of distinct plugins, each its plugin's latest authenticated delivery, and trust exactly with a recorded delivery of the discovered plugin |
| EvidenceSafety.MemoryIsCutHistory | lili-session/src/codex.rs:386-401 | the bounded memory is the last delivery of every plugin, cut to the 16 heard of last |
| EvidenceSafety.DeliveriesAreRemembered | lili-session/src/codex.rs:342-401 | between refreshes the evidence is that cut of the authenticated deliveries |
| EvidenceSafety.DeliveryTrustsExactly | lili-session/src/codex.rs:220-239 | a delivery makes the plugin trusted exactly if it is an authenticated one of the discovered plugin |
| EvidenceSafety.RefreshTrustsExactly | lili-session/src/codex.rs:298-332 | a refresh trusts the plugin exactly if it runs and the evidence has a delivery of that very package |
| EvidenceSafety.SpooledMakesNoEvidence | lili-session/src/codex.rs:338-384 | a spooled delivery changes neither evidence nor plugin |
| EvidenceCoverage.RunReportsExactly | lili-session/src/codex.rs:835-856 | after any run a part of the lifecycle is reported missing exactly if no inspection and no Codex event ever spoke of a surface that shows it |
| EvidenceCoverage.DeliveryJudges | lili-session/src/codex.rs:220-239 | a delivery leaves other plugins alone; of the discovered one it tells a mismatch exactly if it is of another version, else a supported version, and legacy hooks beside it as an overlap |
| EvidenceCoverage.RefreshFindsNoMismatch | lili-session/src/codex.rs:298-332 | a refresh finds no mismatch by itself, as what it trusts is a delivery of the very package |
| EvidenceCoverage.HookCountsForItsName | lili-session/src/codex.rs:703-718 | the source of a hook counts for the surface its name says, whatever follows |
| EvidenceSafety.InsertAllSorts | lili-session/src/codex.rs:299-303 | merging surfaces keeps them sorted and loses none |
| PluginSources.MarkRoundTrip | lili-session/src/codex.rs:459-491 | reading a marked source gives back plugin, version, home and the old source |
| PluginSources.MarkKeepsSurface | lili-session/src/codex.rs:703-718 | marking does not change the surface an event counts for |
| CodexAdapter.CodexAdapterDiagnostics.RecordAcceptedEventInner | lili-session/src/codex.rs:342-384 | records a delivery as specified |
| CodexAdapter.CodexAdapterDiagnostics.RememberAuthenticatedPluginEvent | lili-session/src/codex.rs:386-401 | replaces or appends and forgets the oldest, as specified |
| CodexAdapter.CodexAdapterDiagnostics.RecordPluginEvent | lili-session/src/codex.rs:220-239 | updates the plugin for its own deliveries only, as specified |
| CodexAdapter.CodexAdapterDiagnostics.RefreshDiscovery | lili-session/src/codex.rs:298-332 | merges an inspection as specified |
| CodexAdapter.CodexAdapterDiagnostics.Place | lili-session/src/codex.rs:354-356 | binary search finds the surface or its place |
| IngestionSafety.IngestChangesOnly | lili-app-state/src/ingestion.rs:266-340 | what a submission can change: rejected, one count; verification, its own reducer; unsaved, only the memory of nonces |
| IngestionSafety.AcknowledgedIsSaved | lili-app-state/src/ingestion.rs:266-340 | an event acknowledged as accepted is on disk, or was stale and left the disk as it was |
| IngestionSafety.AcknowledgedExactly | lili-app-state/src/ingestion.rs:266-313 | a submission is acknowledged exactly if its message is accepted and, for an event, it is out of date, known or can be saved |
| IngestionSafety.DuplicateExactly | lili-app-state/src/ingestion.rs:266-298 | told to be a duplicate exactly if the event was delivered lately to that reducer, and then nothing changes |
| IngestionSafety.CountedExactly | lili-app-state/src/ingestion.rs:266-340 | a submission moves at most one counter by one: accepted, duplicate, or the one of its refusal |
| IngestionSafety.SpooledCountedExactly | lili-app-state/src/ingestion.rs:235-246 | an event from the spool counts as accepted or duplicate, an invalid one as malformed |
| IngestionSafety.UnsavedMessageIsSpent | lili-app-state/src/ingestion.rs:266-313 | a message whose event could not be saved is refused as a replay exactly within the window, if the clock never ran back, while its event can still be applied as if it had never come |
| ForwardingSurprises.UnsavedThenRefused | lili-app-state/src/ingestion.rs:266-313 | a concrete message whose event is not saved and which is then refused as a replay |
| IngestionSafety.EvidenceNeedsAuthentication | lili-app-state/src/ingestion.rs:300-340 | evidence changes only by saved authenticated events, never by spooled ones |
| IngestionSafety.IngestSpooledKeepsSafe | lili-app-state/src/ingestion.rs:235-246 | the same for events from the spool |
| IngestionSafety.IngestKeepsSafe | lili-app-state/src/ingestion.rs:266-340 | memory and disk stay in step whatever is submitted |
| NativeIngestion.NativeIngestionActor.Ingest | lili-app-state/src/ingestion.rs:266-298 | verifier, reducer, store and evidence together act as specified |
| NativeIngestion.NativeIngestionActor.IngestSpooled | lili-app-state/src/ingestion.rs:235-246 | an invalid event is counted, a valid one is applied without authentication |
| NativeIngestion.NativeIngestionActor.ReduceEvent | lili-app-state/src/ingestion.rs:300-340 | applies, saves and records as specified, and records nothing on a failed save |
| IntegrationRoundTrip.UninstallUndoesInstall | lili-integration/src/uninstall.rs:64-117 | uninstalling after installing into a home without anything of ours is complete, conflict-free, removes five handlers and gives back the configuration exactly and the hooks with only empty groups and events pruned; created files go |
| IntegrationRoundTrip.InstallableExactly | lili-integration/src/install.rs:154-184 | exactly when such a home can be installed into |
| IntegrationRoundTrip.HooksComeBackExactly | lili-integration/src/uninstall.rs:219-268 | the hooks document comes back exactly if it had a hooks object with nothing empty in it |
| IntegrationRoundTrip.InstallIsIdempotent | lili-integration/src/install.rs:76-152 | installing again in the same mode changes nothing, not even the provenance, exactly if the hook binary is the same |
| IntegrationRoundTrip.CoexistenceIsRemembered | lili-integration/src/plan.rs:246-265 | a coexisting installation finds the command to pass on to in its own notify setting |
| IntegrationRoundTrip.OtherModeIsIdempotent | lili-integration/src/plan.rs:129-228 | without such a command a second installation changes nothing, whatever its mode, exactly if the hook binary is the same |
| Reinstallation.InstalledRepeatedlyComesBackExactly | lili-integration/src/uninstall.rs:64-117 | after any installations into a home without anything of ours uninstalling is complete exactly if the last was from the hook binary of the first, otherwise it removes none of our handlers; the configuration comes back exactly if a notify command of someone else was kept each time and, where there was none, all were from one binary |
| Reinstallation.TwiceInstalledComesBackExactly | lili-integration/src/plan.rs:129-228 | after two installations in any modes and from any binaries uninstalling is complete exactly if the binaries are the same; the configuration comes back exactly unless the second was exclusive over the notify command of someone else, or there was none and the binaries differ |
| Reinstallation.ForeignHooksStay | lili-integration/src/uninstall.rs:334-367 | none of the handlers installed from another hook binary is recognised: the plan refuses them all and reports a conflict |
| Reinstallation.RequestsReach | lili-integration/src/install.rs:154-230 | whatever the installations, the home has the handlers of the first binary, the notify setting and record of the last, and the command kept by all |
| Reinstallation.FurtherIsPossible | lili-integration/src/install.rs:154-184 | after any installations a further one is possible in either mode and from any binary |
| Reinstallation.ExclusiveForgetsOriginal | lili-integration/src/plan.rs:129-228 | an exclusive installation over a coexisting one makes uninstalling drop the original notify command |
| IntegrationSurprises.MovedIsLeftBehind | lili/src/integration_cli.rs:433-437 | a concrete empty home, installed into from two places, whose handlers and configuration uninstalling leaves behind |
| IntegrationSurprises.OriginalIsLost | lili-integration/src/plan.rs:129-228 | a concrete home whose own notify command is lost after a coexisting and an exclusive installation |
| IntegrationRoundTrip.ConfigComesBack | lili-integration/src/uninstall.rs:144-196 | the notify setting is restored or removed, a created configuration goes |
| HooksRoundTrip.UninstallUndoesInstall | lili-integration/src/uninstall.rs:198-269 | the same for the hooks document alone |
| HooksRoundTrip.CompleteLeavesNoMarker | lili-integration/src/uninstall.rs:198-269 | for any document: a plan called complete leaves no marker among the hooks, an incomplete one leaves the document as it is and reports a conflict |
| HooksRoundTrip.AddHooksInstalls | lili-integration/src/install.rs:249-290 | adding hooks succeeds exactly when every event's value is a list, and puts our group last in each |
| HooksRoundTrip.RenderExactly | lili-integration/src/install.rs:249-290 | on an unmarked document rendering succeeds exactly if the document can be extended |
| HooksRoundTrip.AllAreServed | lili-integration/src/lib.rs:772-788 | after an installation every event is served, whoever served it before |
| HooksRoundTrip.AdditionsAre | lili-integration/src/plan.rs:139-150 | the planned additions are exactly the events not served yet |
| HooksRoundTrip.PrunedExactly | lili-integration/src/uninstall.rs:248-257 | pruning changes nothing exactly if no group and no event was empty |
| HooksRoundTrip.RemovedInAnyOrder | lili-integration/src/uninstall.rs:230-247 | the number of removed handlers does not depend on the order of the events |
| ShellCommands.CommandIsRead | lili-integration/src/plan.rs:267-282 | whatever the path of the hook binary, a POSIX shell reads the planned command as that path and the three arguments of our hook |
| ShellCommands.HandlerIsRead | lili-integration/src/install.rs:272-286 | the handler written is such a command with two seconds to answer |
| Uninstallation.RefusedExactly | lili-integration/src/uninstall.rs:64-117 | uninstalling is refused exactly without a record, with one that is not ours, or if a file cannot be parsed, and then changes nothing |
| Uninstallation.CompleteLeavesNothing | lili-integration/src/uninstall.rs:64-117 | a complete uninstallation leaves nothing of ours in the home, whatever was made of it since, and forgets the record; an incomplete one keeps it |
| Uninstallation.CompleteExactly | lili-integration/src/uninstall.rs:64-117 | complete exactly if no other notify command of ours stands and the hooks plan is complete; a conflict exactly if the command is not the recorded one or the hooks plan is incomplete |
| Uninstallation.ConfigPlanExactly | lili-integration/src/uninstall.rs:144-196 | what becomes of the notify setting and the file in each case; no other setting changes |
| Uninstallation.ChangedHandlerStays | lili-integration/src/uninstall.rs:324-378 | one handler of ours that is not as it was written makes the plan refuse all |
| Uninstallation.HandlersOfOthersStay | lili-integration/src/uninstall.rs:230-262 | handlers of others stay for every event, in their order and as often |
| Uninstallation.CoexistOriginalExactly | lili-integration/src/plan.rs:246-265 | a setting of ours is read as passing on to a command exactly if it has the very form that is written |
| CodexHome.CodexHome.Install | lili-integration/src/install.rs:76-152 | an interrupted installation leaves all files as they were; an uninterrupted one succeeds exactly when possible and leaves what is specified |
| CodexHome.CodexHome.Verified | lili-integration/src/install.rs:309-320 | what was written always passes the inspection that follows |
| CodexHome.CodexHome.RenderHooks | lili-integration/src/install.rs:249-290 | the rendering loop gives the specified document or error |
| CodexHome.CodexHome.ManagedHookCommands | lili-integration/src/install.rs:397-415 | collects exactly the marked commands of the document |
| CodexHome.CodexHome.Uninstall | lili-integration/src/uninstall.rs:64-117 | checks, plans and applies as specified |
| CodexHome.CodexHome.PlanConfigUninstall | lili-integration/src/uninstall.rs:144-196 | plans the configuration as specified |
| CodexHome.CodexHome.PlanHooksUninstall | lili-integration/src/uninstall.rs:198-269 | plans the hooks as specified |
| CodexHome.CodexHome.StripEvents | lili-integration/src/uninstall.rs:225-257 | the editing loops give the specified hooks and count |
| WindowPlacement.RestoredIsVisible | lili-app-state/src/persistence.rs:154-195 | a restored window shows the margin, or half of itself, on both axes of the chosen display |
| WindowPlacement.ChosenExactly | lili-app-state/src/persistence.rs:154-165 | the display of the window if it is there, else a primary one, else the first |
| WindowPlacement.RestoredWhereItWas | lili-app-state/src/persistence.rs:154-203 | a window is restored within half a pixel of its logical position at the scale of the chosen display, or as far that way as the margin allows, and the placement returned is that of the pixel |
| WindowPlacement.ResolvingIsStable | lili-app-state/src/persistence.rs:154-195 | resolving its own result gives the same placement at every scale, and the same pixels at up to one pixel per unit |
| WindowPlacement.BoundsAreOrdered | lili-app-state/src/persistence.rs:176-186 | the bounds of the clamp are never the wrong way round |
| WindowPlacement.NothingOverflows | lili-app-state/src/persistence.rs:165-188 | with displays and windows of up to 2^29 pixels no physical value leaves 32 bits, with smaller ones and an admitted scale no logical value either |
| WindowPlacement.ResolvingStaysExactly | lili-app-state/src/persistence.rs:154-195 | resolving its own result keeps the pixels exactly if along both axes a pixel is no finer than a unit, no edge is in the way, or the edge is reached again from its own logical unit |
| WindowPlacement.AxisStaysExactly | lili-app-state/src/persistence.rs:165-188 | the same for one axis |
| WindowPlacement.MayMoveToItsUnit | lili-app-state/src/persistence.rs:154-195 | a window held by the right edge of a display with three pixels to a unit that moves by a pixel, with the margin of 48 the application passes |
| WindowPlacement.FindFinds | lili-app-state/src/persistence.rs:161-165 | with distinct identities a saved display is found again |

## Left out

- Text: JSON, TOML and SQL are trees, maps and one row; layout, comments and key order are not kept.
  Whether a hooks file without a hooks object holds the marker is decided on the tree, not on its bytes.
- Hashing, signatures and randomness: digests are represented by the strings they are computed over,
  random numbers and allocations are fresh parameters.
- Identities: providers, sessions, turns and events are ranks in the order of their bytes, and a card
  identity is the pair it is hashed from, ordered as that pair.
- Parsing and redacting provider payloads, summaries and project labels: events arrive normalized.
- The sorted listing of snapshots, capabilities, previews and diagnostics texts.
- File systems: permissions, symbolic links, syncing and stale locks. A locked section is atomic and
  crashes fall between sections; a failing removal or an unreadable metrics file is not modelled.
- SessionReducer.SessionReducer.PersistentState: does not model the size limit of the encoded document, a save that exceeds it is a failing save.
- TitleSafety.RunKeepsInv: does not model fairness, so nothing says that a title is resolved in the end.
- SpoolSafety.RunConserves: assumes that random file names do not repeat and that live claims have different tags.
- SpoolStore.SpoolStore.RecoverClaims: does not model abandoned temporary files, which hold no record.
- ReplayWindow.AcceptedTwice: takes the outcome of the signature check as given, the strength of signatures is not modelled.
- IntegrationRoundTrip.UninstallUndoesInstall: does not model hooks declared in the configuration file, backups, or the check that the plan was made for the files as they are.
- CodexHome.CodexHome.Install: does not model a rollback that itself fails.
- WindowPlacement.ResolvingIsStable: is about exact ratios, the code computes in 64-bit floating point.
- NativeIngestion.NativeIngestionActor.ReduceEvent: models the actor with a store; without one nothing is saved.
- The window of dispatched interactions, which is the recent-delivery window of the reducer once more.
- Action supervision, process execution, the HTTP server, pet assets, migration and the release scripts.
