# Sleepy session daemon: verified model

The session daemon keeps desktop state through hand-written crash-safe protocols and event streams.
This project models those protocols in Dafny and proves what they are for. `dafny verify
dfyconfig.toml` checks everything.

| file | models |
|---|---|
| `binding_model.dfy`, `binding_transaction.dfy` | the transaction that replaces presets, settings and generated bindings as one unit: phased journal, sidecars, reload handshake, rollback, reconcile |
| `generation.dfy` | generation numbers from durably reserved blocks |
| `desktop_dedupe.dfy`, `desktop_control.dfy` | durable deduplication of requests, and request handling as a state machine with crashes and restarts |
| `desktop_snapshot.dfy`, `desktop_authority.dfy` | assembling the 24 domains, replay-then-delta subscribers, stale observations |
| `notification_documents.dfy`, `notification_store.dfy`, `notification_provider.dfy` | stored notifications, the redo journal over three files, the popup and origin maps |
| `theme_transaction.dfy` | the undo-journalled theme change |
| `calendar_timezone.dfy`, `calendar_recurrence.dfy` | compiled time zones, local-time resolution, recurrence expansion |
| `overview_channel.dfy` | the lag-detecting event channel |
| `osd_router.dfy`, `osd_publication.dfy` | timed on-screen-display queues, and the hub that publishes them |
| `group_topology.dfy` | the reciprocal group check with its skip set |
| `launcher_match.dfy` | the greedy matcher and the ranking |
| `wrappers.dfy` | the option datatype |

How crashes are modelled. The binding transaction counts durable steps: a process has a budget and
stops where it is exhausted. Every durable state is appended to a ghost history, and theorems are
about all histories. A notification commit takes the number of steps that succeed. Theme operations
draw a fate each: fine, failed with or without effect, or the last thing the process does. Desktop
requests are a transition system with a kill action. The compositor, the desktop sink and the clock
answer arbitrarily.

Findings, where the code does less than its design says:

- A request that expects generation 0 can be executed twice when requests are served before
  initialization; the daemon initializes first, and then at-most-once has no exception
  (`AtMostOnce`, `ZeroGenerationCanRunTwice`, `AtMostOnceWhenInitializedFirst`).
- The observation revision wraps at 2^64; staleness is missed exactly at multiples of that, and it
  happens in every initialized authority (`ObservationGoesStale`, `WrapLetsStaleThrough`).
- If cleanup of the theme journal fails after removing it, writing it back fails without effect and the
  rollback then stops halfway, the places disagree and no journal is left. That pattern of failures is
  exactly when it happens, it needs an unreliable storage, and it occurs (`ApplyTearsExactly`,
  `LostJournalTearsApart`).
- In the same situation, when the rollback fails before it has any effect, a failed apply leaves the candidate
  everywhere and no journal; otherwise a failed apply without a journal has the previous theme back
  (`FailedApplySide`, `FailedApplyKeepsCandidate`).
- A first OSD publication numbered zero never reaches a subscriber that joined before it; the runtime
  numbers its publications from one (`AllLaterOnesAreExpected`, `ZeroNeverArrives`).
- Stopping a recurrence at the window's end is exact if and only if no instance is later than a
  later-numbered one of the rule (`StoppingEarlyMissesNothing`). That holds for all UTC and all-day
  events and for zones whose clock never falls back by a whole step (`AdvancingIsOrderly`,
  `ZonedEventsAdvance`); there is a zone file for which it fails (`LeapingMidnightIsMissed`).

The binding transaction relies on its callers for two things: every candidate file has contents
(documents are serialized JSON, and bindings start with `binds {`, src/bindings/compiler.rs:27-36) and the
active preset has a name. Under them a confirmed reconcile always finishes (`Recover`);
`EmptyCandidateIsStuck` shows that the first is needed.

## Model

| member | source | states |
|---|---|---|
| BindingModel.AllOrNothing | src/bindings/apply.rs:1298-1442 | Over every run with at most one started request, cut at any durable step and followed by any number of cut or finished reconciles: with no journal left the three live files are together what was found or together the requested candidate (absence included) and no sidecar remains; a journal left records what was found and what was requested. |
| BindingModel.RestIsKnown | src/bindings/apply.rs:1298-1442 | Over any number of transactions: at rest the three files are together what the run started from or together some requested candidate, and a journal belongs to the latest request. |
| BindingModel.LoadedWasConfirmed | src/bindings/apply.rs:1564-1583 | A side counts as loaded if and only if, since the transaction started, a reload was answered with a confirmation while all three live files were on that side. |
| BindingModel.RecoveryTargetOnlyTurnsBack | src/bindings/journal.rs:238-261 | Between any two durable states of one transaction the recovery target never returns from Previous to Candidate and the phase never goes back. |
| BindingModel.SidecarsAreNamed | src/bindings/journal.rs:299-335 | In every reachable durable state a sidecar or sidecar temporary exists only while a journal naming it is on disk. |
| BindingModel.ArtifactsOfJournal | src/bindings/journal.rs:337-410 | A reachable journal holds exactly one artifact of each kind. |
| BindingModel.ReachableJournalsLoad | src/bindings/journal.rs:337-410 | A journal reached through any crashes passes validation on load if and only if its active preset id is not blank. |
| BindingModel.FullCandidatesAreInstallable | src/bindings/compiler.rs:27-36 | A candidate without an empty file, which is all that callers pass, can be installed over whatever was found. |
| BindingModel.InstallKeepsConsistent | src/bindings/journal.rs:493-540 | Replacing one live file by the side being installed, under a complete unconfirmed journal, keeps the invariant and is an allowed step. |
| BindingModel.RemovalKeepsConsistent | src/bindings/journal.rs:299-335 | Removing sidecars is safe before the journal is complete and after the reload was confirmed. |
| BindingModel.PublishingAdvances | src/bindings/journal.rs:413-427 | Publishing both sidecars of one kind extends the published part by exactly that kind. |
| BindingModel.CompletionKeepsConsistent | src/bindings/journal.rs:83-168 | Marking the sidecars complete is allowed once all of them are published with the right bytes. |
| BindingModel.PhaseKeepsConsistent | src/bindings/journal.rs:238-261 | A phase or target change keeps the invariant when the live files justify what it claims. |
| BindingTransaction.BindingStore.Durable | src/bindings/journal.rs:263-275 | One durable step: either it happens and is recorded as an allowed step of the run, or the cut is reached and nothing changes; it starts no request and hears no answer. |
| BindingTransaction.BindingStore.Begin | src/bindings/journal.rs:277-297 | The rename that starts a transaction records exactly the request and the files found. |
| BindingTransaction.BindingStore.PublishSidecar | src/bindings/journal.rs:413-427 | Publishes one sidecar through a temporary in at most two durable steps, leaving the bytes under the journal's name. |
| BindingTransaction.BindingStore.PublishArtifact | src/bindings/journal.rs:413-427 | Publishes the old and the new sidecar of one artifact, and only those. |
| BindingTransaction.BindingStore.PublishSidecars | src/bindings/journal.rs:83-168 | Publishes all six sidecars, touching nothing else. |
| BindingTransaction.BindingStore.PublishJournal | src/bindings/journal.rs:83-168 | Publishes the journal of exactly the requested transaction, remembering the preset that the settings found name, or starts none; refuses if and only if a journal temporary of the same transaction is left. |
| BindingTransaction.BindingStore.Prepare | src/bindings/journal.rs:83-168 | Whatever the outcome, either no transaction is started and nothing but a journal temporary changes, or the plan is the requested one over the files found, with the preset they name; done, its journal is complete and the live files are as found. |
| BindingTransaction.BindingStore.RemoveArtifact | src/bindings/journal.rs:299-318 | Removes both sidecars and both temporaries of one artifact, present or not. |
| BindingTransaction.BindingStore.Cleanup | src/bindings/journal.rs:299-335 | Removes every sidecar and then the journal, in that order, and changes no live file. |
| BindingTransaction.BindingStore.SetPhase | src/bindings/journal.rs:238-253 | Persists the next phase before the process relies on it. |
| BindingTransaction.BindingStore.SetRecoveryTarget | src/bindings/journal.rs:255-261 | Persists the recovery target before the files of that side are installed. |
| BindingTransaction.BindingStore.VerifyNoopArtifacts | src/bindings/journal.rs:229-236 | Succeeds if and only if no file was absent with an empty candidate, at every point of the transaction. |
| BindingTransaction.BindingStore.Install | src/bindings/journal.rs:493-540 | Leaves one live file on the side asked for and touches no other; refuses if and only if the file was absent and its candidate is empty. |
| BindingTransaction.BindingStore.InstallTarget | src/bindings/journal.rs:214-227 | Leaves all three live files on the target side, whatever mixture it starts from. |
| BindingTransaction.BindingStore.InstallNew | src/bindings/journal.rs:185-199 | Leaves the file of one kind on the candidate side. |
| BindingTransaction.BindingStore.ReloadIsConfirmed | src/bindings/apply.rs:1564-1583 | Records the answer of the compositor; only a successful load confirms, and it counts for the files that are live then. |
| BindingTransaction.BindingStore.Confirm | src/bindings/apply.rs:1380-1387 | Records the confirmed reload and cleans up; the journal is gone and the live files stay. |
| BindingTransaction.BindingStore.ReportLoaded | src/bindings/apply.rs:1380-1387 | Reports a side only after a reload was confirmed while all three files were on it. |
| BindingTransaction.BindingStore.TurnBack | src/bindings/apply.rs:1414-1416 | Makes the previous side the target before it installs it. |
| BindingTransaction.BindingStore.RollBack | src/bindings/apply.rs:1395-1442 | Returns all three files to the original side and reports a rollback as confirmed only after a successful reload of it. |
| BindingTransaction.BindingStore.SettleReload | src/bindings/apply.rs:1372-1442 | The report is determined by the two answers: the target side on a confirmed first one, else a confirmed rollback on a confirmed second one, else unknown. |
| BindingTransaction.BindingStore.InstallCandidate | src/bindings/apply.rs:1503-1509 | Installs the candidate file by file between persisted phases. |
| BindingTransaction.BindingStore.InstallAndSettle | src/bindings/apply.rs:1503-1562 | An installed candidate ends pending, committed, rolled back or unknown exactly as the compositor answers; pending and committed leave the candidate files and name its preset, the others the files found and the preset they named. |
| BindingTransaction.BindingStore.Apply | src/bindings/apply.rs:1465-1562 | Refuses while a journal exists; whatever the outcome, the only transaction it can have started is the requested one over the files found; a report is pending, committed, rolled back or unknown exactly as the compositor answers, with that side live and its preset named; with enough steps (41) and a confirming compositor it commits the candidate if and only if no empty file is asked for where there was none. |
| BindingTransaction.BindingStore.Load | src/bindings/journal.rs:64-81 | Accepts a journal on disk if and only if its preset id is not blank; without one removes journal temporaries only. |
| BindingTransaction.BindingStore.Reinstall | src/bindings/apply.rs:1357-1364 | Reinstalls the side the journal calls for and leaves the reload pending. |
| BindingTransaction.BindingStore.Resume | src/bindings/apply.rs:1320-1442 | From the journal found: an installed candidate that was not turned back is kept and settled like a fresh one, anything else goes back to the files found, and the report names that side; for an installable plan it fails if and only if the compositor is out of reach, and then changes nothing. |
| BindingTransaction.BindingStore.FinishConfirmed | src/bindings/apply.rs:1309-1319 | Reports what an earlier process saw confirmed, for the side the journal records, with that side live and the journal gone. |
| BindingTransaction.BindingStore.Reconcile | src/bindings/apply.rs:1298-1442 | Which side it ends on, from the journal found alone: a recorded confirmation is reported for its own side; a candidate at BindingsCommitted or ReloadPending that was not turned back is committed when its reload is confirmed, left pending without a compositor, else rolled back; every earlier phase and every turned-back journal goes back to the files found. With enough steps (24) a complete valid journal of an installable plan is reported on if and only if it was confirmed or the compositor is in reach; with a confirming one the journal is removed if and only if its id is not blank and the plan is installable or was never completed. Each report rests on an answer heard by this process or by the one that recorded the confirmation. |
| BindingTransaction.Run | src/bindings/apply.rs:1298-1442 | Any sequence of applies and reconciles with any cuts and answers: at rest the three files are together what the run found or together the candidate of some command; every request and answer in the history comes from a process; every Committed or RolledBackConfirmed report has a confirming answer given while all three files were the reported ones. |
| BindingTransaction.Recover | src/bindings/apply.rs:1298-1442 | When every command asks for files with contents and a named preset, a reconcile that is not cut and whose reload is confirmed leaves no journal, whatever happened before. |
| BindingModel.StuckForGood | src/bindings/journal.rs:493-562 | A complete journal of a plan that cannot be installed is neither finished nor undone by anything that follows, and each live file stays the original or the requested one. |
| BindingTransaction.EmptyCandidateIsStuck | src/bindings/journal.rs:493-562 | The boundary of that: a request for an empty file where there was none ends with a complete journal, which no later apply or reconcile finishes or undoes; each live file stays the original or the requested one. |
| Generation.GenerationAllocator.NextGeneration | src/sessiond/generation.rs:73-75 | Returns a number at least as large as the next unreserved one it holds, and above every number handed out before. |
| Generation.GenerationAllocator.ReserveBlock | src/sessiond/generation.rs:129-175 | The durable file moves past a block before any of its numbers is used, even when the write fails half way. |
| Generation.Issue | src/sessiond/generation.rs:26-175 | Over any restarts and failed writes the numbers issued strictly increase. |
| DesktopDedupe.MakeRoomKeepsPending | src/desktop/mod.rs:2650-2665 | Making room keeps every pending record in order, drops only the oldest completed ones and no more than needed, and fails exactly when pending records fill the list. |
| DesktopDedupe.MakeRoomOnlyDrops | src/desktop/mod.rs:2650-2665 | Making room adds nothing and keeps request ids distinct. |
| DesktopDedupe.EvictionIsOldest | src/desktop/mod.rs:2650-2665 | The record dropped is the first completed one. |
| DesktopDedupe.SetResultTouchesOne | src/desktop/mod.rs:2622-2648 | Completing a request changes its own record and no other. |
| DesktopDedupe.DurableDedupe.MakeRoomIn | src/desktop/mod.rs:2650-2665 | The loop over the deque computes the specified eviction, or fails. |
| DesktopDedupe.DurableDedupe.CommitDocument | src/desktop/mod.rs:2667-2701 | Memory changes only when the durable write succeeded; a failed directory sync leaves disk ahead of memory. |
| DesktopDedupe.DurableDedupe.Begin | src/desktop/mod.rs:2605-2620 | Commits the list with a new pending record last, or changes nothing in memory. |
| DesktopDedupe.DurableDedupe.Complete | src/desktop/mod.rs:2622-2648 | Commits the list with the request's result, adding its record when it had been evicted. |
| DesktopControl.StepKeepsInv | src/desktop/mod.rs:794-875 | Every step of request handling, publication, crash and restart keeps the pending-record and moved-past invariant, which safety rests on; what becomes of a request is stated by the five rows from CurrentRequestIsExecuted on. |
| DesktopControl.CurrentRequestIsExecuted | src/desktop/mod.rs:794-821 | A new request that expects the current generation is executed, exactly once and after it is recorded as pending on disk, whatever producers publish before and after its record is written; only a list full of pending records prevents it. |
| DesktopControl.StaleRequestIsRefused | src/desktop/mod.rs:802-813 | A new request that expects any other generation is answered as failed with request.generation-stale and the current generation, and nothing is executed before another request arrives. |
| DesktopControl.ResultIsRecorded | src/desktop/mod.rs:867-874 | What the executor made of a request replaces its pending record with exactly that status and diagnostic under the generation of its publication; other records stay, and asking again finds the answer. |
| DesktopControl.RefusalIsRecorded | src/desktop/mod.rs:805-813 | A refusal is recorded as given, no pending record is lost for it, and asking again finds it. |
| DesktopControl.CurrentIsLastPublished | src/desktop/mod.rs:1209-1222 | The generation a request is compared with is that of the last publication that succeeded, not a number that was burned. |
| DesktopControl.RunKeepsInv | src/desktop/mod.rs:794-875 | So does every run. |
| DesktopControl.AtMostOnce | src/desktop/mod.rs:794-875 | Over every run with crashes and restarts one identical request is executed at most once, unless it expects generation zero. |
| DesktopControl.ZeroGenerationCanRunTwice | src/desktop/mod.rs:794-875 | Generation zero is a real exception: for any two request ids there is a run that executes such a request twice, after eviction. |
| DesktopControl.ServingInitializedAvoidsZero | src/bin/sleepy-sessiond.rs:142-160 | A daemon that serves requests only after initialization executes no request for generation zero. |
| DesktopControl.AtMostOnceWhenInitializedFirst | src/bin/sleepy-sessiond.rs:142-160 | In the order in which the session daemon starts, at-most-once holds without exception. |
| DesktopSnapshot.OneUpdateSuffices | src/desktop/mod.rs:2305-2370 | Changing one domain changes the assembled snapshot exactly by the update sent for that domain. |
| DesktopSnapshot.AssemblingIsDomainwise | src/desktop/mod.rs:1675-1756 | Assembling changes only the sections a domain feeds. |
| DesktopSnapshot.UpdatingIsDomainwise | src/desktop/mod.rs:2305-2370 | Applying the update of a domain copies exactly those sections. |
| DesktopSnapshot.SnapshotShowsStates | src/desktop/mod.rs:2074-2112 | Every part of the assembled snapshot shows the state of its own producer: its status, a diagnostic unless it is available, and its contents where it has any. |
| DesktopAuthority.StepInStep | src/desktop/mod.rs:1225-1299 | One publication or command result keeps the replay snapshot equal to the earlier one with the increment applied, at a greater generation, also when a bad update is replaced by a terminal state. |
| DesktopAuthority.PublicationIsNeverLost | src/desktop/mod.rs:1241-1300 | An update that is not out of date is published as given when its snapshot can be assembled, else as the terminal parse state producer.contract-invalid, with the replay and the increment of exactly that snapshot; it is dropped only when neither can be assembled. |
| DesktopAuthority.ResultIsSent | src/desktop/mod.rs:1147-1207 | The result of a command is sent once, under its own request, with the snapshot as it is. |
| DesktopAuthority.ReplayPlusDeltas | src/desktop/mod.rs:1225-1299 | From any subscription point and for all later operations, the replay snapshot with every increment applied in order is the authority's latest snapshot, and generations strictly increase. |
| DesktopAuthority.FoldConcat | src/desktop/mod.rs:1062-1086 | Applying two stretches of increments one after the other is applying their concatenation. |
| DesktopAuthority.RevisionCountsRequests | src/desktop/mod.rs:1276-1296 | A domain's revision counter counts its request-caused updates and nothing else. |
| DesktopAuthority.RevisedReturns | src/desktop/mod.rs:1276-1296 | The wrapping counter is back at its value exactly after a multiple of 2^64 increments. |
| DesktopAuthority.ObservationGoesStale | src/desktop/mod.rs:1241-1251 | An observation is discarded if and only if the number of request-caused updates of its domain since it began is not a multiple of 2^64. |
| DesktopAuthority.WrapLetsStaleThrough | src/desktop/mod.rs:1241-1296 | In every initialized authority, after 2^64 request-caused updates of a domain an observation that began before all of them is published. |
| DesktopAuthority.NoStaleOverwrite | src/desktop/mod.rs:333-346 | Once a request-caused update was published, and before the counter wraps, an earlier observation of the domain changes nothing, over all interleavings. |
| DesktopAuthority.DesktopStateAuthority.PublishDomainChange | src/desktop/mod.rs:1225-1299 | The stateful publication computes the specified state: stale observations discarded, bad updates replaced, failed publications without effect. |
| DesktopAuthority.DesktopStateAuthority.PublishCommandResult | src/desktop/mod.rs:1147-1196 | A command result advances the generation and replaces the replay envelope without changing the snapshot. |
| DesktopAuthority.DesktopSubscriber.Recv | src/desktop/mod.rs:749-766 | Replay first, then each event once in order, or an error exactly when more than the capacity was waiting. |
| DesktopAuthority.OperationsIncrease | src/sessiond/generation.rs:73-75 | Publications with increasing generations stay increasing among receptions. |
| DesktopAuthority.Session | src/desktop/mod.rs:1062-1086 | For every interleaving of publications and receptions a subscriber that has not lagged and has caught up holds exactly the latest snapshot, with strictly increasing generations. |
| DesktopAuthority.DesktopAssemblerIsLawful | src/desktop/mod.rs:1675-1756 | The desktop's own assemble and update functions satisfy the law the results above rest on. |
| NotificationDocuments.WithoutIdRemovesOne | src/notifications.rs:646-657 | Removing an id removes exactly the notification that has it. |
| NotificationDocuments.PushConserves | src/notifications.rs:589-644 | A push adds the pushed id and no other, loses none, keeps ids unique and leaves at most `capacity` active with the pushed one last. |
| NotificationDocuments.PushStoresLast | src/notifications.rs:618-641 | The active list is the old one in order without the id, then the stored item, less what exceeds the capacity at the front; that much is appended to the archive in order, marked as archived and reported. |
| NotificationDocuments.WithoutIdIsOthers | src/notifications.rs:618-621 | Removing by position leaves exactly the items with other ids, in order. |
| NotificationDocuments.PushMovesIds | src/notifications.rs:589-644 | The ids that leave the active list are exactly those reported as archived. |
| NotificationDocuments.PushSelects | src/notifications.rs:589-644 | A push changes which notifications satisfy an archiving-independent property by at most the pushed one. |
| NotificationDocuments.PushKeepsActive | src/notifications.rs:589-644 | The active list loses only what the push reports as archived. |
| NotificationDocuments.DismissMovesOne | src/notifications.rs:646-657 | Dismissing moves one item, marked as archived, from the active list to the end of the archive; the others keep their order. |
| NotificationDocuments.MarkReadMarksOne | src/notifications.rs:659-667 | The read mark of exactly the named item is set and nothing else changes. |
| NotificationStorage.RecoversOneWholeCandidate | src/notifications.rs:716-746 | After any commits and recoveries cut after any step, the journal or else the three files hold one whole candidate, the last whose journal was written; partial redo does not change that. |
| NotificationStorage.CommitRecovers | src/notifications.rs:716-746 | From its first step on, a commit determines what would be recovered. |
| NotificationStorage.ExpiringChangesOffers | src/notifications.rs:698-714 | Expiring everything changes the documents if and only if some action was available. |
| NotificationStorage.RedoFinishes | src/notifications.rs:756-769 | A finished redo leaves no journal, the three files hold what it held, and redoing again changes nothing. |
| NotificationStorage.OpeningFreesNext | src/notifications.rs:519-528 | After opening, the next id is above every stored id. |
| NotificationStorage.OpeningRaisesNoFurther | src/notifications.rs:519-528 | It is no higher than before or one above the greatest stored id, and nothing else changes. |
| NotificationStorage.Directory.Reconcile | src/notifications.rs:756-769 | The redo writes the three files and removes the journal in order, refuses unreadable documents, never changes what would be recovered, and succeeds only with the files holding it. |
| NotificationStorage.NotificationStore.CommitCandidate | src/notifications.rs:716-746 | Memory changes only if all steps succeeded; disk is the specified prefix of the commit; invalid candidates are refused. |
| NotificationStorage.NotificationStore.Push | src/notifications.rs:589-644 | Succeeds exactly when the notification is valid, its id neither exhausted nor archived, the result fits and every step of the commit succeeds. Then the notification is stored last as it came, but for its new id and a cleared archive mark; the others stay in order, the overflow of the front goes to the archive, and the next id moves past it. Memory is unchanged otherwise, and what is recovered is the old or the new documents. |
| NotificationStorage.NotificationStore.Dismiss | src/notifications.rs:646-657 | Succeeds if and only if the id is active, the result fits and every step succeeds; then commits exactly the move to the archive. |
| NotificationStorage.NotificationStore.MarkRead | src/notifications.rs:659-667 | Succeeds under the same condition and commits exactly the read mark. |
| NotificationStorage.NotificationStore.SetDnd | src/notifications.rs:583-587 | Commits exactly the changed preference. |
| NotificationStorage.NotificationStore.ExpireActions | src/notifications.rs:669-692 | Fails as not found if and only if some id is not stored; otherwise commits exactly the expiry of their actions when the result fits and every step succeeds. |
| NotificationStorage.NotificationStore.ExpireAllActions | src/notifications.rs:698-714 | Leaves every action expired, and writes only when one was available. |
| NotificationStorage.NotificationStore.PurgeArchive | src/notifications.rs:694-696 | Removes exactly the archived notifications, whenever the rest fits and every step succeeds. |
| NotificationProvider.PushStaysInStep | src/notifications.rs:128-174 | A push and the map updates that go with it keep popups and origins in step with the documents. |
| NotificationProvider.DismissStaysInStep | src/notifications.rs:176-215 | So does dismissing. |
| NotificationProvider.MarkReadStaysInStep | src/notifications.rs:176-215 | So does marking read. |
| NotificationProvider.ForgettingStaysInStep | src/notifications.rs:275-289 | So does losing a client, whose notifications are always still stored. |
| NotificationProvider.PurgingStaysInStep | src/notifications.rs:176-215 | So does purging the archive. |
| NotificationProvider.CommandStaysInStep | src/notifications.rs:176-215 | Every command keeps the maps in step with the documents; exactly the popup of a dismissed and those of muted notifications go, exactly the owners of purged ones are forgotten, and the rest is unchanged. |
| NotificationProvider.OnlyPurgingForgets | src/notifications.rs:176-215 | Only purging loses identifiers, exactly the archived ones. |
| NotificationProvider.PushIsAccepted | src/notifications.rs:139-152 | Through the provider a push adds one new id, or none when it replaces, stores the notification last as it came, and leaves at most `capacity` active. |
| NotificationProvider.NotifiedIsAccepted | src/notifications.rs:155-174 | What the store, the owner map and the popups become for any notification that is stored. |
| NotificationProvider.AssignedIsFree | src/notifications.rs:139-152 | The id of a push is unused exactly when the caller asked for a new one. |
| NotificationProvider.FreedesktopNotificationProvider.Notify | src/notifications.rs:128-174 | Refused if and only if badly addressed or replacing something its sender does not own; otherwise notified if and only if the store can commit it. Then the notification is stored last as it came but for its id, its sender owns it, it shows exactly when critical or not muted, without a deadline exactly when its timeout is absent or zero, and other popups go exactly when archived; nothing changes otherwise. |
| NotificationProvider.FreedesktopNotificationProvider.Store | src/notifications.rs:155-174 | Stores exactly what the store can commit and records owner, popup and deadline; NotifiedIsAccepted says what that result is. |
| NotificationProvider.FreedesktopNotificationProvider.Execute | src/notifications.rs:176-215 | Succeeds if and only if the command names something active, the result fits and every step succeeds; then documents, owners and popups are exactly as specified. |
| NotificationProvider.FreedesktopNotificationProvider.AdvancePopupTime | src/notifications.rs:221-232 | Exactly the popups whose time is over are removed. |
| NotificationProvider.FreedesktopNotificationProvider.OriginLost | src/notifications.rs:275-289 | Losing a client never fails as not found; it expires the actions of exactly its notifications and forgets exactly its origins. |
| NotificationProvider.Open | src/notifications.rs:496-540 | Opens if and only if the settings are in range, what is to be recovered is readable, sound and small enough, and the steps succeed; then the process holds exactly that, with its next id raised, every action expired and empty maps. |
| NotificationProvider.ReopeningKeepsItems | src/notifications.rs:519-528 | Reopening keeps every notification in order and the preferences, and leaves no action available. |
| NotificationProvider.ReopenAfter | src/notifications.rs:716-769 | End to end: after any commits and recoveries cut after any step, a process that opens the directory holds the last candidate whose journal was written, whole. |
| NotificationProvider.Live | src/notifications.rs:139-152 | Over requests, commands, timeouts, failed commits, kills, purges and restarts in any order, the ids returned for new notifications strictly increase. |
| ThemeTransaction.ContinueEnds | src/theme.rs:596-626 | Installing is done if and only if all of its operations are fine, and then all three places show the candidate under the journal. |
| ThemeTransaction.CleanupEnds | src/theme.rs:841-850 | The cleanup changes nothing but the journal, which is gone once the removal took effect, even when it then fails. |
| ThemeTransaction.ProtectedRollback | src/theme.rs:628-667 | An undo under a journal keeps it until all three places are back on the previous theme. |
| ThemeTransaction.UnprotectedRollback | src/theme.rs:538-567 | An undo without a journal tears the places apart if and only if it stops after its first effect and before its last one. |
| ThemeTransaction.RecoveryEnds | src/theme.rs:538-567 | Recovering from a failed cleanup tears the places apart if and only if the journal was gone, writing it back failed without effect and the undo stops halfway. |
| ThemeTransaction.ApplyTearsExactly | src/theme.rs:489-594 | Over all failures: an apply that starts in agreement ends in disagreement without a journal if and only if storage is unreliable, the themes differ and the failures fall in that pattern; otherwise a journal guards it or the places agree on one of the two themes. |
| ThemeTransaction.AppliedExactly | src/theme.rs:507-571 | An apply goes through if and only if all fourteen operations do, where reliable storage hides failures of the storage ones. |
| ThemeTransaction.AccidentEndsAsStated | src/theme.rs:507-594 | For every position and kind of a single accident: after a failure all three places show the previous theme and no journal is left, except after an effective but failed write of the journal; after a death, how far acknowledgement, publication and current theme had come, in this order, and whether the journal is there. |
| ThemeTransaction.FailedApplySide | src/theme.rs:520-594 | Over all fates that do not tear: an apply that fails and leaves no journal has the previous theme back everywhere, except for the candidate when the journal was lost and the undo failed at once. |
| ThemeTransaction.FailedApplyKeepsCandidate | src/theme.rs:520-571 | In that exception it does fail, without a journal and with the candidate everywhere. |
| ThemeTransaction.RollbackRestoresJournal | src/theme.rs:628-669 | A rollback whose removal of the journal or its sync fails has the previous theme back and writes the journal back for another attempt. |
| ThemeTransaction.ReliableNeverTears | src/theme.rs:762-766 | The pattern needs a failing storage write. |
| ThemeTransaction.LostJournalTearsApart | src/theme.rs:538-567 | The pattern occurs: a concrete run of failures ends torn apart. |
| ThemeTransaction.ThemeWorld.Attempt | src/theme.rs:762-800 | One outside operation happens, fails or kills the process as its fate says. |
| ThemeTransaction.ThemeWorld.ContinueApply | src/theme.rs:596-626 | The sequence computes the specified installation. |
| ThemeTransaction.ThemeWorld.CleanupJournal | src/theme.rs:841-850 | The sequence computes the specified cleanup. |
| ThemeTransaction.ThemeWorld.Rollback | src/theme.rs:628-667 | The sequence computes the specified undo, with the journal written back when its removal fails. |
| ThemeTransaction.ThemeWorld.RecoverCleanup | src/theme.rs:538-567 | The branch computes the specified recovery. |
| ThemeTransaction.ThemeWorld.Transact | src/theme.rs:507-594 | The transaction computes the specified progress through all its branches; the rows AppliedExactly to FailedApplyKeepsCandidate say where that ends. |
| ThemeTransaction.ThemeWorld.Apply | src/theme.rs:489-594 | Rejected if and only if a journal is left or the generation moved on. Applied if and only if its fourteen operations go well. A single failure brings the previous theme back everywhere with no journal left; a single death leaves the journal from its write to its removal. Over any failures: torn apart exactly when `Tears`; and a failed apply without a journal has the previous theme back, or the candidate when `KeepsCandidate`. |
| ThemeTransaction.ThemeWorld.Reconcile | src/theme.rs:678-715 | Restores the recorded previous theme before the journal goes; always does so when nothing fails. |
| ThemeTransaction.Run | src/theme.rs:489-715 | For every run of apply and reconcile with crashes and with faults at every operation, in which no apply has that pattern of failures (reliable storage has none), whenever no journal is present the acknowledged, published and current themes agree. |
| CalendarTimezone.SignedReadsBack | src/calendar.rs:728-744 | Reading a big-endian two's complement integer inverts writing it. |
| CalendarTimezone.BlockSizeNeverOverflows | src/calendar.rs:746-757 | For every header the checked size computation succeeds and is the sum of the sections. |
| CalendarTimezone.Parse | src/calendar.rs:620-677 | The cursor-driven decoder computes the specified zone, and none of its reads fails once the size was checked. |
| CalendarTimezone.ParseBlock | src/calendar.rs:645-677 | Each section is read where the header says it is; out-of-range transition types are refused. |
| CalendarTimezone.ReadTransitions | src/calendar.rs:645-654 | The transition loop yields exactly the section's integers. |
| CalendarTimezone.ReadTypes | src/calendar.rs:657-670 | The type loop yields the offsets and the first standard type. |
| CalendarTimezone.ParseInvertsEncode | src/calendar.rs:620-677 | Round trip with the layout of section 3 of RFC 8536: decoding any well-formed file of any version gives back its transitions, types and default. |
| CalendarTimezone.OffsetAtIsScan | src/calendar.rs:679-687 | With sorted transitions bisection finds what a linear scan from the latest transition finds. |
| CalendarTimezone.MatchesAreTheInstants | src/calendar.rs:592-604 | The candidates are exactly the 64-bit instants at which the zone shows the local time. |
| CalendarTimezone.ResolvesTheOnlyInstant | src/calendar.rs:592-609 | A local time resolves to u if and only if u is the only instant that shows it and is representable; it is refused as ambiguous or nonexistent if and only if there is no single one. |
| CalendarTimezone.ResolvedInOrder | src/calendar.rs:578-609 | In a zone whose clock never falls back by a step, local times a step apart resolve in the same order. |
| CalendarRecurrence.InstancesIncrease | src/calendar.rs:439-459 | A rule's instances come in strictly increasing order. |
| CalendarRecurrence.Advance | src/calendar.rs:441-451 | Adding a step to the current instance gives the next instance of the rule. |
| CalendarRecurrence.Generate | src/calendar.rs:431-466 | The loop stops only at COUNT, past UNTIL or at the window's end, having generated every instance before; the limit error means more than `limit` instances before the window's end. |
| CalendarRecurrence.StoppingEarlyMissesNothing | src/calendar.rs:439-466 | For every rule: whatever the window end, everything the rule gives before it was generated before the loop stopped, if and only if no instance that the loop reaches is later than a later-numbered one that the rule gives. |
| CalendarRecurrence.AdvancingIsOrderly | src/calendar.rs:439-466 | That never happens for UTC and all-day events, nor where local times a step apart resolve in order. |
| CalendarRecurrence.ZonedInstancesDiffer | src/calendar.rs:578-609 | With zone files, different instances of a rule are always different instants. |
| CalendarRecurrence.LeapingMidnights | src/calendar.rs:578-609 | There is a zone whose first three midnights are the instants 0, ten days and one day. |
| CalendarRecurrence.LeapingFileParses | src/calendar.rs:620-677 | That zone has a file the decoder accepts. |
| CalendarRecurrence.LeapingMidnightIsMissed | src/calendar.rs:452-459 | In it, three daily midnights with a window ending on the fifth day are generated as the first one only, and the third, which is on the first day, is missed. |
| CalendarRecurrence.SortKeepsFirst | src/calendar.rs:468 | The sort is stable and ordered. |
| CalendarRecurrence.DedupKeepsFirst | src/calendar.rs:469 | Removing duplicates keeps the first start at each instant. |
| CalendarRecurrence.DedupIncreases | src/calendar.rs:469 | It makes the order strict. |
| CalendarRecurrence.DistinctIsTheRecurrenceSet | src/calendar.rs:467-478 | Before the window's end the deduplicated starts without EXDATE are the recurrence set. |
| CalendarRecurrence.Emit | src/calendar.rs:473-504 | The last loop keeps exactly the starts that meet the window, with their ends, and the exact byte total within the budget. |
| CalendarRecurrence.EmittedIsExact | src/calendar.rs:473-504 | The events made of the distinct starts are exactly the members of the recurrence set that meet the window, each with its own start and end. |
| CalendarRecurrence.EndOfLasts | src/calendar.rs:428-450 | An occurrence lasts as long as the event: in elapsed time (a day without an end), or on the clock when both ends are local times of one zone; it has no end exactly when that is out of range or does not resolve. |
| CalendarRecurrence.RuleInIntervals | src/calendar.rs:446-472 | What a rule gives, for every start: every day or week after DTSTART in elapsed time, or the instants that the local times whole days or weeks later resolve to, below COUNT and up to UNTIL. |
| CalendarRecurrence.EmittedIsSound | src/calendar.rs:473-504 | Whatever the zone, each listed event is a start the rule or an additional date gives, not excluded, with its own end, in the window. |
| CalendarRecurrence.TooManyIsCrowded | src/calendar.rs:460-462 | The limit error inside the loop means more than `limit` different starts. |
| CalendarRecurrence.DistinctIsCrowded | src/calendar.rs:470-472 | So does the limit error after deduplication. |
| CalendarRecurrence.Expand | src/calendar.rs:397-506 | On success, for every UTC or all-day event and every other whose instances differ and never outrun a later one, the events are exactly the sorted distinct members of DTSTART, the rule under COUNT and UNTIL and RDATE, minus EXDATE, that meet the window, each lasting as long as the event on its clock or in elapsed time (sections 3.8.5.1 to 3.8.5.3 of RFC 5545); incomplete events are refused, and nothing else is refused as such; every other failure has its stated reason: cancellation before 2*limit+2 checks, an instance or end that cannot be represented or resolved, more than `limit` starts, or events over the budget. |
| CalendarRecurrence.ZonedEventsAdvance | src/calendar.rs:441-447 | Exactness extends to events in a time zone whose clock never falls back by a whole step. |
| OverviewChannel.Channel.Publish | src/overview.rs:183-204 | Accepts exactly the events above all earlier ones; accepted events are the dropped prefix followed by the retained queue, and one is dropped only when the queue is full. |
| OverviewChannel.AcceptedIncreases | src/overview.rs:183-204 | Accepted sequences strictly increase. |
| OverviewChannel.Reader.LagIsLoss | src/overview.rs:268-275 | The cursor is below the dropped mark if and only if an accepted event the reader has not seen is gone. |
| OverviewChannel.Reader.NextChannelEvent | src/overview.rs:268-285 | Returns the next accepted event above the cursor, nothing if there is none, or a lag exactly when that event was dropped. |
| OverviewChannel.Reader.PrepareRequest | src/overview.rs:240-265 | Hands over every accepted event above the cursor in order, or reports a lag. |
| OverviewChannel.UnseenAreRetained | src/overview.rs:254-264 | What the filter keeps are all accepted events the reader has not seen. |
| OverviewChannel.NoGapMeansNoLoss | src/overview.rs:206-285 | Deliveries without a reported gap are exactly the first accepted events in order. |
| OverviewChannel.Run | src/overview.rs:183-285 | For every interleaving of publishing, reading and preparing, the deliveries account for all accepted events; none is skipped without a reported lag, and no lag is reported while everything fits. |
| OsdRouting.TicksCompose | src/osd.rs:200-220 | Advancing to t1 and then to t2 equals advancing to t2, for every queue. |
| OsdRouting.RouterTicksCompose | src/osd.rs:200-220 | The same for every router state. |
| OsdRouting.AdvancedByDivision | src/osd.rs:200-220 | What is shown after a tick is determined by the number of whole display times elapsed. |
| OsdRouting.PushIsAccounted | src/osd.rs:139-161 | A push is shown, coalesced, queued or refused and counted; the account stays exact, and what is on screen is the last event that came there, coalesced ones included. |
| OsdRouting.NextIsAccounted | src/osd.rs:238-243 | Ending the current event gives the next one its turn in the order of the pushes. |
| OsdRouting.AdvancingIsAccounted | src/osd.rs:200-220 | Time moves events to the screen in the order of their pushes and loses none. |
| OsdRouting.AdvancingChanges | src/osd.rs:200-220 | A queue changes exactly when the event it shows is due. |
| OsdRouting.OsdRouter.PushAt | src/osd.rs:139-161 | Only the output of the event changes: a free screen or one showing the same kind shows the event from now on; otherwise it waits behind the others, or is refused and counted exactly when the line is full. |
| OsdRouting.OsdRouter.ObserveFocus | src/osd.rs:163-170 | Remembers the focused output; an absent or blank name forgets it. |
| OsdRouting.OsdRouter.PushFocused | src/osd.rs:172-198 | Routes if and only if a focus is known, fresh and the event valid, and then exactly as a push; otherwise reports which of these fails and changes nothing. |
| OsdRouting.OsdRouter.AdvanceTime | src/osd.rs:200-220 | Every output advances, and the result says whether any changed. |
| OsdRouting.OsdRouter.AdvanceOne | src/osd.rs:203-218 | The loop over one queue computes the specified advance. |
| OsdRouting.OsdRouter.Complete | src/osd.rs:238-243 | Ends the current event of one output and starts the next one now. |
| OsdPublications.Hub.Publish | src/osd.rs:448-465 | Accepts exactly publications with a sequence above the latest one. |
| OsdPublications.TracksNew | src/osd.rs:488-503 | An event above the last sequence is the next one the subscriber is to receive. |
| OsdPublications.TracksRepetition | src/osd.rs:497-501 | An event that is not above the last sequence was received before, or is a first one numbered zero. |
| OsdPublications.Subscriber.Recv | src/osd.rs:483-503 | The replay first, then each later publication once, or a lag exactly when more than the capacity was waiting. |
| OsdPublications.Listen | src/osd.rs:483-503 | From its replay on, among any publications: a subscriber that has not lagged and has caught up has received exactly the latest publication that preceded its replay and all later ones, in strictly increasing order; it lags only when more than the capacity was published past its place. |
| OsdPublications.Session | src/osd.rs:467-503 | The same for a whole subscription, with publications before joining the channel, between joining and taking the replay, and afterwards; the hub has accepted exactly the increasing ones. |
| OsdPublications.ZeroNeverArrives | src/osd.rs:496-501 | A first publication numbered zero is accepted and passes a subscriber that joined before it. |
| OsdPublications.AllLaterOnesAreExpected | src/osd.rs:496-501 | All later publications are delivered if and only if the first of all is not numbered zero and published after a subscription that found none. |
| GroupTopology.GroupsAreDisjoint | src/compositor/protocol.rs:197-254 | In an accepted topology two groups are equal or disjoint, and a window's group is that of every member. |
| GroupTopology.CheckAddresses | src/compositor/protocol.rs:197-203 | Accepts exactly canonical addresses without duplicates. |
| GroupTopology.CheckList | src/compositor/protocol.rs:217-232 | Accepts exactly lists of known windows without duplicates that contain their own window. |
| GroupTopology.CollectSets | src/compositor/protocol.rs:204-234 | Accepts exactly good lists within the aggregate bound and collects what each window reports. |
| GroupTopology.CheckGroup | src/compositor/protocol.rs:240-253 | Compares one group with what each member reports, in any order. |
| GroupTopology.CheckReciprocity | src/compositor/protocol.rs:235-254 | The loop that skips vouched-for windows accepts exactly what the check without skipping accepts. |
| GroupTopology.CheckTopology | src/compositor/protocol.rs:197-254 | Accepts exactly the topologies in which every member of every group reports the same group. |
| LauncherMatch.GreedyEmbeds | src/launcher.rs:622-634 | The greedy places are an embedding of the query. |
| LauncherMatch.GreedyIsBest | src/launcher.rs:622-634 | Starting no later than an embedding, the greedy choice succeeds and skips no more bytes. |
| LauncherMatch.ScoreIsBest | src/launcher.rs:622-634 | There is a score if and only if the query is a subsequence, and it is the maximum of the gap formula over all embeddings. |
| LauncherMatch.GapScoreInBytes | src/launcher.rs:622-635 | In closed form the score is 100 for each character plus the bytes of the query, less all bytes up to the end of the last match. |
| LauncherMatch.FuzzyScore | src/launcher.rs:622-634 | The loop computes that score. |
| LauncherMatch.BeforeIsTotalOrder | src/launcher.rs:585-590 | The ranking order is a total order on scored names. |
| LauncherMatch.BeforeIsLexicographic | src/launcher.rs:585-590 | A higher score comes first; among equal scores the more used, then the more recently used, then the name that is a proper prefix or smaller at the first difference. |
| LauncherMatch.SortRanks | src/launcher.rs:585-590 | The sort puts the names in ranking order. |
| LauncherMatch.RankingIsUnique | src/launcher.rs:585-590 | There is only one ranking of the same scored names. |
| LauncherMatch.Rank | src/launcher.rs:573-593 | The filter, sort and projection compute the ranked names. |
| LauncherMatch.RankIsSortedPermutation | src/launcher.rs:573-593 | The ranked list holds each matching candidate as often as it was given and no other, in ranking order. |
| LauncherMatch.RankIgnoresOrder | src/launcher.rs:573-593 | The ranking does not depend on the order of the candidates. |

## Left out

- Sockets, D-Bus, subprocess supervision and task plumbing: input and output around the cores; a reply or a timeout is an arbitrary answer.
- `src/store` directory safety (permissions, links, `openat` walks), file locks: system calls; a file operation is one atomic durable step, and removing an absent file is no error.
- Content hashes are taken to be injective: the journal compares contents through them.
- Journals of older versions, which have no completeness flag: their upgrade on load is not modelled.
- A storage error of the binding transaction is modelled as the cut it amounts to, since every error returns without further writes.
- The Niri validator and reloader processes and `initialize_binding_only_locked`: outside the journal protocol.
- Blank strings are those of space, tab, newline and carriage return; other Unicode white space is not treated as blank.
- SDK validators and serialized byte sizes: abstract predicates and size functions.
- `initialize` localizing contract failures at start-up, producer supervision and shutdown: the authority is modelled from its first snapshot on.
- How the outcome of an executor maps to a status and diagnostic: a case distinction; the model takes the pair as it is published.
- Several requests in flight at once: the control authority handles them under one lock, so one is in flight.
- Broadcast buffers: the ring's rounding of its capacity to a power of two is not modelled.
- `activate_for_desktop` and `set_desktop_effect_preferences`: they write the current theme file without the acknowledgement step.
- Theme validation, import and editing, contrast and wallpaper palettes: parsing and floating point.
- Origin lengths of notifications are counted in characters, not bytes; groups, unread counts and action invocation only read.
- CalendarTimezone.OffsetAt: for unsorted transitions the standard library leaves the result of a partition point open; the model fixes one bisection, and local-time resolution holds for it as well.
- Zone file footers, leap-second records and sub-second or leap-second calendar times: the source ignores the first two, and instants are whole seconds; a fractional window bound compares like its rounding.
- CalendarRecurrence.Expand: in a time zone exactness is stated for events whose instances never outrun a later one, which is when stopping early is exact.
- Parsing of calendar text, source aggregation and text unescaping: line parsing without a theorem of its own.
- Mapping capability updates to OSD requests, and assembling the list of visible events: both only read.
- Instants do not overflow in the OSD model: the source computes only instants that have already passed.
- The rest of `parse_full_snapshot` (monitors, workspaces, windows, focus): independent validity checks.
- Unicode lower-casing is a parameter of the ranking; a match score is an unbounded integer, which differs from 64 bits only for candidates beyond 2^62 bytes.
- Launcher indexing and metrics persistence, weather, device adapters, the command line and the doctor: thin parsing and network clients.
