# lol-timer: a model of its durable events, room storage and cooldowns

This project models the parts of lol-timer in which a promise spans several functions, processes or failures, and proves
those promises for every input and every run. `dafny verify dfyconfig.toml` checks all of it.

**The durable game-event pipeline.** `Pipeline` is one transition system for any number of application instances, outbox
relays, consumer callbacks and replay operators. Every external call is one step, and every call has three outcomes: it
works, it has no effect, or its effect lands although the caller sees an error. The broker's duplicate window is
adversarial: a publication may be swallowed only if its ID was stored before, and may be stored again at any time.
`PipelineInvariant` proves the invariant and `PipelineSafety` the promises. `Outbox`, `Inbox`, `JetStream` and
`Consumer` hold the repositories and the client as classes; `Deployment` joins them into one shared system.
`LifecycleService`, `RelayService`, `CallbackService` and `ReplayService` are the imperative services, each proved to be
a sequence of steps of that system while other processes take any steps between its calls (`Interference`, `Weave`).
`Retention` says exactly when an event is applied again, and `Recovery` that held events can be committed; `Emissions`
follows the lifecycle service over many observations, and `BuiltEvents` says what its events hold; `RelayAccounting` and `Starvation` follow the relay among other
processes, and `Leases`, `LeasedRelays` and `RelayDeadlines` several relays at once; `Convergence` studies the inbox. `Keys` treats the IDs on which deduplication rests.

**Room storage.** `RoomTables` says what a nested room means in three tables with serial keys; `RoomRepository` has the loops
that write and regroup them. `RoomCache` is the fallible cache in front of a store.

**Cooldowns and the room service.** `SummonerSpells` and `Cooldowns` hold the timers, with the division that truncates toward
zero; `CooldownRuns` and `CooldownMerges` hold the claims over runs and over champion-select sessions. `RoomService` says
what each call of the service does to its rooms, `RoomServiceCalls` performs the calls step by step, and `CurrentRoom`,
`SoundRooms` and `Presses` prove what its runs keep.

Times are whole nanoseconds on one shared clock; zero is the zero time of the source.

## Where the code falls short of its documentation

Each of these is proved, by an input or a run that shows it or by its exact condition; the code is modelled as it is.

- An event retained in memory is lost when its process stops before the row is inserted
  (`PipelineSafety.StoppingLosesRetainedEvent`); no other event that was built is ever lost (`PipelineSafety.Conservation`).
- A transition whose metadata cannot be drawn is lost, because the tracker has moved on (`LifecycleService.BuiltIsStamped`,
  `LifecycleService.StartWithoutMetadataIsLost`).
- The design record says marker retention exceeds message age. It does, but dead letters live for 30 days too and begin
  later, so a late replay can apply an event twice (`Retention.LateReplayAppliesAgain`), and along a chain of replays no
  retention suffices (`Retention.NoRetentionCoversReplays`). An event is applied again exactly when it is handled after its
  marker is gone, and for an end while the row still names its room (`Retention.EventsAppliedOnceExactlyWhen`).
- An ended game may carry other identifiers than its start, exactly when a champion select in between names another game
  (`Lifecycle.EndMatchesStart`, `Lifecycle.EndCanNameAnotherGame`).
- Instances that report one game for different rooms leave the room of the start that commits last, and the end reported
  for the other room is refused (`Convergence.ConvergesExactlyWhen`, `Convergence.AttemptCommitsExactlyWhen`,
  `Convergence.OrderOfStartsDecidesRoom`).
- The cache answers differently from the store after a write that reached only the store, and for a room saved under the
  empty ID (`RoomCache.ExactlyRiskyOpsMakeAnswersDiffer`).
- A press in the last second of a cooldown, before its tick, readies the spell instead of starting its next cooldown
  (`CooldownRuns.TickBeforePressMattersExactlyWhen`).
- Two spells of one name, as any two spell IDs outside the table give, share the first one's timer after a synchronization:
  pressing one starts the other as well (`CooldownMerges.UnpressedSpellStarts`, `CooldownMerges.RepeatedSyncsKeepTimersExactlyWhen`).
- Repeating a session in which two players share a Riot ID can change a room again
  (`CooldownMerges.RepeatingASessionIsIdempotentExactlyWhen`).
- When saving one refreshed room fails, rooms saved before it are not announced, and those whose cooldowns
  are all over never will be (`RoomService.RefreshAnnouncesExactlyTheChanged`, `RoomService.SilentForGoodExactlyWhen`,
  `RoomService.SavedButNeverAnnounced`).
- A join or a press whose save lands although it reports an error changes its room without announcing it
  (`RoomService.EditAnnouncesExactlyTheChanged`).
- A deletion that lands although it reports an error leaves the current room naming nothing
  (`CurrentRoom.LostDeletionStrandsCurrentRoom`), and so does a process that pauses too long between saving a room and
  making it current (`CurrentRoom.PauseMustNotExceedExpiration`).
- Pressing a ready spell of a player whose haste is -100 divides by zero while the lock is held
  (`Presses.ReplacedZeroPlayerPanics`), exactly as `Presses.CanPanicExactlyWhen` says. Only a replacement could bring such
  a player (`Presses.PressesNeverPanic`), and the only replacements in the source, those of synchronizations, bring none
  (`Presses.SynchronizationsBringNoZero`): the service as deployed never gets there.

## Model

| member | source | states |
|---|---|---|
| `PipelineSafety.Conservation` | docs/adr/001-nats-delivery-semantics.md:97-164 | after any run with any faults, duplicates, redeliveries and replays, every event ever built is retained by an instance, pending in the outbox, unsettled in the stream, kept as a dead letter or committed; the one exception is an event dropped by a process that stopped before its row was inserted |
| `PipelineSafety.ConservationWithoutCrashes` | docs/adr/001-nats-delivery-semantics.md:118-137 | in runs in which no process stops while it retains an event there is no exception |
| `PipelineSafety.StoppingLosesRetainedEvent` | internal/services/game_lifecycle_service.go:57-73 | the exception is real: the retained event lives in memory only |
| `PipelineSafety.WhereEventsAre` | docs/adr/001-nats-delivery-semantics.md:113-164 | a built event has a place if and only if its row was inserted at some time or an instance still retains it |
| `PipelineSafety.DeadLetterKeptOrRepublished` | internal/services/dead_letter_replay_service.go:95-137 | every dead letter is still there, or its event was stored again at a later stream position than the message it came from |
| `PipelineSafety.MessageNeverLost` | internal/messaging/jetstream_consumer.go:234-264 | a settled message, even one whose dead letter was swallowed as a duplicate of a record already replayed and deleted, leads along the chain of replays to a place that holds its event |
| `Recovery.HeldEventsRecover` | docs/adr/001-nats-delivery-semantics.md:113-164 | from every reachable state, an event that a pending row, a deliverable message or a loadable dead letter holds, and that the inbox would take, is committed by a few calls that work, whatever went wrong before |
| `Recovery.RowRecovers` | internal/services/outbox_relay_service.go:88-171 | for a row: publish, deliver, handle, acknowledge, mark; the row ends published |
| `Recovery.MessageRecovers` | internal/messaging/jetstream_consumer.go:106-166 | for a message: deliver, handle, acknowledge |
| `Recovery.DeadLetterRecovers` | internal/services/dead_letter_replay_service.go:55-142 | for a dead letter: replay, deliver, handle, acknowledge, delete |
| `PipelineSafety.CommittedEventsShow` | internal/repositories/postgres/gameevent/repository.go:27-116 | a committed start or end shows in its game row for ever after: no later start, an end no later than reported |
| `PipelineSafety.RowsComeFromCommits` | migrations/006_create_game_sessions.up.sql:1-17 | a row holds only times of committed events of its game, an end only beside a committed start, and meets the CHECK |
| `PipelineSafety.RowsNameTheLastStart` | internal/repositories/postgres/gameevent/repository.go:37-52 | in every run a row names the room of the last committed start of its game, among any number of instances that report it for different rooms |
| `PipelineSafety.RepeatedCommitsAreFarApart` | internal/services/processed_event_cleanup_service.go:13-48 | two commits of one event ID lie more than the 30 days of marker retention apart |
| `PipelineSafety.MessageAppliedOnce` | docs/adr/001-nats-delivery-semantics.md:107-109 | no stream message is applied twice, with marker cleanup running, because markers outlive messages |
| `PipelineSafety.EventAppliedOnceWithoutCleanup` | internal/repositories/postgres/gameevent/repository.go:166-196 | while markers are kept an event is applied at most once over all its stream messages |
| `Retention.CommitsAgainExactlyWhen` | internal/repositories/postgres/gameevent/repository.go:118-196 | a transaction on an event committed before commits it again if and only if its marker is gone and, for an end, the row still names its room; otherwise it changes nothing |
| `Retention.EventsAppliedOnceExactlyWhen` | docs/adr/001-nats-delivery-semantics.md:81-109 | for any retention, a run applies no event twice if and only if no message of a committed event is handled while its marker is gone (and, for an end, the row names its room) |
| `Retention.RetentionMustCoverMessages` | docs/adr/001-nats-delivery-semantics.md:107-109 | no run applies a message twice if and only if markers are kept at least as long as messages can be delivered and then processed |
| `Retention.ReplaysApplyAgain` | internal/messaging/jetstream.go:11-15 | with markers kept for 30 days per replay, a chain of that many replays, each of a dead letter within its age, still applies an event twice |
| `Retention.NoRetentionCoversReplays` | internal/services/dead_letter_replay_service.go:55-142 | so no retention rules out that an event is applied twice along a chain of prompt replays |
| `Retention.LateReplayAppliesAgain` | internal/services/processed_event_cleanup_service.go:13-48 | in particular 30 days do not cover a single replay of a dead letter that lives for 30 days |
| `PipelineInvariant.NextKeepsInv` | docs/adr/001-nats-delivery-semantics.md:79-164 | every step of every process keeps the fourteen-part invariant of rows, messages, dead letters, markers, commits and times |
| `PipelineInvariant.RunKeepsInv` | docs/adr/001-nats-delivery-semantics.md:79-164 | hence so does every run |
| `PipelineInvariant.KnowledgeLasts` | internal/messaging/jetstream_consumer.go:115-166 | what a process has learnt before a call (the row was inserted, the ID is stored, the event is committed, the record is stored) stays true whatever other processes do before the call |
| `PipelineInvariant.HeldEventIsStored` | internal/messaging/durable_events.go:47-73 | a stored event ID means that very event is stored: no replayed record can take its name |
| `PipelineInvariant.HeldReplayIsOfRecord` | internal/services/dead_letter_replay_service.go:173-182 | a stored replay ID means that very dead letter was republished, after its source |
| `Pipeline.RunConcat` | docs/adr/001-nats-delivery-semantics.md:113-164 | runs of the pipeline compose, so a process seen between two points of a run is itself a run |
| `Deployment.WeaveStep` | internal/services/outbox_relay_service.go:56-174 | one more call of a process, with whatever others did before it, extends the interleaved run by that step |
| `Deployment.Cluster.HandleMessage` | internal/messaging/jetstream_consumer.go:106-135 | one handler call is one transaction step, cancelled when its deadline has passed |
| `Deployment.Cluster.CleanUpMarkers` | internal/services/processed_event_cleanup_service.go:30-56 | the cleanup removes exactly the markers older than 30 days, and refuses the zero time |
| `Keys.BuildRoomId` | internal/services/room_id.go:8-26 | an ID is built if and only if there is a session with a game whose first member in the local cell has a team, and then it prints that game and that team |
| `Keys.RoomIdInjective` | internal/services/room_id.go:15-25 | two (game, team) pairs share a room ID only if they are equal, negative numbers included |
| `Keys.IdsAsPrinted` | internal/messaging/dead_letter_publisher.go:36-45 | the forms of room, dead-letter and replay IDs |
| `Keys.DeadLetterMessageIdInjective` | internal/messaging/dead_letter_publisher.go:36-45 | for stream names without a colon the dead-letter ID determines stream, sequence and consumer |
| `Keys.DeadLetterMessageIdNeedsColonFreeStreams` | internal/messaging/dead_letter_publisher.go:36-45 | without that condition two different dead letters share an ID |
| `Keys.ReplayMessageIdInjective` | internal/services/dead_letter_replay_service.go:173-182 | the replay ID determines the record and its sequence, whatever the record ID contains |
| `Keys.NewEventId` | internal/messaging/durable_events.go:47-73 | sixteen random bytes become a version 4 identifier of 36 characters |
| `Keys.EventIdKeepsRandomBits` | internal/messaging/durable_events.go:47-73 | two draws give the same ID if and only if they agree in all but the six forced bits |
| `Keys.ReplayIdIsNoEventId` | internal/services/dead_letter_replay_service.go:173-182 | no replay ID has the form of an event ID |
| `Keys.ParseInvertsPrint` | internal/services/room_id.go:21-25 | decimal printing, on which all these IDs rest, is undone by parsing |
| `Outbox.Repository.Enqueue` | internal/repositories/postgres/outbox/repository.go:29-82 | refuses a missing ID, subject or payload and malformed JSON; otherwise inserts unless the ID is there and reports whether it did; the row may be inserted although the call reports an error |
| `Outbox.Repository.ClaimPending` | internal/repositories/postgres/outbox/repository.go:84-189 | leases exactly the selected rows and returns their events in the order of the answer; the leases stay even when the answer is lost |
| `Outbox.ClaimExists` | internal/repositories/postgres/outbox/repository.go:117-131 | every table has an answer to the claim query: due, unlocked rows, at most the limit, none passed over for a later one |
| `Outbox.Repository.MarkPublished` | internal/repositories/postgres/outbox/repository.go:191-237 | sets published_at and clears the error of a pending row; succeeds if and only if the call works and the row is pending |
| `Outbox.Repository.MarkFailed` | internal/repositories/postgres/outbox/repository.go:239-294 | counts an attempt and postpones a pending row; succeeds if and only if the call works and the row is pending |
| `Outbox.Repository.DeletePublishedBefore` | internal/repositories/postgres/outbox/repository.go:296-324 | removes exactly the rows published before the cutoff and counts them |
| `RelayService.OutboxRetryDelay` | internal/services/outbox_relay_service.go:176-192 | the doubling loop gives min(5 s * 2^attempts, 300 s) |
| `RelayService.OutboxRelayService.RelayOnce` | internal/services/outbox_relay_service.go:56-174 | among any other processes, the calls of one cycle are one claim, then one publication and one mark per claimed event in turn; claimed = published + failed, and published counts the confirmed publications whose mark succeeded |
| `RelayService.CountMeans` | internal/services/outbox_relay_service.go:92-174 | the published count is the number of events whose publication was confirmed and whose mark succeeded, and the cycle reports an error if and only if some mark failed |
| `RelayService.BatchIsFullOrAll` | internal/services/outbox_relay_service.go:56-87 | a cycle claims up to fifty events, and fewer only when no other could be claimed |
| `RelayAccounting.CycleAccount` | internal/services/outbox_relay_service.go:88-171 | row by row, among any processes that leave a set of rows alone: each claimed row ends published at the cycle time, or with one more attempt and postponed by the backoff, or merely leased when its mark did not land; each other row of the set ends as it was; only published rows are ever purged |
| `RelayAccounting.EventAccount` | internal/services/outbox_relay_service.go:92-160 | the same for one event: its publication and mark, others acting before each, settle its own row only |
| `Leases.NoTwoRelaysHoldAnEvent` | internal/services/outbox_relay_service.go:217-229 | over any number of relays, no two live cycles hold the same event and every mark of a live cycle finds its row pending |
| `Leases.RunKeepsLeases` | internal/repositories/postgres/outbox/repository.go:117-131 | for every deadline up to the lease, each event a live cycle holds is pending and leased at least to the end of that cycle |
| `Leases.DeadlineMustNotExceedLease` | internal/services/outbox_relay_service.go:15-24 | exclusivity holds in all runs if and only if the deadline of a cycle is at most the 30 s lease |
| `LeasedRelays.RelayCallsAreLeaseSteps` | internal/services/outbox_relay_service.go:56-174 | each call RelayOnce makes is a step of the lease system: claims begin cycles, marks finish or postpone events, publications leave rows alone |
| `LeasedRelays.MarksFindTheirRows` | internal/repositories/postgres/outbox/repository.go:208-291 | in every pipeline run whose relays keep the deadline of their cycles, the row of each mark is pending when it is made, so the check for a missing row never fails |
| `RelayDeadlines.CallsAreInTime` | internal/services/outbox_relay_service.go:217-229 | a turn of RelayOnce that makes its calls before the deadline of its cycle is such a run: each call is a step of both systems, and it still holds each event it marks |
| `RelayDeadlines.MarksFailOnlyWithTheirCalls` | internal/services/outbox_relay_service.go:127-160 | hence, among relays that all keep their deadlines, a mark of RelayOnce succeeds if and only if its call works |
| `RelayDeadlines.RelayOnceIsLabelled` | internal/services/outbox_relay_service.go:56-174 | the calls of RelayOnce are such calls |
| `Starvation.ClaimedInTime` | internal/repositories/postgres/outbox/repository.go:117-131 | with one relay, a due row with r rows ahead of it is claimed within r/50 further turns of RelayOnce, despite rows inserted, retried and purged before, between and after its calls, and turns that break off |
| `Starvation.RankFalls` | migrations/007_create_outbox_events.up.sql:1-22 | a cycle that passes a due row over removes a full batch from ahead of it and puts nothing ahead of it |
| `Starvation.RelayTurnsCycle` | internal/services/outbox_relay_service.go:56-174 | a turn of RelayOnce, interleaved with any processes that neither claim nor mark, and wherever it breaks off, leaves passed-over rows alone and every other pending row after its own time |
| `Starvation.InterleavedCallsCycle` | internal/services/outbox_relay_service.go:75-171 | the same after each single call |
| `Inbox.Repository.Transact` | internal/repositories/postgres/gameevent/repository.go:118-164 | marker and session change together or not at all; a marker that exists makes the call a successful duplicate |
| `Inbox.Repository.ProcessGameStarted` | internal/repositories/postgres/gameevent/repository.go:27-68 | the transaction with the start upsert, whose row `Convergence.RowIsDetermined` and `Convergence.RowNamesLastStart` describe: earliest start, last committed room |
| `Inbox.Repository.ProcessGameEnded` | internal/repositories/postgres/gameevent/repository.go:70-116 | the transaction with the end update: earliest end, rejected without a started row of that room or when it would precede the start |
| `Inbox.Repository.DeleteProcessedBefore` | internal/repositories/postgres/processedevent/repository.go:26-53 | removes exactly the markers before the cutoff and counts them |
| `Convergence.RowIsDetermined` | internal/repositories/postgres/gameevent/repository.go:37-52 | whatever rooms the events name, the times of the stored row are what the committed events determine: minimum start, minimum end, in order |
| `Convergence.RowNamesLastStart` | internal/repositories/postgres/gameevent/repository.go:44-50 | and its room is that of the last start to commit, over any mix of rooms |
| `Convergence.ConvergesExactlyWhen` | docs/adr/001-nats-delivery-semantics.md:93-101 | two histories that commit the same events of a game leave the same times, and the same row if and only if the starts they committed last name the same room |
| `Convergence.OrderOfStartsDecidesRoom` | internal/repositories/postgres/gameevent/repository.go:44-50 | an input on which the order of two starts decides the room, and whose end is refused |
| `Convergence.Converges` | docs/adr/001-nats-delivery-semantics.md:93-101 | in particular, when its events name one room they leave the same row, whatever the order, repeats, rollbacks and other games |
| `Convergence.RowsStayOrdered` | migrations/006_create_game_sessions.up.sql:12-16 | every reachable row has its end no earlier than its start |
| `Convergence.CommittedEventsAreConsistent` | internal/repositories/postgres/gameevent/repository.go:80-111 | no schedule commits an end that precedes every committed start |
| `Convergence.ConsistentEventsCommit` | internal/repositories/postgres/gameevent/repository.go:80-111 | conversely, of a set of events whose ends each follow some start, all commit in every schedule that reaches each of them and reaches each end after the starts have committed, whatever else is attempted, repeated or rolled back |
| `Convergence.AttemptCommitsExactlyWhen` | internal/repositories/postgres/gameevent/repository.go:27-116 | an attempt leaves its event committed if and only if it was, or the attempt lands and the event is a start, or an end no earlier than some committed start whose room the last committed start names |
| `Convergence.StartsFirstCommits` | internal/repositories/postgres/gameevent/repository.go:80-111 | one such schedule attempts each event once, starts first |
| `JetStream.Client.PublishDurable` | internal/messaging/jetstream.go:57-88 | stores the message or finds its ID remembered; a confirmation means the ID is stored |
| `JetStream.Client.PublishGameDeadLetter` | internal/messaging/dead_letter_publisher.go:9-45 | refuses a letter with any field missing; otherwise stores it under the ID of its source message, or finds that ID remembered |
| `JetStream.Client.GetGameDeadLetter` | internal/messaging/dead_letter_store.go:14-52 | returns the record at that sequence if and only if it is present, valid and not past its age |
| `JetStream.Client.DeleteGameDeadLetter` | internal/messaging/dead_letter_store.go:54-87 | removes that record only; succeeds if and only if the call works and the record was present |
| `JetStream.Client.Settle` | internal/messaging/jetstream_consumer.go:137-166 | acknowledges or terminates an unsettled message; a settled one keeps its settlement |
| `JetStream.DeadLetterIdsDiffer` | internal/messaging/dead_letter_publisher.go:36-45 | two source messages never share a dead-letter ID |
| `Consumer.GameConsumer.Handle` | internal/consumers/game_consumer.go:25-226 | success if and only if the database call works, every field is there, and the event is marked, or a start, or an end that a started row of its room accepts |
| `CallbackService.GameEventsConsumer.Consume` | internal/messaging/jetstream_consumer.go:106-167 | among any other processes: acknowledged if and only if handled and the call works, the event then being committed; dead-lettered if and only if the fifth or a later delivery fails, its metadata and an ID can be had and both calls work, the message then being terminated and its own dead letter stored; an earlier failure makes no further call |
| `CallbackService.GameEventsConsumer.HandleFailure` | internal/messaging/jetstream_consumer.go:180-281 | the same of a failed delivery: fewer than five deliveries, unreadable metadata, no ID or a failed call mean a retry |
| `CallbackService.HandledMeansCommitted` | internal/consumers/game_consumer.go:45-167 | after a successful handler the event is committed, now or earlier, so the acknowledgement is justified |
| `ReplayService.DeadLetterReplayService.Replay` | internal/services/dead_letter_replay_service.go:55-142 | among other operators: publishes, then deletes; deletes only after a confirmed publication; reports a duplicate if and only if the broker still remembered this replay; success means the replay is stored and the record gone, and an error after publication still reports the result |
| `Lifecycle.GameLifecycleTracker.Observe` | internal/services/game_lifecycle.go:27-84 | the tracker as a function of its state and the observation |
| `Lifecycle.TransitionsAlternate` | internal/services/game_lifecycle.go:48-78 | for any observations, transitions alternate started, ended, and the tracker is started exactly after an odd number |
| `Lifecycle.StartsExactlyWhen` | internal/services/game_lifecycle.go:48-61 | a start is emitted if and only if play begins, no game is running and a valid champion select came last, with neither a transition nor the lobby since |
| `Lifecycle.EndsExactlyWhen` | internal/services/game_lifecycle.go:63-78 | an end is emitted if and only if a game is running and one of the three phases after a game shows |
| `Lifecycle.TransitionCarriesLastSelect` | internal/services/game_lifecycle.go:38-66 | every transition carries the valid identifiers of the last valid champion select before it |
| `Lifecycle.EndMatchesStart` | internal/services/game_lifecycle.go:38-78 | an end names the game of its start if and only if no valid champion select in between names another |
| `Lifecycle.EndCanNameAnotherGame` | internal/services/game_lifecycle.go:38-78 | such a trace: a champion select reported while a game runs |
| `LifecycleService.GameLifecycleService.Observe` | internal/services/game_lifecycle_service.go:28-94 | among other processes: a retained event is inserted first, the tracker is consulted only when that worked, the calls made are steps of the pipeline, and an event is built if and only if a transition is emitted and metadata drawn, which it carries |
| `LifecycleService.RowsAreEmissionsInOrder` | internal/services/game_lifecycle_service.go:34-94 | the inserted rows, plus the retained event if its row is missing, are exactly the tracker emissions on the observations that reached it, in order, each with one identical event |
| `Emissions.InsertedRowsAreEmissionsInOrder` | internal/services/game_lifecycle_service.go:34-94 | over many observations among any other processes, the events of the instance that ever had a row inserted are exactly those emissions, without the last one while it is retained, and its calls inserted them in that order |
| `Emissions.InsertionsAreStored` | internal/services/game_lifecycle_service.go:78-94 | the insertions among the calls, each at its first occurrence, are the events the service counts as stored, in order |
| `LifecycleService.BuiltIsStamped` | internal/services/game_lifecycle_service.go:46-73 | the events built are those emissions stamped with their metadata; an emission without metadata is lost, because the tracker has moved on |
| `BuiltEvents.BuiltEventsCarryTheirEmissions` | internal/services/game_lifecycle_service.go:96-152 | each event built carries the subject, game and room of the transition emitted for its own observation, with the ID and time drawn there and version 1; every emission that found metadata has its event, in order |
| `BuiltEvents.BuiltEventsAreEmissions` | internal/services/game_lifecycle_service.go:34-74 | when metadata can always be drawn the events built are the emissions one for one: a start, its end, the next start and so on |
| `LifecycleService.StartWithoutMetadataIsLost` | internal/services/game_lifecycle_service.go:46-56 | such a run: a game whose start found no metadata gets no event, although the next observation finds metadata |
| `RoomTables.SavedRoomReadsBack` | internal/repositories/postgres/room/repository.go:62-202 | after a save the room reads back with players and spells in order and zero end times restored, whatever was stored; every other room reads as before |
| `RoomTables.DeletedRoomIsGone` | internal/repositories/postgres/room/repository.go:270-291 | after a delete the room is gone and every other room reads as before |
| `RoomTables.WritesKeepValid` | migrations/001_init.up.sql:1-40 | writes keep serial keys ascending and references pointing to existing rows |
| `RoomTables.SavingSetsAKey` | internal/repositories/postgres/room/repository.go:28-117 | seen as a map from IDs to rooms, a save sets one key |
| `RoomTables.DeletingRemovesAKey` | internal/repositories/postgres/room/repository.go:270-291 | and a delete removes one |
| `RoomTables.InsertedPlayerShows` | internal/repositories/postgres/room/repository.go:119-194 | one insertion appends one player with its spells to its room and shows nowhere else |
| `RoomRepository.SaveRoomRows` | internal/repositories/postgres/room/repository.go:62-117 | the loops write what SaveRoom says of the tables |
| `RoomRepository.SavePlayer` | internal/repositories/postgres/room/repository.go:119-194 | inserts the player and its spells under the new key |
| `RoomRepository.LoadPlayers` | internal/repositories/postgres/room/load.go:71-140 | the index map sends each player key to its position |
| `RoomRepository.LoadSpells` | internal/repositories/postgres/room/load.go:142-224 | appending spell rows through the index map groups them as the tables mean; a row of an unknown player is an error |
| `RoomRepository.Repository.Save` | internal/repositories/postgres/room/repository.go:28-60 | a room is replaced in one transaction or not at all |
| `RoomRepository.Repository.LoadRoomRows` | internal/repositories/postgres/room/load.go:14-69 | the loaded room is what the tables mean |
| `RoomRepository.Repository.Get` | internal/repositories/postgres/room/repository.go:204-213 | the same, and the empty ID names no room |
| `RoomRepository.Repository.GetAll` | internal/repositories/postgres/room/repository.go:215-268 | every listed room, each as the tables mean, in the order listed |
| `RoomRepository.Repository.Delete` | internal/repositories/postgres/room/repository.go:270-291 | removes the room with its players and spells, or nothing |
| `RoomCache.CacheAgreesWithStore` | internal/repositories/cached_room_repository.go:29-182 | from an empty cache and with no risky operation, every call answers what the repository alone would |
| `RoomCache.ExactlyRiskyOpsMakeAnswersDiffer` | internal/repositories/cached_room_repository.go:29-182 | after some safe run from the empty cache, an operation makes a later answer differ from the repository's if and only if it is risky and entries live at all |
| `RoomCache.ExactlyRiskyOpsBreakCoherence` | internal/repositories/cached_room_repository.go:118-182 | an operation keeps every coherent cache coherent if and only if it is not risky: a write that reached the store but not the cache, or a save under the empty ID |
| `RoomCache.AnswersAreFresh` | internal/cache/redis_room_cache.go:36-101 | under any failures a room that Get returns was the stored one less than a TTL ago, and a miss means none is stored |
| `RoomCache.CachedRoomOutlastsRepository` | internal/repositories/cached_room_repository.go:40-95 | until it ages, is evicted or its room is written, a cached room is answered even while the repository fails |
| `RoomCache.CachedRoomRepository.GetRoom` | internal/repositories/cached_room_repository.go:29-95 | a fresh entry answers; otherwise the store does and the cache is filled |
| `RoomCache.CachedRoomRepository.SaveRoom` | internal/repositories/cached_room_repository.go:118-149 | the store first, the cache only after success |
| `RoomCache.CachedRoomRepository.DeleteRoom` | internal/repositories/cached_room_repository.go:151-182 | the store first, the cache only after success |
| `RoomCache.CachedRoomRepository.GetAllRooms` | internal/repositories/cached_room_repository.go:97-116 | the listing reads the store alone |
| `SummonerSpells.CooldownRoundsDown` | internal/services/summoner_spell_service.go:57-59 | the cooldown is the largest whole number of seconds not above the exact value, and haste never lengthens it |
| `SummonerSpells.TableCooldowns` | internal/services/summoner_spell_service.go:32-59 | at the default haste every spell in the table has a cooldown of 12 to 254 seconds |
| `SummonerSpells.NameFixesCooldown` | internal/services/summoner_spell_service.go:8-55 | spells of one name have one base cooldown |
| `SummonerSpells.FindSpell` | internal/models/player.go:13-21 | the first spell of that name, or none |
| `SummonerSpells.SearchSpell` | internal/models/player.go:13-21 | the search loop finds that spell |
| `SummonerSpells.TogglePlayerSpell` | internal/services/summoner_spell_service.go:61-89 | presses the first spell of that name, changing no other: a running one becomes ready, a ready one starts base * 100 / (100 + haste) seconds, truncated, and ends that much later |
| `SummonerSpells.CopySpellState` | internal/services/summoner_spell_service.go:91-105 | each spell takes the timer of the first spell of its name in the source, if any |
| `Cooldowns.RefreshRoomCooldowns` | internal/services/room_service.go:306-349 | refreshes every spell in place; the flag is raised if and only if some player changed |
| `Cooldowns.FindPlayer` | internal/services/room_service.go:219-238 | the first player with that Riot ID, or none |
| `Cooldowns.MergePlayers` | internal/services/room_service.go:503-519 | the merge loop carries each remaining player's timers over |
| `CooldownRuns.MissedTicksDoNotMatter` | internal/services/room_service.go:306-349 | refreshing at any times that never run backward leaves what one refresh at the last of them leaves |
| `CooldownRuns.RunKeepsSound` | internal/services/room_service.go:192-216 | from an empty room through any mix of joins, synchronizations, presses and refreshes, a ready spell shows nothing left, and one on cooldown has an end, 1 <= remaining <= its cooldown, and never a whole second more to go than it shows |
| `CooldownRuns.JoinsKeepSoundExactlyWhen` | internal/services/room_service.go:175-217 | a join keeps this if and only if the player was there or brings sound spells (or none) |
| `CooldownRuns.PressStartsCooldown` | internal/services/summoner_spell_service.go:77-86 | for haste above -100, pressing a ready spell in a room starts the largest whole number of seconds not above base * 100 / (100 + haste), and changes nothing else |
| `CooldownRuns.PressedSpellCountsDown` | internal/services/room_service.go:306-349 | from then on, whatever refreshes came in between, a refresh shows the whole seconds left, and readies the spell in the last second |
| `CooldownRuns.RefreshReadiesExactlyWhen` | internal/services/room_service.go:329-344 | a refresh readies a spell if and only if under one second is left, and otherwise shows the seconds left rounded down |
| `CooldownRuns.TickBeforePressMattersExactlyWhen` | internal/services/summoner_spell_service.go:70-86 | a tick just before a press changes its result if and only if the cooldown is in its last second or over |
| `CooldownRuns.SecondPressUndoes` | internal/services/summoner_spell_service.go:70-86 | pressing a ready spell twice restores it |
| `CooldownRuns.QuietRoomsBecomeReady` | internal/services/room_service.go:320-344 | once nothing was pressed for longer than the longest cooldown less a second, any refresh finds every spell ready |
| `CooldownMerges.MergeKeepsExactlyTheSession` | internal/services/room_service.go:503-525 | after a merge exactly the players of the session are there; departed ones vanish |
| `CooldownMerges.SynchronizedRoomShowsSession` | internal/services/room_service.go:393-454 | whatever was in the room, each player shows its member: Riot ID, champion, haste 18 and both spells in order, ready for a member who was not there |
| `CooldownMerges.SurvivingSpellsKeepTheirTimers` | internal/services/room_service.go:510-518 | the session's spells of a player who was there keep the player's timers if and only if the player's spells of one name have one timer; a new spell starts as given; every other field is the session's |
| `CooldownMerges.CopyKeepsTimersExactlyWhen` | internal/services/summoner_spell_service.go:91-105 | the same for one copy |
| `CooldownMerges.NamedRunsKeepTimers` | internal/services/room_service.go:423-451 | through any run in which every member and joiner has spells of different names, every next session keeps all timers |
| `CooldownMerges.RepeatedSyncsKeepTimersExactlyWhen` | internal/services/summoner_spell_service.go:8-31 | a member's timers survive every run of repeated synchronizations, presses and refreshes if and only if the two spells have different names |
| `CooldownMerges.UnpressedSpellStarts` | internal/services/summoner_spell_service.go:29-31 | two spells of one name, as any two IDs outside the table give: a spell nobody pressed comes out of a synchronization running |
| `CooldownMerges.RunsKeepIdsDistinct` | internal/services/room_service.go:175-210 | synchronized with sessions of distinct Riot IDs, a room never holds two players of one ID, so the player a merge finds is the only one |
| `CooldownMerges.RepeatingASessionIsIdempotentExactlyWhen` | internal/services/room_service.go:503-523 | repeating a session changes no room if and only if, of players sharing a Riot ID, the first has every spell of the others |
| `CooldownMerges.DistinctSessionsRepeatCleanly` | internal/services/room_service.go:503-523 | in particular when the Riot IDs are distinct |
| `CooldownMerges.RefreshCommutesWithMerge` | internal/services/room_service.go:503-523 | a tick before a merge or after it comes to the same |
| `RoomServiceCalls.RoomService.CreateRoom` | internal/services/room_service.go:82-120 | an existing room is returned untouched, a new one is saved, the empty ID creates none |
| `RoomServiceCalls.RoomService.AddPlayer` | internal/services/room_service.go:122-217 | joins the player, stamps and saves, and announces only after a confirmed save |
| `RoomService.JoinDoes` | internal/services/room_service.go:122-217 | a join is Updated if and only if the room is there and the save works; the known player changes champion alone, a new one gets haste 18 and default spells; no other room changes |
| `RoomService.PressDoes` | internal/services/room_service.go:534-610 | a press is Updated if and only if room, player and spell are there, it does not divide by zero and the save works; only that spell changes |
| `RoomService.ReplacementDoes` | internal/services/room_service.go:482-532 | a replacement is Updated if and only if it changes a player of a room that is there and the save works; it announces nothing |
| `RoomService.EditAnnouncesExactlyTheChanged` | internal/services/room_service.go:122-173 | a join or a press announces exactly the room it changed, unless its save lands although it reports an error, or works and changes nothing |
| `RoomServiceCalls.RoomService.ReplacePlayers` | internal/services/room_service.go:482-532 | merges, and saves only if some player changed |
| `RoomServiceCalls.RoomService.SyncFromChampSelect` | internal/services/room_service.go:379-480 | builds the session's players, replaces, and after a confirmed save announces the room and, other requests having run, makes it current |
| `RoomServiceCalls.RoomService.ToggleSpellByRiotId` | internal/services/room_service.go:534-610 | presses the spell, stamps and saves, and announces only after a confirmed save; panics, with nothing saved, when a ready spell of a player of haste -100 is pressed |
| `RoomServiceCalls.RoomService.RefreshRooms` | internal/services/room_service.go:267-304 | saves the changed rooms in turn; the list of them is lost if one save fails |
| `RoomServiceCalls.RoomService.RefreshCooldowns` | internal/services/room_service.go:240-265 | announces the rooms of a refresh that did not fail |
| `RoomServiceCalls.RoomService.CleanUpOldRooms` | internal/services/room_service.go:640-686 | deletes expired rooms in turn and clears the current one with its room, up to the first failure |
| `RoomServiceCalls.RoomService.SetCurrentRoomID` | internal/services/room_service.go:709-727 | sets and announces a current room that is new |
| `RoomServiceCalls.RoomService.ClearCurrentRoomID` | internal/services/room_service.go:778-795 | clears and announces only if that room is current |
| `RoomService.RefreshAnnouncesExactlyTheChanged` | internal/services/room_service.go:254-304 | a refresh announces exactly the rooms it changed if and only if it does not stop (the caller gone, or a save that does not work) at or after a visit that wrote a change |
| `RoomService.RefreshSavesExactlyTheWritten` | internal/services/room_service.go:280-301 | each room ends refreshed if its visit is reached and writes, and as it was otherwise |
| `RoomService.RefreshKeepsExpiry` | internal/services/room_service.go:280-304 | refreshing a room never postpones its expiry |
| `RoomService.SilentForGoodExactlyWhen` | internal/services/room_service.go:306-349 | no later refresh, whenever it comes, announces a room if and only if none of its cooldowns is still running |
| `RoomService.SavedButNeverAnnounced` | internal/services/room_service.go:285-295 | such a run exists: a room saved before the failing save is announced neither by this refresh nor by a later one |
| `RoomService.CleanUpOnlyRemovesExpired` | internal/services/room_service.go:654-675 | cleanup changes no room it keeps and removes only rooms unsaved for more than 180 minutes |
| `RoomService.CleanUpRemovesExactlyTheExpired` | internal/services/room_service.go:654-675 | one that runs to its end leaves, of the listed rooms, exactly those saved within 180 minutes, and clears the current room with its room |
| `RoomService.CleanUpFailsExactlyWhen` | internal/services/room_service.go:654-675 | it runs to its end if and only if the caller stays and every deletion of an expired room works |
| `CurrentRoom.CurrentRoomIsStored` | internal/services/room_service.go:640-727 | in every timely run the current room is empty or names a stored room |
| `CurrentRoom.AdvanceKeepsInv` | internal/services/room_service.go:643-727 | each call keeps this, and every room saved by a synchronization within 180 minutes stored |
| `CurrentRoom.CleanUpStrandsExactlyWhen` | internal/services/room_service.go:656-675 | a cleanup leaves a current room that is not stored if and only if it reaches that room expired and the deletion lands although it reports an error |
| `CurrentRoom.LostDeletionStrandsCurrentRoom` | internal/services/room_service.go:666-674 | such a run exists, and later cleanups do not clear the room |
| `CurrentRoom.PauseMustNotExceedExpiration` | internal/services/room_service.go:456-477 | the current room is stored in every run if and only if a synchronization never pauses, between saving its room and making it current, for longer than the 180 minutes rooms take to expire |
| `SoundRooms.StoredTimersAreSound` | internal/services/room_service.go:192-216 | through any run of the service whose clock never runs backward every stored spell is sound, if players are added with sound spells (or none) |
| `SoundRooms.EditIsOneStep` | internal/services/room_service.go:482-610 | each editing call changes a room by one step of its cooldowns |
| `Presses.CanPanicExactlyWhen` | internal/services/summoner_spell_service.go:57-89 | presses and refreshes of a list of players can come to divide by zero if and only if some player, the first with its Riot ID, has haste -100 and a spell |
| `Presses.PressesNeverPanic` | internal/services/room_service.go:534-610 | after any calls, and whoever joins, no press divides by zero if no replacement brought a player of haste -100 |
| `Presses.SynchronizationsBringNoZero` | internal/services/room_service.go:423-456 | the replacements that synchronizations perform, the only ones in the source, bring none |
| `Presses.ReplacedZeroPlayerPanics` | internal/services/room_service.go:482-532 | a replacement that brings one does lead to a press that divides by zero |

## Left out

- HTTP handlers, middleware, the WebSocket hub, the frontend, metrics, logging, configuration and deployment files.
- Delivery of room notifications: only which rooms and which current room are announced is modelled, and a failed
  announcement, which the source only logs, is not distinguished from one that worked.
- Polling of the game client, the champion service and its data: observations and champion lookups are inputs.
- JSON encoding and decoding: payloads are records. A payload that cannot be decoded by the consumer is not modelled, and byte
  identity through `jsonb` is not claimed.
- Removal of messages and dead letters by age: age limits only decide what may still be delivered, loaded or replayed.
  Conservation therefore speaks of messages and records that have not been removed by age.
- Publication order: backoff can publish an end before its start, so no ordered delivery is claimed.
- That deliveries, relay cycles and cleanups keep happening; only `Starvation` counts cycles.
- The broker's two-minute duplicate window as a duration: the model lets the broker forget an ID at any time.
- Publishers other than this application, and consumers under other durable names.
- Event IDs are drawn fresh; that random identifiers do not collide is assumed.
- A transaction that commits after its handler's deadline: deadlines bound when calls take effect.
- The clocks of application, database and broker are one clock. `RelayOnce` is stated for times from the zero time on.
- The error texts stored in `last_error` are one constant, and errors carry no chain of causes.
- Serial counters do not advance when a transaction rolls back, and the three queries that load a room see one state of the
  tables. Times are exact; PostgreSQL keeps microseconds.
- `DeepEqual` tells a nil list of players or spells from an empty one; the model has only empty lists.
- The seconds left are computed by integer division; the source converts a floating-point number of seconds, which agrees
  for all times a cooldown can have left.
- 64-bit wrap-around of `baseCooldown * 100`: base cooldowns come from the table, or from a caller of AddPlayer.
- What follows a press that divides by zero: the source still holds its lock then.
- RoomServiceCalls.RoomService.SyncFromChampSelect: other requests run between its two locked sections, not within them,
  because each section holds the lock. The repository behind it is a map, as `RoomTables.SavingSetsAKey` and
  `RoomCache.CacheAgreesWithStore` justify; other instances writing to the same tables are not part of this model.
- The in-memory room repository and the read-only previews of dead letters.
