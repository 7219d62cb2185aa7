# CDC-Axon: verified model of the delivery guarantees

CDC-Axon relays rows of an outbox table (Postgres write-ahead log) or collection (Mongo change
stream) to message brokers and promises at-least-once delivery across crashes. This project models
the parts of the program that decide how far that promise is kept, and proves it.

`dafny verify dfyconfig.toml` checks everything.

## What is modelled

- **Postgres acknowledgement.** `WalHandler` is the message handler: a class whose methods update
  `ClientLSN`, `PendingLSN`, the relation map and the persistence store exactly as the Go methods do,
  proved equal to a function. `PgProtocol` is the two-goroutine protocol: capture loop and engine
  loop interleaved step by step, joined by the unbuffered channel, over the shared positions; a server
  that resumes anywhere up to the largest status it received; in-process retries that keep the handler
  and process restarts that reset it. `PgSource` is the capture iteration, `SendStatus` and `Ack` as
  methods over the handler object, each proved to take exactly the protocol's step. `PgDelivery` says
  exactly when nothing is lost.
- **The whole Postgres relay.** `PgRelay` runs the protocol, the WAL handler that accepts or rejects
  each message, and the transform chain as one machine and proves that its histories are the
  protocol's. `PgSessions` builds replication sessions in it message by message, `PgEngine` proves that
  `processEvent` takes the machine's steps. `Ledger` says what becomes of events that a chain sees
  again and again; `PgChain` and `MongoChain` say with it which events reach the producers.
- **Mongo resume token.** `MongoProtocol` has the same hand-over with the live stream position saved
  at `Ack`; `MongoSource` is the imperative side.
- **Snapshot.** `SnapshotSync` is the keyset pagination loop as a class over its store,
  `SnapshotResume` what passes and crashed attempts achieve, `SnapshotPipeline` the three goroutines
  source, forwarder and engine, `NoGap` that nothing falls between snapshot and stream.
- **Relation cache.** `RelationCache` compares the cache with its persisted fallback, over histories
  with sessions, restarts, failing saves and failing loads, to a decoder without a cache.
- **Histories.** `Histories` is the small theory the three protocols share: invariants, disciplines and
  exact conditions over every sequence of enabled actions.
- **Engine and transforms.** `EngineCore` is the event path as a class, `Transform` the chain with its
  captured state, `RateLimiting` the token bucket over real time.

## What the proofs say about the promise

The documentation says that the LSN or token only advances after a successful publish (README.md:28,
source/postgres/source/eventsManager.go:92-112). The code is weaker, and the model follows the code:

- Capture confirms the position of a commit, a relation message or a keepalive while the engine may
  still be publishing, and `Ack` reads positions that capture may already have moved to the next event.
  Each run can lose one event and no more (`LossIsBoundedByRuns`); every number of runs can really
  lose that many (`PgSessions.BoundIsReached`). No event is ever exposed exactly if no step is
  `Premature`, a condition on the program points and the message at hand
  (`PgDelivery.LosslessExactlyWhenNeverPremature`); a lockstep schedule satisfies it, and then delivery
  is at-least-once for chains of filters, header and routing stages and rate limits
  (`PgChain.WantedEventsArePublished`).
- A status that answers a keepalive can lie below it: `Ack` assigns `ClientLSN` without comparing, so an
  `Ack` between the keepalive and the answer puts it back (`PgProtocol.AnswerCoversExactly`,
  `PgSessions.AckLowersTheAnswer`).
- `Deduplicate` records an id before the event is published, and knows events by their ids only. A
  delivery misses an event if it records the event's id without publishing that very event: the
  publish fails, a later stage fails, is cancelled or drops the event, the save reports an error after
  it was applied, or the delivery is another change with the same id. Under lockstep an event the chain
  wants reaches the producers exactly if no delivery missed it and the stores were not already seeded
  with its id (`PgChain.AtLeastOnceExactlyWhenNeverMissed`, `MongoChain` likewise). Insert, update and
  delete of one outbox row all carry the row's id, so behind `Deduplicate` only the first of them is
  published and the others are confirmed without any failure (`PgChain.SecondChangeIsLost`). With an
  id of its own for every change, the only misses are failures behind the store, and each of them can
  lose its event (`PgChain.EveryBurnLoses`). `SampleRate` does not decide alike on redelivery either
  (`Transform.SampleDecidesDifferently`).
- Mongo opens its stream at the end of the log when no token is stored, and also when loading the
  stored token fails. Such an opening moves past every event written meanwhile: for good if there is no
  token, otherwise as soon as the run saves its own. Beyond those events each run loses at most one
  (`LossIsBounded`); nothing is lost exactly if no step is `MongoProtocol.Premature`.
- The handler saves relations for crash recovery. With a server that announces each relation again in
  every session, as the code comments say it does, the saved copy is never decisive
  (`RelationCache.EveryRowUsesLatest`); without it a refused save and a restart can misdecode a row.
- A snapshot attempt skips at most two rows, and can skip two (`SnapshotPipeline`), because the cursor
  and the done marker are saved when the forwarder accepts a row. The engine's channel is closed when
  the source returns: a row the forwarder still holds is then never processed, even if nothing fails,
  although the snapshot is marked done (`CanFinishExact`, `CompletedWithoutTheRow`). A batch size of 0
  marks a Postgres snapshot done without reading it, and a row with the empty key that fills a page
  repeats forever.
- The rate limiter admits up to r + 2rT events, not r + rT, because the wait is credited a second time.

Assumptions, each a predicate or a `requires`: `PgProtocol.StreamOrdered` and `StreamAllows` (message
positions increase within a session, row changes come in log order, no message or keepalive is
positioned at or past a row change still to be sent); a row decodes to the same event in every session
(`RelationCache.EveryRowUsesLatest` says when); a goroutine of an ended run takes no step in a later
run; field reads and writes are atomic.

## Model

| member | source | states |
|---|---|---|
| WalHandler.WalHandlers.HandleMessage | source/postgres/walHandlers/handlers.go:46-51 | whole new handler state and result of any message, on success and on every error |
| WalHandler.WalHandlers.HandleCopyData | source/postgres/walHandlers/handlers.go:63-94 | demultiplexing by first byte; a keepalive only raises ClientLSN; an empty payload panics |
| WalHandler.WalHandlers.HandleXLogData | source/postgres/walHandlers/handlers.go:96-195 | relation and begin/commit messages move ClientLSN, rows only PendingLSN, errors neither; a failed save leaves the cache ahead of the store |
| WalHandler.WalHandlers.BuildEventFromTuple | source/postgres/walHandlers/handlers.go:197-271 | lookup, lazy reload and the column loop give the decoded event, or which error |
| WalHandler.DecodedFields | source/postgres/walHandlers/handlers.go:241-270 | with distinct names, the event carries exactly the values at the indices named id, event_type and payload, in any column order, and empty where null, unchanged or absent |
| WalHandler.ScanFindsValue | source/postgres/walHandlers/handlers.go:225-254 | the scan for any name finds the present value at that name's index, or none |
| WalHandler.PositionsMoveOnlyOnSuccess | source/postgres/walHandlers/handlers.go:96-195 | a rejected message confirms nothing; an event is only ever announced in PendingLSN |
| WalHandler.PositionsExactly | source/postgres/walHandlers/handlers.go:74-195 | for each kind of message, where ClientLSN and PendingLSN go: a keepalive only raises ClientLSN, a row moves only PendingLSN |
| WalHandler.RepliesExactly | source/postgres/walHandlers/handlers.go:82-108 | a status follows every accepted WAL message, a keepalive exactly if it asks for one, and nothing else |
| WalHandler.DecodingFailsExactly | source/postgres/walHandlers/handlers.go:218-245 | a known relation fails to decode exactly a missing tuple and a present value without a column name |
| WalHandler.LoadedRelationIsKept | source/postgres/walHandlers/handlers.go:201-216 | a relation loaded once is never missing again in this process, whatever loads fail |
| RelationCache.CacheRefinesDecoder | source/postgres/walHandlers/handlers.go:154-216 | after any history with sessions, restarts and failing saves, the handler answers the next message as a decoder without cache; a failing load only adds the error, and only for a relation not announced since the process started |
| RelationCache.RestartsAreInvisible | source/postgres/walHandlers/handlers.go:197-216 | if announced relations reached the store, every row is decoded with the latest relation message for its id wherever the process restarted, or refused because a needed load failed |
| RelationCache.AnnouncedRowsUseLatest | source/postgres/walHandlers/handlers.go:112-216 | a row whose relation was announced in its session is decoded with the latest relation message, whatever saves and loads fail |
| RelationCache.EveryRowUsesLatest | source/postgres/walHandlers/handlers.go:112-216 | with a server that announces relations in each session, this holds for every row of every history |
| RelationCache.OutdatedExactlyWhenForgotten | source/postgres/walHandlers/handlers.go:154-165 | for a relation not announced again, an outdated one is used if and only if the store refused the latest announcement, holds another one, and a restart followed |
| RelationCache.UnsavedRelationMisdecodes | source/postgres/walHandlers/handlers.go:154-216 | a history, outside the announcing assumption, in which a refused save and a restart make another column's value the event id |
| PgProtocol.LossIsBoundedByRuns | source/postgres/source/eventsManager.go:12-116 | over all interleavings, retries and restarts, confirmed but never processed deliverable events number at most the ended runs, plus one for a run in progress |
| PgProtocol.AtMostOneAheadAlways | source/postgres/walHandlers/handlers.go:74-195 | in every state of a run, ClientLSN and the sent statuses pass at most one unprocessed event beyond those passed when the run began: the one the engine, or else the channel, holds |
| PgProtocol.AtMostOneAhead | source/postgres/walHandlers/handlers.go:74-195 | the same from the invariant, naming the event |
| PgProtocol.ResumeSkipsAtMostOnePerRun | source/postgres/source/connection.go:119-132 | wherever the server resumes, what it does not send again was processed, but for one event per ended run |
| PgProtocol.StepKeepsInv | engine/core/engine.go:241-311 | the protocol invariant is kept by every step of capture, engine, retry and restart |
| PgProtocol.StatusReachesServer | source/postgres/walHandlers/handlers.go:287-297 | after a status that arrives, on a timeout, a reply, Ack or at the start, the server knows the larger of ClientLSN and what it knew; otherwise it learns nothing |
| PgProtocol.RequestIsAnsweredNext | source/postgres/source/eventsManager.go:73-85 | after a keepalive that asks for a reply, the capture side's next step in the run is the status, whatever the engine does |
| PgProtocol.AnswerCoversExactly | source/postgres/source/eventsManager.go:83-116 | that status covers the keepalive's position if and only if no Ack came in between, or PendingLSN or an earlier status already covered it |
| PgProtocol.CaptureErrorIsFinal | source/postgres/source/eventsManager.go:67-77 | after a receive or handle error nothing is received, reported or handed over until the next run |
| PgProtocol.EngineErrorIsFinal | engine/core/engine.go:241-262 | after a transform, publish or Ack error nothing is taken, processed or acknowledged until the next run |
| PgDelivery.StepExact | source/postgres/walHandlers/handlers.go:74-195 | a step of a reachable lossless state exposes an event if and only if it is premature |
| PgDelivery.LosslessExactlyWhenNeverPremature | source/postgres/source/eventsManager.go:92-116 | a history never confirms an unprocessed event if and only if none of its steps is premature |
| PgDelivery.AtLeastOnce | engine/core/engine.go:241-311 | without premature steps every unprocessed event is sent again wherever the server resumes, and a failed event lies above everything confirmed |
| PgDelivery.AtLeastOnceUnderLockstep | engine/core/engine.go:273-311 | both for schedules in which the engine finishes each event before the next message is handled |
| PgDelivery.KeptEventsArePublished | engine/core/engine.go:279-311 | under lockstep, if the events of a set are always kept and no others, every one of them below any resume point was published by all producers, and nothing else is |
| PgRelay.FollowsProtocol | source/postgres/source/eventsManager.go:30-116 | every history of protocol, handler and chain together is, step for step, a history of the protocol |
| PgRelay.HandlerHoldsThePositions | source/postgres/walHandlers/handlers.go:17-27 | in every such history the positions of the protocol are the handler's fields |
| PgRelay.RefusedRelationIsLearnt | source/postgres/walHandlers/handlers.go:154-165 | a relation whose save is refused ends the run, moves no position, and is still used by the handler afterwards |
| PgSessions.RunDelivery | source/postgres/walHandlers/handlers.go:96-195 | begin, relation and insert of any outbox event are accepted, decode to that event, and reach the engine |
| PgSessions.BoundIsReached | source/postgres/walHandlers/handlers.go:190-191 | for any n events, a history with every message accepted and n ended runs that loses all n |
| PgSessions.AckLowersTheAnswer | source/postgres/source/eventsManager.go:113-116 | a history, with every message accepted, in which Ack puts ClientLSN back and the status answering a keepalive is below it |
| Ledger.PublishedExactly | engine/core/engine.go:279-311 | over any attempts, faults and restarts: if a wanted event of a set with one id was published or dropped, one of the set was published if and only if the id was new and no attempt recorded it without publishing one of them |
| PgChain.PublishedExactlyWhenNeverMissed | engine/core/engine.go:279-311 | in every history, a processed event that the chain wants was itself published if and only if its id was new to the stores and no delivery recorded the id without publishing this event |
| PgChain.IdPublishedExactlyWhenNeverBurned | engine/core/engine.go:279-311 | some change with the id was published if and only if the id was new and no delivery recorded it and then ended without a successful publish |
| PgChain.WithDistinctIds | engine/core/engine.go:279-311 | if every change has an id of its own, that is also when the event itself was published |
| PgChain.AtLeastOnceExactlyWhenNeverMissed | engine/transform/transform.go:48-66 | under lockstep, both conditions hold for every wanted event that a server resuming at any confirmed position does not send again |
| PgChain.SecondChangeIsLost | engine/transform/transform.go:52-65 | for any two wanted changes with one id behind any Deduplicate: an ordinary lockstep run without failures confirms the second unpublished |
| PgChain.EveryBurnLoses | engine/transform/transform.go:52-65 | for every chain, event, faults and publish result that burn the id, a lockstep history that confirms the event unpublished |
| PgChain.WaysToBurn | engine/transform/transform.go:52-98 | a failed publish, a cancelled wait behind Deduplicate, and a save that errs after being applied all burn |
| PgChain.WantedEventsArePublished | engine/core/engine.go:279-311 | under lockstep and a chain without Deduplicate and SampleRate, every wanted event below any resume point was itself published |
| PgChain.OnlyWantedIsPublished | engine/core/engine.go:279-298 | in every history, whatever is published passes the chain's filters |
| PgChain.ProducersTakeTheRow | engine/core/engine.go:279-298 | in every history with any chain, what is published of a row is the row's own id, source, operation, type and payload, each header as the chain's last writing stage left it |
| PgEngine.ProcessEventTakesTheSteps | engine/core/engine.go:273-311 | for every outcome of processEvent the machine takes Publish, Drop or ProcessFails and the two steps of Ack exactly where due, and the engine goes on exactly if there was no error |
| PgSource.PgRelaySource.HandleReceived | source/postgres/source/eventsManager.go:73-85 | one loop iteration takes exactly the protocol's receive step: hand over if the id is non-empty, reply if due, stop on error |
| PgSource.PgRelaySource.SendStatus | source/postgres/walHandlers/handlers.go:287-297 | the server remembers the largest ClientLSN that reached it |
| PgSource.PgRelaySource.TimedOut | source/postgres/source/eventsManager.go:30-65 | a receive timeout only sends the current status |
| PgSource.PgRelaySource.SendReply | source/postgres/source/eventsManager.go:83-85 | the status after a message, then back to receiving |
| PgSource.PgRelaySource.Ack | source/postgres/source/eventsManager.go:113-116 | ClientLSN becomes whatever PendingLSN is now, then a status; the two protocol steps of Ack |
| MongoProtocol.LossIsBounded | source/mongo/source/eventsManager.go:12-69 | in every interleaving, events since the first opening that no later run reads again and that were never processed number at most one per ended run, plus one, plus those that openings without a token moved past and that were not processed after all |
| MongoChain.PublishedExactlyWhenNeverMissed | engine/core/engine.go:279-311 | in every history of the Mongo relay with its chain, a processed wanted event was published if and only if its id was new and no delivery recorded the id without publishing it |
| MongoChain.AtLeastOnceExactlyWhenNeverMissed | source/mongo/source/eventsManager.go:12-69 | the same for every wanted event that no later run reads again, under lockstep and if no opening moves past an unprocessed event |
| MongoChain.WantedEventsArePublished | engine/core/engine.go:279-311 | without Deduplicate and SampleRate all of these were published |
| MongoChain.OnlyWantedIsPublished | engine/core/engine.go:279-298 | in every history, whatever is published passes the chain's filters |
| MongoProtocol.AtMostOneAheadAlways | source/mongo/source/eventsManager.go:64-69 | during a run the token leads by at most the event the engine, or else the channel, holds, beyond what was covered at its start and what its opening moved past |
| MongoProtocol.LosslessExactlyWhenNeverPremature | source/mongo/source/eventsManager.go:13-69 | no event since the first opening is ever lost if and only if no stream opens without any token past an unprocessed event, and no Ack saves the token while an unprocessed event waits on the channel or was moved past by this run's opening |
| MongoProtocol.AtLeastOnceUnderLockstep | source/mongo/source/eventsManager.go:12-69 | under lockstep, and if no opening moves past an unprocessed event, nothing is lost, and a run that loads its token reads every unprocessed event again, whatever saves failed |
| MongoProtocol.BoundIsReached | source/mongo/source/eventsManager.go:46-68 | for every n, a history of n runs, each resuming from its token, that loses n events |
| MongoProtocol.StepExact | source/mongo/source/eventsManager.go:13-69 | a step of a reachable state that lost nothing loses an event if and only if it is one of these |
| MongoProtocol.WithoutTokenNothingIsKept | source/mongo/source/eventsManager.go:13-27 | a run that ends before a token is stored: the next opening loses all decodable events of any log |
| MongoProtocol.FailedLoadLoses | source/mongo/source/eventsManager.go:14-20 | a token is stored, its load fails once: under lockstep and with every save applied, all events written meanwhile are lost |
| MongoProtocol.TokenIsLivePosition | source/mongo/source/eventsManager.go:64-69 | only an applied save changes the token, and to the position the stream is at |
| MongoProtocol.CaptureErrorIsFinal | source/mongo/source/eventsManager.go:37-59 | after a stream error nothing is read or handed over until the next opening |
| MongoProtocol.EngineErrorIsFinal | engine/core/engine.go:241-262 | after an error the engine takes, processes and acknowledges nothing until the next opening |
| MongoSource.MongoRelaySource.CaptureEvents | source/mongo/source/eventsManager.go:12-28 | opening resumes after a loaded token, otherwise from the current end of the log; if it fails, nothing changes |
| MongoSource.MongoRelaySource.ReadUntilEvent | source/mongo/source/eventsManager.go:37-53 | on a growing log, the read loop skips exactly the events that do not decode and hands over the first that does, or waits at the end |
| MongoSource.MongoRelaySource.Ack | source/mongo/source/eventsManager.go:64-69 | saves the live position, not that of the processed event; a nil store saves nothing |
| SnapshotSync.SnapshotSource.SyncSnapshot | source/postgres/source/snapshot.go:71-195 | store, pushed rows and outcome of a whole call, with refusals, skips, crashes and ignored store errors |
| SnapshotSync.SnapshotSource.SyncBatches | source/mongo/source/snapshot.go:56-135 | the batch loop equals the pass function on any sequence of query outcomes |
| SnapshotSync.SnapshotSource.SyncBatch | source/postgres/source/snapshot.go:110-177 | one query: the rows handed over, the ignored cursor save, how the iteration ends |
| SnapshotSync.SnapshotSource.PushRows | source/postgres/source/snapshot.go:133-156 | rows are pushed in order up to the point of failure or cancellation |
| SnapshotSync.PageAdvances | source/postgres/source/snapshot.go:112-118 | the rows selected after a page are those selected before it without the page |
| SnapshotResume.KeysAscend | source/postgres/source/snapshot.go:109-181 | whatever table version each query sees and however the pass ends, keys strictly ascend above the start |
| SnapshotResume.ChangingTablePass | source/postgres/source/snapshot.go:109-181 | a finished pass hands over, exactly once, every row present in all queried versions above the start |
| SnapshotResume.StaticPass | source/mongo/source/snapshot.go:56-135 | on a static table a pass yields a prefix of the sorted rows above the resume key, all of them if it finishes |
| SnapshotResume.StaticPassEnds | source/mongo/source/snapshot.go:56-135 | without failures it finishes if and only if it gets one query per page and one more |
| SnapshotResume.FreshSnapshotExact | source/postgres/source/snapshot.go:109-173 | a first snapshot can hand over exactly the table if and only if the table is empty, or rows can be fetched and the empty key does not fill a page |
| SnapshotResume.StuckForever | source/postgres/source/snapshot.go:112-114 | otherwise the row with the empty key is handed over once per query and the pass never finishes |
| SnapshotResume.PageIsABatch | source/postgres/source/snapshot.go:112-118 | a query yields all that is left if the batch holds it, else a full batch; a limit of 0 is none for Mongo and nothing for Postgres |
| SnapshotResume.QueriesExact | source/mongo/source/snapshot.go:56-117 | m rows take one query per started batch and one more |
| SnapshotResume.InterruptedExact | source/postgres/source/snapshot.go:133-161 | a pass interrupted j rows behind k full batches handed over exactly these rows |
| SnapshotResume.CrashRecovery | source/postgres/source/snapshot.go:95-192 | over any crashed attempts with unnoticed store failures, on a changing table: of the rows every queried version contains, a stored cursor means that those up to it were handed over, the done marker or a completed attempt that all were |
| SnapshotResume.StaticCrashRecovery | source/mongo/source/snapshot.go:40-150 | on a static table, this is every row |
| NoGap.SnapshotCoversSlot | engine/core/engine.go:101-124 | if every query sees a version not before the slot, each row in the table at the slot was handed over by a completed snapshot or changes behind the slot |
| NoGap.StreamCarries | source/postgres/source/connection.go:73-96 | each change behind the slot is in the stream, above the slot |
| NoGap.NothingFallsBetween | engine/core/engine.go:101-124 | under lockstep, each row at the slot was handed over or has a change that was processed or will be sent again, and so has every change behind the slot |
| SnapshotResume.MarkerExact | source/postgres/source/snapshot.go:78-84 | the done marker appears if and only if an Initial call completes and its save is applied; once seen, nothing is handed over or changed |
| SnapshotResume.OutcomeExact | source/postgres/source/snapshot.go:71-92 | when a call is refused, skipped or cannot connect, and that it then changes and hands over nothing |
| SnapshotResume.CompletedClearsCursor | source/postgres/source/snapshot.go:183-186 | a completed call whose delete is applied leaves no cursor |
| SnapshotResume.AlwaysReadsAgain | source/postgres/source/snapshot.go:64-70 | in mode Always the call after it hands over the whole table again |
| SnapshotResume.LastSaveExact | source/postgres/source/snapshot.go:163-176 | the cursor a pass leaves is the last row of the last batch whose save was applied, and all rows up to it were handed over |
| SnapshotResume.ResumesBehindLastSave | source/postgres/source/snapshot.go:95-176 | a call that loads that cursor hands over exactly the rows behind it, or a prefix of them: nothing is skipped, only rows behind the save repeat |
| SnapshotResume.ZeroBatchMarksDone | source/postgres/source/snapshot.go:114-192 | batch size 0 on Postgres completes, hands over nothing and saves the done marker |
| SnapshotPipeline.SkippedRowsAreBounded | engine/snapshot/snapshot.engine.go:55-77 | in every interleaving, rows a later attempt would skip unprocessed number at most two per ended attempt, plus two |
| SnapshotPipeline.LagIsTwo | engine/snapshot/snapshot.engine.go:62-77 | during an attempt cursor and marker are ahead of the processed rows by at most the two rows in flight |
| SnapshotPipeline.LosslessExactlyWhenNeverPremature | source/postgres/source/snapshot.go:175-192 | nothing unprocessed is confirmed if and only if no cursor or marker is saved while a row is in flight |
| SnapshotPipeline.BoundIsReached | engine/core/engine.go:209-231 | for every n, n crashed attempts that skip 2n rows |
| SnapshotPipeline.FinishExact | engine/core/engine.go:213-231 | at any moment after the source returned, the attempt has processed all rows from its start if and only if the forwarder held no unprocessed row when it returned and the engine owes none |
| SnapshotPipeline.CanFinishExact | engine/core/engine.go:213-231 | by the program points at that return: the attempt can still process all its rows if and only if the forwarder holds no unprocessed row and the engine did not fail on one |
| SnapshotPipeline.CompletedWithoutTheRow | engine/core/engine.go:213-216 | a fault-free history of one row that ends complete and marked done with the row unprocessed |
| SnapshotPipeline.DeletedStartsOver | source/postgres/source/snapshot.go:183-186 | after the delete every attempt starts with the first row until a cursor is saved again |
| SnapshotPipeline.StartsBehindCursor | source/postgres/source/snapshot.go:97-106 | an attempt starts behind the cursor if it loads it, else with the first row |
| SnapshotPipeline.DoneIsNotRepeated | source/postgres/source/snapshot.go:78-84 | after the marker is saved no attempt starts that can load it |
| Transform.ChainComposes | engine/core/engine.go:366-379 | running xs + ys is running ys on what xs keeps; the state of ys is untouched by what xs drops or fails on |
| Transform.SampleBehindChain | engine/transform/transform.go:173-179 | SampleRate(n) behind any chain passes exactly floor(m/n) of the m events the chain keeps |
| Transform.EachIdPublishedOnce | engine/transform/transform.go:48-66 | with Deduplicate anywhere in the chain, no id reaches publishing twice, over redeliveries, store failures and restarts |
| Transform.DedupPassesFirst | engine/transform/transform.go:52-65 | with a working store Deduplicate passes an id if and only if it is delivered and was not seen before |
| Transform.RedeliveryIsDropped | engine/transform/transform.go:52-65 | an id that passed once is not kept again |
| Transform.DecidesAlike | engine/core/engine.go:366-379 | a chain without Deduplicate and SampleRate decides an event the same way at every delivery, faults aside |
| Transform.SampleDecidesDifferently | engine/transform/transform.go:173-179 | SampleRate(n), n > 1, drops on redelivery what it kept |
| Transform.ChainDecides | engine/transform/transform.go:48-66 | without SampleRate: kept events are wanted and unseen, dropped ones unwanted or seen, and only the event's id is added to stores |
| Transform.KeepsContent | engine/core/engine.go:366-379 | for every chain, state and faults: a kept event is the event that came in but for its headers |
| Transform.HeadersExact | engine/transform/transform.go:37-46 | each header of a kept event has the value of the last AddHeader or RouteByEventType stage that writes it, or its own |
| Transform.KeptUnchanged | engine/transform/transform.go:15-35 | a chain without those stages hands on exactly what came in |
| Transform.FiltersExact | engine/transform/transform.go:15-35 | what a chain keeps is listed by each filter, and a chain of filters keeps exactly what all list |
| Transform.SampleAfterRestart | engine/transform/transform.go:173-179 | after a process restart the count begins again: floor(m/n) of the m events kept from then on pass |
| Transform.ZeroSamplesNothing | engine/transform/transform.go:173-179 | SampleRate(0) lets nothing through |
| Transform.RecordsExactly | engine/transform/transform.go:52-65 | the id is recorded exactly if the stages in front keep the event, the store does not have it, and the save is applied |
| RateLimiting.RateLimiter.Transform | engine/transform/transform.go:74-97 | the bucket after a call, whether the event passed and when, tokens within [0, r], also when cancelled while waiting |
| RateLimiting.TokenBucketBound | engine/transform/transform.go:68-98 | over elapsed time T at most r + rT events pass plus r per second waited, hence at most r + 2rT |
| RateLimiting.OneCallExact | engine/transform/transform.go:76-94 | with a whole token a call passes at once and uses it; otherwise it waits exactly until one is earned and empties the bucket, or is cancelled before and uses nothing |
| RateLimiting.BurstExact | engine/transform/transform.go:76-94 | k calls at one instant pass without waiting if and only if k tokens are there: what was left plus the refill, up to r |
| RateLimiting.FullAfterASecond | engine/transform/transform.go:76-80 | after an idle second r calls at one instant pass without waiting, and r + 1 do not |
| RateLimiting.BoundIsAttained | engine/transform/transform.go:76-94 | for every rate and n, a schedule of length n/r that passes r + 2n events |
| EngineCore.Engine.ApplyTransforms | engine/core/engine.go:366-379 | the in-place loop over the stages equals the chain function |
| EngineCore.Engine.PublishAll | engine/core/engine.go:320-360 | nil exactly if all producers succeeded, otherwise one producer's own error; one record per producer, whatever the order of arrival |
| EngineCore.Engine.ProcessEvent | engine/core/engine.go:273-311 | new stages, metrics and outcome of one event on every path |
| EngineCore.Engine.ProcessEvents | engine/core/engine.go:209-262 | events are processed until the first error, cancellation or a closed channel; which of these return an error, for stream and snapshot |
| EngineCore.FirstFailureExact | engine/core/engine.go:343-359 | for every arrival order an error is returned if and only if a producer failed, and it is that of the first failure to arrive |
| EngineCore.PublishErrorIsFirst | engine/core/engine.go:343-359 | a publish error is the one that arrived first |
| EngineCore.RecordsExact | engine/core/engine.go:343-357 | each producer leaves one record, with its own number, of its own result |
| EngineCore.OffersTheEvent | engine/core/engine.go:279-298 | the producers get exactly the events that the chain keeps, as it keeps them, with the id, source, operation, type and payload that came in |
| EngineCore.ProcessAllExact | engine/core/engine.go:241-262 | every event is processed with what the previous one left, until the first error or to the end |
| EngineCore.EndingExact | engine/core/engine.go:216-262 | without an event error, the stream returns an error exactly if its channel closed, the snapshot exactly if it closed and SyncSnapshot failed |
| EngineCore.AckOnlyAfterAllSucceeded | engine/core/engine.go:284-308 | Ack is called exactly for stream events that were dropped or taken by all producers, never for snapshot events; the run goes on exactly then, if a due Ack succeeded |
| EngineCore.MetricsBalance | engine/core/engine.go:273-360 | captured = dropped + reached producers + failed in the chain; each event reaching the producers leaves one record per producer |

## Left out

- Connections, slot creation and the brokers (source/postgres/source/connection.go, source/mongo/source/connection.go): a step may fail, and the server resumes at some position up to the largest status.
- Resuming at transaction granularity: the server may resume at any position, which includes commit boundaries.
- Byte parsing and JSON: messages are parsed values, and a relation survives its JSON round trip.
- PgChain.PublishedExactlyWhenNeverMissed: chains with `SampleRate` are not covered, because they promise no event in particular; a process killed between chain and publish counts as a failed publish.
- MongoChain.PublishedExactlyWhenNeverMissed: a change event is taken to be the same at every read, although update lookups return the current document; the chain theorems leave out `SampleRate` here too.
- NoGap.NothingFallsBetween: handing over is the source's side of the snapshot, and the rows still in its pipeline are `SnapshotPipeline`'s; every change is taken to carry an id, and every version to be read at one position.
- 64-bit positions: LSNs are natural numbers; `WALStart + len` does not wrap.
- Steps of a leaked goroutine of an earlier run, and data races on plain fields.
- `Start`, its backoff and `connectProducers`: the retry loop appears as EndRun followed by StartRun; runs that fail before streaming change nothing.
- Wall-clock timeouts and expiry of deduplication entries: a timeout is a step that may happen at any time, entries never expire.
- EngineCore.Engine.ApplyTransforms: stages are values in a field of the engine, so two chains sharing one closure are not modelled.
- RateLimiting.RateLimiter.Transform: rates of at least 1 over real numbers; float and nanosecond rounding and concurrent callers are not modelled.
- SnapshotSync.SnapshotSource.SyncSnapshot: keys are ranks in the database's order, assumed to be the order of their text; a pass whose sequence of query outcomes runs out ends like a crash.
- SnapshotPipeline.SkippedRowsAreBounded: a cursor may be saved behind any row, a superset of the batch ends of any batch size.
- `rowToEvent`, `SnapshotProgress`, `MaskField`, `AddTimestamp`, `EnrichFromStore`, setters, logging and configuration: single-branch code.
- `SampleRate(0)` and an index past `rel.Columns` end the process in Go; here they are a failed chain and a Panic result.
- Liveness against an outage that never ends, and termination of a snapshot of a table that keeps growing.
