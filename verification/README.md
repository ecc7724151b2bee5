# HotMem: a verified model

HotMem keeps memory records in a SQLite store, logs every change of a record as an event, and lets
other stores replay a window of that log. This project models the hard parts of the repository and
proves what its documentation promises of them.

**Event-log replication** (`src/hotmem/events.py`, `src/hotmem/db.py`) is the main part.

- `Records`, `Planner` hold the values and the planner's decision for one event, branch by branch:
  the stateless checks, then what to do given what the target knows of the event's id.
- `Execution` runs a plan on the tables one step at a time, with `INSERT OR IGNORE` and the unique
  index as they are, and proves that planning is exact and resurrects nothing. On it rest `Idempotence`
  and `Repetition` (the same range again), `Composition`, `Scoping` (namespaces) and `Resume` (cursors
  behind the target).
- `History` describes which events a source writes and proves convergence. `Retention` is the
  retained log, its watermarks and the cursor check; `Sources` is a store under any run of writes,
  trims and compactions; `Replication` is one replay of a replica, refusals included, and `Systems` a
  source and a replica under any run of both. `CrossScope` and `CrossReplay` say what a cursor of another
  scope brings a replica.
- `Divergences` has concrete inputs on which the code does not do what its documentation says.
- `Database`, `LazyView`, `ReplayRun` and `ReplayWrites` are the program itself: a class for the
  store, a class for the working state of the first pass, the paging loop that plans, and the loop
  that executes with batched inserts. They are proved equal to the functions above, so that every
  theorem about those holds of `ReplayWrites.ReplayWithCursor`. `Stepping` calls it with a bounded number of
  events until nothing is left.

**Task sync** (`src/hotmem/cli.py`): `Outbox` is a state machine of any number of hook processes that
stamp, queue and flush events and may crash anywhere, against a server that keeps idempotency keys;
`Reducer` rebuilds the tasks of two clients from their shared history.

**Self-contained cores**: `Mmr` (`src/hotmem/rerank.py`), `Annotations` (`src/hotmem/annotations.py`), `Ndcg`
(`scripts/retrieval_eval.py`), `Scanner` (`bench/native_spike/py_baseline.py`), and `CursorCodec` with
`Base64` and `Text` (the cursor token in `src/hotmem/events.py`).

Check everything with `dafny verify dfyconfig.toml`.

## Where the code and its promises differ

Each promise is proved under a condition that a caller can check, and which is exact: where it does not
hold, the promise fails. Inputs on which it fails stand beside it.

- **Convergence** is not unconditional. A record with an empty identifier is accepted and created, but
  the planner refuses its delete event, so that one such record stops every later replay
  (`Divergences.EmptyIdentifierBlocksReplay`). Replay of a source's whole log succeeds if and only if
  each write was `Portable`, which can be checked before writing (`History.ReplayConverges`).
- **Updates outside the fingerprint** (parent, relations, embedding, update time) are taken for already
  applied and never reach a replica; which updates arrive is decided exactly
  (`Divergences.SilentUpdatesNeverArrive`).
- **The base check of a cursor ignores its namespace**: a target that replayed one namespace accepts a
  cursor for all of them, or for another one, and skips those namespaces' past
  (`Divergences.PartialCloneExample`). Such a replay succeeds exactly if its window is portable and changes,
  outside the replica's own namespace, only records that it creates; then exactly those records arrive
  (`CrossReplay.ArrivesExactly`). It brings all that the cursor stands for if and only if the source wrote
  nothing outside that namespace before the cursor (`CrossReplay.CompleteExactlyWhen`). With a checkpoint of
  the same scope the replica reaches the head exactly if all in scope is portable and the cursor names the
  event types it meets (`Replication.ReplayReachesHead`).
- **Dedupe markers** of replays before payload version 1 carry an empty fingerprint. With one on the
  target, replaying a range twice can raise (`Divergences.LegacyMarkBreaksIdempotence`): exactly if the range
  changes an id that the target has only a marker of, creates it later, keeps it, and the change does not fit
  the created row (`Repetition.ReplayIsIdempotent`). The range of the example is one that no single source
  writes; every stretch of a source's history can be replayed twice whatever markers the target holds
  (`History.StretchesReplayTwice`).
- **nDCG** exceeds 1 for a ranking that repeats an id, and for a negative cutoff with more ids ranked than
  judged; for distinct ids the bound holds exactly otherwise (`Ndcg.RepeatedIdsExceedOne`, `Ndcg.BoundedExactlyWhen`).
- **The cursor token**: the field limits allow cursors whose token is over the size limit, such as one with 256
  event types of 128 characters outside ASCII, and decoding refuses them (`CursorCodec.LongCursorIsRefused`);
  the round trip holds exactly within the limit (`CursorCodec.RoundTripExactlyWithinLimit`).

Some checks turn out never to matter: the tombstone watermark never refuses a cursor that the trim
watermark accepts, compaction of a store's own log never meets a conflict, and the guards against foreign
records never stop a replica that has only replayed from one source (`Retention.CursorAcceptedExactly`,
`Sources.CompactionIsSafe`, `Systems.EverySystemRunIsSafe`).

## Model

| member | source | states |
|---|---|---|
| Execution.PlanningIsExact | src/hotmem/events.py:2617-2685 | whatever pass 1 accepts lands: no planned insert is ignored, no planned update or delete misses its row, and the simulated rows, index and tombstones describe the tables after every step |
| Execution.StepIsExact | src/hotmem/events.py:2770-2901 | the same for one event, from any tables that the simulation describes |
| Execution.EagerViewIsCoherent | src/hotmem/events.py:1402-1484 | loading the whole target gives a simulation that describes it, with an exact (namespace, hash) index |
| Execution.ReplayKeepsBuried | src/hotmem/events.py:1880-1900 | whatever tables, window and event types: an accepted replay leaves no id live and tombstoned if none was before, every tombstone stays as it is, its id does not come back, and the unique index holds |
| Repetition.ReplayIsIdempotent | src/hotmem/events.py:1880-2234 | after any accepted replay of any range into any tables, replaying it again is accepted iff no event of it is unsettling, and then plans only skips and changes no row, tombstone or watermark, also for A, B, A histories and deleted records |
| Repetition.EndReplaysAgain | src/hotmem/events.py:1880-2234 | the same for any last part of the range, from any position before it |
| Repetition.SettledExactly | src/hotmem/events.py:2005-2016 | after a range, an event of it would by itself be skipped iff it is not unsettling: a change of an id that the target had only a dedupe marker of, before the create of that id that survives the range, which does not fit the created row |
| History.StretchesReplayTwice | src/hotmem/events.py:2527-2528 | any stretch of a source's history that replays once replays again and changes nothing, whatever rows, tombstones, watermarks and dedupe markers the target holds |
| Idempotence.RunPlaces | src/hotmem/events.py:1984-2085 | after a range, each event that was not deduplicated is settled and names a live or tombstoned id, a deduplicated one is settled unless a later create upsets it, and watermarks follow the fingerprints of the rows the run touched |
| Composition.ReplayComposes | src/hotmem/events.py:2710-2726 | replaying a window in two parts, reloading in between, gives the tables or the error of replaying it at once |
| Resume.StepsEqualOneReplay | src/hotmem/events.py:2642-2685 | the same for any number of consecutive windows of any sizes |
| Stepping.ReplayInSteps | tests/test_events.py:2106-2116 | replaying with any positive `max_events`, each time from the returned cursor, until the report says completed: it ends, with the tables and checkpoint or the error of the one unbounded replay, after an error with the tables of the last complete step; where the first bounded replay is refused nothing changes |
| Stepping.StepIs | src/hotmem/events.py:2642-2685 | every step from a returned cursor is accepted and ends as a replay of everything up to its end would, or with the same error |
| Resume.ReplayResumes | src/hotmem/events.py:1118-1188 | from the state after t events, replaying from any earlier position c ends as replaying everything does, in the same tables or with the same error, iff none of the repeated events is unsettling; otherwise it is refused |
| Resume.PartIsSkipped | src/hotmem/events.py:2077-2085 | replaying any stretch of a range that the target already holds, with no unsettling event from the stretch on, changes no row, no tombstone and no watermark of a live or tombstoned id; the dedupe marker of any other id becomes that of its last event in the stretch, if it has one there |
| Resume.UnmarkedPartIsSkipped | src/hotmem/events.py:2077-2085 | without dedupe markers it changes nothing at all |
| Resume.ReplayKeepsNoLegacy | src/hotmem/events.py:2005-2016 | on a target without dedupe markers replay writes none |
| Resume.StartIsIrrelevant | src/hotmem/events.py:2617-2624 | where the cursor stands between two events of its scope makes no difference |
| Scoping.ScopingCommutes | src/hotmem/events.py:2027-2038 | if a window replays into any tables, then its events of one namespace alone replay too, give the full replay's rows, tombstones and watermarks of that namespace and leave every other namespace as it was |
| Scoping.NeverMoves | src/hotmem/events.py:2027-2038 | after any accepted replay a record of the target is in the namespace it was in, or tombstoned |
| History.ReplayConverges | src/hotmem/events.py:1487-2308 | for every history of creates, updates, deletes and observations, replay into an empty target succeeds iff each write is portable, and then yields the source's live map and tombstones |
| History.PortableIffChecked | src/hotmem/events.py:1487-1700 | on an event that a source wrote, the planner's checks pass exactly when the write was portable |
| History.SourceIsConsistent | src/hotmem/events.py:3168-3175 | in every source history no id is live and buried, and a (namespace, hash) has one live holder |
| History.OneMoreWrite | src/hotmem/events.py:2289-2301 | one more portable write costs a replica exactly the expected step |
| Retention.HeadSurvivesTrims | src/hotmem/db.py:1667-1698 | head sequence and id name the last event ever appended, even after everything was trimmed, and the trim watermark is the largest removed sequence number |
| Retention.TrimBeforeRetains | src/hotmem/db.py:1700-1737 | trimming before a sequence number leaves exactly the events from it on, a suffix of the history, and advances the watermark to the largest removed one |
| Retention.TrimCountRetains | src/hotmem/db.py:1739-1785 | trimming by count leaves the newest events |
| Retention.CursorAcceptedExactly | src/hotmem/events.py:1118-1188 | a cursor addressed to the store passes iff it is the start of an untrimmed log or is anchored at a retained event; one anchored at the last removed event is refused |
| Retention.WindowIsComplete | src/hotmem/events.py:1118-1188 | the window of an accepted cursor in the retained log is the window in the full history |
| Sources.EveryRunIsFaithful | src/hotmem/db.py:1551-1575 | after any run of writes, trims and compactions the log is a suffix of the history, the tables are those of the history, and every missing tombstone is behind the compaction watermark |
| Sources.EveryRunIsSafe | src/hotmem/events.py:3417-3471 | in every run no id is live and tombstoned and the unique index holds |
| Sources.DeadStaysDead | src/hotmem/events.py:3168-3175 | a buried id stays buried and never becomes live again, in every continuation of a history |
| Sources.NoResurrection | src/hotmem/events.py:3548-3566 | an id tombstoned in a run is not live in any continuation, though compaction may drop the tombstone |
| Sources.CompactionIsSafe | src/hotmem/events.py:3548-3579 | no compaction of a faithful store meets an unsafe candidate |
| Sources.CompactIsFaithful | src/hotmem/events.py:3509-3579 | compaction keeps the store faithful, with the compaction watermark at most the trim watermark |
| Replication.ReplayReachesHead | src/hotmem/events.py:2569-2925 | whatever the source trimmed or compacted since, an unbounded replay with an accepted cursor of the replica's scope succeeds iff all events in scope are portable and those after the cursor are of types it names, and then the replica is in the source's state at the head |
| Replication.ReplayUnderTypes | src/hotmem/events.py:1580-1588 | a window replays under fewer event types iff it replays under all of them and meets no other, and then with the same tables |
| Replication.NothingForeignIsAdopted | src/hotmem/events.py:2686-2708 | rows of a target without a checkpoint are replayed over only from the start, without a bound, and when each of them is named by an event of the source |
| Replication.OwnIsNotGuarded | src/hotmem/events.py:2574-2600 | on a target that has replayed only from this source, no guard and no mount check refuses: the outcome is decided by cursor, base and window |
| Replication.ReplayExtends | src/hotmem/events.py:2569-2925 | every accepted replay with a cursor of the replica's scope, bounded or not, leaves it holding the first events of the scope up to the end of the window, or to where it already was, with the checkpoint at the end of the window |
| Replication.ScopeConverges | src/hotmem/events.py:2617-2624 | convergence for a single namespace of a source |
| Systems.SourceMoves | src/hotmem/events.py:3480-3579 | nothing the source does invalidates what a replica holds |
| Systems.EverySystemRunIsSafe | src/hotmem/events.py:2508-2930 | in every run of source steps and replays with cursors of any scopes, event types and budgets: no id of the replica is live and tombstoned, the unique index holds, its checkpoint is of this source, and the guards against foreign records and mounts never apply |
| Systems.EverySystemRunHolds | src/hotmem/events.py:2508-2930 | in every run whose replays are all of one scope, with any budgets and event types, the replica holds the state of a prefix of that scope's history |
| Systems.ReplicaNeverResurrects | src/hotmem/events.py:1880-1900 | an id tombstoned on the replica keeps its tombstone and never becomes live there, in any continuation with any cursors |
| Systems.ReplicaCannotCompact | src/hotmem/events.py:3521-3545 | a replica without a log of its own never compacts a tombstone |
| Divergences.EmptyIdentifierBlocksReplay | src/hotmem/events.py:2177-2193 | a source history of two events that replays after the first and raises after the second |
| Divergences.SilentUpdatesNeverArrive | src/hotmem/events.py:2061-2075 | an update leaves the replica as it is iff hash and fingerprint are those of the row; otherwise the replica's row becomes the update's record |
| Divergences.LegacyMarkBreaksIdempotence | src/hotmem/events.py:2005-2016 | a target with a dedupe marker and a range of two events, not from one source, that replays once and raises the second time |
| CrossReplay.ArrivesExactly | src/hotmem/events.py:1207-1228 | a replica that holds all of one namespace replays with an accepted cursor of any scope iff the window is of event types the cursor names and, outside that namespace, portable and closed: it changes only records it creates; then the replica holds its namespace and exactly the others' records created after the cursor |
| CrossReplay.CompleteExactlyWhen | src/hotmem/events.py:1207-1228 | the replay succeeds and leaves the source's state of both scopes iff in addition the source wrote nothing outside the namespace up to the cursor |
| CrossScope.StrangersStandAlone | src/hotmem/events.py:2617-2624 | what a source writes outside a namespace after a position is by itself a source's history, with that part of the tables, if it changes only records that it creates |
| Divergences.PartialCloneExample | src/hotmem/events.py:1207-1228 | a full-scope cursor on a single-namespace replica is accepted and saved, while a record live at the source stays missing |
| Database.MemoryDB.InsertManyIgnore | src/hotmem/db.py:1787-1803 | inserts what collides neither by id nor by index, counts it, and keeps the index unique |
| Database.MemoryDB.ReplaceMemoryRecord | src/hotmem/db.py:1805-1817 | replaces the row, reports a missing row, and fails on the index without change |
| Database.MemoryDB.DeleteMemoryRow | src/hotmem/db.py:1819-1824 | removes the row and says whether there was one |
| Database.MemoryDB.QueryEvents | src/hotmem/db.py:1577-1636 | the first events of a namespace after a position, in order |
| Database.MemoryDB.AppendEvent | src/hotmem/db.py:1551-1575 | appends to the log |
| Database.MemoryDB.AddMemory | src/hotmem/runtime.py:906-975 | a fresh row with its created event, or an event that names the row which holds the content already |
| Database.MemoryDB.UpdateMemoryRecord | src/hotmem/events.py:2992-3350 | the row change, watermark and event of an update, or its error without change |
| Database.MemoryDB.DeleteMemoryRecord | src/hotmem/events.py:3351-3478 | the row change, tombstone and event of a delete, or its error without change |
| Database.MemoryDB.TrimEventsBeforeSeq | src/hotmem/db.py:1700-1737 | the log and watermarks after a trim, and the number of removed events |
| Database.MemoryDB.TrimEventsByCount | src/hotmem/db.py:1739-1785 | the same for a trim by count |
| Database.MemoryDB.EventLogBounds | src/hotmem/db.py:1667-1698 | the head and trim watermarks of the log |
| Database.MemoryDB.EventAtSeq | src/hotmem/db.py:1638-1665 | finds the retained event of a sequence number, if there is one |
| Database.MemoryDB.ValidateCursor | src/hotmem/events.py:996-1188 | the first failing check of a cursor, in the code's order |
| Database.MemoryDB.FindUnsafe | src/hotmem/events.py:3548-3566 | whether a candidate is live or still named by a retained event |
| Database.MemoryDB.CompactTombstones | src/hotmem/events.py:3480-3579 | removes exactly the tombstones through the horizon and advances the watermark, or the error without change |
| LazyView.SameAnswer | src/hotmem/events.py:1487-2308 | on an event whose ids and pairs were fetched, the lazy and the fully loaded view give the same disposition or error |
| LazyView.SeesEffect | src/hotmem/events.py:2289-2301 | after a planned event the lazy view still agrees with the fully loaded one |
| LazyView.PlanState.Load | src/hotmem/events.py:1402-1484 | a page's rows, pairs, tombstones and watermarks are fetched without disturbing what the run has changed |
| LazyView.PlanState.LoadPairs | src/hotmem/events.py:1457-1474 | the holders of the pairs not asked for before are taken over unless the run touched them |
| LazyView.PlanState.Step | src/hotmem/events.py:1487-2308 | one event is decided and the four maps and run-sets change in place as the plan's effect says |
| LazyView.PlanState.StepCreated | src/hotmem/events.py:1880-1981 | the branches of a created event |
| LazyView.PlanState.StepUpdated | src/hotmem/events.py:1981-2148 | the branches of an updated event |
| LazyView.PlanState.StepDeleted | src/hotmem/events.py:2150-2308 | the branches of a deleted event |
| ReplayRun.FetchPage | src/hotmem/events.py:2617-2624 | the next page is the next stretch of what is in scope |
| ReplayRun.PlanWindow | src/hotmem/events.py:2609-2685 | planning page by page from lazily loaded state gives the dispositions or the error of planning the whole window on the whole target, and the counts, the last position, whether the end was reached, and the identities of the window if they are wanted |
| ReplayWrites.FlushCreated | src/hotmem/events.py:2776-2792 | a batch of planned creates inserts all of its rows and sets their watermarks |
| ReplayWrites.ExecuteEvent | src/hotmem/events.py:2795-2890 | with inserts pending, an event leaves the target where executing one at a time would, after flushing before updates and deletes |
| ReplayWrites.MarkPastPending | src/hotmem/events.py:2855-2870 | setting the watermark of an id that is not pending commutes with the pending inserts |
| ReplayWrites.CountsAddUp | src/hotmem/events.py:2902-2925 | applied, skipped and observed events add up to the events of the plan |
| ReplayWrites.ExecuteWindow | src/hotmem/events.py:2770-2901 | pass 2 over pages with batched inserts equals executing the dispositions one at a time |
| ReplayWrites.HasForeign | src/hotmem/events.py:2691-2697 | whether some row of the target is not among the window's identities |
| ReplayWrites.AcceptCursor | src/hotmem/events.py:1118-1256 | the first check of a cursor against source and target that fails, in the code's order: source, base, mount, bounded replay over unverified rows |
| ReplayWrites.RunAccepted | src/hotmem/events.py:2602-2925 | both passes together: the tables, checkpoint and report of a replay, or the planner's error or the refusal of foreign rows with nothing changed |
| ReplayWrites.ReplayWithCursor | src/hotmem/events.py:2508-2930 | the whole operation, with a cursor or without: every refusal, in order, changes nothing; otherwise the target becomes what the model's replay gives, applied and skipped count the plan's dispositions, and completed is true iff nothing in scope remains |
| Outbox.EveryRunHolds | src/hotmem/cli.py:805-890 | with any number of processes and a crash or lost reply anywhere: every queued event is pending or on the server, each key takes effect at most once, only rows whose event is on the server are about to be deleted, and no event took effect before an earlier one of its stream |
| Outbox.NextHolds | src/hotmem/cli.py:857-890 | every single step keeps these invariants |
| Outbox.RowsLeaveDelivered | src/hotmem/cli.py:884-889 | a row leaves the outbox only when its event is on the server |
| Outbox.AddIs | src/hotmem/mcp_server.py:744-806 | a saved reply means that the event is on the server, and the ledger stays one fact per key |
| Outbox.FactsHaveTheirOwnTimes | src/hotmem/cli.py:250-273 | no two delivered events of a stream carry the same time of observation |
| Outbox.HeadIsFirst | src/hotmem/cli.py:860-866 | the head is the oldest row of the stream |
| Outbox.TaskState.ObservedAt | src/hotmem/cli.py:250-273 | the stamp is not before the wall clock and is after every earlier stamp of the stream |
| Outbox.TaskState.Enqueue | src/hotmem/cli.py:816-839 | a new key is appended, the same event under a queued key is dropped, another event is refused |
| Outbox.TaskState.Flush | src/hotmem/cli.py:857-890 | what left the outbox is of the stream and on the server, the count is right, and a drained stream has no row left |
| Reducer.ReduceIgnoresRowOrder | src/hotmem/cli.py:525-552 | with times of observation on all events, any permutation of the rows gives the same result or error |
| Reducer.ClientsDoNotInterfere | src/hotmem/cli.py:553-668 | the reduced state is that of the Claude events alone followed by the last plan alone, and so are the remaining tasks |
| Reducer.PlayInParts | src/hotmem/cli.py:553-652 | a history plays iff its plans are valid and the Claude events play by themselves |
| Reducer.ClaudePositionsAreDistinct | src/hotmem/cli.py:602-628 | in every history ids are unique and Claude positions distinct |
| Reducer.ClaudePositionsAreStable | src/hotmem/cli.py:601-652 | no event moves a Claude task that it does not remove |
| Reducer.ProvisionedOnClaude | src/hotmem/cli.py:512-522 | aliases resolve to the same tasks with and without the Codex tasks |
| Reducer.ReplaceTasks | src/hotmem/cli.py:553-582 | a plan replaces the Codex tasks or is refused as a whole |
| Reducer.CheckTimes | src/hotmem/cli.py:541-545 | finds a repeated time of observation iff there is one |
| Reducer.ReduceRows | src/hotmem/cli.py:525-668 | the program's loops compute the reduction |
| Mmr.MaxSimIsGreatest | src/hotmem/rerank.py:260-264 | the naive term is the greatest similarity to a selected item, at least 0 |
| Mmr.Refresh | src/hotmem/rerank.py:280-289 | after computing only the similarities to the newest item, the cache is the naive maximum over all selected |
| Mmr.FindBest | src/hotmem/rerank.py:268-277 | the scan over the cache picks the best of the naive objective, ties by rank |
| Mmr.SelectPicksBest | src/hotmem/rerank.py:267-289 | each item is beaten by none of those not yet taken |
| Mmr.RerankedIsValid | src/hotmem/rerank.py:291-296 | for distinct ids the result always passes the output check |
| Mmr.RerankedIsStable | src/hotmem/rerank.py:224-296 | the result for top_k is a prefix of the result for top_k + 1 |
| Mmr.LambdaOneKeepsOrder | src/hotmem/rerank.py:236-296 | with lambda 1 score-sorted candidates keep their first-stage order |
| Mmr.ValidateRerankOutput | src/hotmem/rerank.py:323-349 | accepts iff the ids are distinct, known and of the expected number |
| Mmr.Rerank | src/hotmem/rerank.py:216-296 | the program computes the naive selection, filled up from the spill |
| Annotations.MergeItemsIsAssociative | src/hotmem/annotations.py:342-356 | merging item lists is associative, whatever the lists |
| Annotations.MergeAppendsNewIds | src/hotmem/annotations.py:342-356 | the target's items stay in front, followed by the incoming items with new ids in their order |
| Annotations.MergeKeepsUniqueIds | src/hotmem/annotations.py:342-356 | a merge keeps ids unique |
| Annotations.EveryItemIsAccountedFor | src/hotmem/annotations.py:343-356 | each incoming item is added, equal or a conflict, and the numbers add up |
| Annotations.NoItemIsLost | src/hotmem/annotations.py:350-356 | each incoming item is in the result or kept in a conflict |
| Annotations.MergeIsUnion | src/hotmem/annotations.py:314-376 | per namespace the left-biased union, and the right-biased union of the producers, also when no change is reported |
| Annotations.MergeIsAssociative | src/hotmem/annotations.py:314-376 | the same for whole envelopes |
| Annotations.SecondMergeChangesNothing | src/hotmem/annotations.py:358-363 | a second merge of the same input reports no change and the same conflicts |
| Annotations.MergedItemsIsGrowth | src/hotmem/annotations.py:345-349 | the reported number of merged items is what the envelope has grown by |
| Annotations.LimitsAreKept | src/hotmem/annotations.py:442-457 | no row within the limits is ever stored over them |
| Annotations.StoredItemsAreKept | src/hotmem/annotations.py:428-458 | no stored item is replaced or dropped and no row appears or goes |
| Annotations.AppendNew | src/hotmem/annotations.py:341-356 | the item loop computes the merge, the number added and the conflicts |
| Annotations.MergeAnnotations | src/hotmem/annotations.py:314-376 | the program computes the merge of envelopes |
| Annotations.HasUniqueIds | src/hotmem/annotations.py:249-257 | finds a repeated id iff there is one |
| Annotations.EnvelopeExceedsLimits | src/hotmem/annotations.py:179-197 | the check against bytes and items |
| Annotations.AnnotatedRows.MergeDuplicates | src/hotmem/annotations.py:383-458 | the loop over rows, with fetched copies that follow the writes, stores what merging one record after the other gives, and the two counters |
| Ndcg.SortDescSorts | scripts/retrieval_eval.py:188-188 | the ideal grades are a descending permutation |
| Ndcg.GreatestGradesSumMost | scripts/retrieval_eval.py:187-188 | distinct ids gather at most as much as the same number of greatest grades |
| Ndcg.Abel | scripts/retrieval_eval.py:179-182 | under decreasing discounts, a list whose every prefix sum is smaller has a smaller discounted sum, by at least the last discount times the difference |
| Ndcg.NdcgIsBounded | scripts/retrieval_eval.py:185-194 | nDCG of distinct ids lies between 0 and 1 |
| Ndcg.NdcgIsMissing | scripts/retrieval_eval.py:189-193 | there is no score iff all grades up to the cutoff are 0 |
| Ndcg.BestRankingScoresOne | scripts/retrieval_eval.py:185-194 | the ranking by descending grade scores 1 |
| Ndcg.BoundedExactlyWhen | scripts/retrieval_eval.py:185-194 | for which numbers of ranked and judged ids and which cutoffs the bound holds for all inputs |
| Ndcg.RepeatedIdsExceedOne | scripts/retrieval_eval.py:187-194 | a ranking that repeats an id scores more than 1 |
| Ndcg.RecallIsBounded | scripts/retrieval_eval.py:149-160 | recall of distinct ids lies between 0 and 1, and is 1 iff every relevant id is within the cutoff |
| Scanner.SplitIsTheOnlySplit | bench/native_spike/py_baseline.py:113-123 | cutting at newlines is the only way to cut a text into finished lines and at most one unfinished last line |
| Scanner.ReportIsExact | bench/native_spike/py_baseline.py:116-121 | a report counts the non-blank lines and samples, in order, exactly those among the first lines |
| Scanner.SpansCutLines | bench/native_spike/py_baseline.py:119-120 | a reported span cuts its line out of the text |
| Scanner.ScanBuffer | bench/native_spike/py_baseline.py:113-124 | the lines that end inside the buffer are reported at their places in the file, and what is left has no newline |
| Scanner.ScanOnly | bench/native_spike/py_baseline.py:89-127 | however the file is read in chunks, the report is that of its lines |
| CursorCodec.MakeIsIdempotent | src/hotmem/events.py:249-337 | making a cursor from a cursor's fields gives the same cursor: sorting, stripping and removing repetitions are idempotent |
| CursorCodec.RoundTripExactlyWithinLimit | src/hotmem/events.py:367-543 | a cursor that can be made, and whose JSON text is read back as written, is read back from its token iff the token is within the size limit |
| CursorCodec.LongCursorIsRefused | src/hotmem/events.py:444-450 | a cursor with 256 event types of 128 characters outside ASCII can be made, and its token is refused, if JSON text spends six bytes on each such character |
| CursorCodec.LongCursorsAreRefused | src/hotmem/events.py:444-450 | any cursor with a JSON text of 48 KiB or more encodes to a token that decoding refuses |
| CursorCodec.TokensIdentifyCursors | src/hotmem/events.py:367-377 | distinct cursors whose JSON texts are read back as written have distinct tokens |
| Base64.UnpaddedRoundTrip | src/hotmem/events.py:373-373 | bytes come back from unpadded URL-safe base64, padded again by length |

## Left out

- Payloads before version 1: the fingerprint-free create payloads and the run-sets that relax checks for them. Dedupe markers that they leave on a target are modelled.
- Resets of a history (`replace_history`), forks and base snapshots: one history per run, and a cursor's base is the target's checkpoint or the start of the log.
- ReplayWrites.ReplayWithCursor: the target has no event log of its own and was not opened from a mount, so that it is bound to a mount exactly if it has a checkpoint; cursors of earlier versions and requested event types are not modelled.
- Replication.OwnIsNotGuarded: the comparison of lineages with a bound target is not modelled; a target that changes only by replay is a clean clone of its source, which that comparison accepts.
- `apply_event_range` and `replay` without a cursor; they run the same planner and writer.
- SHA-256, record fingerprints, record validation and accepted hashes are fields of a record. `History.Emitted` takes an update to be one whose fingerprint determines the portable columns (`History.Covered`), and fresh event ids and larger sequence numbers are required of the caller (`Sources.Usable`).
- JSON text, timestamps as text, embeddings, tags, TTL, metadata columns: a record's other columns are one opaque value.
- Database.MemoryDB.UpdateMemoryRecord: the operation ledger (retry by idempotency key) is not modelled; the optional signal event is a separate call (`Sources.SignalOp`).
- Database.MemoryDB.DeleteMemoryRecord: the operation ledger is not modelled.
- Database.MemoryDB.ValidateCursor: base snapshots, legacy histories and requested event types are not modelled.
- SQLite: transactions are all-or-nothing by construction; the rollback itself, triggers, WAL, locks and full-text search are not modelled.
- Database.MemoryDB.CompactTombstones: the two errors for live and logged candidates are one, `UnsafeCandidate`.
- Database.MemoryDB.QueryEvents: filters by id, type and time, and descending order are not modelled; replay does not use them.
- Database.MemoryDB.AddMemory: takes the record as inserted; what computes its hash and embedding is not modelled, and the payload of an event is the record and a few named fields.
- Outbox.EveryRunHolds: the outbox file and the clock table survive crashes, requests are equal iff their hashes are, a row id is never used again, and the server never drops a fact; several outbox files for one task list are not modelled.
- Outbox.AddIs: the server stores a new key's request as its own fact; that it keeps one memory for requests of equal content under different keys is not modelled, as the delivered events of a stream differ in their time of observation.
- Outbox.TaskState.Flush: ends after a failed request as the code raises; what the caller prints is not modelled.
- Reducer.ReduceRows: rows that are not well-formed JSON of the expected format are refused before reduction; that check and texts of errors are not modelled. Digits, dates and truncation of the recall context are left out.
- Reducer.ClientsDoNotInterfere: takes task ids with the prefixes that the two event builders give them.
- Mmr.Rerank: the similarity is any real function of two ids and scores are reals, so floating-point rounding is not modelled.
- Mmr.FindBest: the third key, the id, is not compared, since equal ranks mean equal ids (`Mmr.PlacesIdentify`).
- Annotations.MergeAnnotations: unknown top-level keys are not modelled, and the sorted order of namespaces is any order that lists each once.
- Annotations.EnvelopeExceedsLimits: the length of the serialized envelope is a parameter.
- Ndcg.NdcgIsBounded: over reals, for any positive decreasing discounts in place of 1/log2(rank + 1), and for grades that are not negative, as the fixture loader requires.
- CursorCodec.RoundTripExactlyWithinLimit: JSON text and the checksum are parameters; the text of the cursor at hand is assumed to be read back as written, and digests to be hexadecimal. Field names are an enumeration, error texts are left out.
- Base64.UnpaddedRoundTrip: characters outside the alphabet are refused, where Python skips them.
- HTTP and MCP servers, the command line, configuration, lifecycle transitions, hygiene thresholds, hydration, bundles, benchmarks: plumbing or easy members.
