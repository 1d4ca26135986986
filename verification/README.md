# A verified model of the routing gateway

The gateway routes chat requests to upstream models. It keeps durable state: configuration files
replaced under a recovery journal, a session table, a continuation cache backed by a record store,
and routing policies that live in documents. This project models the parts of it whose guarantees
span many operations, threads or whole runs, and proves those guarantees for all inputs.

`dafny verify dfyconfig.toml` checks everything.

## What is modelled

- `ConfigTransaction.dfy`, `ConfigLock.dfy`: replacing several files under a recovery journal. Each
  file operation may succeed, fail before or after its effect, or be the last thing the process does;
  threads and processes take turns under the reentrant lock with its reader gate.
- `Continuations.dfy`, `Replay.dfy`, `Capture.dfy`: the per-session protocol that loads durable
  history while other threads save, the matcher that pairs replayed messages with saved records, and
  the accumulation of a streamed answer whose key the replay must have.
- `RecordWriter.dfy`, `Paging.dfy`, `SessionPages.dfy`: the single-writer queue with failure and
  close, and keyset pages read while rows come and go, or move.
- `Catalogs.dfy`, `Selection.dfy`, `Strategies.dfy`, `Matrix.dfy`, `Sessions.dfy`, `Engine.dfy`,
  `Readiness.dfy`: choosing a model, deciding a turn, writing the decision into the bounded session
  table, and runs of all of these, with outcomes interleaved.
- `Routes.dfy`, `Served.dfy`, `Prices.dfy`, `QualityMoves.dfy`, `MatrixRoutes.dfy`, `Histories.dfy`: where
  a turn leads, what it is served with, what the orderings mean in tokens and prices, which way a
  quality reason moves a session, which rule a matrix follows, and what the fields of a session
  amount to over its history.
- `Eviction.dfy`, `Expiry.dfy`, `Intakes.dfy`: which sessions stay in that table, when they expire and
  which arrivals they know of, exactly, and over runs.
- `HardMoves.dfy`, `HardMoveCases.dfy`, `Pins.dfy`, `Gaps.dfy`, `FreshManual.dfy`: when a hard
  requirement moves a session and what the move achieves, when a pin holds, and whom a named model
  serves: exactly, and over runs.
- `PolicyText.dfy`, `PolicyRules.dfy`, `Reprint.dfy`, `Reparse.dfy`, `SameMeaning.dfy`, `LostInPrint.dfy`, `Overlay.dfy`,
  `Migration.dfy`, `Workflows.dfy`, `MigrationRuns.dfy`, `Reconcile.dfy`: policies as documents.
  Printing, parsing with inheritance, exactly which documents are accepted and as what, the version 2 merge, the migration that gives legacy strategies
  an explicit selection, from the old catalog to the reloaded one, and forgetting removed models.
- `ProviderConfig.dfy`: revision tokens and the commands they guard.
- `Publication.dfy`: when a configuration version is published, and configuration commands as a whole.
- `StreamOutcome.dfy`: the one outcome of a streamed response.

State machines are functions `Do` of one atomic event; a run is any sequence of events. Where the
code changes fields in place, a class does the same and each of its methods is proved to perform the
events of the state machine, or to compute the specification function the lemmas are about.

## What turned out false, and what holds instead

- The journal is keyed by bare file name, so two targets with the same name in different directories
  can lose one content: `JournalFaithfulIff`, `JournalCanCollide`.
- A transaction that activates a catalog without a callback to put the old one back is not all or
  nothing: `AllOrNothingIff`.
- If an operation raises something that is not an `Exception`, such as `SystemExit`, which the
  worker's `except Exception` lets through, the writer thread dies of it. Whoever waits on that
  operation, on one queued behind it, or in a close, then waits for ever; everybody is answered
  exactly when nobody does:
  `AllAnsweredIff`, `DeathStrandsWaiters`, `WorkerCanDie`. And a second close returns while the first
  is still draining: `SecondCloseReturnsEarly`, `JoinedCloseIsDrained`.
- The session listings are ordered by a key that moves. A session present throughout is returned once
  for each time its key fell below a cursor, plus one, less the times it jumped over one:
  `ReturnedOnceIff`. A retained session, whose newest request goes last when requests are pruned, can
  only be skipped; a live one, which loses its place with its last retained request, can be repeated:
  `RetainedSessionOnceIff`, `SessionIsSkipped`, `SessionIsRepeated`.
- The retained-session listing compares its clamped fetch with the raw limit: `SaysMoreIff`.
- A session just created can be evicted by its own creation. The stamp is read before the store's lock
  is taken, so that another session may carry a newer one although the clock never ran backwards; it
  stays exactly when fewer sessions than the bound do: `CreationSurvivesIff`, `LateStampIsEvicted`,
  `AtomicCreationSurvives`.
- A session's first request time is the earliest arrival since its key last became pending, which is
  not the first of all when an entry was dropped in between: `CreationGetsLeastSince`,
  `FirstArrivalReachesSessionIff`, `ForgottenArrival`.
- Naming the session's current model is the same as naming none, so in the mode that reroutes every
  turn it serves exactly when it comes first for the request's label: `ManualCurrentIsAutomatic`,
  `FreshManualIff`, `NamedModelDoesNotServe`.
- The session table's expiry clock and the stamps it is compared with come from two clocks. Over any
  run a session is dropped exactly when it was last written longer ago than the configured time, less
  the difference of the two, so that expiry is exact if and only if they agree:
  `ExpiredAfterIdleAndSkew`, `ExpiryIsExactIffSameClock`.
- A pinned session whose model can serve the request in full can be moved all the same, or refused.
  A request that fills more of the window than the pressure ratio allows counts as a hard reason. If
  the pin lists that reason, the session moves exactly when the model that leads without its own has a
  larger window, and the turn is refused when no other model is left: `PinnedTurnIff`, `ServedTurnStaysIff`, `ServedPinMoves`,
  `ServedPinIsRefused`, and over runs `PinHoldsOverRunsIff`.
- A hard move need not help. Under pressure only the first other model is asked, so that one with
  a smaller window hides a larger one behind it; and the move can cost a capability, or, for an output
  limit, the context: `PressureMoveHoldsIff`, `OutputMoveServesIff`, `PressureIsNotRelieved`,
  `PressureMoveLosesSupport`, `OutputMoveLosesContext`.
- A move over a capability gap ends on a model that supports the request exactly when another
  eligible model does. When none does, a session moves all the same, on every turn and outside every
  switch limit: `GapMoveHelpsIff`, `GapMoveAtDefaultIff`, `GapMovesEveryTurn`, `GapAlternates`, with an
  instance in `GapsAreReachable` and `GapMoveWithoutHelp`.
- A merge prints every strategy, also those it leaves alone. One that inherits an explicitly empty
  label or a label whose default tag is malformed, or has an empty id in a legacy list, was accepted
  and is refused once printed. The whole merged document is refused with it, and a reload falls back
  to the baseline: `ReprintParsesIff`, `MergedAcceptedIff`, `Reload`, with one accepted document for
  each in `EmptyPoolIsRefused`, `MalformedTagIsRefused` and `EmptyIdIsRefused`, and a merge in
  `EmptyPoolRefusesMerge`. The only thing that changes silently is an inherited default tag with space
  around it, which loses the space: `UntouchedIff`, `SpacedTagSilentlyChanges`.
- The documents a migration writes are refused for the first two of these reasons:
  `WorkflowReadsBackIff`, `MigratedAcceptedIff`, `MigrationIsRefused`.
- Migration takes the default model away from a reachable label whose members are all disabled,
  unless another reachable label refers to that model: `EmptyPoolKeptIff`, `DisabledMembersLoseTheDefault`.
- A catalog reloaded in an inner publication scope that is left by a caught exception serves
  unpublished: `UpToDateIff`, `CaughtReloadIsNotPublished`.
- A configuration command can fail with everything new. Its reply reads the files once more after the
  transaction; when that raises, files and catalog are both new and the catalog serves unpublished:
  `FailedCommandLeavesOldIff`, `CommandUpToDateIff`, `AppliedCommandCanFail`.
- A streamed response whose cleanup is itself cancelled can end without an outcome. The cleanup is
  shielded from cancel scopes, so what gets through is a native cancellation of the asyncio task or
  another exception outside `Exception`: `EscapeLosesOutcomeIff`, `OutcomeCanBeLost`.
- A writer that ignores the lock can slip a change and its reversal between a command's two revision
  checks. A command was computed from the state its token names exactly when the files carried that
  token as they were read: `ComputedFromNamedStateIff`, `TamperedReadGoesUnnoticed`.

## Model

| member | source | states |
|---|---|---|
| ConfigTransaction.EveryStopIsRecoverable | jev_gateway/config_transaction.py:96-145 | wherever a transaction fails or the process stops: without a journal the files are all old or all new, with one writing it back gives exactly the old files |
| ConfigTransaction.AllOrNothingIff | jev_gateway/config_transaction.py:111-145 | every ending leaves disk and runtime both new or, unless recovery failed, both old, exactly when the activation of another catalog comes with a restore callback |
| ConfigTransaction.JournalFaithfulIff | jev_gateway/config_transaction.py:108-110 | the journal keeps every target's old content exactly when targets sharing a bare name had the same content |
| ConfigTransaction.JournalCanCollide | jev_gateway/config_transaction.py:108-110 | two directories with one file name between them lose a content |
| ConfigTransaction.RepairRestoresOld | jev_gateway/config_transaction.py:108-110 | a faithful journal written over any later state of the targets gives back the old files |
| ConfigTransaction.StepKeepsInvariant | jev_gateway/config_transaction.py:96-145 | every operation, however it fails, keeps: a journal holding the old contents while targets may differ, the replaced prefix, the restored prefix, nothing else touched |
| ConfigTransaction.ExecutionKeepsInvariant | jev_gateway/config_transaction.py:96-145 | and so does every run of operations |
| ConfigTransaction.ConfigurationDirectory.AtomicBytes | jev_gateway/config_transaction.py:40-64 | one file replaced or removed: a replacement may raise before or after it is visible, an unlink only without effect |
| ConfigTransaction.ConfigurationDirectory.ReplaceAll | jev_gateway/config_transaction.py:112-114 | the replacement loop stops at the first operation that raises |
| ConfigTransaction.ConfigurationDirectory.ActivateAndCommit | jev_gateway/config_transaction.py:115-126 | activation, then removal of the journal |
| ConfigTransaction.ConfigurationDirectory.RestoreAll | jev_gateway/config_transaction.py:127-138 | the rollback tries every target and remembers whether any failed |
| ConfigTransaction.ConfigurationDirectory.RollBack | jev_gateway/config_transaction.py:127-145 | files, runtime, then the journal, which is kept when anything could not be restored |
| ConfigTransaction.ConfigurationDirectory.ReplaceConfiguration | jev_gateway/config_transaction.py:96-145 | the in-place transaction follows the step system for the faults it meets and ends where that ends |
| ConfigLock.ReaderSeesOneConfiguration | jev_gateway/config_transaction.py:25-37 | a reader the gate admits sees exactly the committed configuration, in every interleaving of threads, processes and crashes |
| ConfigLock.AdmittedReadsAreAnswered | jev_gateway/config_transaction.py:25-37 | inside the lock the gate admits a reader exactly when there is no journal, and its read returns the committed content |
| ConfigLock.DirectoryIsAlwaysRecoverable | jev_gateway/config_transaction.py:74-145 | at every point the directory is the committed configuration or its journal restores it |
| ConfigLock.LockIsExclusive | jev_gateway/config_transaction.py:74-93 | no two threads are inside the lock, reentrance aside |
| ConfigLock.SectionIsUndone | jev_gateway/config_transaction.py:74-93 | a thread that finds both locks free gets them, and gives them back after its section, after a file lock it could not take, and when its process dies |
| ConfigLock.NestIsUndone | jev_gateway/config_transaction.py:74-93 | the lock is reentrant: leaving an inner section gives back what entering it found, the lock still held |
| ConfigLock.CommitsAreWhole | jev_gateway/config_transaction.py:96-145 | the committed configuration only moves by one thread's whole change |
| ConfigLock.ActivationSeesOnlyNew | jev_gateway/config_transaction.py:115-125 | whatever is read inside the activation callback is the new configuration, although the journal of the old one is still there |
| ConfigLock.EventKeepsSafe | jev_gateway/config_transaction.py:25-145 | every event of every thread and process keeps the directory safe |
| Continuations.HydratesAtMostOnce | jev_gateway/provider/base.py:89-140 | however threads interleave, durable history is loaded at most once per session object |
| Continuations.NoConcurrentSaveIsLost | jev_gateway/provider/base.py:89-197 | the in-memory list is the loaded history followed by all saves in order, cut to the limit: none lost, repeated or reordered |
| Continuations.MemoryAgreesWithRows | jev_gateway/provider/base.py:143-197 | with the queue drained and nothing rejected, memory equals the durable rows, the last L of all saves |
| Continuations.EventKeepsInvariant | jev_gateway/provider/base.py:89-197 | every atomic event of loaders, savers and the writer keeps the protocol's invariant |
| Continuations.ContinuationCache.BeginHydrate | jev_gateway/provider/base.py:89-112 | who loads, who waits and who returns |
| Continuations.ContinuationCache.FinishHydrate | jev_gateway/provider/base.py:113-140 | loaded history is merged in front of the saves made meanwhile, which are then persisted |
| Continuations.ContinuationCache.PersistAll | jev_gateway/provider/base.py:135-157 | all pending saves are submitted in order; one that is rejected is skipped and the rest go on |
| Continuations.ContinuationCache.Save | jev_gateway/provider/base.py:160-197 | a save joins the list, cut to the limit, and is submitted unless history is still loading |
| Continuations.ContinuationCache.ApplyOldest | jev_gateway/records.py:1363-1379 | the writer inserts one row and prunes the session to its newest L |
| Replay.AssistantContinuations | jev_gateway/provider/base.py:200-232 | the per-key loops compute the reference matching |
| Replay.GroupByKey | jev_gateway/provider/base.py:206-222 | one pass builds the table of positions by key |
| Replay.GroupedHolds | jev_gateway/provider/base.py:206-222 | that table holds exactly the positions of every key |
| Replay.MatchKey | jev_gateway/provider/base.py:222-231 | one key's newest occurrences are paired from the end |
| Replay.MatchingIsUnique | jev_gateway/provider/base.py:200-232 | the reference determines the matching |
| Replay.MatchingKeepsOrder | jev_gateway/provider/base.py:200-232 | the matching is injective and keeps order within a key |
| Replay.MatchesNewestOccurrences | jev_gateway/provider/base.py:200-232 | each key is matched min(occurrences, saved) times, on the newest of both sides |
| Replay.MatchingIsRightAlignmentIff | jev_gateway/provider/base.py:200-232 | per-key matching equals positional right alignment, duplicates included, exactly when the overlapping keys agree |
| Capture.ResponseCapture.Observe | jev_gateway/provider/base.py:261-277 | the fields are always what the deltas seen so far amount to; whole messages are saved at once |
| Capture.ResponseCapture.Finish | jev_gateway/provider/base.py:279-285 | a response leaves its whole messages behind, or what its deltas make up if it had none, as far as they have keys |
| Capture.GivenIsSaved | jev_gateway/provider/base.py:261-306 | a replay of any message the client was given has the key of a saved one, and nothing else is saved |
| Capture.ResponseCapture.ObserveToolCalls | jev_gateway/provider/base.py:318-335 | fragments are joined call by call under their index, or their position |
| Capture.PiecesCommute | jev_gateway/provider/base.py:318-335 | interleaving pieces of different calls makes no difference |
| Capture.PieceCanBeCut | jev_gateway/provider/base.py:235-240 | neither does cutting a piece in two anywhere |
| Capture.StreamedReplayIsRecognised | jev_gateway/provider/base.py:49-71 | however an answer was chunked and however a client spells it back, the keys agree; there is a key exactly when there was text or a tool call |
| Capture.KeysEqualIff | jev_gateway/provider/base.py:49-71 | two answers share a key exactly when they are the same, but for how a turn of tool calls spells that it has no content |
| RecordWriter.AppliedIsPrefix | jev_gateway/records.py:1550-1590 | applied operations are, in acceptance order, a prefix of the accepted ones |
| RecordWriter.NothingAppliedAfterFailure | jev_gateway/records.py:1565-1580 | after the first failure nothing is applied any more |
| RecordWriter.NothingBehindSentinel | jev_gateway/records.py:1592-1605 | nothing is ever queued behind the close sentinel |
| RecordWriter.AnswersAreTrue | jev_gateway/records.py:1561-1583 | every awaited result is resolved at most once; whoever waits on an operation that was applied has been given its value, and whoever else was answered an error |
| RecordWriter.ErrorsFollowTheRaise | jev_gateway/records.py:1566-1581 | an answer is an error exactly when the operation waited on raised or was accepted after the one that did |
| RecordWriter.RaiseIsFinal | jev_gateway/records.py:1571-1577 | once an operation has raised, everything accepted before it has been applied, and neither it nor anything behind it ever is |
| RecordWriter.FailureWasRaised | jev_gateway/records.py:1571-1577 | and a store has failed only when an operation raised |
| RecordWriter.ErrorIff | jev_gateway/records.py:1572-1590 | the error a closer is told of is there exactly when an operation's exception was handled or the table could not be closed |
| RecordWriter.CloseDrainsEverything | jev_gateway/records.py:1561-1590 | a worker that left on the sentinel has taken every accepted operation off the queue and answered everybody |
| RecordWriter.JoinedCloseIsDrained | jev_gateway/records.py:1717-1728 | the close that put the sentinel returns only once that is so |
| RecordWriter.SecondCloseReturnsEarly | jev_gateway/records.py:1717-1720 | a second close returns at once, whatever is still queued |
| RecordWriter.AllAnsweredIff | jev_gateway/records.py:1561-1590 | once the worker is gone, all who waited are answered exactly when it left on the sentinel or nobody waited on the operation that killed it or on anything behind it |
| RecordWriter.DeathStrandsWaiters | jev_gateway/records.py:1561-1590 | once the worker has died, no later run answers the operation that killed it, anything queued behind it, or a closer |
| RecordWriter.WorkerCanDie | jev_gateway/records.py:1572-1580 | an exception outside the handled ones ends the worker |
| RecordWriter.EventKeepsInvariant | jev_gateway/records.py:1550-1605 | every event of producers, closer and worker keeps the queue's invariant |
| RecordWriter.RecordStore.Submit | jev_gateway/records.py:1592-1605 | a producer is refused when closed, failed, dead or full, and else appended |
| RecordWriter.RecordStore.Serve | jev_gateway/records.py:1560-1583 | one turn of the worker's loop is a take, the operation and the publication of its error, or the worker's death |
| RecordWriter.RecordStore.Drain | jev_gateway/records.py:1560-1590 | after closing began the loop ends at the sentinel with everybody answered, or where an exception kills it with exactly those before answered |
| Paging.EveryStableRowOnce | jev_gateway/records.py:1225-1271 | under any inserts and deletes between pages, a request row present throughout, whose key never changes, is returned exactly once, later rows first and greater ids first among rows of one time |
| SessionPages.ReturnsAreConserved | jev_gateway/records.py:1273-1306 | at any point of a walk, the times a row whose key moves was returned, and whether it is still to come, add up to one, more for each fall below a cursor and less for each jump over one |
| SessionPages.ReturnedOnceIff | jev_gateway/records.py:1273-1306 | under any changes between pages, a session present throughout is returned exactly once if and only if its key fell as often as it jumped |
| SessionPages.RetainedKeyRisesOverHistory | jev_gateway/records.py:1491-1498 | inserts and pruning, which drops the oldest requests first, never lower the key of a retained session |
| SessionPages.RetainedSessionOnceIff | jev_gateway/records.py:1273-1306 | so a retained session is never returned twice, and once exactly when no request moved it over the cursor |
| SessionPages.SessionIsSkipped | jev_gateway/records.py:1273-1306 | a walk that returns a session present throughout not at all |
| SessionPages.SkippedByARequest | jev_gateway/records.py:1273-1306 | the two tables of that walk are the retained sessions before and after one request |
| SessionPages.SessionIsRepeated | jev_gateway/dashboard.py:460-476 | a walk over the live sessions that returns one of them twice, when its only request was pruned meanwhile |
| Paging.UnchangedTableIsListedWhole | jev_gateway/dashboard.py:515-541 | over an unchanged table the pages are exactly its rows in descending order |
| Paging.PageIsTop | jev_gateway/records.py:1225-1271 | a page holds the greatest rows below the cursor, and says whether more follow |
| Paging.SaysMoreIff | jev_gateway/records.py:1273-1306 | the listing's has-more flag is right for every table exactly for limits 1 to 100 |
| Sessions.OperationsKeepValid | jev_gateway/sessions.py:102-192 | after every sequence of store operations both tables are within their bound, the two pending maps have equal keys disjoint from live sessions, and keys equal session ids |
| Sessions.OperationKeepsValid | jev_gateway/sessions.py:102-251 | and after every single operation |
| Sessions.EvictsTheOldest | jev_gateway/sessions.py:258-262 | eviction removes exactly the overflow, and nothing that stays is older than anything that goes |
| Sessions.NewestSurvives | jev_gateway/sessions.py:258-262 | the entry last in order and not older than any other outlives all of them |
| Eviction.KeptIff | jev_gateway/sessions.py:258-262 | eviction keeps a session exactly when fewer sessions than there is room for are newer, or as old and behind it |
| Eviction.MutatedExactly | jev_gateway/sessions.py:158-181 | after a mutation every session is what it was or what was written, exactly as long as its rank is within the bound, the written one included, and gone otherwise |
| Eviction.CreatedSurvivesIff | jev_gateway/sessions.py:158-181 | a session just created is still there exactly when fewer sessions than the bound carry a newer stamp |
| Eviction.StampsFollowTheClock | jev_gateway/decision.py:711-716 | over every run of threads that read one clock that never runs backwards and write later, no stamp is newer than the clock |
| Eviction.CreationSurvivesIff | jev_gateway/decision.py:711-764 | in such a run a creation survives exactly when fewer sessions than the bound carry a stamp newer than the one its thread had read |
| Eviction.AtomicCreationSurvives | jev_gateway/decision.py:711-764 | and always when the clock did not move between the reading and the write |
| Eviction.LateStampIsEvicted | jev_gateway/decision.py:493-494 | a run in which an outcome stamped in between makes a creation evict its own session |
| Intakes.CreationGetsLeastSince | jev_gateway/sessions.py:102-181 | over any store operations, a created session gets the least arrival noted since its key last became pending, and none when the key is pending no more |
| Intakes.FirstArrivalReachesSessionIff | jev_gateway/sessions.py:102-181 | of arrivals in increasing order it gets the very first exactly when the key stayed pending from then on |
| Intakes.ForgottenArrival | jev_gateway/sessions.py:102-124 | two arrivals, the first grown too old: the session knows only the second |
| Sessions.MutatedLookup | jev_gateway/sessions.py:158-181 | a mutation changes no other session, and writes the updated or created one if that is still there |
| Expiry.StampIsLastWritten | jev_gateway/sessions.py:126-192 | over every run of store operations a session carries the time it was last written, by the stamping clock |
| Expiry.ExpiredAfterIdleAndSkew | jev_gateway/sessions.py:205-256 | pruning and lookups drop a session exactly when it was last written longer ago than the TTL, less the difference of the clocks |
| Expiry.ExpiryIsExactIffSameClock | jev_gateway/sessions.py:255-256 | a session expires exactly when it was last written longer ago than the TTL, over all runs, if and only if the stamping clock and the table clock agree |
| Sessions.MemorySessionStore.RecordIntake | jev_gateway/sessions.py:102-124 | the in-place operation computes its specification |
| Sessions.MemorySessionStore.Mutate | jev_gateway/sessions.py:158-181 | update or create under the lock, then prune and evict |
| Sessions.MemorySessionStore.Put | jev_gateway/sessions.py:183-192 | storing a session removes its pending intake and makes room |
| Sessions.MemorySessionStore.Configure | jev_gateway/sessions.py:231-249 | new bounds prune and evict at once |
| Sessions.MemorySessionStore.EvictOverflow | jev_gateway/sessions.py:258-262 | the eviction loop |
| Sessions.MemorySessionStore.BoundIntake | jev_gateway/sessions.py:116-124 | the pending table's oldest candidates make room |
| Selection.SelectModel | jev_gateway/strategy/policy.py:397-456 | the nested loops over relaxation steps and pools compute the selection |
| Selection.SelectIsLeast | jev_gateway/strategy/policy.py:397-486 | the chosen model is the least by relaxation step, label pool before wide pool, policy key and pool position |
| Selection.NeverPassesOverBetter | jev_gateway/strategy/policy.py:425-442 | no eligible model serves the request better than the chosen one |
| Selection.LabelPoolFirst | jev_gateway/strategy/policy.py:425-442 | a label's own model is passed over only when it serves the request worse |
| Selection.SelectFailsIff | jev_gateway/strategy/policy.py:443-456 | with a non-empty label pool the trailing fallback can only raise, exactly when every eligible model is excluded |
| Selection.ChosenFits | jev_gateway/strategy/policy.py:425-442 | the chosen model serves the request as well as its step demands |
| Selection.QualityFirstPicksTheBest | jev_gateway/strategy/policy.py:458-486 | quality first: no candidate is better than the first, and none as good has a smaller priority number |
| Selection.CheapestPicksTheCheapest | jev_gateway/strategy/policy.py:458-486 | cheapest adequate: no candidate is cheaper by more than rounding, and of those that cost as much none has a smaller priority number |
| Prices.CheapestByPrice | jev_gateway/catalog.py:192-197 | the same in tokens and prices: conversation tokens at the input price and requested or default output tokens at the output price |
| Prices.DearerIsNotFirst | jev_gateway/strategy/policy.py:458-486 | of two models that differ in the price of the conversation only, the dearer is never first, once rounding tells them apart |
| Prices.SelectedIsFirst | jev_gateway/strategy/policy.py:425-442 | the model a selection ends on is the first of those admitted with it, so that this holds of it |
| Prices.BalancedByScore | jev_gateway/strategy/policy.py:458-486 | balanced: the first has the least rounded score, two fifths of its share of the greatest price less three fifths of its quality |
| Selection.BalancedRespectsDominance | jev_gateway/strategy/policy.py:458-486 | balanced: a candidate no dearer and no worse than the first equals it up to rounding |
| Strategies.HardMovesHelp | jev_gateway/strategy/policy.py:488-498 | a hard switch leads to a larger window or output limit, whichever was short; whether it helps the request is HardMoves |
| HardMoves.HardMoveIff | jev_gateway/strategy/policy.py:172-187 | a hard requirement moves a session to a model exactly when the mode lets it, that model leads its query, is another one and improves on what was short; the turn is refused exactly when nothing is left to ask |
| HardMoves.ContextMoveHoldsIff | jev_gateway/strategy/policy.py:299-322 | a session whose model cannot hold the context moves to one that holds the request exactly when some other eligible model does |
| HardMoves.OutputMoveServesIff | jev_gateway/strategy/policy.py:299-322 | one short of output moves to a model that serves the request in full exactly when some other eligible model does |
| HardMoves.PressureMoveHoldsIff | jev_gateway/strategy/policy.py:488-523 | one under pressure moves exactly when the first other model has a larger window, and to a model that holds the request exactly when, besides, some other eligible model supports it |
| HardMoveCases.PressureIsNotRelieved | jev_gateway/strategy/policy.py:488-498 | a session under pressure that stays, although a model far from pressure holds its request |
| HardMoveCases.PressureMoveLosesSupport | jev_gateway/strategy/policy.py:488-498 | a served session that is moved off its pin to a model without the tools it needs |
| HardMoveCases.OutputMoveLosesContext | jev_gateway/strategy/policy.py:488-498 | a session short of output that is moved to a model which cannot hold its request |
| Strategies.EscalationCandidate | jev_gateway/strategy/policy.py:265-297 | the climbing loop with its visited set computes the climb that QualityMoves describes, and ends |
| QualityMoves.FailuresMoveIff | jev_gateway/strategy/policy.py:324-341 | at the limit of failures, before any other quality reason, a turn that no hard requirement moves ends on the first model found from the session's own label upwards without its model, exactly when the reason is listed and the last switch long enough ago |
| QualityMoves.TruncationsMoveIff | jev_gateway/strategy/policy.py:324-341 | then, at the limit of truncations, on the first other model found from the next label upwards |
| QualityMoves.CostMovesIff | jev_gateway/strategy/policy.py:342-350 | then, at the cost limit and above the lowest label, on the first other model found from one label down |
| QualityMoves.QuietTurnStays | jev_gateway/strategy/policy.py:198-263 | with none of these the session stays, on its tier |
| QualityMoves.BlockedIff | jev_gateway/strategy/policy.py:352-363 | a turn is reported as blocked exactly when a reason was kept back by the last switch or by the number of switches, in a mode without pins |
| Strategies.DecisionTierKnown | jev_gateway/strategy/policy.py:73-157 | every committed tier is a configured label or "default" |
| Strategies.DecisionTier | jev_gateway/strategy/policy.py:535-568 | without a label named "default", the tier is "default" exactly when the decision is marked defaulted |
| Strategies.QualityMovesAreAllowed | jev_gateway/strategy/policy.py:189-245 | a failure-, truncation- or budget-driven switch only happens when the hysteresis rules allow it |
| Strategies.ManualModelServes | jev_gateway/strategy/policy.py:94-136 | a named model other than the session's serves the request |
| Strategies.ManualCurrentIsAutomatic | jev_gateway/strategy/policy.py:125-136 | naming the session's model is the same as naming none |
| Pins.PinnedTurnIff | jev_gateway/strategy/policy.py:204-248 | with only hard reasons listed and no other model named, a pinned turn moves exactly when a listed hard requirement is led by another model that improves on it, is refused exactly when such a requirement finds nothing left, and otherwise stays |
| Pins.ServedTurnStaysIff | jev_gateway/strategy/policy.py:204-322 | a pinned session whose model serves the request in full stays exactly when the request is within the pressure ratio of its window, or pressure is not listed, or the model that leads instead has no larger window |
| HardMoveCases.ServedPinMoves | jev_gateway/strategy/policy.py:299-322 | a request that the pinned model serves in full and that moves the session to a larger one |
| HardMoveCases.ServedPinIsRefused | jev_gateway/strategy/policy.py:221-229 | a request that the pinned model serves in full and that is refused, because it is the only model |
| Strategies.GapAlwaysMoves | jev_gateway/strategy/policy.py:488-498 | a capability gap moves the session whenever another eligible model is left |
| Gaps.GapMoveHelpsIff | jev_gateway/strategy/policy.py:488-498 | for a session whose label has a usable model, it moves exactly when another eligible model is left, and lands on one that supports the request exactly when some other eligible model does |
| Gaps.GapMoveAtDefaultIff | jev_gateway/strategy/policy.py:488-498 | for a session on the default tier, or whose label has no usable model, it moves exactly when the usable default is another model, and only to that one |
| Gaps.GapDecisionHelpsIff | jev_gateway/strategy/policy.py:189-245 | the same of the whole decision, in every mode that answers gaps |
| Matrix.ValidateRules | jev_gateway/strategy/matrix.py:160-224 | the validated rules are the given ones, and a document is refused exactly when some rule is bad |
| Matrix.ChoiceIff | jev_gateway/strategy/matrix.py:137-158 | a choice is accepted exactly when it has one name at most, a label of the strategy, and one of the three orderings; it is then that label, under either name, and that ordering |
| Matrix.MatchRules | jev_gateway/strategy/matrix.py:63-81 | the rule loop finds the first match of the checked answers and its number |
| Matrix.PickedLabelExists | jev_gateway/strategy/matrix.py:73-94 | whatever is answered, the label asked for is one of the strategy's own |
| MatrixRoutes.FirstRuleDecides | jev_gateway/strategy/matrix.py:70-93 | when the answers count, the matrix decides what the policy decides under the label and the ordering that the first rule whose conditions all hold picks |
| MatrixRoutes.NoRuleDecides | jev_gateway/strategy/matrix.py:70-93 | without such a rule, under the first label and the policy's own ordering |
| MatrixRoutes.FallbackDecides | jev_gateway/strategy/matrix.py:70-93 | and under the fallback when some question has none of its criteria for an answer |
| MatrixRoutes.MatrixIsPassedBy | jev_gateway/strategy/matrix.py:47-59 | a request that names a model, and a kept answer, pass the matrix by |
| MatrixRoutes.FirstRuleRoutesIff | jev_gateway/strategy/matrix.py:63-93 | so a turn that starts over ends on a model and a tier exactly when that is where the label of the first rule that holds leads |
| Engine.TiersOverRuns | jev_gateway/decision.py:711-764 | over every run, strategy changes included, each committed tier is a label or "default" of some configured strategy, and marked defaulted accordingly |
| Engine.QualitySwitchesAreBounded | jev_gateway/decision.py:728-743 | in any mode but the rerouting one, quality switches never exceed the session limit |
| Engine.SwitchesOverRuns | jev_gateway/strategy/policy.py:352-363 | and each comes at least the minimum turns and the cooldown after the previous switch of any kind, however outcomes interleave |
| Pins.PinHoldsOverRunsIff | jev_gateway/decision.py:728-764 | over every run, with outcomes interleaved, a pinned session keeps its route throughout exactly when at none of its turns a listed hard requirement is led by another model that improves on it |
| Pins.ServedPinHolds | jev_gateway/decision.py:728-764 | so a session whose requests are all served within the pressure ratio never leaves its route |
| Gaps.GapMovesEveryTurn | jev_gateway/strategy/policy.py:189-245 | over any run of turns whose requests no eligible model supports, a session of a plain or matrix strategy with no explicitly empty label, once on a label with a usable model and with another eligible model always left, changes model on every turn, in every mode that answers gaps, whatever is answered and whatever its hysteresis and limit |
| Gaps.GapAlternates | jev_gateway/strategy/policy.py:189-245 | with two eligible models it goes back and forth between them |
| Gaps.GapsAreReachable | jev_gateway/strategy/policy.py:488-498 | a gateway, a session and a request for which this happens |
| Gaps.GapMoveWithoutHelp | jev_gateway/strategy/policy.py:488-498 | and its first move, to a model that cannot serve the request either |
| FreshManual.SelectsIff | jev_gateway/strategy/policy.py:397-486 | a selection ends on a model exactly when, at the first relaxation step and pool that admit anything, it is admitted and least by policy key and position |
| Routes.FirstTurnIff | jev_gateway/strategy/policy.py:94-116 | an automatic turn that starts over ends on a model and a tier exactly when that is where the label it asks for leads: a model of its own pool as that label, one of the wide pool as the first label that serves it, or the default |
| Routes.FreshTurnIff | jev_gateway/strategy/policy.py:165-171 | and so does every automatic turn in the rerouting mode |
| Routes.DefaultIsMentionedIff | jev_gateway/strategy/policy.py:94-157 | a decision's reason mentions the global default exactly when the turn was sent there, and not merely kept there |
| Served.FirstTurnServesIff | jev_gateway/strategy/policy.py:397-456 | on a label with a usable model such a turn is always served: with the capabilities it needs, within window, and within output limit too, each exactly when some usable model could, in flags and tokens |
| FreshManual.FreshManualIff | jev_gateway/strategy/policy.py:125-170 | in the rerouting mode the named current model serves exactly when it comes first in that sense, or is the default where the label has no usable model |
| FreshManual.FreshManualCanMove | jev_gateway/strategy/policy.py:125-170 | with another fit model alone in the label's pool, that one serves |
| FreshManual.NamedModelDoesNotServe | jev_gateway/strategy/policy.py:125-170 | a request that names the session's model and is served by another |
| Engine.RoutingEngine.DecideAndPersist | jev_gateway/decision.py:255-329 | a decision from a snapshot of the session, written back through the store |
| Engine.RoutingEngine.RecordOutcome | jev_gateway/decision.py:430-495 | an outcome on a live session counts a failure or ends the count, counts, keeps or ends the count of truncations, adds its cost and stamps the session |
| Histories.SessionIsItsHistory | jev_gateway/decision.py:430-495 | over any history of the table: failures are the replies since the last success, truncations the successes cut off since the last complete one, cost the sum of all; route, tier and strategy are the last decision's, switches all that switched, and its log the newest forty entries |
| Histories.FirstDecisionIsSeen | jev_gateway/decision.py:711-764 | the session a first decision creates has that decision's route and nothing counted yet |
| Engine.StoreWriteIsAWrite | jev_gateway/decision.py:711-764 | seen from one session, a store write is the run's write followed at most by an eviction |
| Readiness.ReadyIff | jev_gateway/setup.py:26-35 | routing_ready is true exactly when every first-turn automatic request on every label gets a model |
| Readiness.ServedIffPool | jev_gateway/setup.py:26-35 | the projection's question about a label is whether its pool is empty |
| Readiness.ReadyMatrixRoutes | jev_gateway/setup.py:26-35 | a ready default matrix routes every first turn whatever its provider answers |
| PolicyText.RoundTripIff | jev_gateway/catalog.py:435-470 | printing a policy and reading it back under a base gives it back exactly when it is printable |
| PolicyText.LabelsRoundTripIff | jev_gateway/catalog.py:1273-1318 | a label collection reads back exactly when each label does |
| PolicyText.RouteRoundTripIff | jev_gateway/catalog.py:369-379 | a label's selector reads back exactly when it has not both models and tag, a proper tag and allowed lists |
| PolicyText.ReasoningRoundTripIff | jev_gateway/catalog.py:404-412 | the reasoning section reads back exactly when it leaves nothing for the base to fill in |
| PolicyText.EffortsRoundTripIff | jev_gateway/catalog.py:1206-1259 | an effort map reads back exactly when its levels are on the ladder |
| PolicyText.PrintedSelected | jev_gateway/catalog.py:1395-1401 | a selection reads back exactly when its ids are unique and not blank, and an absent one when the base has none |
| PolicyText.LabelsFromDict | jev_gateway/catalog.py:1273-1318 | one pass over the labels; the first bad one is reported |
| PolicyRules.PolicyIff | jev_gateway/catalog.py:1321-1488 | a document is accepted as a policy exactly when it keeps the rules written out key by key, every setting the document's or else the base's |
| PolicyRules.RefusedIff | jev_gateway/catalog.py:1321-1488 | and refused exactly when there is no such policy |
| PolicyRules.BuiltInSettings | jev_gateway/catalog.py:235-280 | without a base, what a document of labels leaves open is the built-in policy |
| Reprint.ReprintIff | jev_gateway/catalog.py:1321-1488 | a parsed strategy survives printing and parsing under its base exactly when its document inherits no explicitly empty or malformed label and lists no empty id |
| Reparse.PrintedParsesIff | jev_gateway/catalog.py:1273-1318 | a printed policy whose other parts are sound is accepted exactly when its labels are, and only the space around tags can change |
| Reparse.ReprintParsesIff | jev_gateway/catalog.py:1321-1488 | a parsed strategy, printed and parsed again, is refused exactly for an inherited empty label, a malformed default tag or an empty id, unchanged exactly when its document relies on nothing lost, and otherwise loses only the space around inherited tags |
| LostInPrint.EmptyPoolIsRefused | jev_gateway/catalog.py:1288-1298 | an accepted strategy that inherits an explicitly empty label is refused once printed |
| LostInPrint.MalformedTagIsRefused | jev_gateway/catalog.py:1298-1308 | so is one that inherits a label with a malformed default tag |
| LostInPrint.EmptyIdIsRefused | jev_gateway/catalog.py:1402-1437 | and one with an empty id in a legacy list |
| LostInPrint.EmptyPoolRefusesMerge | jev_gateway/routing_overlay.py:218-247 | a merge that changes nothing is refused because of one strategy it leaves alone |
| LostInPrint.SpacedTagSilentlyChanges | jev_gateway/catalog.py:1298-1301 | a merge that changes nothing is accepted and yet changes a strategy: its inherited tag has lost a space |
| Reprint.ParsedIsSound | jev_gateway/catalog.py:1321-1488 | whatever is parsed has a valid selection, reasoning section and budget |
| Reprint.LabelsPrintableIff | jev_gateway/catalog.py:1402-1437 | which parsed label collections are printable, by where the labels came from |
| Reprint.NormalPool | jev_gateway/strategy/policy.py:384-395 | a reprinted policy draws every label from the same pool |
| Reprint.ReprintedSelectsTheSame | jev_gateway/strategy/policy.py:397-456 | every selection under it is the same |
| SameMeaning.ReprintedDecidesTheSame | jev_gateway/strategy/policy.py:73-363 | and so is every decision on any turn of any session |
| Overlay.StrategiesFromDocument | jev_gateway/catalog.py:1719-1824 | the strategies of a document, or the first reason to refuse it |
| Overlay.GatherEach | jev_gateway/catalog.py:1764-1823 | one pass over the entries that stops at the first one refused |
| Overlay.MergeOverlay | jev_gateway/routing_overlay.py:212-254 | a merge succeeds exactly when deletions, workflows and model changes pass their checks; then workflows are installed, deleted names are gone, every other name keeps its printed body, and the changed models have their new tags and priorities |
| Overlay.TuneModels | jev_gateway/routing_overlay.py:248-253 | model changes fail exactly for an id that is not configured, and otherwise reach the last model of their id and no other |
| Overlay.DeleteStrategies | jev_gateway/routing_overlay.py:224-229 | deletions fail exactly for the default or an unknown name |
| Overlay.InstallWorkflows | jev_gateway/routing_overlay.py:231-246 | workflows replace or add their name when all of them pass |
| Overlay.DefinitionRoundTripIff | jev_gateway/catalog.py:526-535 | a strategy printed by a merge is refused, read back as itself or read back with trimmed tags, each exactly as its document relied on what printing loses |
| Overlay.MergedAcceptedIff | jev_gateway/routing_overlay.py:212-254 | a merged document is accepted exactly when something is left, every untouched strategy is accepted again and every workflow is accepted |
| Overlay.UntouchedIff | jev_gateway/routing_overlay.py:218-247 | an untouched strategy that would be refused takes the merged document with it; in an accepted one it is what it was exactly when nothing is lost, and otherwise has its inherited tags trimmed |
| Overlay.Reload | jev_gateway/routing_overlay.py:416-430 | parse, merge and parse again: the baseline is loaded instead exactly when the merge or the merged document is refused; otherwise every untouched strategy that loses nothing is there as it was |
| Migration.ReferencedModels | jev_gateway/routing_overlay.py:334-351 | the selection is the old one, or exactly the catalog's models that reachable labels refer to, in catalog order |
| Migration.PoolKept | jev_gateway/routing_overlay.py:334-366 | every reachable label keeps its pool, in order |
| Migration.LabelSelectionKept | jev_gateway/strategy/policy.py:425-442 | every selection that came from a reachable label's pool is unchanged |
| Migration.WidePoolShrinks | jev_gateway/strategy/policy.py:370-371 | the wide pool can only shrink |
| Migration.EmptyPoolKeptIff | jev_gateway/strategy/policy.py:411-424 | a reachable label with an empty pool is served as before exactly when there was no usable default or the strategy refers to it |
| Migration.MemberlessLabelKept | jev_gateway/routing_overlay.py:348-350 | a reachable label with no members still reaches the global default |
| Migration.DefaultKeptIff | jev_gateway/strategy/policy.py:373-382 | the default stays selectable exactly when the strategy refers to it |
| Migration.DisabledMembersLoseTheDefault | jev_gateway/routing_overlay.py:342-350 | a catalog in which a reachable label loses the default |
| Migration.MatrixAsksForReachable | jev_gateway/strategy/matrix.py:63-94 | whatever is answered, the label asked for is one the migration covers |
| Workflows.MigrateOverlay | jev_gateway/routing_overlay.py:354-366 | one workflow per matrix strategy, in catalog order |
| Workflows.MigrateDefinition | jev_gateway/routing_overlay.py:327-365 | the document written for a strategy is the printed migrated policy once its selection is put back |
| Workflows.EditPools | jev_gateway/routing_overlay.py:362-364 | editing printed pools is printing the filtered labels |
| Workflows.MigrationReadsBackIff | jev_gateway/routing_overlay.py:354-366 | that document, merged and parsed, is the migrated policy exactly when no label is inherited badly |
| Workflows.MigratedPoolsWithin | jev_gateway/routing_overlay.py:243-245 | a migrated workflow passes the merge's check of its pools |
| LostInPrint.MigrationIsRefused | jev_gateway/routing_overlay.py:354-366 | an accepted strategy whose migrated document is refused |
| MigrationRuns.WorkflowAcceptedIff | jev_gateway/routing_overlay.py:231-246 | the merge accepts a migrated workflow exactly when its name is free and its provider and old selection are configured |
| MigrationRuns.MigrationIsAccepted | jev_gateway/routing_overlay.py:354-366 | so the overlay a loaded catalog migrates to is well shaped and merges |
| MigrationRuns.WorkflowShapeIff | jev_gateway/routing_overlay.py:48-48 | the check made when an overlay is written, which knows no baseline, accepts a migrated policy exactly when the merge does, and reads the same policy |
| MigrationRuns.MigratedParsesIff | jev_gateway/routing_overlay.py:327-366 | a migrated policy is accepted under the baseline exactly when it inherits no empty or malformed label, and only its tags can change |
| MigrationRuns.WorkflowReadsBackIff | jev_gateway/routing_overlay.py:354-366 | an installed workflow is refused, the migrated strategy or that with trimmed tags, each exactly as a label is inherited badly |
| MigrationRuns.MigratedAcceptedIff | jev_gateway/routing_overlay.py:212-366 | the document that migration and merge produce is accepted exactly when every matrix inherits no empty or malformed label and every other strategy is accepted again |
| MigrationRuns.MigratedCatalogReloads | jev_gateway/routing_overlay.py:212-366 | if it is, it has the same default and holds, under every name, the migrated matrix or the strategy that was there, as it was exactly when nothing is lost and otherwise with trimmed tags, and nothing else |
| MigrationRuns.EveryStrategyStays | jev_gateway/routing_overlay.py:212-366 | and every strategy of the catalog has an entry in it |
| MigrationRuns.MatrixSelectsAsBefore | jev_gateway/strategy/policy.py:397-456 | under such a strategy every label a matrix can ask for has its old pool and its old selections from it, and with an empty pool the old selection exactly when there was no usable default or the strategy refers to it |
| MigrationRuns.OtherSelectsAsBefore | jev_gateway/strategy/policy.py:397-456 | any other strategy selects as before for every request |
| Reconcile.ReconcileOverlay | jev_gateway/routing_overlay.py:377-387 | the overlay forgets the removed models' changes, and every workflow forgets them in its selection and its pools |
| Reconcile.ReconciledIsAccepted | jev_gateway/routing_overlay.py:231-246 | a workflow accepted before is accepted in the smaller catalog |
| Reconcile.ReconciledOverlayIsAccepted | jev_gateway/routing_overlay.py:212-254 | and so is the whole overlay |
| Reconcile.ReconciledParses | jev_gateway/routing_overlay.py:377-387 | parsing an edited workflow gives the parsed policy without the removed models |
| Reconcile.InstalledIsCut | jev_gateway/routing_overlay.py:377-387 | and that edited document is what the merge installs for the reconciled workflow |
| Reconcile.ReconciledPool | jev_gateway/routing_overlay.py:377-387 | in the smaller catalog every label keeps its pool |
| ProviderConfig.Revision | jev_gateway/provider_config.py:67-74 | the running digest is the token of the four files |
| ProviderConfig.PreimageDecodes | jev_gateway/provider_config.py:70-73 | equal preimages come from equal files |
| ProviderConfig.ContentDecodes | jev_gateway/provider_config.py:73-73 | an encoded content, followed by anything, reads in one way only |
| ProviderConfig.LengthIsNotMissing | jev_gateway/provider_config.py:73-73 | a length prefix cannot spell "missing" for contents below 109 times 2 to the 56 bytes |
| ProviderConfig.TokenNamesOneState | jev_gateway/provider_config.py:67-74 | two states have the same token exactly when they are the same |
| ProviderConfig.AppliedToTheStateItsTokenNamed | jev_gateway/provider_config.py:215-217 | an applied command replaced exactly the files its token was issued for, and was computed from them when every writer takes the lock |
| ProviderConfig.TokenIsSpent | jev_gateway/provider_config.py:215-217 | a token is accepted exactly while the files are what it names |
| ProviderConfig.UndisturbedCommand | jev_gateway/provider_config.py:208-391 | a command that nothing comes between is applied exactly when its token names the files and its computation accepts them, and leaves the lock free in any case |
| ProviderConfig.ComputedFromNamedStateIff | jev_gateway/provider_config.py:208-391 | every applied command has the event that read the files for it and the one that replaced them, and was computed from the state its token names exactly when the files carried the token as they were read |
| ProviderConfig.TamperedReadGoesUnnoticed | jev_gateway/provider_config.py:380-382 | a writer outside the lock can change the files and change them back between the checks |
| ProviderConfig.ProviderConfiguration.Command | jev_gateway/provider_config.py:208-391 | two checks around the computation; a conflict changes nothing, an update is what the command computed from the named state |
| Publication.OnePublicationPerScope | jev_gateway/decision.py:553-583 | an outermost scope publishes exactly one version, the active one, when it ends normally after a reload that was kept, and else none |
| Publication.ExecHasEffects | jev_gateway/decision.py:553-583 | nested scopes, reloads and exceptions have exactly the effects the reference meaning gives them |
| Publication.UpToDateIff | jev_gateway/decision.py:553-583 | the active version is the published one unless every reload that changed it was dropped with an exception |
| Publication.CaughtReloadIsNotPublished | jev_gateway/decision.py:553-583 | a program that leaves a catalog unpublished |
| Publication.UncaughtScopesStayUpToDate | jev_gateway/decision.py:553-583 | programs that swallow no exception never do |
| Publication.CommandIsAllOrNothing | jev_gateway/gateway.py:945-976 | a command that returns leaves disk and catalog new and one version published for it; one that fails publishes none and, unless it was applied or recovery failed, leaves both old |
| Publication.FailedCommandLeavesOldIff | jev_gateway/provider_config.py:380-391 | a failing command that asked for any change leaves both old exactly when its exception came before the transaction was applied, and both new otherwise, recovery having worked |
| Publication.CommandUpToDateIff | jev_gateway/gateway.py:945-976 | after a command the active version is the published one exactly when it returned or left the catalog alone |
| Publication.AppliedCommandCanFail | jev_gateway/provider_config.py:390-391 | a command that fails with everything new and the version that serves unpublished |
| Publication.RuntimeIsLastInstalled | jev_gateway/gateway.py:957-965 | the active catalog is the one the transaction's callbacks installed last |
| Publication.ConfiguredEngine.ReloadCatalog | jev_gateway/decision.py:515-533 | an exception comes before anything is swapped |
| Publication.ConfiguredEngine.RegisterConfig | jev_gateway/decision.py:569-583 | a version is noted with the innermost scope or submitted |
| Publication.ConfiguredEngine.LeaveScope | jev_gateway/decision.py:560-567 | a scope passes on what it noted when it ends normally |
| Publication.ConfiguredEngine.ApplyRoutingDocument | jev_gateway/gateway.py:1259-1316 | file and catalog are both new and published, or the catalog is old and nothing published; the file is old unless putting it back failed |
| StreamOutcome.ExactlyOneOutcome | jev_gateway/gateway.py:1875-2049 | a response that runs to its end records one outcome, a success exactly when a finish reason was seen, the generator ended uninterrupted and the terminal frame was delivered |
| StreamOutcome.SuccessIffHappened | jev_gateway/gateway.py:1875-2049 | in terms of what happened: a success exactly when the running generator saw a finish reason and came to its end during the call, the last frame went out, and the call ended without an exception |
| StreamOutcome.NeverTwoOutcomes | jev_gateway/gateway.py:1896-1909 | at no point is more than one outcome recorded |
| StreamOutcome.FinalisedOnlyOnSuccess | jev_gateway/gateway.py:2007-2019 | the continuation is finalised once, with the success, and never otherwise |
| StreamOutcome.EscapeLosesOutcomeIff | jev_gateway/gateway.py:1995-2006 | when an exception leaves the cleanup, the outcome is missing exactly if the generator never ran or had completed |
| StreamOutcome.OutcomeCanBeLost | jev_gateway/gateway.py:1995-2006 | a run in which it is |
| StreamOutcome.ClosedIsFinal | jev_gateway/gateway.py:1963-1971 | once the generator is closed nothing changes how it ended |
| StreamOutcome.EventKeepsInvariant | jev_gateway/gateway.py:1875-2049 | every event of workers and ASGI call keeps the stream's invariant |
| StreamOutcome.StreamedResponse.RecordStreamOutcome | jev_gateway/gateway.py:1896-1909 | a second outcome is dropped |
| StreamOutcome.StreamedResponse.NextStreamBody | jev_gateway/gateway.py:1963-1967 | the generator is entered only while uninterrupted |
| StreamOutcome.StreamedResponse.FinishStream | jev_gateway/gateway.py:1915-1959 | a stream that ends is completed, or recorded as interrupted or incomplete |
| StreamOutcome.StreamedResponse.FailStream | jev_gateway/gateway.py:1930-1959 | a stream that raises is recorded as failed upstream |
| StreamOutcome.StreamedResponse.CloseStreamBody | jev_gateway/gateway.py:1969-1971 | closing runs the exit code only of a started generator |
| StreamOutcome.StreamedResponse.SettleOutcome | jev_gateway/gateway.py:2007-2032 | success and finalisation only after the terminal frame |
| StreamOutcome.StreamedResponse.Unwind | jev_gateway/gateway.py:1992-2032 | the whole cleanup of an ASGI call |
| StreamOutcome.UnwindIsItsEvents | jev_gateway/gateway.py:1992-2032 | that cleanup is the four events of the machine in a row |
| StreamOutcome.StreamedResponse.AbandonResponse | jev_gateway/gateway.py:2040-2049 | a response that cannot be built records its failure |

## Left out

- File modes, protected permissions and temporary files of a transaction.
- Exceptions other than `Exception` inside a transaction: they end it like a crash does.
- SQL, schema changes and row encodings: tables are sets of keys or sequences of rows.
- Pruning of continuation sessions beyond the session limit: agreement with the rows is stated for sessions that were not pruned.
- Aliasing of session objects: a session is a value that the table replaces, while adapters in the code keep a reference to the same object.
- Several clock readings inside one store operation: an operation takes one.
- Deriving a session id from a request, and the anonymous sessions that never reach the table.
- Evidence records, decision logs and the reasoning effort attached to a decision.
- Floating point: costs and qualities are reals, and rounding is an arbitrary function.
- Unicode whitespace in names and tags: stripping removes spaces, tabs, newlines and carriage returns.
- Turning non-string document values into strings, and duplicate keys of a JSON object.
- Error messages: which check refused a document is kept, not its words.
- The version 1 overlay merge.
- The shape checks of an overlay, its matrix options among them, and of every document field; they are preconditions of the merge.
- Migration.ReferencedModels: the options of a matrix come as typed rules and fallback, not as raw JSON.
- MigrationRuns.MatrixSelectsAsBefore: selections that leave the label's pool for the wide one are left open; the wide pool can only shrink, and the chosen model may be gone.
- SessionPages.RetainedSessionOnceIff: a request id is recorded once; the code would replace the row of a repeated one.
- Pins.PinHoldsOverRunsIff: stated for one session under one strategy and an unchanged catalog.
- ProviderConfig.ProviderConfiguration.Command: the operations on providers and models are one arbitrary computation, which in the method is one step with the read, and a failed replacement is taken as rolled back; the run model takes the read, the checks and the replacement apart, and Publication.CommandIsAllOrNothing has the replacement's failures.
- Publication.ConfiguredEngine.ApplyRoutingDocument: the path on which no stored layout is cleared; the other one replaces several files in one transaction, which is what Publication.CommandIsAllOrNothing is about.
- Publication.ConfiguredEngine.RegisterConfig: a submission that the record store drops counts as published.
- StreamOutcome.ExactlyOneOutcome: recording an outcome and finalising a continuation do not themselves end with anything but an ordinary exception, and ASGI always calls a response that was built.
- Decision-provider clients: their answers are arbitrary.
- Discovery, metadata, TLS, HTTP routes, the CLI and the dashboard's pages: plumbing, or one branch per claim.
