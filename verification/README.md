# Verified model of the route planning and offline replay logic

This project models the parts of the transit-stop cleaning service whose correctness is a matter of
many steps rather than of one function, and proves what the service relies on:

- **Offline replay.** The browser keeps a queue of actions (start, upload photos, skip, complete) and
  replays it over an unreliable network; the server's stop lifecycle is the idempotent other half.
- **Route order.** A new run is ordered by the routing engine, improved by greedy insertions, regrouped
  by street corridor, refined along each corridor and checked once more.
- **Supporting code.** The CSV printers and the CSV parser, the tar writer of the export, the migration
  runner, the choice of candidate stops, the pool-membership dual write, and the write and read path of
  the five cleaning booleans.

`dafny verify dfyconfig.toml` checks everything.

## Structure

| module | repository code |
|---|---|
| `Wrappers`, `Sequences` | optional values; `filter`, `map`, `findIndex` and the stable `sort` of JavaScript |
| `Stops`, `RunDirection`, `CorridorRuns`, `CorridorRegroup`, `CorridorRefine` | `corridorRefine.ts` |
| `LegCosts`, `CurbsidePostOptimize`, `RoutePipeline` | `routeCost.ts`, `curbsidePostOptimize.ts`, `osrmClient.ts`, `createRouteRun` |
| `CandidateSelection` | `getCandidateStopsForPoolWithRisk` |
| `OfflineActions`, `OfflineQueue` | the queue operations, as functions and as the class that holds the queues |
| `ReplayMachine`, `ReplayRun`, `ReplayLimits`, `ReplayBounds`, `ReplayCounts` | replay as a state machine and as a loop, and what both keep |
| `ReplayReload` | a page that is reloaded in mid-replay |
| `PhotoQueue`, `PhotoLoss` | the queued photos, and those that a replay loses |
| `StopTables`, `StopViews`, `StopService` | the server's tables, the same per stop, and the handlers as database methods |
| `RunCompletion` | when a run is finished, and when it never is |
| `ApiErrors` | the API wrappers, the executors' error handling and the error classifiers |
| `ReplayProtocol`, `PlainReplay`, `ReplayMeaning` | client, network and server together |
| `Observations`, `CleanLogs` | the write path of the five booleans, and the query that reads them back |
| `Csv`, `Ustar`, `Migrate`, `MigrateResume`, `PoolMembership` | the remaining code |
| `CorridorRules`, `CurbsideRules`, `PlanRules`, `SelectionRules` | planning, stated without the functions that compute it |
| `QueueRules`, `ProtocolRules`, `StopRules`, `ErrorRules` | queue, protocol, server and errors, likewise |
| `CsvRules`, `UstarRules`, `MigrateRules`, `PoolRules`, `ObservationRules` | the remaining code, likewise |

Code that works by mutation is modelled by methods, loops and classes. Each method is proved equal to a
function of its inputs (or of the old state), and the properties are proved about that function. What such a
function itself must do is stated once more in the modules whose names end in `Rules`: in the fields, numbers
and texts of the repository, with quantifiers, and without the functions of the model that compute it.

## Modelling choices

- Coordinates, leg costs and scores are real numbers. `sort` is stable: `Sequences.StableSortIsUnique`
  shows that this fixes its result.
- The corridor of a stop is a parameter `key` in all lemmas about the route passes; the service uses
  `Stops.CorridorOf`, for which `RoutePipeline.StreetsStayTogether` states the result. Leg costs are an
  arbitrary function of two stops and need not be symmetric.
- The network may lose a request, lose a response after the server acted, and deliver any request it was
  ever given at any later time and any number of times. A lost response surfaces as a network error. Other
  clients may use the same server in between, and may start or finish runs at will.
- Only one replay runs at a time, as `attemptReplay` ensures; the page may act between any two of its steps,
  and it may be reloaded at any point.
- The replay loop handles coded rejections, so the protocol allows an executor call to surface one, although
  the wrappers never throw one (`ApiErrors.AnsweredIsNeverCoded`). `PlainReplay` is about the wrappers as
  they are, whose executions are among those of the protocol (`PlainReplay.ExchangesAreAllowed`).
- Each server handler is one atomic step, except that the skip handler commits first and only then writes
  its observations and checks the run: it may break down before either of the two (`StopTables.Fault`).
- New action ids are fresh, `deriveClientVisitId` is injective, and a database accepts one visit per
  client visit id, as its unique index demands.
- A migration is an arbitrary function of the database that may fail and may add tracking rows itself.
- `localeCompare` on stop ids is a total order, and `toLowerCase` an arbitrary function.

## Where the code does not do what its comments suggest

- A photo taken while its stop's upload waits in a running replay is merged into the queued action, but
  the executor is handed the action as it was when the replay began. `PhotoLoss.StepLosesPhotoIff` says
  exactly which steps lose a photo, `PhotoLoss.MergedPhotoIsLostIff` exactly which merged photos are lost
  (those whose upload the running replay brings to an end; after a network or auth error, or when the
  upload is to be retried, the photo is still queued), and `PhotoLoss.RunsWithoutMergesLoseNothing` that
  nothing is lost otherwise. `PhotoLoss.OverlappingEnqueueLosesPhoto` is such a run.
- A page that is reloaded while an executor call is awaited leaves the action of that call marked running,
  and nothing ever takes it up again (`ReplayReload.AbandonedForever`); an abandoned start blocks every later
  start of its stop. `ReplayReload.AbandonedIff` says exactly which actions a run abandons, and
  `ReplayReload.LiveActionsCanBeSentIff` that every live action can still be sent exactly when no reload
  interrupted the call of a queued action, which the page can check at the reload.
- A skip that breaks down after its commit leaves its stop skipped but the run unchecked. If that stop was
  the last one, the run is not finished (`RunCompletion.LastStopFinishesRunIff`), sending the skip again
  changes nothing (`RunCompletion.RetriedSkipChangesNothing`), and only completing a skipped stop of the run
  or setting the status of the run by hand ends it (`RunCompletion.StuckRunEndsIff`).
- `completeStop` accepts a skipped stop. Its visit keeps the outcome `skipped`, so the clean-logs query,
  which asks for `completed`, never lists that completion (`CleanLogs.CompletionIsReadBackIff`).
- `createStopPhotos` answers with success and records nothing when the stop has no visit yet
  (`StopViews.UploadChangesNothingIff`). Once a start of the stop has been replayed, every upload replayed
  afterwards is recorded (`ReplayProtocol.UploadsAfterStartAreRecorded`).
- The leg cache joins two stop keys with `->`. Ids that contain the separator can make it answer wrongly
  (`LegCosts.KeysCanCollide`); without the separator it is safe exactly when different stops have different
  keys (`LegCosts.LegKeyIsInjectiveIff`, `LegCosts.CacheIsSafeIff`).
- The offline API wrappers throw plain errors that keep the text of a rejection alone, so no rejection of
  these executors ever reaches the replay loop with a code, and no 401 or 403 as an auth error
  (`ApiErrors.AnsweredIsNeverCoded`). A call ends its action as done exactly when it sent no request or its
  request came back accepted, and nothing failed on the device (`ApiErrors.SettlesIff`). So a completion or
  skip that the server has taken up is marked done exactly when the answer to that very call comes back
  (`PlainReplay.TakenUpActionIsDoneIff`). If it is lost, the next call that is answered fails a completion
  with the text `ALREADY_COMPLETE`, although the loop means to mark it done
  (`PlainReplay.LostAnswerFailsCompletion`).
- The executor of a completion means to retry when an after photo is missing, but the phrases it looks for are
  not in the server's text: no rejected completion is ever retried (`ApiErrors.RejectedCompletionFails`). A
  rejected skip is retried exactly when no safety photo is recorded (`ApiErrors.RejectedSkipIsRetriedIff`).
- Header names are not escaped by `toCsv`: an export with a comma, quote, carriage return or line feed in a
  name never parses back (`Csv.ExportRoundTripIff`; an example is `Csv.CommaInNameSplits`). The audit printer does not quote a lone carriage return,
  which the parser then drops (`Csv.AuditRoundTripIff`).
- Both stop updates say that they validate the pool, but an empty pool id skips the check and is only
  caught by the foreign key: it is accepted, without effect, exactly when none of the given stops exists
  (`PoolMembership.UnknownPoolIff`).
- A migration run that is stopped and started again need not do what an uninterrupted run does when some
  migration records the consolidated file's name (`Migrate.RecordingTheConsolidatedNameMatters`).
  `MigrateResume.ResumingIsSafeIff` has the exact condition, on the tracking table and the remaining names;
  `Migrate.ResumeAppliesTheRestIff` decides it for migrations that are known.
- `startRouteRun` and `finishRouteRun` set the status of a run unconditionally.

## Model

| member | source | states |
|---|---|---|
| `Sequences.StableSortIsUnique` | frontend/src/offline/offlineQueue.ts:347-360 | whatever sorts stably computes the same sequence: sorted, and in the old order within every class of equivalent elements |
| `Sequences.SortCommutesWithFilter` | frontend/src/offline/offlineQueue.ts:347-360 | a stable sort keeps the relative order of every subsequence it sorts, in the strong form that sorting and filtering commute |
| `Stops.NormalizeIgnoresCaseAndSpace` | backend/src/routing/corridorRefine.ts:3-8 | two spellings of a street that differ in letter case and in surrounding space are normalised to the same text |
| `PlanRules.NormalizedIs` | backend/src/routing/corridorRefine.ts:3-8 | normalising drops the space around a text and makes its small letters capital, letter by letter; a missing text is an empty one |
| `PlanRules.CorridorIs` | backend/src/routing/corridorRefine.ts:87-110 | two stops are on one corridor exactly when their normalised streets and their normalised bearings agree |
| `CorridorRegroup.RegroupCorridorWithinWindow` | backend/src/routing/corridorRefine.ts:87-122 | the loops with their two nested splices compute `Regroup`, for every input and window |
| `CorridorRegroup.RegroupKeepsOrder` | backend/src/routing/corridorRefine.ts:87-122 | regrouping is a permutation and never reorders two stops of one corridor |
| `CorridorRegroup.RegroupSeparatesNothing` | backend/src/routing/corridorRefine.ts:87-122 | afterwards two stops of one corridor less than the window apart have only that corridor between them |
| `CorridorRegroup.RegroupFixedPoints` | backend/src/routing/corridorRefine.ts:87-122 | regrouping changes nothing exactly when nothing is separated; hence it is idempotent |
| `PlanRules.RegroupIsTurns` | backend/src/routing/corridorRefine.ts:87-122 | regrouping goes through one turn per stop: the stops less than a window behind it that share its street and bearing come right behind it, the others behind them, each group in its own order, and nothing else moves; a stop without street or bearing does nothing |
| `RunDirection.MetaIgnoresOrder` | backend/src/routing/corridorRefine.ts:31-62 | the resolved direction depends only on which stops are in a run, not on their order |
| `RunDirection.ResolveRunMeta` | backend/src/routing/corridorRefine.ts:31-62 | the min/max loop finds the axis and direction of the run, which `CorridorRules.RefinedRuns` and `CorridorRules.ScoreIs` say in longitudes, latitudes and letters |
| `RunDirection.ScoreMonotonicRun` | backend/src/routing/corridorRefine.ts:64-81 | the counting loop yields the share of steps that go the right way |
| `RunDirection.ScoreBounds` | backend/src/routing/corridorRefine.ts:64-81 | every score lies between 0 and 1, and is 1 for a run sorted along its direction |
| `CorridorRules.ScoreIs` | backend/src/routing/corridorRefine.ts:64-81 | the score is the share of steps that go east, west, north or south as the bearing says along the axis on which the run is spread further, and 1 for a run with no step or no such letter |
| `CorridorRuns.MapRunsAt` | backend/src/routing/corridorRefine.ts:131-193 | a pass over the runs turns every maximal run into exactly what it does to that run alone |
| `CorridorRuns.MapRunsKeepsCorridors` | backend/src/routing/corridorRefine.ts:131-193 | such a pass permutes the stops and keeps the corridor at every position |
| `CorridorRefine.RefineOrdersRuns` | backend/src/routing/corridorRefine.ts:131-193 | refinement keeps corridors position by position and sorts every maximal run with a direction along its axis |
| `CorridorRefine.PassesFixRefined` | backend/src/routing/corridorRefine.ts:195-250 | refinement is idempotent, and the sanity pass is the identity on its output for every threshold |
| `CorridorRefine.SanityMeetsThreshold` | backend/src/routing/corridorRefine.ts:195-250 | on arbitrary input every run of the output scores at least the threshold exactly when the threshold is at most 1 or no stop is on a corridor |
| `CorridorRules.RefinedRuns` | backend/src/routing/corridorRefine.ts:131-193 | every longest stretch of stops on one street and bearing whose longitudes spread at least as far as its latitudes is ordered eastward if the bearing has an E, westward if it has a W and no E, and stays as it is otherwise; likewise with latitudes, N and S for the others; ties keep their order, and stops without street or bearing stay in place |
| `CorridorRules.CorrectedRuns` | backend/src/routing/corridorRefine.ts:195-250 | the sanity pass orders such a stretch in the same way exactly when too small a share of its steps goes that way, and changes nothing else |
| `CorridorRefine.RefineCorridorRuns` | backend/src/routing/corridorRefine.ts:131-193 | the loop over runs with its writes in place computes `Refine`, for which `CorridorRules.RefinedRuns` holds |
| `CorridorRefine.EnforceCorridorSanity` | backend/src/routing/corridorRefine.ts:195-250 | the sanity loop computes `Sanity`, for which `CorridorRules.CorrectedRuns` holds |
| `LegCosts.LegCostCache.GetCost` | backend/src/routing/routeCost.ts:5-26 | the table answers a known key and remembers an unknown one; nothing else changes |
| `LegCosts.MemoIsInvisibleIff` | backend/src/routing/routeCost.ts:5-26 | every sequence of questions is answered with the true costs exactly when cache keys determine costs |
| `LegCosts.CacheIsSafeIff` | backend/src/routing/routeCost.ts:5-26 | whatever the routing engine says, every question about some stops is answered truthfully exactly when different legs between them have different cache keys |
| `LegCosts.LegKeyIsInjectiveIff` | backend/src/routing/routeCost.ts:11-14 | for the key that the cache builds, when no stop's id or coordinates contain the separator: different legs have different keys exactly when different stops have different ids or coordinates |
| `LegCosts.KeysCanCollide` | backend/src/routing/routeCost.ts:11-14 | four stops with different ids, and a routing engine, for which the cache answers the second of two questions wrongly |
| `PlanRules.CacheKeyIs` | backend/src/routing/routeCost.ts:11-14 | a leg is keyed by the ids of its stops, whatever their coordinates, and by the coordinates where an id is missing |
| `CurbsidePostOptimize.MoveCost` | backend/src/routing/curbsidePostOptimize.ts:48-77 | moving a stop changes the cost of the whole path by exactly the delta computed from five or six legs, for asymmetric costs |
| `CurbsidePostOptimize.BestMoveIsFirstMinimum` | backend/src/routing/curbsidePostOptimize.ts:43-83 | the scan finds the first candidate with the smallest delta, and none when no candidate gains |
| `CurbsidePostOptimize.OptimizeDescends` | backend/src/routing/curbsidePostOptimize.ts:4-113 | a permutation with the first stop fixed, at most `maxMoves` moves, each beating the required gain; the final cost is the initial cost plus the deltas, hence at most the initial cost minus moves times the gain |
| `CurbsideRules.NothingMovesIff` | backend/src/routing/curbsidePostOptimize.ts:13-83 | the pass moves nothing exactly when there are more than 150 stops, no move is allowed, or no stop in reach of an earlier one gains more than required; then the order is the given one |
| `CurbsideRules.NothingMovesForGain` | backend/src/routing/curbsidePostOptimize.ts:26-83 | for a required gain that is not negative, at most 150 stops and a move allowed: exactly when every delta in reach is at least minus that gain |
| `CurbsideRules.PassIsTurns` | backend/src/routing/curbsidePostOptimize.ts:26-104 | the pass goes through one turn per position, and at each the first best of the stops worth moving is pulled behind the position exactly when there is one and moves are left |
| `CurbsidePostOptimize.PostOptimizeCurbsideOrder` | backend/src/routing/curbsidePostOptimize.ts:4-113 | the nested loops with the shared cache compute the pass for the costs that the final table stands for; `CurbsideRules.PassIsTurns` and `CurbsideRules.NothingMovesIff` say which moves it makes and when it makes none |
| `CurbsidePostOptimize.MemoisedOrderIsTrue` | backend/src/routing/curbsidePostOptimize.ts:4-113 | when cache keys determine costs, the memoised order is the order for the true costs |
| `CurbsidePostOptimize.PlainIdsGiveTrueOrder` | backend/src/routing/curbsidePostOptimize.ts:4-113 | with the cache's own keys, stops with different ids without the separator are ordered by the routing engine's own costs |
| `PlanRules.PlainIdsAreSafe` | backend/src/routing/routeCost.ts:5-26 | stops that all have ids, different ones and none with an arrow, are ordered by the routing engine's own costs, whatever the cache was asked before about them |
| `RoutePipeline.TripVisitsEveryStop` | backend/src/osrmClient.ts:76-104 | whatever trip positions the engine answers, the trip visits exactly the given stops |
| `RoutePipeline.TripFollowsEngine` | backend/src/osrmClient.ts:76-104 | when the engine numbers the trip positions, each stop stands at its position, at its snapped place, with its own id, street and bearing |
| `PlanRules.PlannedStopIs` | backend/src/domains/routeRun/routeRunService.ts:226-246 | when the trip starts at the base, each planned stop stands one place before its position in the trip, at its snapped place, with its own id, street and bearing |
| `RoutePipeline.RealStopsAreThePlannedOnes` | backend/src/domains/routeRun/routeRunService.ts:226-246 | dropping the base leaves exactly the planned stops |
| `RoutePipeline.TripKeepsMetadata` | backend/src/domains/routeRun/routeRunService.ts:248-258 | putting street and bearing back by id changes nothing when stops with one id agree on them |
| `PlanRules.ReattachedIs` | backend/src/domains/routeRun/routeRunService.ts:214-258 | a stop of the trip gets the street and bearing of the last planned stop with its id, and stays as it is when it has no id or no planned stop has it |
| `RoutePipeline.PipelineFacts` | backend/src/domains/routeRun/routeRunService.ts:272-290 | the four passes together permute the planned stops, separate no corridor inside the window, sort every maximal run with a direction, and the last pass never has anything to do |
| `RoutePipeline.StreetsStayTogether` | backend/src/domains/routeRun/routeRunService.ts:272-290 | in the final order, two stops on one normalised street and bearing that are less than the window apart have only stops of that street and bearing between them |
| `PlanRules.PassesInOrder` | backend/src/domains/routeRun/routeRunService.ts:272-290 | whatever the stops: the curbside pass with lookahead 8, 30 moves and 5 seconds, then regrouping within 8, then the sorting of the runs |
| `PlanRules.OffCorridorsOnlyCurbside` | backend/src/domains/routeRun/routeRunService.ts:272-290 | without a corridor among the stops the order is that of the curbside pass with lookahead 8, 30 moves and 5 seconds |
| `PlanRules.EightPlacesApart` | backend/src/domains/routeRun/routeRunService.ts:272-290 | two stops of one street and bearing less than eight places apart have only such stops between them |
| `RoutePipeline.ComputeLegs` | backend/src/domains/routeRun/routeRunService.ts:307-329 | the legs of the final order, with the total duration equal to the cost of the whole path from the base |
| `PlanRules.LegIs` | backend/src/domains/routeRun/routeRunService.ts:307-329 | there is one leg per stop, the one into it from the stop before it or from the base |
| `PlanRules.LegIsTrue` | backend/src/domains/routeRun/routeRunService.ts:307-329 | with keys that determine costs each leg is the routing engine's own answer for these two stops |
| `PlanRules.TotalsGrow` | backend/src/domains/routeRun/routeRunService.ts:307-329 | each leg adds its distance and its duration to the totals |
| `RoutePipeline.PlanRouteRun` | backend/src/domains/routeRun/routeRunService.ts:226-329 | planning returns the pipeline's order for the costs that its cache stands for, which is the order for the true costs when cache keys determine costs, and its legs and totals |
| `CandidateSelection.GetCandidateStops` | backend/src/domains/routeRun/routeRunService.ts:63-157 | reading the overrides, dropping, adding, scoring, sorting and cutting compute `Selection`, for which `SelectionRules.SelectionIs` and `SelectionRules.LeftOutIff` hold |
| `SelectionRules.RankedAre` | backend/src/domains/routeRun/routeRunService.ts:63-141 | exactly the fetched stops that no override excludes are ranked, and the included ones of the pool that are not among them, with no weights; the score is risk plus bumps, and for an included stop 1000 and the highest risk on top |
| `SelectionRules.BumpsAddUp` | backend/src/domains/routeRun/routeRunService.ts:70-80 | every bump of a stop adds its value, whatever its place in the list, and no other override does |
| `SelectionRules.RankedInOrder` | backend/src/domains/routeRun/routeRunService.ts:143-148 | an earlier stop beats every later one: higher score, then hotspot weight, then urgency, then smaller id |
| `SelectionRules.SelectionIs` | backend/src/domains/routeRun/routeRunService.ts:150-157 | as many stops are selected as the limit says, or all ranked ones if they are fewer: the ids and places of the first ranked ones, in order |
| `SelectionRules.LeftOutIff` | backend/src/domains/routeRun/routeRunService.ts:143-157 | a ranked stop is left out exactly when at least as many ranked stops beat it as the limit says |
| `CandidateSelection.SelectionIgnoresOrder` | backend/src/domains/routeRun/routeRunService.ts:51-157 | for distinct ids the selection does not depend on the order of rows or overrides |
| `CandidateSelection.RankedIff` | backend/src/domains/routeRun/routeRunService.ts:82-116 | a stop is ranked exactly when it was fetched and not excluded, or is in the pool and force-included |
| `CandidateSelection.IncludedRankFirst` | backend/src/domains/routeRun/routeRunService.ts:118-148 | with bumps less than 1000 apart and no negative risk, no other stop ranks before a force-included one |
| `CandidateSelection.RankedByOwnScore` | backend/src/domains/routeRun/routeRunService.ts:126-148 | among stops that are all force-included or all not: higher risk plus bumps first, then hotspot weight, then urgency, then the smaller id |
| `CandidateSelection.OthersComeAfterAllIncluded` | backend/src/domains/routeRun/routeRunService.ts:118-157 | then a selection with room for any other stop contains every force-included stop of the pool |
| `CandidateSelection.PrefetchSelectsTheSameScores` | backend/src/domains/routeRun/routeRunService.ts:28-83 | with only exclusions, at most 200 minus the limit of them, the prefetch of 200 rows selects the scores that ranking the whole pool would |
| `SelectionRules.PrefetchOf200` | backend/src/domains/routeRun/routeRunService.ts:28-83 | the same with the number 200 and position by position: up to the limit, ranking the prefetched rows and ranking the whole pool give as many stops and the same scores |
| `OfflineQueue.QueueStore.EnqueueAction` | frontend/src/offline/offlineQueue.ts:133-222 | the branches over merge, drop and replace compute `Enqueue` on the worker's own queue, for which `QueueRules.EnqueuedStart`, `QueueRules.EnqueuedSkip` and `QueueRules.EnqueuedUpload` hold; other queues are untouched |
| `QueueRules.EnqueuedStart` | frontend/src/offline/offlineQueue.ts:184-194 | a start is dropped exactly when its own stop has a start that is pending or running, and appended otherwise |
| `QueueRules.StartIsQueued` | frontend/src/offline/offlineQueue.ts:184-194 | after enqueueing a start its stop has a pending or running start in the queue |
| `QueueRules.EnqueuedSkip` | frontend/src/offline/offlineQueue.ts:194-208 | a skip takes the place of the first pending skip of its stop, or is appended |
| `QueueRules.EnqueuedUpload` | frontend/src/offline/offlineQueue.ts:146-183 | an upload is merged into the first pending upload of its stop and kind, which then lists the old ids and the new ones behind them, each once, and is otherwise unchanged; or it is appended |
| `QueueRules.EnqueuedOtherwise` | frontend/src/offline/offlineQueue.ts:146-210 | everything else is appended |
| `QueueRules.UsersHaveTheirOwnQueue` | frontend/src/offline/offlineQueue.ts:33-35 | different users of tenants whose ids hold no colon have different queue keys |
| `OfflineQueue.QueueStore.UpdateActionStatus` | frontend/src/offline/offlineQueue.ts:224-260 | the first action with the id gets the status and error, and nothing else changes |
| `QueueRules.UpdatedStatus` | frontend/src/offline/offlineQueue.ts:224-260 | a status update gives the first action with the id its status and error and changes nothing else |
| `OfflineQueue.QueueStore.RunReplay` | frontend/src/offline/offlineQueue.ts:325-438 | the loop over the sorted snapshot, with its error branches and the error text each one stores, computes the replay function, whatever the page does during the calls |
| `QueueRules.ReplayOrderIs` | frontend/src/offline/offlineQueue.ts:336-358 | a replay takes exactly the pending actions: starts, uploads, skips, completions, others, within a type by age, and among equals in the order of the queue |
| `QueueRules.FinishedCall` | frontend/src/offline/offlineQueue.ts:370-433 | how the end of an executor call leaves the queued action, for every outcome, with the codes and the limit of three retries, and when a missing authorisation is flagged |
| `QueueRules.ReportedIff` | frontend/src/offline/offlineQueue.ts:358-437 | a replay reports an ended stop exactly when some call completed a stop, found a completion or skip complete already, or found a skip skipped already |
| `QueueRules.RequestIs` | frontend/src/offline/OfflineSyncManager.tsx:40-120 | what each executor sends for its action; an upload without a kind is a completion photo, one without photos sends nothing |
| `OfflineQueue.QueueStore.GetQueuedUploadCountForStop` | frontend/src/offline/offlineQueue.ts:517-541 | the fold over the queue counts the ids of the live uploads of a stop and kind |
| `QueueRules.QueuedPhotosAre` | frontend/src/offline/offlineQueue.ts:517-541 | which photos count as queued for a stop and kind, and by how many one more action raises the counter |
| `OfflineQueue.QueueStore.DismissConflict` | frontend/src/offline/offlineQueue.ts:569-575 | a dismissed action is marked done in the queue and has no other effect |
| `ReplayMachine.StepKeepsConsistent` | frontend/src/offline/offlineQueue.ts:133-438 | every step, reloads included, keeps ids distinct, retries bounded, the snapshot pending, and the current action running |
| `ReplayRun.ReplayIsRun` | frontend/src/offline/offlineQueue.ts:325-438 | the replay loop is a run of the state machine, so what the machine keeps the loop keeps |
| `ReplayRun.ExecutedIsPrefix` | frontend/src/offline/offlineQueue.ts:336-365 | what a replay executes is a prefix of the registered actions of its snapshot |
| `ReplayLimits.ReachableQueuesAreLimited` | frontend/src/offline/offlineQueue.ts:133-438 | when no reload interrupts an executor call, in every reachable queue at most one action runs, a stop has at most one live start and two live skips and two live uploads of a kind; one each when no enqueue overlaps a replay |
| `ReplayLimits.TwoSkipsCanBeLive` | frontend/src/offline/offlineQueue.ts:185-222 | a run from the empty queue with two live skips of one stop, so the bound of two is reached |
| `ReplayLimits.SettledActionsStay` | frontend/src/offline/offlineQueue.ts:360-435 | done and failed actions never change again over any run |
| `ReplayBounds.ReplayEffect` | frontend/src/offline/offlineQueue.ts:360-435 | the complete effect of a replay during which nothing is enqueued: each executed action in the state of its own outcome, every other action untouched, except that the worker may have dismissed conflicts |
| `ReplayBounds.BrokenReplayLeavesRest` | frontend/src/offline/offlineQueue.ts:336-435 | in such a replay a prefix of the stably sorted registered pending actions is executed, no id is gained or lost, and all behind an auth or network error is untouched and pending |
| `ReplayCounts.TotalCallsAreBounded` | frontend/src/offline/offlineQueue.ts:360-435 | in every run of the machine without enqueues, with dismissals, auth flags and reloads, the executor calls that come to an end in any number of replays are at most the sum of `4 - retryCount` plus the number of calls that break off |
| `ReplayCounts.FourReplaysDrain` | frontend/src/offline/offlineQueue.ts:407-423 | in such a run four replays that are not broken off leave no registered action pending, whatever the executors answer |
| `ReplayReload.AbandonedForever` | frontend/src/offline/offlineQueue.ts:325-368 | an action that is marked running while no replay holds it stays so over every later run, replays and reloads included, and no replay ever holds it again |
| `ReplayReload.AbandonedIff` | frontend/src/offline/offlineQueue.ts:325-368 | over every run, an action ends up abandoned exactly when it was so before or a reload of the run came while its executor call was awaited and it was still queued |
| `ReplayReload.LiveActionsCanBeSentIff` | frontend/src/offline/offlineQueue.ts:325-368 | from the empty queue, every live action is pending or being sent exactly when no such reload happened |
| `ReplayReload.RunningActionsAreCounted` | frontend/src/offline/offlineQueue.ts:360-368 | from the empty queue, the number of actions marked running is exactly the number of calls that reloads interrupted, plus the one that is awaited |
| `ReplayReload.AbandonedStartBlocksStop` | frontend/src/offline/offlineQueue.ts:184-194 | when it is a start, every later start of its stop is dropped |
| `PhotoLoss.AbandonedPhotosStayQueued` | frontend/src/offline/offlineQueue.ts:517-541 | when it is an upload, its photos are among the queued ones for good |
| `PhotoQueue.EnqueueAddsItsPhotos` | frontend/src/offline/offlineQueue.ts:146-183 | an enqueue adds exactly its photo ids, to its own stop and kind only |
| `PhotoQueue.ReplayConservesPhotos` | frontend/src/offline/offlineQueue.ts:360-435 | the photos queued before a replay during which nothing is enqueued are those queued after it together with those of the uploads it ended |
| `PhotoQueue.CountIsDistinctPhotosIff` | frontend/src/offline/offlineQueue.ts:517-541 | the counter is never below the number of distinct queued ids, and equals it exactly when no id stands twice in the live uploads of the stop and kind |
| `PhotoQueue.QuietCountIsDistinct` | frontend/src/offline/offlineQueue.ts:133-183 | so it is in every queue reached without an enqueue during a replay and without an interrupted call, when each enqueued list names its photos once |
| `PhotoLoss.RunsWithoutMergesAreCovered` | frontend/src/offline/offlineQueue.ts:325-438 | over every run in which no enqueue is merged into an action that the running replay has snapshotted, every executor is handed exactly the queued photos |
| `PhotoLoss.RunsWithoutMergesLoseNothing` | frontend/src/offline/offlineQueue.ts:325-438 | after every such run from the empty queue, no step takes a photo out of the queue that the executor was not handed |
| `PhotoLoss.EnqueueKeepsCoveredIff` | frontend/src/offline/offlineQueue.ts:146-183 | an enqueue of new photos leaves the snapshot up to date exactly when it is not merged into a snapshotted action |
| `PhotoLoss.FinishRemovesPhotoIff` | frontend/src/offline/offlineQueue.ts:370-433 | the end of an executor call takes a queued photo out of the queue exactly when the call ends its action and no other live upload holds the photo |
| `PhotoLoss.StepLosesPhotoIff` | frontend/src/offline/offlineQueue.ts:360-435 | a step loses a queued photo exactly when it ends an executor call together with its action, the photo is queued in that action alone, and it is not in the list that the executor was handed |
| `PhotoLoss.MergedPhotoIsLostIff` | frontend/src/offline/offlineQueue.ts:146-183 | a new photo merged into a snapshotted upload is gone after any continuation up to the next replay, without ever having been handed to an executor, exactly when the call for that upload ended it as done, failed or in conflict |
| `PhotoLoss.OverlappingEnqueueLosesPhoto` | frontend/src/offline/offlineQueue.ts:146-183 | a run from the empty queue in which a photo leaves the queue without ever being sent |
| `StopService.Database.EnsureVisitForRouteRunStop` | backend/src/domains/visit/visitService.ts:75-176 | the visit with the derived client id is found or inserted, and nothing else changes |
| `StopService.Database.CloseVisitForRouteRunStop` | backend/src/domains/visit/visitService.ts:182-203 | only an open visit is closed, and values already set are kept |
| `StopService.Database.CreateStopPhotos` | backend/src/domains/routeRunStop/stopPhotosService.ts:15-115 | one evidence row per photo key when the stop has a visit, none otherwise |
| `StopRules.UploadWrites` | backend/src/domains/routeRunStop/stopPhotosService.ts:15-115 | an upload is accepted and adds one row per photo, in order, under the visit of its stop, and none without one |
| `StopService.Database.CheckAndCompleteRouteRun` | backend/src/domains/routeRun/routeRunService.ts:558-590 | the run is finished when no stop is open and some stop is terminal, unless it is concluded already |
| `StopService.Database.StartRouteRunStop` | backend/src/modules/routes/routeRunRoutes.ts:901-940 | start moves a stop that is not started and ensures its visit, is idempotent for a started one, and rejects a terminal one unchanged, as `StopRules.StartAnswers` and `StopRules.StartWrites` say of the tables |
| `StopRules.StartAnswers` | backend/src/modules/routes/routeRunRoutes.ts:901-940 | a start is accepted exactly when the stop exists and is neither done nor skipped; the text of a rejection, which changes nothing |
| `StopRules.StartWrites` | backend/src/domains/routeRun/operations/startRouteRunStop.ts:43-67 | an accepted start leaves the stop in progress, with a visit when it had not been started, and changes nothing else |
| `StopRules.StartedStopHasVisit` | backend/src/domains/routeRun/operations/startRouteRunStop.ts:43-67 | in every committed state an accepted start leaves the stop with a visit |
| `StopService.Database.SkipWithHazard` | backend/src/modules/work/routeRunStopRoutes.ts:190-292 | the guards in order, the transaction, and the observations and run check behind it |
| `StopRules.SkipAnswers` | backend/src/modules/work/routeRunStopRoutes.ts:190-283 | a skip is taken up exactly when a safety photo is recorded, a hazard is named, and the stop exists and is neither done nor skipped; it is accepted when nothing breaks down afterwards, and changes nothing when it is not taken up |
| `StopRules.SkipIsTold` | backend/src/modules/work/routeRunStopRoutes.ts:196-227 | the text of a rejected skip, in the order of the checks |
| `StopRules.SkipWrites` | backend/src/modules/work/routeRunStopRoutes.ts:229-283 | a skip that is taken up leaves the stop skipped and its visit ended as skipped for the first hazard, adds one batch and finishes the run, as far as it gets |
| `StopService.Database.CompleteStop` | backend/src/domains/routeRunStop/cleanLogService.ts:46-245 | one atomic step: visit ensured, stop done, visit closed, one observation batch, run checked; a done stop is rejected |
| `StopService.Database.CompleteWithReport` | backend/src/modules/work/routeRunStopRoutes.ts:445-541 | the handler's validation before the transaction, and its rollback, as `StopRules.CompletionAnswers` and `StopRules.CompletionWrites` say of the tables |
| `StopRules.CompletionAnswers` | backend/src/modules/work/routeRunStopRoutes.ts:445-548 | a completion is accepted exactly when the stop exists and is not done, a photo key or a recorded photo is there, and either a cleaning is ticked with a volume of 0 to 4, or none is and it is a spot check; a rejection changes nothing |
| `StopRules.CompletionIsTold` | backend/src/modules/work/routeRunStopRoutes.ts:463-548 | the text of a rejected completion, in the order of the checks |
| `StopRules.CompletionWrites` | backend/src/domains/routeRunStop/cleanLogService.ts:46-245 | an accepted completion leaves the stop done and its visit ended as completed, adds one batch for the visit, and finishes the run when no stop of it is open |
| `StopViews.HandleRefinesViews` | backend/src/modules/work/routeRunStopRoutes.ts:190-541 | every request steps exactly its own stop as the per-stop machine says, with the same response; no other stop changes |
| `StopViews.HandleKeepsLawful` | backend/src/domains/visit/visitService.ts:182-203 | in every committed state a visit is closed exactly when its stop is done or skipped, a stop has exactly one completion batch when done and none before; done is absorbing, and a closed visit keeps its end, outcome and reason |
| `StopViews.UploadChangesNothingIff` | backend/src/domains/routeRunStop/stopPhotosService.ts:15-115 | an upload is always accepted, and leaves the tables as they were exactly when it lists no photo or the stop has no visit |
| `RunCompletion.RunAfter` | backend/src/domains/routeRun/routeRunService.ts:558-590 | the exact effect of any request on the status of any run, with or without a breakdown of the skip handler |
| `RunCompletion.LastStopFinishesRunIff` | backend/src/modules/work/routeRunStopRoutes.ts:229-283 | the request that makes the last open stop of an unconcluded run terminal leaves the run concluded exactly when it is not a skip that breaks down after its commit |
| `RunCompletion.FaultAfterLastSkipSticks` | backend/src/modules/work/routeRunStopRoutes.ts:254-282 | such a skip of the last open stop always leaves a run whose stops have all ended and which is not concluded |
| `RunCompletion.RetriedSkipChangesNothing` | backend/src/modules/work/routeRunStopRoutes.ts:190-227 | a skip of a skipped stop changes nothing, with or without a breakdown, and is rejected as already skipped when its hazards and its photo are there |
| `RunCompletion.StuckRunIsFreedIff` | backend/src/domains/routeRun/routeRunService.ts:510-590 | one call concludes such a run exactly when it completes a skipped stop of the run, or concludes the run by hand; otherwise the run stays unconcluded |
| `RunCompletion.StuckRunEndsIff` | backend/src/domains/routeRun/routeRunService.ts:510-590 | whatever follows, `startRouteRun` and `finishRouteRun` included, such a run is concluded in the end exactly when one of its skipped stops is completed, or it is concluded by hand, and it is not reopened afterwards |
| `StopRules.ByHandWrites` | backend/src/domains/routeRun/routeRunService.ts:510-556 | setting a run by hand sets its status, whatever it was, and nothing else |
| `ReplayProtocol.StepKeepsInvariant` | frontend/src/offline/OfflineSyncManager.tsx:40-147 | every step of client, network, server and other clients, page reloads included, keeps the invariant that ties replies and queue states to the server's tables |
| `ProtocolRules.AnythingCanGoWrong` | frontend/src/offline/OfflineSyncManager.tsx:40-147 | the protocol lets every call fail, every answer be lost, every request arrive again at any time, and others act freely |
| `ProtocolRules.OutcomeIsAnswered` | frontend/src/offline/OfflineSyncManager.tsx:40-147 | it lets a call succeed only on an accepting answer or without a request, and tell a code only on an answer with that code or a conflict of a start |
| `ProtocolRules.TakingUpIs` | frontend/src/offline/offlineQueue.ts:360-370 | taking up an action marks it running and sends its request under a new call number |
| `ProtocolRules.EndOfCallIs` | frontend/src/offline/offlineQueue.ts:370-433 | the end of a call leaves the queued action as its outcome says and ends the replay exactly after a network or auth error |
| `ProtocolRules.PageStepIs` | frontend/src/offline/offlineQueue.ts:133-322 | what an enqueue, a dismissal and an auth flag do to the queue while a replay runs |
| `ProtocolRules.UndisturbedCall` | frontend/src/offline/offlineQueue.ts:360-433 | from every state with an action to take up: taking it up, delivering its request once and returning the answer is an execution that does to the server what the handler does and leaves the action done or failed as it was answered |
| `ProtocolRules.UndisturbedReplay` | frontend/src/offline/offlineQueue.ts:325-438 | so does a whole replay: there is an execution that leaves the server as executing the snapshot in order does, each action of it done or failed as it was answered, and every other action as it was |
| `ReplayProtocol.ReplayIsSafe` | frontend/src/offline/offlineQueue.ts:325-438 | over all executions, with the page reloaded at any point: at most one visit per stop, a completion accepted at most once with exactly one batch, and every completion or skip that replay marked done has its stop terminal on the server |
| `ReplayProtocol.UploadedPhotosAreRecorded` | backend/src/domains/routeRunStop/stopPhotosService.ts:15-115 | photos are delivered at least once: an upload marked done was accepted, and each time it was accepted with the stop's visit there all its photos are recorded, under its kind, for good |
| `ReplayProtocol.UploadsAfterStartAreRecorded` | frontend/src/offline/OfflineSyncManager.tsx:40-147 | over all executions: once a start of the stop is settled, every upload for the stop that is settled afterwards has all its photos recorded |
| `ApiErrors.AnsweredIsNeverCoded` | frontend/src/api/routeRuns.ts:880-948 | whatever the server answers and whatever fails on the way, no executor call ends with a coded error, and none that reached the server ends with an auth error |
| `ApiErrors.SettlesIff` | frontend/src/offline/OfflineSyncManager.tsx:40-115 | an executor call ends its action as done exactly when it sent no request or its request came back accepted, and nothing failed on the device |
| `ApiErrors.RejectionSurfacesAs` | frontend/src/offline/OfflineSyncManager.tsx:40-95 | a rejection is retried exactly when its text has one of the executor's phrases, and otherwise fails the action with that text, whatever its code |
| `ErrorRules.RejectionIs` | frontend/src/offline/OfflineSyncManager.tsx:40-95 | how a rejection ends its call, for every text, and without a text by the wrapper's own |
| `ErrorRules.UnreachableIs` | frontend/src/api/routeRuns.ts:876-894 | a server that cannot be reached ends the call with a network error, unless the text asks for a photo |
| `ErrorRules.MalformedIs` | frontend/src/api/routeRuns.ts:876-894 | an answer that breaks off is a network error, one that is no JSON otherwise is retried or fails the action by its text |
| `ErrorRules.LocalFailureIs` | frontend/src/api/routeRuns.ts:876-900 | a failure on the device is an auth error exactly with status 401 or 403, then a network error by its name and text, and otherwise fails the action, the request for a retry excepted |
| `ApiErrors.RejectedCompletionFails` | backend/src/modules/work/routeRunStopRoutes.ts:445-553 | no rejection that the completion handler gives is retried, a missing after photo included |
| `ApiErrors.RejectedSkipIsRetriedIff` | backend/src/modules/work/routeRunStopRoutes.ts:190-226 | a rejected skip is retried exactly when no safety photo of the stop is recorded |
| `PlainReplay.SpentStopSettlesNoMore` | frontend/src/api/routeRuns.ts:175-213 | over all executions with the wrappers as they are: once a stop is done, no completion of it is marked done any more, and once it is skipped or done, no skip |
| `PlainReplay.TakenUpActionIsDoneIff` | frontend/src/offline/offlineQueue.ts:364-395 | a completion or skip that the server has taken up is marked done, over every execution from then on, exactly when the answer to the call that is awaited comes back before a reload |
| `PlainReplay.LostAnswerFailsCompletion` | frontend/src/offline/offlineQueue.ts:385-435 | from any tables, and for every completion with a photo key that the server accepts there: a run in which the first answer is lost and the second call answered, after which the stop is done and the completion failed |
| `ReplayMeaning.StopsAreIndependent` | backend/src/modules/work/routeRunStopRoutes.ts:190-541 | what happens to a stop, and every response, depends only on the stop's own actions in their order |
| `ReplayMeaning.RunStatusAfter` | backend/src/domains/routeRun/routeRunService.ts:558-590 | after any actions a run is finished exactly when it was open, all its stops are terminal and an action ended one of them |
| `ReplayMeaning.ReplayOrderKeepsMeaning` | frontend/src/offline/offlineQueue.ts:336-360 | replay order gives every stop the same state, every run the same status and every action the same response as enqueue order, when each stop's own actions were enqueued in replay order |
| `ReplayMeaning.SnapshotKeepsMeaning` | frontend/src/offline/offlineQueue.ts:336-360 | so it does for the pending actions of a queue in which every stop has a start, uploads, and at most one skip or completion, in that order |
| `Csv.ParseCsv` | backend/src/modules/admin/tenantRoutes.ts:520-579 | the character loop with its skips computes `Parse` |
| `CsvRules.ParsedIff` | backend/src/modules/admin/tenantRoutes.ts:520-579 | for every text, well-formed or not: the parser delivers the one grid that says, character by character, what the text says, where a character is inside quotes exactly when an odd number of quotes stands before it |
| `Csv.WriteCsv` | backend/src/scripts/sftpExport.ts:279-303 | collecting the lines and joining them prints every row, ended by a line feed |
| `CsvRules.ExportedGridIs` | backend/src/scripts/sftpExport.ts:279-303 | the header names the columns of the first row, and under each name stands the value that a row has there, or nothing when it has none or null |
| `CsvRules.PrintedCellIs` | backend/src/scripts/sftpExport.ts:284-296 | which values are quoted, with their quotes doubled, by the export and by the audit log |
| `CsvRules.PrintedLinesAre` | backend/src/scripts/sftpExport.ts:298-303 | lines of an export are ended by a line feed, lines of the audit log separated by a carriage return and a line feed |
| `Csv.ExportRoundTripIff` | backend/src/scripts/sftpExport.ts:279-303 | parsing an export gives back the header and every cell, whatever the cells hold, exactly when there is a column and no column name holds a comma, a quote, a carriage return or a line feed |
| `CsvRules.ExportRoundTripOfColumns` | backend/src/scripts/sftpExport.ts:279-303 | the same with the four characters and the columns of the first row |
| `Csv.AuditRoundTripIff` | backend/src/modules/admin/adminRoutes.ts:877-899 | with two or more columns the audit log parses to the same grid exactly when no cell holds a carriage return without also being quoted |
| `CsvRules.AuditRoundTripOfCells` | backend/src/modules/admin/adminRoutes.ts:877-899 | the same with the characters of each cell |
| `Ustar.WriteHeader` | backend/src/scripts/sftpExport.ts:318-346 | the buffer writes and the checksum loop fill the header, for every name, size and time |
| `UstarRules.NameBytes` | backend/src/scripts/sftpExport.ts:318-321 | the first hundred bytes are the first 99 characters of the name in eight bits each, then zeros |
| `UstarRules.OwnerBytes` | backend/src/scripts/sftpExport.ts:322-326 | the bytes of mode, owner and group |
| `UstarRules.NumberBytes` | backend/src/scripts/sftpExport.ts:327-334 | size and time in eleven octal digits and a zero each |
| `UstarRules.ChecksumBytes` | backend/src/scripts/sftpExport.ts:335-346 | six octal digits for the sum of all bytes with the field as spaces, a zero and a space |
| `UstarRules.MagicBytes` | backend/src/scripts/sftpExport.ts:337-341 | a regular file, the magic and the version |
| `UstarRules.ZeroBytes` | backend/src/scripts/sftpExport.ts:318-346 | every other byte of a header is zero |
| `Ustar.WriteTar` | backend/src/scripts/sftpExport.ts:311-358 | headers, padded contents and the end blocks, in order |
| `UstarRules.OneMoreFile` | backend/src/scripts/sftpExport.ts:311-358 | one more file adds its header, its contents and fewer than 512 zeros; an archive ends in 1024 zeros |
| `Ustar.ArchiveIsWholeBlocks` | backend/src/scripts/sftpExport.ts:350-358 | the archive is a whole number of 512-byte blocks |
| `Ustar.HeaderMetadata` | backend/src/scripts/sftpExport.ts:322-334 | every header reads back with mode 0644, owner and group 0, and the time of the export |
| `Ustar.ArchiveIsReadable` | backend/src/scripts/sftpExport.ts:311-358 | a reader of the ustar format accepts every header and checksum and finds the same entries with the same contents, names as far as the field holds them, for sizes and times below 8^11 |
| `Ustar.ArchiveRoundTripIff` | backend/src/scripts/sftpExport.ts:311-358 | it gives back exactly the files exactly when every name has at most 99 characters, none a NUL or wider than a byte |
| `Migrate.Client.RunMigrations` | backend/src/scripts/migrate.ts:68-138 | the loop over the files, with its set and flag, computes `Migration` on the database |
| `MigrateRules.FileIs` | backend/src/scripts/migrate.ts:94-131 | the next file is passed over exactly when it is recorded, recorded under its old name, or a legacy file while the schema is consolidated; otherwise its SQL and its name are both recorded, or neither and the run has failed |
| `MigrateRules.RunEdgesAre` | backend/src/scripts/migrate.ts:68-138 | a run begins with the database as it is, ends behind the last file, and stops for good at the first that fails |
| `MigrateRules.ConsolidatedBeforeIff` | backend/src/scripts/migrate.ts:79-92 | when the schema counts as consolidated before a run |
| `Migrate.CompletedRunIsIdempotent` | backend/src/scripts/migrate.ts:68-138 | after a completed run a second one applies nothing and changes nothing |
| `Migrate.CompletedRunRecordsFiles` | backend/src/scripts/migrate.ts:88-131 | a completed run leaves every file recorded that is not a legacy file |
| `Migrate.NoLegacyWithConsolidated` | backend/src/scripts/migrate.ts:94-115 | a run that applies the consolidated schema applies no legacy file, before or after it |
| `MigrateRules.SmallerIff` | backend/src/scripts/migrate.ts:68-71 | the order of the files: by the first character in which two names differ, a shorter name before its continuations |
| `Migrate.StopsDoNotMatter` | backend/src/scripts/migrate.ts:68-138 | however often a run is stopped, the run finally let through leaves the database of an uninterrupted run, if migrations only add rows and record neither the consolidated name nor a name with a legacy form on disk |
| `MigrateResume.ResumingIsSafeIff` | backend/src/scripts/migrate.ts:68-131 | starting again after a stop applies the files that going on would have applied, for all remaining migrations that only add rows and go through, exactly when the table shows the stopped run's flag, or neither of two dry runs over the remaining names, one of which records the consolidated name, applies a legacy file |
| `MigrateResume.MayApplyLegacyIff` | backend/src/scripts/migrate.ts:88-131 | a run without the flag applies a legacy file under some such migrations exactly when one of these dry runs does |
| `Migrate.RecordingTheConsolidatedNameMatters` | backend/src/scripts/migrate.ts:79-131 | an early file that records the consolidated name makes a stopped run skip a legacy file that the uninterrupted run applies |
| `PoolMembership.StopStore.UpdateStop` | backend/src/services/adminStopService.ts:96-189 | validation, column, dual write and rollback compute `Updated`, and return the row |
| `PoolRules.UpdateIs` | backend/src/services/adminStopService.ts:96-189 | when an update fails, and otherwise every column of every stop and every membership row afterwards |
| `PoolMembership.StopStore.BulkUpdateStops` | backend/src/services/adminStopService.ts:191-281 | the same for many stops and the flag columns, with the number of matched stops |
| `PoolRules.BulkUpdateIs` | backend/src/services/adminStopService.ts:191-281 | the same for a bulk update with its three flags |
| `PoolMembership.TouchedStopsStaySynced` | backend/src/services/adminStopService.ts:96-281 | after any requests, completed or rolled back, every stop ever given a pool has exactly its cached pool as its one active membership, and none when it is null |
| `PoolMembership.BulkIsFold` | backend/src/services/adminStopService.ts:191-246 | a bulk update of the pool equals single updates over the same stops in any order with any duplicates, errors included |
| `PoolMembership.UnknownPoolIff` | backend/src/services/adminStopService.ts:96-246 | an update to a pool that does not exist is rejected, unless the pool is empty and none of the given stops exists; then it is accepted and changes nothing |
| `Observations.SubmitObservations` | backend/src/domains/observation/observationService.ts:125-236 | the pushes compute the list of submitted types, in order |
| `ObservationRules.SubmittedIs` | backend/src/domains/observation/observationService.ts:125-236 | one observation per hazard stated, one per action done in the fixed order, one for the volume when given, one per issue stated, in this order |
| `ObservationRules.HazardIs` | backend/src/domains/observation/observationService.ts:240-301 | the type of every hazard key, old and new |
| `ObservationRules.GlassIssueIs` | backend/src/domains/observation/observationService.ts:247-311 | the types of the keys for glass and panels, old and new |
| `ObservationRules.LightingIssueIs` | backend/src/domains/observation/observationService.ts:247-311 | the type of the keys for lighting, old and new |
| `ObservationRules.StructureIssueIs` | backend/src/domains/observation/observationService.ts:247-311 | the type of the keys for the structure, old and new |
| `ObservationRules.SiteIssueIs` | backend/src/domains/observation/observationService.ts:247-311 | the types of the keys for graffiti and plants, old and new |
| `ObservationRules.ReceptacleIssueIs` | backend/src/domains/observation/observationService.ts:247-311 | the type of the keys for receptacles, old and new |
| `ObservationRules.WasteIssueIs` | backend/src/domains/observation/observationService.ts:247-311 | the type of the key for contaminated waste |
| `ObservationRules.OtherIssueIs` | backend/src/domains/observation/observationService.ts:303-311 | every other issue is some other issue |
| `Observations.SubmittedIffFlag` | backend/src/domains/observation/observationService.ts:125-311 | a submission writes an action key exactly when its flag is set, whatever hazards and issues it lists |
| `ObservationRules.ActionsSubmitted` | backend/src/domains/observation/observationService.ts:125-236 | each of the five keys is submitted exactly when its own flag is set |
| `Observations.ObservationTable.InsertObservations` | backend/src/domains/observation/observationService.ts:314-386 | one normalised row per observation, by the rules of the registry |
| `ObservationRules.RowIs` | backend/src/domains/observation/observationService.ts:314-386 | one row per type, in order; a registered type gets the id and the kind of the registry, and only an action itself as its intervention |
| `Observations.PivotIff` | backend/src/domains/observation/cleanLogsCanonicalQuery.ts:66-103 | the pivot of a visit shows a key exactly when some batch of that visit submitted it while the registry marked it as an action |
| `ObservationRules.ProjectedColumns` | backend/src/domains/observation/cleanLogsCanonicalQuery.ts:66-103 | each of the five columns is true exactly when an action row of the visit names that action |
| `Observations.ProjectionOfCompletionIff` | backend/src/domains/observation/cleanLogsCanonicalQuery.ts:66-103 | the five projected columns of a visit are the booleans of its one completion, whatever else was written, exactly when the registry marked every key whose flag was set |
| `CleanLogs.CompletionIsListed` | backend/src/domains/observation/cleanLogsCanonicalQuery.ts:138-139 | an accepted completion meets the query's outcome and end conditions exactly when the stop had not been skipped before |
| `ObservationRules.ListedIs` | backend/src/domains/observation/cleanLogsCanonicalQuery.ts:138-139 | the query lists a visit exactly when it has ended with the outcome completed and the rows are there that it joins |
| `ObservationRules.ReportIs` | backend/src/modules/work/routeRunStopRoutes.ts:468-475 | the handler sees a cleaning exactly when one of the five actions is ticked |
| `ObservationRules.CompletionObserved` | backend/src/domains/routeRunStop/cleanLogService.ts:82-190 | an accepted completion writes its submission, behind a spot check if it is one, and a rejected one nothing |
| `ObservationRules.SkipObserved` | backend/src/modules/work/routeRunStopRoutes.ts:254-276 | a skip writes its hazards and nothing else |
| `CleanLogs.CompletionIsReadBackIff` | backend/src/domains/observation/cleanLogsCanonicalQuery.ts:66-158 | over all histories before and after an accepted completion: the unfiltered query lists the visit exactly when the rows it joins to the visit are there and the stop was not skipped when it was completed, and with the completion's five booleans exactly when, besides, the registry marked every key whose flag was set |
| `CleanLogs.NothingIsReadBefore` | backend/src/domains/observation/cleanLogsCanonicalQuery.ts:138-139 | until a completion is accepted the visit is not listed |

## Left out

- Stops.Normalize: folds ASCII letters and trims ASCII white space only; `toUpperCase` and `trim` on other characters are not modelled. All route lemmas hold for every corridor key.
- Csv.ToCsv: values are taken as text already; the hexadecimal rendering of buffers and `String(value)` are not modelled.
- Ustar.WriteTar: gzip is not modelled; the archive is the one before compression.
- Observations.ObservationTable.InsertObservations: the graded columns `norm_status` and `norm_severity`, payloads and severities of a row are not modelled, since the read path of the booleans ignores them.
- CleanLogs.ReadBack: whether the rows are there that the query joins is a parameter; its filters on stop, date and pool, and its other columns are not modelled.
- Observations.MapSafetyHazard: a key such as `constructor` that JavaScript finds on every object is treated as unmapped.
- CandidateSelection.PrefetchSelectsTheSameScores: says nothing of bumps and includes, with which a stop beyond row 200 may rank differently.
- ReplayMachine.Next: failing or corrupt browser storage and the subscribers of the queue are not modelled.
- ApiErrors.Wrapper: values thrown on the device have no `json` method and no `response`; a JSON body that is not an object is not modelled.
- StopTables.Handle: transactions are atomic; two completions interleaved under READ COMMITTED are not modelled.
- StopTables.CreatePhotos: the limit of ten files, file types and blob storage are not modelled.
- RoutePipeline.PlanRouteRun: the requests to the routing engine, its approach options and its errors are not modelled; neither is the insertion of the planned run into the database.
- Migrate.Client.RunMigrations: takes the sorted list of SQL files as given; reading the directory and the files, the session settings and the exit code are not modelled.
- Row-level security, tenants other than the worker's own queue key, and audit and identity sidecars.
- Risk scores and their SQL, authentication, the user interface, uploads to SFTP and S3, export-delete tokens.
- Rounding of floating point numbers and NaN.
