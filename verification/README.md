# FastFlowTransform: a verified model of the build pipeline

FastFlowTransform validates a graph of models, selects a part of it, cuts it into levels, runs each
level in parallel batches and skips the models whose fingerprint is unchanged. This project models
that pipeline in Dafny and proves what it is for: a run that skips nodes leaves the warehouse exactly
as a rebuild from scratch would, whatever the interleaving. Around it stand the graph algorithms, the
packing of batches, the fingerprint store, incremental models, column lineage, the rate limiter and
the version ranges of packages.

The files form one Dafny project, listed by `dfyconfig.toml`. Every lemma switches automatic induction
off, so each proof is the one that is written down.

## Modules

| file | contents |
|---|---|
| Common.dfy, Names.dfy, Graphs.dfy | small shared types; names in Python's string order, dependency graphs, paths, cycles, ranks |
| Dag.dfy | `topo_sort` and `levels` |
| Packing.dfy | worker counts, round-robin and longest-first batches |
| RunModel.dfy | projects, fingerprints as trees, the table a fingerprint stands for |
| Scheduler.dfy | `schedule` and `_run_level` as a step system; safety and accounting |
| CachedRuns.dfy | refinement of a full rebuild, confluence, which models are built, runs that do not write the cache, histories of runs, stale skips |
| Progress.dfy | no deadlock, no worker that waits for another, no endless run |
| CacheStore.dfy | the fingerprint store, `compute_current`, `modified_set` |
| RunEngine.dfy | the `_RunEngine` object; with one worker it refines the step system |
| Selection.dfy | selection, downstream closure, models affected by a change, and when levels can be cut from them |
| Incremental.dfy, PythonMerge.dfy | incremental SQL models and the Python frame merge |
| Lineage.dfy | expansion of CTE edges |
| RateLimit.dfy | the token bucket |
| Packages.dfy | versions and version ranges |

## What the model takes for granted

- A registry node is stored under its own name, so a graph maps a name to its dependency list.
- A fingerprint is kept as the tree it hashes: equal SHA-256 digests are taken to mean equal inputs.
  `CacheStore` instead takes the hash as a parameter without collisions and proves the encoding of its
  input injective.
- A model computes its table from its fingerprinted text, the environment and its dependencies'
  tables, and from nothing else; external sources do not change between the compared runs.
- Inside a run, fingerprints are always computed, models are stored as tables, and no two models of the
  project share a relation, that is, none is named like another one with `.ff` added (`InjectiveRelationsIff`).
- The cache never forgets a name. Theorems about the next run (`PersistRestoresAgreement`,
  `UnsavedRunKeepsAgreementIff`, `HistoryRebuilds`) also need that no cached name outside the selection,
  such as a retired `users` beside a new `users.ff`, has a relation of the selection.
- Durations and times are real numbers; rounding is not part of the model.
- Step boundaries in `Scheduler` lie where a thread touches shared state. A crashing model may leave
  anything in its own relation.

## Where the code does something else than one would read

- Under `--keep-going` a failing node still drops the rest of its own batch
  (docs/Cache_and_Parallelism.md:35-36 suggests otherwise): `KeepGoingCanDropANode` is such a run.
  `LevelStartedIff` says exactly when a whole level is started, and by `SingleBatchesDropNothing` batches of at
  most one node drop nothing.
- A future that fail-fast cancels is counted as one extra failure of the level (`LevelAccounting`,
  `FailFastCanCancel`).
- A read-only run that builds an edited model makes a later skip stale once the edit is undone
  (`ReadOnlyRunCanMakeASkipStale`). So does a writing run that builds an edited model and then fails, as
  when a hook after the model raises, because a failed run saves nothing (`FailedRunCanMakeASkipStale`), and
  a complete writing run that a budget error or a hook at its end stops before the cache is written
  (`UnsavedRunCanMakeASkipStale`). `UnsavedRunKeepsAgreementIff` and `UnsavedCompleteRunKeepsAgreementIff` say
  exactly when a run that does not save is harmless: in short, when no cached model it touched was edited.
- `compute_affected_models` can miss a descendant of a changed model (`AffectedCanMissADescendant`);
  `DocumentedIff` gives the exact condition on the graph.
- `--changed-since` can ask for a model without one of its dependencies, and the cut into levels then reports it
  missing, without selectors (`AffectedCanLackADependency`) as well as with them (`SelectedCanLackADependency`).
  `AffectedHasLevelsIff` says exactly when it does not, on every valid graph and for every selection.
- DuckDB's merge evaluates the model's query a second time after the deletion. For a query that reads its own
  table, as the repository's examples do (examples/incremental_demo/models/common/fct_events_sql_inline.ff.sql:29-33),
  a late update ends up in the table twice (`LateUpdateIsDuplicated`); `NewerRowsRefreshIff` gives the exact
  condition on the stored rows and the source, and `NewerRowsRefresh` shows that rows arriving in order are safe.
- `wait` on a partly filled bucket never returns if sleeps are exact (`WaitReturnsIff`).
- A merge repeated with an incomplete key duplicates rows (`MergeIsIdempotentIff`), and a Python merge
  with an empty side is not deduplicated (`OneRowPerKeyIff`).
- `^1.2.3-rc1` is rejected although suffixes are documented as ignored (`CaretReadableIff`), and so is such a
  version after any operator (`OperatorReadableIff`); `~1.2.3-rc1` is accepted (`TildeIsExact`).

## Model

| member | source | states |
|---|---|---|
| Names.TextLtIff | src/fastflowtransform/dag.py:28-33 | names are ordered at the first place where they differ, and a proper prefix comes first |
| Dag.MissingIsExact | src/fastflowtransform/dag.py:12-18 | reported are exactly the nodes with an unknown dependency, each with its unknown dependencies, sorted |
| Dag.TopoSort | src/fastflowtransform/dag.py:11-41 | missing dependencies are reported exactly; with none missing, the cycle error comes iff there is a cycle and lists exactly the nodes on or below one; otherwise the result is a permutation with dependencies first, and the lexicographically least of all such orders |
| Dag.Degrees | src/fastflowtransform/dag.py:20-25 | in-degrees count distinct dependencies, and the out-sets are the dependents |
| Dag.Release | src/fastflowtransform/dag.py:33-36 | one pass over the dependents keeps in-degrees equal to the unfinished dependencies and frees exactly the nodes that became ready |
| Dag.Levels | src/fastflowtransform/dag.py:44-87 | errors on the same graphs as `TopoSort` with the same node list; otherwise each node sits, sorted, in the one level numbered by its longest dependency chain |
| Dag.CutIsStratified | src/fastflowtransform/dag.py:61-87 | the levels partition the nodes and every dependency lies in a strictly earlier level |
| Dag.HasDependencyJustBelow | src/fastflowtransform/dag.py:71-80 | beyond the first level every node depends on a node of the level just before |
| Dag.LevelIsAntichain | src/fastflowtransform/dag.py:44-51 | nodes of one level are mutually independent, also transitively |
| Dag.LevelsAreOptimal | src/fastflowtransform/dag.py:61-87 | no schedule by levels that respects the dependencies places any node earlier or uses fewer levels |
| Graphs.StuckIsBelowCycle | src/fastflowtransform/dag.py:38-40 | nodes that all keep an unfinished dependency are on a cycle or depend on one |
| Packing.ResolveJobs | src/fastflowtransform/run_executor.py:78-134 | the worker count lies between one and the level size, is one for unreadable or non-positive `jobs`, equals a positive `jobs` and for `auto` the engine's ceiling unless the level is smaller; that ceiling is at most 4, 16 or 8 and what the machine offers |
| Packing.PartitionGroups | src/fastflowtransform/run_executor.py:137-172 | the batches hold exactly the names; without durations they are dealt in turn; with durations each name, longest first, goes to the first of the least loaded batches, which is within (4/3 - 1/(3k)) of any split into k batches, and batches differ by at most the longest duration |
| Packing.PackGreedily | src/fastflowtransform/run_executor.py:162-172 | the batches are the ones of greedy packing over the stably sorted names; the bound and the balance hold against every rival split |
| Packing.DealRoundRobin | src/fastflowtransform/run_executor.py:156-160 | name number i is in batch i mod k, as its number i div k; the batches hold exactly the names |
| Packing.SortIsStable | src/fastflowtransform/run_executor.py:163 | sorting by falling duration keeps the order of equal durations |
| Packing.UnknownNamesWeighNothing | src/fastflowtransform/run_executor.py:163-170 | a batch weighs its known durations; a name without one weighs nothing |
| Packing.LongNamesFit | src/fastflowtransform/run_executor.py:167-170 | when every name is longer than a third of the rival's makespan, greedy packing never exceeds that makespan |
| Packing.AverageFits | src/fastflowtransform/run_executor.py:167-170 | a short name put on the least loaded batch stays within the bound |
| RunModel.RelationDropsSuffix | src/fastflowtransform/core.py:894-901 | the model `s.ff` is stored in the relation `s`, for every s |
| RunModel.RelationKeepsName | src/fastflowtransform/core.py:894-901 | a model whose name does not end in `.ff` is stored under its own name |
| RunModel.SharedRelationIff | src/fastflowtransform/core.py:894-901 | two models share a relation iff one is named like the other with `.ff` added, and the shorter name does not end so itself |
| RunModel.TrueFpExact | src/fastflowtransform/fingerprint.py:211-262 | a model keeps its fingerprint iff kind, text, environment and set of dependencies agree in it and in everything upstream |
| RunModel.TrueFpDenotesRebuild | src/fastflowtransform/fingerprint.py:211-262 | the table a current fingerprint stands for is the table a rebuild from scratch computes |
| Scheduler.LevelsGiveValidConfig | src/fastflowtransform/cli/run.py:1633-1637 | what `levels` returns is a cut the schedule may be run on |
| Scheduler.RunIsSafe | src/fastflowtransform/run_executor.py:222-348 | in every interleaving, for all batches and both policies, a node starts only after all its dependencies succeeded, never twice, and never above a level with a failure |
| Scheduler.StepKeepsInv | src/fastflowtransform/run_executor.py:230-293 | every step of a worker or of the collecting thread keeps the scheduler's invariant |
| Scheduler.BatchesSettle | src/fastflowtransform/run_executor.py:230-274 | a finished level leaves of every batch a successful prefix, at most one failure after it, and nothing started beyond |
| Scheduler.LevelAccounting | src/fastflowtransform/run_executor.py:276-299 | `failed` holds exactly the nodes that failed, and the level's own key iff a future was cancelled; the ok count is the number of nodes of the level that succeeded; both add up to the nodes started, plus one if a future was cancelled; failures number at most the batches |
| Scheduler.RecordedFailures | src/fastflowtransform/run_executor.py:276-285 | at any point of any run, a node recorded as failed has failed |
| Scheduler.CancelledOnlyAfterFailure | src/fastflowtransform/run_executor.py:282-293 | a future is cancelled only under fail-fast and after a node failed, and has started nothing |
| Scheduler.FailFastCanCancel | src/fastflowtransform/run_executor.py:276-299 | a concrete fail-fast run in which a failing node cancels the other batch: two failures are reported for one node that failed |
| Scheduler.NewNodesAreNew | src/fastflowtransform/run_executor.py:227-296 | the nodes timed since a level was opened are its own timed nodes |
| Scheduler.LevelStartedIff | src/fastflowtransform/run_executor.py:230-293 | in a level that is over, under either policy, every node was started iff every failure came last in its batch and only empty batches were cancelled; `keep_going` cancels none |
| Scheduler.SingleBatchesDropNothing | src/fastflowtransform/run_executor.py:230-293 | under `keep_going` a level cut into batches of at most one node is started as a whole, whatever fails |
| Scheduler.KeepGoingCanDropANode | src/fastflowtransform/run_executor.py:230-256 | a concrete `keep_going` run that never starts a node of its level |
| Scheduler.OpenPartitions | src/fastflowtransform/run_executor.py:222-274 | batches that split a duplicate-free level give every node to exactly one worker |
| Scheduler.AnySplitOpens | src/fastflowtransform/run_executor.py:222-274 | a level may be cut in any way, and all its batches may be under way at once |
| Scheduler.WorkersDoNotBlock | src/fastflowtransform/run_executor.py:230-293 | what one worker can do, no step of another one prevents |
| Scheduler.LitterIsArbitrary | src/fastflowtransform/run_executor.py:241-255 | a model that raises may leave anything in its own relation |
| CachedRuns.InjectiveRelationsIff | src/fastflowtransform/core.py:894-901 | no two models of a selection collide iff none is another one with `.ff` added |
| CachedRuns.UsersRunWritesUsers | src/fastflowtransform/core.py:894-901 | a concrete run of the model `users.ff` over an empty warehouse ends with the relation `users` and no relation `users.ff` |
| CachedRuns.CachedRunIsRebuild | src/fastflowtransform/cli/run.py:307-357 | any error-free run leaves every selected relation as a rebuild from scratch, other relations untouched, and exactly the selected nodes timed and fingerprinted |
| CachedRuns.StepKeepsContent | src/fastflowtransform/cli/run.py:183-212 | every step keeps: finished nodes are rebuilt and rightly fingerprinted, unstarted relations are as before |
| CachedRuns.AnyRunIsSound | src/fastflowtransform/cli/run.py:307-357 | the same for runs that fail or are still going on |
| CachedRuns.SkipIsSound | src/fastflowtransform/cache.py:201-220 | a node that may be skipped already holds the table it would be rebuilt to |
| CachedRuns.BuiltIff | src/fastflowtransform/cli/run.py:317-350 | which models a run builds is decided before it starts, whatever the interleaving: one that succeeded was built iff it was forced or its current fingerprint, the mode, the cache and the warehouse did not allow to skip it |
| CachedRuns.BuildIsNotPrevented | src/fastflowtransform/run_executor.py:230-256 | a model that can be built still can after any step of another worker, also a failing one |
| CachedRuns.Confluence | src/fastflowtransform/run_executor.py:308-351 | two error-free runs of a project from one warehouse end with equal warehouses, fingerprints and timed nodes, whatever their batches, interleavings, modes, caches, forced models and policies |
| CachedRuns.PersistRestoresAgreement | src/fastflowtransform/cli/run.py:1140-1143 | after a run that writes the cache, every cached fingerprint stands for its relation again |
| CachedRuns.HistoryRebuilds | src/fastflowtransform/cli/run.py:1140-1143 | in any history over changing projects, selections and modes whose runs either saved the cache or did no harm without saving it, for whatever reason, every complete run leaves its selection rebuilt |
| CachedRuns.FirstHistoryRebuilds | src/fastflowtransform/cache.py:53-61 | the same for a history that starts without a cache, over any warehouse |
| CachedRuns.UnsavedRunKeepsAgreementIff | src/fastflowtransform/cli/run.py:1886-1906 | a run that has returned, complete or failed, in any mode, without saving keeps cache and warehouse in agreement iff no cached node that succeeded changed meaning and no failed node left other rows; unchanged fingerprints suffice, and are necessary when different inputs give different tables |
| CachedRuns.UnsavedCompleteRunKeepsAgreementIff | src/fastflowtransform/cli/run.py:1140-1143 | for a complete run that does not save this is decided before the run: every selected cached fingerprint is the current one |
| CachedRuns.RunsKeepOwnEntries | src/fastflowtransform/cache.py:91-94 | every cache that runs have written holds fingerprints of its own nodes over fingerprints of their dependencies |
| CachedRuns.ReadOnlyRunCanMakeASkipStale | src/fastflowtransform/cli/run.py:484-511 | a concrete read-only run after which a completed run skips a node whose relation is wrong |
| CachedRuns.UnsavedRunCanMakeASkipStale | src/fastflowtransform/cli/run.py:1894-1906 | a concrete complete writing run that does not reach the saving, with the same effect |
| CachedRuns.FailedRunCanMakeASkipStale | src/fastflowtransform/cli/run.py:1140-1143 | a concrete failed writing run with the same effect |
| Progress.NoDeadlock | src/fastflowtransform/run_executor.py:327-348 | a run that has neither completed nor stopped at a failed level can go on without a crash; in particular every model finds its inputs |
| Progress.EveryWorkerGoesOn | src/fastflowtransform/run_executor.py:230-293 | at any moment every future that is not collected has a step of its own other than a crash; none waits for another |
| Progress.RunsEnd | src/fastflowtransform/run_executor.py:276-348 | no infinite sequence of states is a run |
| CacheStore.FingerprintCache.Load | src/fastflowtransform/cache.py:53-61 | a readable file of the right version gives its entries, a broken one none, another version changes nothing |
| CacheStore.FingerprintCache.Save | src/fastflowtransform/cache.py:63-81 | the file holds the version, the engine, the profile and the entries |
| CacheStore.FingerprintCache.Set | src/fastflowtransform/cache.py:87-89 | one entry changes |
| CacheStore.FingerprintCache.UpdateMany | src/fastflowtransform/cache.py:91-94 | the new fingerprints override the old entries, the others stay |
| CacheStore.SaveThenLoad | src/fastflowtransform/cache.py:53-94 | what one store saves, a new one loads |
| CacheStore.CollectDepFps | src/fastflowtransform/cache.py:170 | in topological order the filter on known dependencies drops none |
| CacheStore.ComputeCurrent | src/fastflowtransform/cache.py:118-176 | gives every node its chained fingerprint, or exactly the error `topo_sort` raises, with its list |
| CacheStore.EncodeInjective | src/fastflowtransform/cache.py:159-164 | the NUL-terminated encoding of NUL-free parts is injective |
| CacheStore.HashedBytes | src/fastflowtransform/cache.py:159-175 | hashed are the tag, the name, the source, the environment and the fingerprints of the dependencies in order, each ended by a NUL |
| CacheStore.MerkleExact | src/fastflowtransform/cache.py:166-176 | a node keeps its fingerprint iff kind, source, environment and dependency lists agree throughout its upstream unfolding |
| CacheStore.SameFpSameUnfolding | src/fastflowtransform/cache.py:166-176 | equal fingerprints, even of different registries, come from the same node with the same unfolding |
| CacheStore.ModifiedSet | src/fastflowtransform/cache.py:178-188 | the modified nodes are those without a saved entry or with a different one; an empty store takes what `load` gives first; sort errors pass through |
| CacheStore.ModifiedIsChanged | src/fastflowtransform/cache.py:178-188 | against entries of an earlier state, modified means new or changed upstream |
| CacheStore.ModifiedIsClosedDownstream | src/fastflowtransform/cache.py:178-188 | dependents of a modified node are modified |
| CacheStore.ModifiedPlusAddsNothing | src/fastflowtransform/cli/selectors.py:202-224 | for such entries the downstream closure of `state:modified+` is `state:modified` itself |
| RunEngine.Engine.MaybeFingerprint | src/fastflowtransform/cli/run.py:183-212 | the candidate holds for every dependency the computed fingerprint, else the cached one, else the empty one, and is the current one once the dependencies are finished |
| RunEngine.Engine.ShouldSkipNode | src/fastflowtransform/cli/run.py:476-511 | skips iff there is a fingerprint, the mode allows it, the cached one is the same and the relation exists or the model is ephemeral; records the fingerprint then |
| RunEngine.Engine.StoreFingerprint | src/fastflowtransform/cli/run.py:531-533 | one computed fingerprint changes |
| RunEngine.Engine.RunModel | src/fastflowtransform/cli/run.py:378-407 | writes the model's table to its relation iff the model does not raise and every relation it reads exists; a missing input leaves everything as it was, a model that raises whatever it leaves |
| RunEngine.Engine.RunForced | src/fastflowtransform/cli/run.py:442-474 | a forced node is built first and fingerprinted afterwards |
| RunEngine.Engine.RunNode | src/fastflowtransform/cli/run.py:307-357 | the whole effect of one node, forced, skipped, built or failed |
| RunEngine.Engine.RunNext | src/fastflowtransform/run_executor.py:230-256 | what the object does with a node is a run of the step system that ends with the node succeeded or failed |
| RunEngine.Engine.PersistOnSuccess | src/fastflowtransform/cli/run.py:1140-1143 | the computed fingerprints are saved over the old ones iff nothing failed and the mode writes; otherwise the store stays as it was |
| RunEngine.Engine.RunLevel | src/fastflowtransform/run_executor.py:222-293 | one batch in order until a node fails, which is then the only one recorded, those before it having succeeded and those after it not started; a run of the step system that closes the level or halts in it; over a truthful cache only a model that raises fails |
| RunEngine.Engine.Schedule | src/fastflowtransform/run_executor.py:327-348 | level after level until a node fails, the only one recorded; a run from the start; completed over a truthful cache it leaves the warehouse rebuilt, and only a model that raises stops it |
| Selection.Spread | src/fastflowtransform/ci/changed_since.py:136-152 | the worklist loop finds exactly the nodes reachable without re-entering the nodes already marked |
| Selection.DownstreamClosure | src/fastflowtransform/cli/selectors.py:173-188 | the least set with the names that is closed under dependents |
| Selection.SelectedSubgraph | src/fastflowtransform/cli/selectors.py:227-292 | exactly the surviving seeds and everything they depend on |
| Selection.PullDependencies | src/fastflowtransform/cli/selectors.py:281-292 | the loop that adds dependencies takes all seeds and leaves nothing pending |
| Selection.SelectionIsLeast | src/fastflowtransform/cli/selectors.py:235-241 | the selection is the least dependency-closed set with the surviving seeds and contains nothing excluded or downstream of an exclusion |
| Selection.SelectionIsValid | src/fastflowtransform/cli/run.py:1633-1637 | cutting a selection of a valid graph into levels finds no cycle, and no missing dependency iff the selection is dependency-closed |
| Selection.ComputeAffected | src/fastflowtransform/ci/changed_since.py:106-154 | the changed nodes, their ancestors, and exactly the nodes reachable along dependents outside those |
| Selection.AffectedIsDocumented | src/fastflowtransform/ci/changed_since.py:110-117 | nothing undocumented is ever affected |
| Selection.DocumentedIff | src/fastflowtransform/ci/changed_since.py:110-117 | changed, ancestors and descendants are computed iff every node outside the upstream closure that depends on an unchanged node between two changed ones also depends on a changed node or on a descendant outside that closure |
| Selection.IndependentChangesAreDocumented | src/fastflowtransform/ci/changed_since.py:110-117 | so the documentation holds when no changed model is downstream of another |
| Selection.AffectedCanMissADescendant | src/fastflowtransform/ci/changed_since.py:145-153 | a concrete graph in which a descendant of a changed model is missed |
| Selection.ApplyChangedSince | src/fastflowtransform/cli/run.py:1562-1601 | the affected models, within the selection if there are selectors |
| Selection.AffectedIffBelowOutside | src/fastflowtransform/ci/changed_since.py:145-153 | beyond the upstream closure, the affected models are those that a chain of dependencies outside it connects to a changed one |
| Selection.AffectedHasLevelsIff | src/fastflowtransform/cli/run.py:1597-1637 | the affected part of a dependency-closed selection can be cut into levels iff every dependency of a selected model below a change is in the upstream closure or below a change itself |
| Selection.AllAffectedHaveLevelsIff | src/fastflowtransform/cli/run.py:1600-1637 | the same without selectors |
| Selection.DocumentedHasLevelsIff | src/fastflowtransform/cli/run.py:1597-1637 | where the documented set is computed, iff every dependency of a selected descendant is documented |
| Selection.SelectedCanLackADependency | src/fastflowtransform/cli/run.py:1597-1598 | a concrete selection by `--select` that is dependency-closed until the change filter narrows it |
| Selection.AffectedCanLackADependency | src/fastflowtransform/cli/run.py:1600-1601 | a concrete graph where the affected set lacks a dependency of one of its models |
| Incremental.SurvivesIff | src/fastflowtransform/executors/duckdb.py:338-342 | a stored row survives the deletion iff against every row of the delta some key column is missing, is NULL or differs; without key columns nothing is deleted |
| Incremental.KeyedIff | src/fastflowtransform/executors/duckdb.py:338-342 | no two rows collide and none fails to collide with itself iff all key tuples are complete and pairwise different |
| Incremental.MergeIsUpsert | src/fastflowtransform/executors/duckdb.py:328-346 | by key tuple, the merged table is the stored one overridden by the delta |
| Incremental.SecondColumnCounts | src/fastflowtransform/executors/duckdb.py:338-342 | a concrete merge on two key columns that keeps a row differing in the second one |
| Incremental.MergeIsRefreshIff | src/fastflowtransform/executors/duckdb.py:328-346 | for keyed rows, deleting collisions and inserting the delta gives the full query's rows iff the delta holds only those rows and covers every new, changed and vanished one |
| Incremental.InsertsAndUpdatesAreCovered | src/fastflowtransform/executors/duckdb.py:328-346 | a source that only inserts and updates is covered once the changed rows are in the delta |
| Incremental.MergeIsIdempotentIff | src/fastflowtransform/executors/duckdb.py:338-346 | merging a delta again changes nothing iff all its keys are complete |
| Incremental.MergedTwiceIsRefreshIff | src/fastflowtransform/executors/duckdb.py:338-346 | whatever the query reads: the deletion by its first result and the insertion of its second one refresh a keyed table iff every outdated row is hit, only current rows are inserted, and a current row is inserted iff it was not stored or was deleted |
| Incremental.NewerRowsRefreshIff | src/fastflowtransform/executors/duckdb.py:338-346 | merging the rows newer than the table's newest refreshes it iff every stored row that is no longer in the source shares its key with a newer row, and every source row not newer than the stored rows still current is stored |
| Incremental.NewerRowsRefresh | src/fastflowtransform/executors/duckdb.py:338-346 | so it does when rows arrive in order and keys do not vanish, although the query reads the table |
| Incremental.LateUpdateIsDuplicated | src/fastflowtransform/executors/duckdb.py:338-346 | a concrete late update that leaves two rows with one key |
| Incremental.Executor.CreateTableAs | src/fastflowtransform/executors/duckdb.py:318-321 | creates the table or fails on an existing one |
| Incremental.Executor.FullRefresh | src/fastflowtransform/incremental.py:178-207 | the executor's own refresh if it has one, overwriting or dropping first; otherwise create, and on failure create or replace; and what a failure leaves |
| Incremental.Executor.IncrementalMerge | src/fastflowtransform/executors/duckdb.py:328-346 | the table holds what the deletion leaves followed by the rows the query selects after the deletion; if the query does not read the table, these override the stored rows by key tuple; a failure in between leaves the purged table; nothing else changes |
| Incremental.Executor.IncrementalInsert | src/fastflowtransform/executors/duckdb.py:323-326 | appends the selected rows |
| Incremental.Executor.MergeOrInsertWithFallback | src/fastflowtransform/incremental.py:213-254 | merge, refresh when merging is unsupported, raise on other merge errors; without keys insert, refresh when that fails; it raises iff the way it takes fails |
| Incremental.Executor.RunOrDispatch | src/fastflowtransform/incremental.py:260-345 | it raises before the contract check iff the merge breaks or the refresh it needs fails; otherwise a keyed incremental model ends with the full query's rows, where the delta holds current rows only, every new or changed one, and one with the key tuple of every row that is gone; a raising build leaves the old, the dropped or the purged table; no other table ever changes |
| PythonMerge.OneRowPerKeyIff | src/fastflowtransform/executors/base.py:44-63 | one row per key iff both frames have rows or the only one already has unique keys |
| PythonMerge.MergedRows | src/fastflowtransform/executors/base.py:44-63 | the merge holds rows of the two frames, unchanged; with rows on both sides in the order of their keys |
| PythonMerge.MergeExists | src/fastflowtransform/executors/base.py:44-63 | any two frames have a merge |
| PythonMerge.FoldExists | src/fastflowtransform/executors/base.py:32-63 | any deltas can be merged one after the other |
| PythonMerge.TupleLeIff | src/fastflowtransform/executors/base.py:60-61 | tuples are ordered at the first place where they differ, and a prefix comes first |
| PythonMerge.MergeKeepsGreatest | src/fastflowtransform/executors/base.py:55-63 | the result has the keys of both frames, each with the greatest update tuple |
| PythonMerge.FoldKeepsGreatest | src/fastflowtransform/executors/base.py:32-63 | merging deltas one at a time gives the same key-to-update map as all rows at once |
| PythonMerge.FoldOrderIrrelevant | src/fastflowtransform/executors/base.py:32-63 | the order of the deltas and the cut into deltas do not matter |
| PythonMerge.KeepLastIff | src/fastflowtransform/executors/base.py:62 | a row is kept iff no later row has its key |
| PythonMerge.KeepLastIsUnique | src/fastflowtransform/executors/base.py:62 | keeping the last row of every key leaves one row per key |
| PythonMerge.KeepLastKeepsGreatest | src/fastflowtransform/executors/base.py:60-62 | on a sorted frame it keeps the greatest update of every key |
| Lineage.DedupeItems | src/fastflowtransform/lineage.py:824-842 | keeps the first occurrence of every valid item, in order; items differ if relation, column, transformation or confidence does |
| Lineage.FirstsMembers | src/fastflowtransform/lineage.py:824-842 | no valid item is lost and no invalid one kept |
| Lineage.FirstsDistinct | src/fastflowtransform/lineage.py:824-842 | no item is kept twice |
| Lineage.FirstsInOrder | src/fastflowtransform/lineage.py:824-842 | the kept items come in the order of their first occurrences |
| Lineage.ExpandEdgesConcat | src/fastflowtransform/lineage.py:684-698 | edges are expanded one after the other, each in its place |
| Lineage.ExpandCteEdges | src/fastflowtransform/lineage.py:675-703 | every column's edges are expanded, filtered and deduplicated; columns without edges disappear |
| Lineage.InferLineage | src/fastflowtransform/lineage.py:61-74 | each output column gets exactly the ends of the scoped trails from its edges through earlier CTEs, transformed if any edge on the way is, without duplicates |
| Lineage.ExpansionIsTrails | src/fastflowtransform/lineage.py:675-703 | one in-order pass is enough: expansion against the known CTEs equals following every trail to its end |
| RateLimit.TokenBucket.Refill | src/fastflowtransform/api/rate_limit.py:22-27 | the bucket holds the lesser of its capacity and of its tokens plus the rate times the elapsed time; a clock that stands still or goes back changes nothing |
| RateLimit.TokenBucket.TryConsume | src/fastflowtransform/api/rate_limit.py:45-55 | grants iff disabled, or neither the capacity nor the tokens plus the rate times the elapsed time fall short of the cost; takes the cost then, and nothing otherwise |
| RateLimit.TokenBucket.WaitOnce | src/fastflowtransform/api/rate_limit.py:33-43 | one turn: grants on the same terms, or drops the partial tokens and asks for a positive sleep |
| RateLimit.AttemptIsExact | src/fastflowtransform/api/rate_limit.py:45-55 | what an attempt is granted and leaves, in numbers |
| RateLimit.WaitIsExact | src/fastflowtransform/api/rate_limit.py:33-43 | a turn in vain leaves no tokens, and its sleep times the rate, at least 1e-9, is what the tokens it found fall short of the cost |
| RateLimit.TokensAreConserved | src/fastflowtransform/api/rate_limit.py:22-55 | over any operations in time order, the tokens left, granted and lost are those at the start plus the rate times the elapsed time; lost are what overflows the capacity and what waits in vain throw away |
| RateLimit.TokensStayInRange | src/fastflowtransform/api/rate_limit.py:22-55 | over any interleaving tokens stay between zero and the capacity |
| RateLimit.WindowBound | src/fastflowtransform/api/rate_limit.py:22-55 | in any window of any interleaving at most capacity plus rate times elapsed time is granted |
| RateLimit.WaitReturnsIff | src/fastflowtransform/api/rate_limit.py:29-43 | with exact sleeps and no competitor `wait` returns iff the tokens suffice at once or the bucket is empty, large enough and not slower than 1e-9 |
| RateLimit.PartlyFilledNeverReturns | src/fastflowtransform/api/rate_limit.py:40-43 | from a partly filled bucket no number of turns suffices |
| Packages.ValueIsDecimal | src/fastflowtransform/packages.py:632 | a number is read in decimal, and leading zeros do not matter |
| Packages.ValueOfPrint | src/fastflowtransform/packages.py:632 | printing a number and reading it gives it back |
| Packages.CoreOfPrint | src/fastflowtransform/packages.py:618-632 | printing a version and parsing it gives it back |
| Packages.VersionReadableIff | src/fastflowtransform/packages.py:618-632 | a text is a version iff, stripped, it is three dotted numbers and nothing or a sign and the rest of the line after them; its parts are these numbers |
| Packages.StripIsExact | src/fastflowtransform/packages.py:629 | white space around a text is dropped, and nothing else |
| Packages.LessIsNumeric | src/fastflowtransform/packages.py:643-649 | versions compare like the numbers with these digits in any large enough base |
| Packages.RenderRoundTrip | src/fastflowtransform/packages.py:678-720 | plain checks joined by commas or white space are parsed back to the same checks |
| Packages.ParseConstraints | src/fastflowtransform/packages.py:678-720 | the loop yields all checks of the expanded text, or an error at the first unreadable part |
| Packages.VersionSatisfies | src/fastflowtransform/packages.py:723-754 | the answer of the checks made in order, where a failing one decides and an unreadable version raises; no constraint is satisfied |
| Packages.PlainConstraintIsExact | src/fastflowtransform/packages.py:678-754 | from the text to the answer: plain checks joined by commas or white space hold iff the version stands in every one of the relations |
| Packages.OperatorIsExact | src/fastflowtransform/packages.py:708-754 | what each of the six operators, as written, and no operator ask of the version |
| Packages.BareVersionIsEquality | src/fastflowtransform/packages.py:708-718 | a bare version asks for equality, suffixes ignored |
| Packages.UnreadableVersionRaises | src/fastflowtransform/packages.py:731-733 | an unreadable version raises iff there is anything to check |
| Packages.CaretIsExact | src/fastflowtransform/packages.py:652-665 | `^v` holds iff the version is at least v and agrees with it up to and including v's first non-zero component, through expansion and reparsing |
| Packages.TildeIsExact | src/fastflowtransform/packages.py:668-675 | `~v` holds iff major and minor agree and the patch is at least v's, also when v carries a suffix |
| Packages.OperatorReadableIff | src/fastflowtransform/packages.py:704-717 | after an operator only a plain version is readable |
| Packages.CaretReadableIff | src/fastflowtransform/packages.py:652-665 | a caret range is readable iff its version carries no suffix |

## Left out

- Rendering of SQL and Jinja, token walking, SQL scanning: the rendered text, the direct lineage of each statement and the dependency lists are inputs.
- `_normalize_sql` and the JSON form of a fingerprint: a model's text in `RunModel` is the normalized one, and the fingerprint tree stands for the serialized payload.
- Nodes whose fingerprint is None and ephemeral models (beyond the skip decision), views, snapshots and incremental models inside cached runs: their relations do not hold what the fingerprint stands for.
- Explicit rebuild targets, which go into one unordered level.
- `modified_set` against entries saved by a run, whose fingerprints follow another formula.
- What hooks, budgets and runtime contracts check (that they raise is modelled), schema synchronization, the meta table, artifacts, logging and command-line output.
- Selector tokens, glob matching and run-result filters: the sets they select are inputs.
- Non-ASCII digits and white space in version texts.
- Python merges without a unique key, which only drop duplicate rows.
- RunEngine.Engine.RunLevel: one worker, as with `--jobs 1`; several workers and cancelled futures are the step system of `Scheduler`.
- RunEngine.Engine.Schedule: one worker, as above; empty levels, which `levels` never returns, are left out.
- Packing.PartitionGroups: durations are exact reals, so ties that floating point would break differently are ties here.
- CacheStore.ComputeCurrent: reading templates and function sources, with their fallbacks, is replaced by the registry's source texts.
- Scheduler.RunIsSafe: a failure outside a node's own try block, such as a label formatter that raises, is not modelled.
