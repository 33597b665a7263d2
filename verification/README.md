# AresDB storage engine, modelled and proved

AresDB keeps recent fact-table rows in an uncompressed live store and moves
stable rows into per-day archive batches, whose sort columns are run-length
encoded. Rows that arrive too late for the live store wait in a backfill queue
and are patched into the archive. This project models that machinery, and three
smaller pieces of the query path, and proves what it is for.

- **Archive merge** (`Rows`, `Runs`, `VectorParty`, `MergeSpec`, `MergeOutput`,
  `MergeSteps`, `Merge`). The class `MergeContext` runs the two-pass recursive
  merge of a run-length encoded batch, a list of deleted rows and a sorted patch.
  Its result is the stable merge of the surviving base rows with the patch rows,
  again in nested run-length form, with exact non-default counts.
- **Nested run-length form and slicing** (`NestedForm`, `Expansion`, `Slicing`).
  The form is stated on counts and values alone and shown equivalent to standing
  for some rows; chained binary-search slicing on sort columns of any mode selects
  exactly what a linear scan selects, unless a search catches a null, and exactly
  when it does is proved.
- **Cuckoo primary key** (`CuckooTable`, `CuckooIndex`). The class refines a map
  from unexpired keys to record IDs through eviction chains, stash, staging,
  lazy expiry, deletion and rebuilding.
- **Record lifecycle** (`Upserts`, `Lifecycle`, `LiveIndex`, `ShardSteps`,
  `Pruning`, `ShardRuns`, `TableShard`, `BackfillManager`, `BackfillPatches`,
  `Archiving`, `CommitRefinement`). A state machine over ingest, watermark, snapshot,
  archive commit, backfill, purge, crash and replay. `Lifecycle` is the reference, in
  which every backfilled row takes effect and every unwritten cell reads as its
  default; `ShardSteps` has the steps as they are, with the columns that live batches
  have and the non-default counts. Once drained, queries read the fold of the whole
  log in every cell but exactly three kinds, which are named. The class `TableShard`
  performs the steps, with the replay and backfill loops. The commit step is shown to
  be what the archive merge gives.
- **Backfill of a day** (`BackfillSpec`, `BackfillStore`, `Backfill`,
  `BackfillMerge`, `BackfillRefinement`). Forked columns are arrays on the heap; the
  mix of in-place, delete-then-insert and temporary-store updates is a fold of upserts
  over the defaults; pruning and merging publish it but for two kinds of cells, named
  exactly; the merged batch has one row per key; and the result is the shard's
  backfill step. The columns queries may be reading are never written.
- **Batched ingestion** (`Ingestion`), **version files** (`VersionFile`,
  `VersionCrashes`), **reclamation** (`Reclamation`), **eviction** (`Eviction`),
  **broker merge** (`Broker`), **filters** (`Filters`) and **bootstrap**
  (`Bootstrap`).

Conventions. A `DataValue` is null or an integer standing for the column type's
value in its comparison order; null is least. `Row.key` lists the sort columns in
archiving sort order and `Row.rest` the others. Log positions are entry numbers
in `Lifecycle` and (file, offset) pairs in `BackfillManager`; `SkipsPrefix` joins
the two. Hash seeds, random choices and map iteration order are nondeterministic.
The clock and the set of columns in use are parameters.

Where code and comment disagree the code is followed:

- `SetDataValue` in `CheckExistingCount` mode compares the new value with itself,
  so in-place backfill never changes the non-default count
  (`CheckExistingNeverCounts`), and `Prune` then drops the writes to a column that
  held only defaults. `ForkPruneExact` says exactly when for a column, `LosslessStep`
  for a backfilled day and `DrainedRun` for a whole run; `UpdateIsLost` is a run
  that loses an update.
- A column of a live batch is created, filled with its default, when an upsert batch
  first brings it. Until then queries read null there. The archive merge stores the
  default in an unsorted column and null in a sort column, as of the job's snapshot,
  so a commit changes query results; `CommitChangesExactly` says exactly which, with
  the runs `CommitFillsIn`, `CommitStoresNull` and `CommitEmpties`. Backfill does the
  same with its temporary store (`PublishedExact`, `DefaultsShown`).
- A version line that a crashed archiving job left behind may turn the binary search
  away from later lines; `RestartFinds` says exactly when, and `BackfillMissed` is a
  run whose restart goes back before a backfill.
- Nulls are stored as zero, so slicing a sort column may return a null row. It does
  exactly when the value is not positive, no value of the range is below it, and it
  is zero or occurs in the range (`SliceWithNulls`, `NegativeSliceCatchesNull`).
- A new record's first write never forces a null (`InsertIsUpdate`).

## Model

| member | source | states |
|---|---|---|
| `DataValues.Compare` | memstore/common/data_value.go:231-245 | zero exactly on equal values, negative exactly below; null is least |
| `Rows.LessTotal` | memstore/archiving.go:181-192 | the patch order is antisymmetric and total on keys |
| `Rows.LessFromTrans` | memstore/archiving.go:181-192 | it is transitive, strictly and weakly |
| `Rows.MergeSorts` | memstore/merge.go:509-599 | merging two sorted row lists gives a sorted list |
| `Rows.MergePermutes` | memstore/merge.go:509-599 | the merge keeps the multiset of rows |
| `Rows.MergeStable` | memstore/merge.go:509-599 | among equal sort keys base rows come first and both sides keep their order |
| `MergeSpec.Problem.TotalIsStableMerge` | memstore/merge.go:333-360 | surviving base rows merged with the patch: sorted, same multiset, stable, size = base - deleted + patch |
| `MergeSpec.RunSeparates` | memstore/merge.go:191-208 | the rows left after a base run have another value, above the run's, in that column |
| `Merge.MergeContext.InitIters` | memstore/merge.go:101-171 | every level's iterators stand at the start of their rows |
| `Merge.MergeContext.ReadBase` | memstore/merge.go:191-208 | loads the next run, its end and its deleted rows, clipped to the end position |
| `Merge.MergeContext.SkipDeleted` | memstore/merge.go:191-208 | the deleted-row cursor passes exactly the deleted rows below the run's end |
| `Merge.MergeContext.ReadPatch` | memstore/merge.go:274-290 | loads the maximal block of equal patch values |
| `Merge.MergeContext.WriteUnsortedColumns` | memstore/merge.go:448-468 | copies the given rows but the skipped ones into every live unsorted column, in order |
| `Merge.MergeContext.WriteOutput` | memstore/merge.go:470-504 | one run: value, cumulative count and, at the last level, the rows of the unsorted columns |
| `Merge.MergeContext.MergeRecursive` | memstore/merge.go:509-599 | terminates; at each level the output grows by exactly the merge of the base and patch ranges, in both passes |
| `Merge.MergeContext.MergeBoth` | memstore/merge.go:528-572 | while both sides have runs, the lesser value (or both) goes out; runs whose rows are all deleted are skipped |
| `Merge.MergeContext.PreAllocateLengths` | memstore/merge.go:333-353 | the first pass counts exactly the runs of the merged rows, per sort column |
| `Merge.MergeContext.WriteColumns` | memstore/merge.go:354-360 | the second pass writes every sort and live unsorted column in full, each slot once |
| `Merge.MergeContext.PruneColumns` | memstore/merge.go:355-359 | pruning the written columns changes no row the batch stands for |
| `Merge.MergeContext.MergeBatches` | memstore/merge.go:333-360 | the merged batch represents the stable merge (dropped columns read as default), is in nested run-length form; both passes agree on every length, every write position ends at its allocated length, each live unsorted column received totalSize values and counts those that are not the default |
| `VectorParties.PruneKeepsReads` | memstore/archive_vector_party.go:33-47 | with an exact non-default count pruning changes no read of an uncompressed column |
| `VectorParties.PruneKeepsSortColumn` | memstore/archive_vector_party.go:33-47 | and none of a sort column, which becomes all-default exactly when every row is default |
| `VectorParties.SetThenGet` | memstore/vector_party.go:205-245 | a write is read back and changes no other offset |
| `VectorParties.CheckExistingNeverCounts` | memstore/vector_party.go:236-244 | in CheckExistingCount mode the count never changes |
| `VectorParties.ForkReads` | memstore/archive_vector_party.go:61-88 | a forked column reads like its original at every row |
| `VectorParties.ForkPruneExact` | memstore/archive_vector_party.go:33-88 | forking, overwriting and pruning keeps all reads if and only if the original had a non-default value or the last write to every row is the default |
| `VectorParties.ForkPruneLosesUpdate` | memstore/vector_party.go:205-245 | a concrete column whose only update is lost |
| `NestedForm.ColumnRunForm` | memstore/merge.go:470-504 | entries of a sort column cover its rows, hold their value and end exactly where the leading columns change |
| `NestedForm.RepresentsIsNested` | memstore/merge.go:470-599 | counts run strictly from 0 to the size, boundaries nest, entries strictly increase inside each parent entry |
| `Expansion.NestedIsRepresented` | memstore/merge.go:470-599 | conversely, a batch in that form represents its expansion, which is sorted |
| `Expansion.NestedIffRepresents` | memstore/merge.go:470-599 | the form holds if and only if the batch represents some rows |
| `Slicing.LowerBound` | memstore/vectors/vector.go:214-230 | first index not below the value on a sorted range; with the first element out of order, the others are still split and the first counts only if none of them is below |
| `Slicing.UpperBound` | memstore/vectors/vector.go:236-254 | first index above the value, likewise |
| `Slicing.SliceIndex` | memstore/vector_party.go:420-432 | the entries a row range falls into; without counts, the rows themselves |
| `Slicing.SliceByValue` | memstore/vector_party.go:372-416 | in every column mode, the entries or rows of the range that hold the value |
| `Slicing.GetDataValueByRow` | memstore/vector_party.go:196-202 | reads the row's value of a sort column in any mode |
| `Slicing.SliceWithNulls` | memstore/vector_party.go:372-416 | one call on a count-vector column, signed or not, keeps the range exact if and only if the searches do not catch a null; its bounds stay on run boundaries |
| `Slicing.CaughtEntry` | memstore/vector_party.go:372-416 | a null is caught, in terms of the matching rows, exactly when its entry is, in terms of the stored entries |
| `Slicing.NegativeSliceCatchesNull` | memstore/vector_party.go:372-416 | slicing the rows null, -5 by -5 returns both |
| `Slicing.SliceDefault` | memstore/vector_party.go:375-396 | one call on an all-default sort column keeps the range exact |
| `Slicing.SliceByPrefix` | memstore/vector_party.go:372-416 | chained calls on successive sort columns, in any mix of modes, select exactly the rows a linear scan selects if none of them catches a null |
| `CuckooTable.ProbeFinds` | memstore/cuckoo_index.go:161-183 | a live entry found by a probe is the key's one entry |
| `CuckooTable.ProbesMiss` | memstore/cuckoo_index.go:161-183 | a key no probe finds alive is not in the map |
| `CuckooTable.PutFree` | memstore/cuckoo_index.go:479-486 | writing an absent key over its first empty or expired slot adds exactly that key |
| `CuckooTable.PutEvict` | memstore/cuckoo_index.go:342-354 | a swap out of full buckets replaces exactly the evicted key by the inserted one |
| `CuckooTable.RaiseCutoff` | memstore/cuckoo_index.go:248-250 | raising the cutoff removes exactly the keys now too old |
| `CuckooTable.FirstIsLive` | memstore/cuckoo_index.go:220-245 | the first probe that holds a key finds its live entry if and only if the map has the key |
| `Cuckoo.CuckooIndex.EmptyIsValid` | memstore/cuckoo_index.go:569-598 | a new index is the empty map with zero counters |
| `Cuckoo.CuckooIndex.Search` | memstore/cuckoo_index.go:220-246 | the first probe, over buckets then stash, that holds the key |
| `Cuckoo.CuckooIndex.Find` | memstore/cuckoo_index.go:161-183 | finds the key if and only if the map has it, with its record ID |
| `Cuckoo.CuckooIndex.Update` | memstore/cuckoo_index.go:132-158 | changes the record ID of a present key and nothing else |
| `Cuckoo.CuckooIndex.Delete` | memstore/cuckoo_index.go:220-245 | removes exactly the key from the map, with or without event times |
| `Cuckoo.CuckooIndex.UpdateEventTimeCutoff` | memstore/cuckoo_index.go:248-250 | raising the cutoff keeps exactly the unexpired keys in the map |
| `Cuckoo.CuckooIndex.InsertBucket` | memstore/cuckoo_index.go:479-486 | adds the key and counts the slot once |
| `Cuckoo.CuckooIndex.Probe` | memstore/cuckoo_index.go:379-417 | finds the key anywhere, or the first free slot among its buckets |
| `Cuckoo.CuckooIndex.FindOrAddNew` | memstore/cuckoo_index.go:379-427 | existing, added, or nothing changed and every bucket slot of the key is live |
| `Cuckoo.CuckooIndex.AddNew` | memstore/cuckoo_index.go:358-376 | adds the key, or changes nothing and every bucket slot of the key is live |
| `Cuckoo.CuckooIndex.RandomSwap` | memstore/cuckoo_index.go:342-354 | for every random choice, table plus carried entry stay the same map |
| `Cuckoo.CuckooIndex.CuckooAdd` | memstore/cuckoo_index.go:430-468 | after any eviction chain the map has the new key and all others, in table, stash or, with the stash full, staging |
| `Cuckoo.CuckooIndex.CopyEntries` | memstore/cuckoo_index.go:502-526 | the new index holds exactly the unexpired entries |
| `Cuckoo.CuckooIndex.Resize` | memstore/cuckoo_index.go:493-555 | success or failure, the map is unchanged; success empties staging |
| `Cuckoo.CuckooIndex.FindOrInsert` | memstore/cuckoo_index.go:196-217 | refuses stale times, returns a present key's record ID unchanged, else adds the key; counters keep equal to the used slots |
| `Upserts.ApplyGet` | memstore/ingestion.go:116-139 | the fold's effect on a key is what its own upserts write, over what was there |
| `Upserts.SelectGet` | memstore/ingestion.go:263-278 | routing by event time keeps all or none of a key's upserts |
| `Upserts.Rewritten` | memstore/recovery.go:57-63 | writes that are made again later need not be made now |
| `Lifecycle.IngestKey` | memstore/ingestion.go:203-306 | ingesting keeps, for each key, stored row plus pending upserts equal to the log |
| `Lifecycle.CommitKey` | memstore/archiving.go:369-462 | so does committing an archive version |
| `Lifecycle.FinishKey` | memstore/backfill_manager.go:222-237 | so does persisting the progress taken when the job started |
| `Lifecycle.CrashKey` | memstore/recovery.go:114-136 | what is on disk plus the unsaved part of the log is still the log |
| `Lifecycle.ReplayLive` | memstore/recovery.go:50-75 | replay rebuilds the live rows of the replayed part, whatever was purged |
| `Lifecycle.ReplayQueue` | memstore/recovery.go:57-63 | replay queues again exactly the unsaved rows below the cutoff |
| `Lifecycle.IngestBelowWatermark` | memstore/ingestion.go:263-278 | ingestion touches no live row below the watermark and no archive row |
| `Lifecycle.QuietStepsKeepView` | memstore/archiving.go:283-293 | nor do setting the watermark, purging, and starting or finishing a backfill change a query result |
| `Pruning.StepsTogether` | memstore/backfill.go:143-191 | every step as it is does the reference's step on the archive that lost nothing |
| `Pruning.PublishCell` | memstore/backfill.go:454-547 | a backfilled cell holds its last write, unless the record stayed in place and the column was not counted; a new record's unwritten cell is its default or null |
| `Pruning.BackfillLostExact` | memstore/backfill.go:454-547 | backfilling a day keeps: the archive reads as the reference except in exactly the lost and the null cells |
| `Pruning.BackfillNulls` | memstore/merge.go:274-290 | and null cells are unwritten sort cells with a default |
| `Pruning.BackfillCounts` | memstore/backfill.go:531-547 | and columns not counted hold only defaults, whether or not the day was merged |
| `Pruning.CommitCounts` | memstore/merge.go:470-504 | so does an archive commit, which counts the days it merges anew |
| `Pruning.CommitStores` | memstore/archiving.go:195-227 | a commit stores null in the unwritten sort cells whose batch lacked the column at the snapshot, and the default in the other unwritten cells |
| `Pruning.IndexKept` | memstore/ingestion.go:360-412 | every step keeps each live record in a batch that has all columns it has values in |
| `Pruning.ShardRunKept` | memstore/recovery.go:36-75 | every run keeps the invariant of both |
| `Pruning.DrainedRun` | memstore/recovery.go:36-75 | after any run, once replayed and drained, queries read the fold of all logged upserts in log order in a cell if and only if its last backfill was not dropped, it is not a sort cell archived as null, and it is not a live cell whose batch lacks the column; the last two show null; no key is archived and visible live at once |
| `Pruning.LosslessStep` | memstore/backfill.go:531-547 | backfilling a day loses nothing if and only if every in-place write to a column that is not counted leaves the default |
| `Pruning.LosslessDrained` | memstore/recovery.go:36-75 | if all backfilled days of a run pass that test, queries read the fold in a cell if and only if no default is shown as null there |
| `ShardRuns.UpdateIsLost` | memstore/backfill.go:531-547 | a run that archives a record and backfills 7 into a column it left null, after which queries read null |
| `ShardRuns.CommitFillsIn` | memstore/archiving.go:213-227 | a run in which a commit turns an unsorted cell from null to its default 7 |
| `ShardRuns.CommitStoresNull` | memstore/archiving.go:195-209 | the same run with a sort column: drained, it shows null where the log says 7 |
| `ShardRuns.CommitEmpties` | memstore/archiving.go:43-57 | a run in which a sort column comes to a live batch after the snapshot, and the commit turns its cell from 7 to null |
| `Pruning.ShardCanDrain` | memstore/backfill.go:30-104 | from every reachable state replaying, finishing the job and one backfill reach a drained state |
| `Pruning.CommitChangesExactly` | memstore/archiving.go:283-293 | in every run an archive commit keeps the set of keys and the written values, and changes the query results of exactly two kinds of unwritten cells, with the values before and after |
| `Pruning.QuietStepsShow` | memstore/archiving.go:283-293 | setting the watermark, the snapshot, purging, and starting or finishing a backfill change no query result |
| `CommitRefinement.CommittedRows` | memstore/archiving.go:408-437 | the merge of a day's archived records with its stable live ones, as the patch reads them, gives exactly the rows of the records the step archives |
| `CommitRefinement.CommittedCounts` | memstore/merge.go:448-468 | and the unsorted columns that hold another value than the default are those the step counts |
| `CommitRefinement.CommitDay` | memstore/archiving.go:408-437 | so the merged batch stands for those records and has those counts |
| `TableShards.TableShard.ApplyUpsertBatch` | memstore/ingestion.go:203-412 | rows at or above the watermark are upserted live in order, each in its live batch with the columns that creates; older ones are queued in order or skipped |
| `TableShards.TableShard.SaveUpsertBatch` | memstore/ingestion.go:41-72 | is the ingest step and keeps the invariant |
| `TableShards.TableShard.CommitArchive` | memstore/archiving.go:369-462 | is the commit step, whatever the order of records; keeps the invariant and changes exactly the query results named |
| `TableShards.TableShard.PlayRedoLog` | memstore/recovery.go:50-75 | replays to the end of the log and keeps the invariant |
| `TableShards.TableShard.Backfill` | memstore/backfill.go:30-104 | a whole job, days in any order, drains the queue; then queries read the fold of the log in every cell but exactly the three kinds |
| `TableShards.TableShard.Recover` | memstore/recovery.go:29-136 | from any state in the invariant a restart, replay and backfill show queries every logged upsert but for exactly those cells |
| `BackfillQueue.SkipsPrefix` | memstore/recovery.go:59-63 | in a log written in order the skip rule selects exactly the entries up to the persisted one |
| `BackfillQueue.BackfillManager.Append` | memstore/backfill_manager.go:101-129 | queues the batch in order, advances the position, keeps the sizes equal to sums |
| `BackfillQueue.BackfillManager.StartBackfill` | memstore/backfill_manager.go:153-174 | hands over the whole queue in order and the current position |
| `BackfillQueue.BackfillManager.Done` | memstore/backfill_manager.go:222-237 | progress never goes back and everything still queued lies after it |
| `BackfillPatches.CreateBackfillPatches` | memstore/backfill.go:280-330 | fails exactly on a batch without event times or a null among them; else every row is in its day's patch once, in queue order |
| `Archiving.CreateArchivingPatches` | memstore/archiving.go:73-139 | each day's patch lists exactly the published records with oldCutoff <= time < cutoff of that day, once, in scan order |
| `Archiving.PatchLeavesLive` | memstore/archiving.go:104-123 | raising the cutoff hides exactly the patch's records from queries |
| `Archiving.SortPatch` | memstore/archiving.go:408-410 | sorted by the sort columns and a permutation |
| `Archiving.CreateNewVersion` | memstore/archiving.go:369-462 | every day's new batch is sorted and holds the old rows plus the day's patch |
| `Archiving.CommitChangesDayView` | memstore/archiving.go:437-461 | each day's query view, archive plus visible live rows, changes as a multiset by exactly the patch's rows, from how queries read them to how the merge does |
| `Archiving.SameReading` | memstore/archiving.go:195-227 | the two readings are the same if and only if no record is in a batch that lacks an unsorted column with a default |
| `Archiving.GetBatchIDsToPurge` | memstore/archiving.go:145-171 | exactly the full batches whose newest record is below the cutoff |
| `Archiving.PurgeBatches` | memstore/live_store.go:294-298 | no record at or above the cutoff is removed |
| `BackfillSpec.StoreRecord` | memstore/backfill.go:475-523 | a new key over the column defaults, or a base record moved to the temporary store and deleted once from the base, is the upsert |
| `BackfillSpec.UpdateTemp` | memstore/backfill.go:520-523 | updating a stored record is the upsert |
| `BackfillSpec.UpdateBase` | memstore/backfill.go:511-519 | updating a base row in place is the upsert |
| `BackfillSpec.SetKeepsCreated` | memstore/live_store.go:411-446 | a store batch has exactly the columns some record of it has set |
| `BackfillStore.NumberedNext` | memstore/backfill.go:470-512 | records are numbered in the order they reach the temporary store |
| `BackfillStore.SetsNext` | memstore/backfill.go:668-677 | and have exactly the cells set that their rows write, or all if they were moved |
| `BackfillStore.NullSortCells` | memstore/merge.go:274-290 | which sort cells the merge reads as null, in terms of the patch rows alone |
| `BackfillSpec.PublishedExact` | memstore/backfill.go:531-566 | after pruning and merging a cell is the upserted one if and only if it is neither an update in place of a column holding only defaults, which shows the default, nor an unset sort cell with a default whose store batch lacks the column, which shows null |
| `BackfillSpec.DefaultsShown` | memstore/merge.go:274-290 | two new keys of one store batch, one of which shows a default and a null |
| `Backfill.BackfillContext.BuildIndex` | memstore/archive_store.go:303-362 | every base key is indexed under the first row that has it |
| `Backfill.BackfillContext.GetChangedBaseRow` | memstore/backfill.go:599-630 | a changed row if and only if a sort column changes, with all its cells |
| `Backfill.BackfillContext.WritePatchValueForUnsortedColumn` | memstore/backfill.go:634-665 | writes exactly the non-null unsorted cells of one row, into forked copies only |
| `Backfill.BackfillContext.ApplyChangedRowToLiveStore` | memstore/backfill.go:668-677 | sets exactly the given cells of one stored record and creates the columns they need |
| `Backfill.BackfillContext.PruneColumns` | memstore/backfill.go:531-535 | exactly the columns with a zero non-default count become default; shared columns are not written |
| `Backfill.BackfillContext.BackfillRow` | memstore/backfill.go:454-524 | any of the four cases is one upsert; what it does to index and temporary store, where a record goes exactly when it is new or the row changes one of its sort columns |
| `Backfill.BackfillContext.BackfillDay` | memstore/backfill.go:436-551 | publishes, cell by cell, the left fold of the patch rows over the base with non-null overwrite, new keys over the defaults, except exactly the lost updates and null sort cells, whose values are given; no base row is deleted twice; base columns are untouched |
| `BackfillMerge.MergedDay` | memstore/backfill.go:554-566 | the merged rows are, as a multiset, the rows of the day's records, one for every key |
| `BackfillMerge.MergeStore` | memstore/backfill.go:554-566 | the batch that merging the temporary store gives represents those rows, and a column counts a value exactly when some record holds another than the default |
| `BackfillRefinement.PublishesStep` | memstore/backfill.go:143-191 | what backfilling a day's columns publishes reads, in every cell, as the archive of the shard's backfill step |
| `BackfillRefinement.MovesMatch` | memstore/backfill.go:599-630 | the same archived records are moved on both levels |
| `BackfillRefinement.NullMatches` | memstore/merge.go:274-290 | and the same sort cells stored as null |
| `BackfillRefinement.RecountMatches` | memstore/backfill.go:541-547 | a column of the published day holds another value than the default exactly when the step counts it |
| `BackfillRefinement.MergesMatch` | memstore/backfill.go:543-547 | and the merge runs exactly when the step recounts |
| `Ingestion.OverwriteKeepsLast` | memstore/ingestion.go:454-482 | from any starting value, overwriting keeps the last non-null value |
| `Ingestion.ForceKeepsLast` | memstore/ingestion.go:415-459 | forced overwriting keeps the last value, null or not |
| `Ingestion.AdditionSums` | memstore/ingestion.go:461-481 | addition gives the sum of the starting and the non-null values |
| `Ingestion.MinIsLeast` | memstore/ingestion.go:461-481 | minimum keeps the least of them |
| `Ingestion.MaxIsGreatest` | memstore/ingestion.go:461-481 | maximum keeps the greatest of them |
| `Ingestion.InsertIsUpdate` | memstore/ingestion.go:415-481 | inserting a record and then updating it is updating its default throughout, except exactly when a forced null inserted over a valid default is the last write |
| `Ingestion.NewRecord` | memstore/live_vector_party.go:80-83 | a new key's record is its row inserted over the column defaults |
| `Ingestion.BatchedCell` | memstore/ingestion.go:116-139 | all inserts before all updates gives each cell its row-order value, for every update mode |
| `Ingestion.LiveStore.AdvanceNextWriteRecord` | memstore/live_store.go:199-217 | the next record id, later than the last |
| `Ingestion.LiveStore.InsertPrimaryKeys` | memstore/ingestion.go:170-358 | index, next record, groups and backfill rows (none when they are skipped) as row by row |
| `Ingestion.LiveStore.WriteBatchRecords` | memstore/ingestion.go:360-486 | column by column equals record by record in order, seen from any cell |
| `Ingestion.LiveStore.WriteGroups` | memstore/ingestion.go:118-134 | in any order of batches |
| `Ingestion.LiveStore.ApplyUpsertBatch` | memstore/ingestion.go:76-139 | index, next record and every cell as after upserting the rows one at a time in row order, unwritten cells reading as the column default |
| `VersionText.ParseFormat` | metastore/disk_metastore.go:831-835 | a version line reads back as written |
| `VersionText.SplitFile` | metastore/disk_metastore.go:906-907 | a version file splits into its lines in order |
| `VersionFiles.NewestIsGreatest` | metastore/disk_metastore.go:874-890 | the line found is the greatest in (version, sequence) not newer than the cutoff |
| `VersionFiles.DiskMetaStore.AddArchiveBatchVersion` | metastore/disk_metastore.go:797-845 | appends one line to the batch's file |
| `VersionFiles.SearchEndsAt` | metastore/disk_metastore.go:891-965 | on any file, increasing or not, the search ends at a position if and only if its probes on the way there do not turn it away |
| `VersionFiles.DiskMetaStore.GetArchiveBatchVersion` | metastore/disk_metastore.go:891-965 | returns the line that the search finds; on an increasing file, the newest line not newer than the cutoff |
| `VersionFiles.HeldVersionsFindTheirLines` | memstore/archiving.go:423-457 | in every crash-free run files stay increasing and every version that may be held finds the line committed for it |
| `VersionFiles.BackfillAfterCrash` | memstore/archiving.go:426-457 | after a crash before the cutoff update, the next backfill keeps the file increasing if and only if the job had not appended to that batch |
| `VersionCrashes.RestartFinds` | metastore/disk_metastore.go:891-965 | in every run with crashes whose restarts so far found a batch's committed line, that line is the last one not newer than the cutoff, and the next restart ends its search there if and only if no probe on the way hits a line on the wrong side |
| `VersionCrashes.BackfillMissed` | memstore/archiving.go:426-457 | a run with lines 1, 3, 1-1 and cutoff 1, whose restart finds line 1 |
| `Reclamation.StepKept` | memstore/archive_store.go:169-175 | every reader and job step keeps the sharing invariant |
| `Reclamation.ForksKept` | memstore/backfill.go:168-237 | publishing forked columns shares the others and purges only the replaced ones |
| `Reclamation.NothingInUseDestructed` | memstore/archiving.go:302-336 | in every interleaving no column of the current version or of a version with users is destructed, and none twice |
| `Reclamation.HeldVersionStays` | memstore/archive_store.go:169-175 | a held version stays intact through every step but its own release |
| `Eviction.Pop` | memstore/host_memory_manager.go:525-541 | a least candidate among the columns' heads |
| `Eviction.TotalPut` | memstore/host_memory_manager.go:103-132 | how one registration changes the sum of sizes |
| `Eviction.HostMemoryManager.ReportManagedObject` | memstore/host_memory_manager.go:197-206 | the recorded size stays the sum of the registered sizes |
| `Eviction.HostMemoryManager.TryEviction` | memstore/host_memory_manager.go:406-509 | visits the registered candidates in non-decreasing (preloading, priority, batch) order, terminates, evicts exactly the visited columns not in use, and leaves without fitting only if every registered column left is in use or deleted from the schema |
| `Broker.SameDepthExecutes` | broker/result_merge.go:68-74 | children of one depth always merge |
| `Broker.MergeResults` | broker/result_merge.go:42-141 | fails exactly on a measure meeting a dimension; else the measure at every path is the aggregate of both sides |
| `Broker.SumIsTotal` | broker/result_merge.go:80-81 | sums and counts total the measures present |
| `Broker.ExtremesBound` | broker/result_merge.go:82-89 | min and max are a measure present and bound them all |
| `Broker.Execute` | broker/query_plan_agg.go:126-135 | fails exactly when two children have a measure and a dimension at one path; else gives at every path the aggregate over all of them |
| `Broker.MergedCompatible` | broker/result_merge.go:69-75 | a merged result fits what both its parts fit, so failing does not depend on the order |
| `Broker.OrderIndependent` | broker/query_plan_agg.go:126-135 | sum, count, min and max do not depend on the order |
| `Broker.ChildOrderIrrelevant` | broker/query_plan_agg.go:126-135 | permuted children give the same measure at every path |
| `Filters.NormalizeAndFilters` | query/aql_compiler.go:1190-1202 | terminates, leaves no top-level AND, keeps exactly the conjuncts and the three-valued conjunction |
| `Filters.IndexCandidates` | query/aql_compiler.go:1316-1364 | each slot names the last filter of its kind on its column, where a later reference to a boolean column drops the bounds |
| `Filters.MatchTable` | query/aql_compiler.go:1367-1412 | equalities on a prefix of the sort columns, then bounds on at most the next one, as far as the candidates allow |
| `Filters.MatchPrefilters` | query/aql_compiler.go:1307-1415 | the chosen filters of all tables, each once, in ascending order; each table's match goes as far as it can |
| `Filters.SplitFilters` | query/aql_compiler.go:1456-1467 | matched filters are exactly those at the chosen positions, the others join the measure's filters, in order |
| `Filters.SplitOnce` | query/aql_compiler.go:1456-1467 | every filter lands exactly once |
| `Filters.SplitKeepsMeaning` | query/aql_compiler.go:1456-1467 | both parts together have the conjunction of all filters |
| `Bootstrap.StepKept` | datanode/bootstrap_manager.go:80-124 | every step keeps one runner and remembers late requests |
| `Bootstrap.RequestsNotDropped` | datanode/bootstrap_manager.go:80-124 | at most one runner; when Bootstrapped, every request was covered by a completed pass that started after it |
| `Bootstrap.Settles` | datanode/bootstrap_manager.go:100-121 | without further requests a runner reaches Bootstrapped after at most one more pass |

## Left out

- HTTP handlers, clients, configuration, logging and metrics: plumbing.
- GPU kernels and the batch executors: foreign code.
- Array (list) columns, and geography, string and UUID comparisons: values are integers in comparison order.
- Machine integer widths: 32-bit counts, record indexes and sums are unbounded here, and additions in update mode do not wrap.
- Vector parties in the archive merge are values that methods reassign, not heap vectors; sharing and in-place writes of archive columns are modelled in `Backfill` and `Reclamation`.
- Crash between an archiving job's first version line and its cutoff update: excluded from `Lifecycle`, where a commit is one step; `VersionCrashes` says what it does to version files. Archiving and backfill jobs that end with an error are not modelled.
- Update modes other than overwriting with non-null values in recovery and backfill: replaying them is not idempotent, and a batch whose rows are all for backfill bypasses the column pruning.
- Missing event times, retention and future-time filters: they depend on the wall clock at replay.
- Dimension tables and snapshots.
- Redo log files: the log is a sequence that keeps every entry not covered by both cutoff and backfill progress.
- Replay interleaved with ingestion or jobs: recovery finishes before either starts.
- Cuckoo.CuckooIndex.FindOrInsert: rebuilding is tried a given number of times, since the loop ends only with probability one; running out keeps every entry.
- Cuckoo.CuckooIndex.UpdateEventTimeCutoff: what a lower cutoff does to the map is not stated; callers only raise it.
- Raw bucket memory and the transfer lock: slots are an array of records.
- Slicing.SliceByPrefix: one way only, since a later column may cut off a caught null again; `SliceWithNulls` is exact for each call.
- Backfill.BackfillContext.BackfillDay: base keys are distinct; for duplicates `BuildIndex` says which row is updated.
- BackfillPatches.CreateBackfillPatches: patches list the rows themselves rather than their positions.
- Archiving: records with a null event time are never selected, and batches without an event time column are not modelled.
- Column pinning, loading and eviction inside reclamation.
- Eviction.HostMemoryManager.TryEviction: iterates over the batches registered at the start of the round; the heap and the red-black tree are an ordered sequence and a least-element search.
- Broker: averages, HyperLogLog sketches and failed children; results are values, so sharing of subtrees between inputs and result is not captured.
- Filters: expression rewriting, geo filters, time filters and the split by foreign table.
- Schema validation, enum dictionaries, peer copy and the scheduler itself.
