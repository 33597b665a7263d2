/** Where the live store keeps its records, and which columns its batches have. */
module LiveIndexes {
  import opened Common
  import opened CuckooTable
  import opened Upserts

  datatype BatchColumn = BatchColumn(batchID: int, column: nat)

  // The batch of every live record, the columns created in each batch and the
  // next record to write.
  datatype LiveIndex = LiveIndex(place: map<Key, int>, created: set<BatchColumn>, next: RecordID) {
    // The record's batch has no such column.
    predicate Lacks(k: Key, c: nat) {
      k in place && BatchColumn(place[k], c) !in created
    }
  }

  function EmptyIndex(): LiveIndex {
    LiveIndex(map[], {}, RecordID(BASE_BATCH_ID, 0))
  }

  function Columns(batchID: int, columns: set<nat>): set<BatchColumn> {
    set c | c in columns :: BatchColumn(batchID, c)
  }

  // The columns an upsert batch has values in; an update passes over the others.
  function Active(batch: seq<Upsert>): set<nat> {
    set i, c | 0 <= i < |batch| && c in batch[i].cells :: c
  }

  // An insert creates all columns of the upsert batch, an update those with values.
  function PlaceRow(ix: LiveIndex, batchSize: nat, u: Upsert, active: set<nat>): LiveIndex {
    if u.key in ix.place then ix.(created := ix.created + Columns(ix.place[u.key], active))
    else
      LiveIndex(ix.place[u.key := ix.next.batchID], ix.created + Columns(ix.next.batchID, u.columns + active),
                Advance(ix.next, batchSize))
  }

  function PlaceRows(ix: LiveIndex, batchSize: nat, us: seq<Upsert>, active: set<nat>): LiveIndex
    decreases |us|
  {
    if us == [] then ix else PlaceRow(PlaceRows(ix, batchSize, us[..|us| - 1], active), batchSize, us[|us| - 1], active)
  }

  // Every live record has its place, in a batch with all columns it has values in.
  ghost predicate Indexes(ix: LiveIndex, live: Records) {
    && ix.place.Keys == live.Keys
    && (forall k, c :: k in live && c in live[k] ==> !ix.Lacks(k, c))
  }

  lemma {:induction false} PlaceRowIndexes(ix: LiveIndex, batchSize: nat, u: Upsert, active: set<nat>, live: Records)
    requires Indexes(ix, live) && u.cells.Keys <= active
    ensures Indexes(PlaceRow(ix, batchSize, u, active), Put(live, u))
  {
    var ix', live' := PlaceRow(ix, batchSize, u, active), Put(live, u);
    forall k, c | k in live' && c in live'[k] ensures BatchColumn(ix'.place[k], c) in ix'.created {
      if k in live && c in live[k] {
        assert !ix.Lacks(k, c);
      }
    }
  }

  lemma {:induction false} PlaceRowsIndex(ix: LiveIndex, batchSize: nat, us: seq<Upsert>, active: set<nat>,
      live: Records)
    requires Indexes(ix, live) && forall i :: 0 <= i < |us| ==> us[i].cells.Keys <= active
    ensures Indexes(PlaceRows(ix, batchSize, us, active), Apply(live, us))
    decreases |us|
  {
    if us != [] {
      PlaceRowsIndex(ix, batchSize, us[..|us| - 1], active, live);
      PlaceRowIndexes(PlaceRows(ix, batchSize, us[..|us| - 1], active), batchSize, us[|us| - 1], active,
                      Apply(live, us[..|us| - 1]));
    }
  }

  // The rows of a batch that are routed to the live store.
  lemma {:induction false} RoutedActive(batch: seq<Upsert>, keep: nat -> bool, i: nat)
    requires i < |Select(batch, keep)|
    ensures Select(batch, keep)[i].cells.Keys <= Active(batch)
  {
    var u := Select(batch, keep)[i];
    SelectFrom(batch, keep, i);
    var j :| 0 <= j < |batch| && batch[j] == u;
    forall c | c in u.cells ensures c in Active(batch) {
      assert c in batch[j].cells;
    }
  }

  lemma {:induction false} SelectFrom(us: seq<Upsert>, keep: nat -> bool, i: nat)
    requires i < |Select(us, keep)|
    ensures Select(us, keep)[i] in us
    decreases |us|
  {
    if i < |Select(us[..|us| - 1], keep)| {
      SelectFrom(us[..|us| - 1], keep, i);
    }
  }

  // Applying a batch to the live store.
  lemma {:induction false} BatchIndexes(ix: LiveIndex, batchSize: nat, batch: seq<Upsert>, keep: nat -> bool,
      live: Records)
    requires Indexes(ix, live)
    ensures Indexes(PlaceRows(ix, batchSize, Select(batch, keep), Active(batch)), Apply(live, Select(batch, keep)))
  {
    forall i | 0 <= i < |Select(batch, keep)| ensures Select(batch, keep)[i].cells.Keys <= Active(batch) {
      RoutedActive(batch, keep, i);
    }
    PlaceRowsIndex(ix, batchSize, Select(batch, keep), Active(batch), live);
  }

  lemma {:induction false} CreatedGrows(ix: LiveIndex, batchSize: nat, us: seq<Upsert>, active: set<nat>)
    ensures ix.created <= PlaceRows(ix, batchSize, us, active).created
    decreases |us|
  {
    if us != [] {
      CreatedGrows(ix, batchSize, us[..|us| - 1], active);
    }
  }

  // Purging a record leaves the others where they are.
  lemma {:induction false} PurgeIndexes(ix: LiveIndex, live: Records, keys: set<Key>)
    requires Indexes(ix, live)
    ensures Indexes(ix.(place := ix.place - keys), live - keys)
  {
    forall k, c | k in live - keys && c in (live - keys)[k] ensures !ix.(place := ix.place - keys).Lacks(k, c) {
      assert !ix.Lacks(k, c);
    }
  }
}
