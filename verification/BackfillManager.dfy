/** The queue of upsert batches waiting for backfill, and its progress in the redo log. */
module BackfillQueue {
  import opened Common
  // A place in the redo log: file, then offset in the file.
  datatype Position = Position(redoFile: int, offset: nat)

  predicate Before(a: Position, b: Position) {
    a.redoFile < b.redoFile || (a.redoFile == b.redoFile && a.offset < b.offset)
  }

  predicate AtMost(a: Position, b: Position) {
    a == b || Before(a, b)
  }

  datatype Batch = Batch(numRows: nat, bytes: nat)

  // During recovery, rows to backfill of an entry at or before the persisted
  // progress are not queued again.
  predicate SkipsBackfillRows(entry: Position, persisted: Position) {
    entry.redoFile < persisted.redoFile || (entry.redoFile == persisted.redoFile && entry.offset <= persisted.offset)
  }

  ghost predicate Increasing(log: seq<Position>) {
    forall i, j :: 0 <= i < j < |log| ==> Before(log[i], log[j])
  }

  // In a log written in order, the skip rule selects exactly the first entries,
  // up to the one whose position was persisted.
  lemma {:induction false} SkipsPrefix(log: seq<Position>, persisted: nat, entry: nat)
    requires Increasing(log) && persisted < |log| && entry < |log|
    ensures SkipsBackfillRows(log[entry], log[persisted]) <==> entry <= persisted
  {
    if entry > persisted {
      assert Before(log[persisted], log[entry]);
    } else if entry < persisted {
      assert Before(log[entry], log[persisted]);
    }
  }

  function Sum(batches: seq<Batch>, measure: Batch -> nat): nat
    decreases |batches|
  {
    if batches == [] then 0 else Sum(batches[..|batches| - 1], measure) + measure(batches[|batches| - 1])
  }

  function Rows(): Batch -> nat {
    (b: Batch) => b.numRows
  }

  function Bytes(): Batch -> nat {
    (b: Batch) => b.bytes
  }

  class BackfillManager {
    const maxBufferSize: nat
    var upsertBatches: seq<Batch>
    var numRecords: nat
    var currentBufferSize: nat
    var backfillingBufferSize: nat
    // Progress persisted by the last finished backfill.
    var last: Position
    // Position of the last entry offered to the queue.
    var current: Position
    // The positions of the queued batches, and of those a running job took.
    ghost var queuedAt: seq<Position>
    ghost var takenAt: seq<Position>

    // Queued entries come after those taken, all lie after the persisted
    // progress and none after the current position.
    ghost predicate Valid()
      reads this
    {
      && |queuedAt| == |upsertBatches|
      && Increasing(takenAt) && Increasing(queuedAt)
      && (forall i, j :: 0 <= i < |takenAt| && 0 <= j < |queuedAt| ==> Before(takenAt[i], queuedAt[j]))
      && (forall i :: 0 <= i < |takenAt| ==> Before(last, takenAt[i]) && AtMost(takenAt[i], current))
      && (forall i :: 0 <= i < |queuedAt| ==> Before(last, queuedAt[i]) && AtMost(queuedAt[i], current))
      && numRecords == Sum(upsertBatches, Rows())
      && currentBufferSize == Sum(upsertBatches, Bytes())
      && (forall i :: 0 <= i < |upsertBatches| ==> upsertBatches[i].bytes > 0)
    }

    constructor (bufferSize: nat, progress: Position)
      ensures Valid() && upsertBatches == [] && last == progress && current == Position(0, 0) && takenAt == []
    {
      maxBufferSize := bufferSize;
      upsertBatches, numRecords, currentBufferSize, backfillingBufferSize := [], 0, 0, 0;
      last, current := progress, Position(0, 0);
      queuedAt, takenAt := [], [];
    }

    // Advances the position, and queues the batch if there is one.
    method Append(batch: Option<Batch>, position: Position) returns (full: bool)
      requires Valid() && Before(current, position)
      requires batch.Some? ==> batch.value.bytes > 0 && Before(last, position)
      modifies this
      ensures Valid() && current == position && last == old(last) && takenAt == old(takenAt)
      ensures upsertBatches == old(upsertBatches) + (if batch.Some? then [batch.value] else [])
      ensures queuedAt == old(queuedAt) + (if batch.Some? then [position] else [])
      ensures backfillingBufferSize == old(backfillingBufferSize)
      ensures full <==> batch.Some? && currentBufferSize + backfillingBufferSize >= 95 * maxBufferSize / 100
    {
      current := position;
      full := false;
      if batch.Some? {
        upsertBatches := upsertBatches + [batch.value];
        queuedAt := queuedAt + [position];
        numRecords := numRecords + batch.value.numRows;
        currentBufferSize := currentBufferSize + batch.value.bytes;
        assert upsertBatches[..|upsertBatches| - 1] == old(upsertBatches);
        full := currentBufferSize + backfillingBufferSize >= 95 * maxBufferSize / 100;
      }
    }

    // Hands the whole queue, in order, and the current position to a job.
    method StartBackfill() returns (batches: seq<Batch>, position: Position)
      requires Valid() && takenAt == []
      modifies this
      ensures Valid() && position == current && current == old(current) && last == old(last)
      ensures batches == old(upsertBatches) && upsertBatches == [] && queuedAt == [] && takenAt == old(queuedAt)
    {
      position := current;
      if currentBufferSize == 0 {
        NoBytes(upsertBatches);
        assert upsertBatches == [];
        return [], current;
      }
      backfillingBufferSize := currentBufferSize;
      currentBufferSize, numRecords := 0, 0;
      batches := upsertBatches;
      upsertBatches := [];
      takenAt, queuedAt := queuedAt, [];
    }

    // Persists progress, never moving it backwards. What remains queued still
    // lies after the new progress.
    method Done(position: Position) returns (persisted: Position)
      requires Valid() && AtMost(position, current)
      requires forall i :: 0 <= i < |takenAt| ==> AtMost(takenAt[i], position)
      requires forall i :: 0 <= i < |queuedAt| ==> Before(position, queuedAt[i])
      modifies this
      ensures Valid() && takenAt == [] && upsertBatches == old(upsertBatches) && queuedAt == old(queuedAt)
              && current == old(current)
      ensures persisted == last == if Before(old(last), position) then position else old(last)
    {
      if Before(last, position) {
        last := position;
        backfillingBufferSize := 0;
      }
      takenAt := [];
      persisted := last;
    }
  }

  lemma {:induction false} NoBytes(batches: seq<Batch>)
    ensures Sum(batches, Bytes()) == 0 && (forall i :: 0 <= i < |batches| ==> batches[i].bytes > 0) ==> batches == []
  {
  }
}
