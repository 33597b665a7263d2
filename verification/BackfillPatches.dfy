/** Grouping the rows of queued upsert batches by UTC day. */
module BackfillPatches {
  import opened Common
  import opened Upserts

  // A row of a queued batch; its event time may be null.
  datatype QueuedRow = QueuedRow(timeValid: bool, row: Upsert)

  // A queued batch; it may lack the event time column.
  datatype QueuedBatch = QueuedBatch(hasEventTime: bool, rows: seq<QueuedRow>)

  type Patches = map<nat, seq<Upsert>>

  function PatchOf(patches: Patches, day: nat): seq<Upsert> {
    if day in patches then patches[day] else []
  }

  // The rows of the first b batches and of the first n rows of batch b.
  ghost function RowsUpTo(batches: seq<QueuedBatch>, b: nat, n: nat): seq<Upsert>
    requires b <= |batches| && n <= (if b < |batches| then |batches[b].rows| else 0)
    decreases b, n
  {
    if n > 0 then RowsUpTo(batches, b, n - 1) + [batches[b].rows[n - 1].row]
    else if b > 0 then RowsUpTo(batches, b - 1, |batches[b - 1].rows|)
    else []
  }

  // Every day's patch holds that day's rows in queue order.
  ghost predicate Grouped(us: seq<Upsert>, patches: Patches) {
    forall d: nat :: PatchOf(patches, d) == Select(us, OnDay(d))
  }

  lemma {:induction false} GroupedStep(us: seq<Upsert>, patches: Patches, u: Upsert)
    requires Grouped(us, patches)
    ensures var day := u.eventTime / 86400; Grouped(us + [u], patches[day := PatchOf(patches, day) + [u]])
  {
    var day := u.eventTime / 86400;
    var after := patches[day := PatchOf(patches, day) + [u]];
    assert (us + [u])[..|us + [u]| - 1] == us;
    forall d: nat ensures PatchOf(after, d) == Select(us + [u], OnDay(d)) {
      assert PatchOf(patches, d) == Select(us, OnDay(d));
    }
  }

  lemma {:induction false} NothingGrouped(batches: seq<QueuedBatch>)
    ensures Grouped(RowsUpTo(batches, 0, 0), map[])
  {
  }

  lemma {:induction false} OneMoreRow(batches: seq<QueuedBatch>, b: nat, n: nat)
    requires b < |batches| && n < |batches[b].rows|
    ensures RowsUpTo(batches, b, n + 1) == RowsUpTo(batches, b, n) + [batches[b].rows[n].row]
  {
  }

  lemma {:induction false} OneMoreBatch(batches: seq<QueuedBatch>, b: nat)
    requires b < |batches|
    ensures RowsUpTo(batches, b + 1, 0) == RowsUpTo(batches, b, |batches[b].rows|)
  {
  }

  ghost predicate AllTimed(batches: seq<QueuedBatch>) {
    && (forall b :: 0 <= b < |batches| ==> batches[b].hasEventTime)
    && (forall b, i :: 0 <= b < |batches| && 0 <= i < |batches[b].rows| ==> batches[b].rows[i].timeValid)
  }

  // Fails on a batch without event times or a null among them; else each row is in its day's patch, once and
  // in queue order.
  method CreateBackfillPatches(batches: seq<QueuedBatch>) returns (r: Option<Patches>)
    ensures r.Some? <==> AllTimed(batches)
    ensures r.Some? ==> Grouped(RowsUpTo(batches, |batches|, 0), r.value)
  {
    hide Grouped, Select, RowsUpTo;
    var patches: Patches := map[];
    NothingGrouped(batches);
    var b := 0;
    while b < |batches|
      invariant 0 <= b <= |batches| && forall c :: 0 <= c < b ==> batches[c].hasEventTime
      invariant forall c, i :: 0 <= c < b && 0 <= i < |batches[c].rows| ==> batches[c].rows[i].timeValid
      invariant Grouped(RowsUpTo(batches, b, 0), patches)
    {
      if !batches[b].hasEventTime {
        return None;
      }
      var row := 0;
      while row < |batches[b].rows|
        invariant 0 <= row <= |batches[b].rows|
        invariant forall i :: 0 <= i < row ==> batches[b].rows[i].timeValid
        invariant Grouped(RowsUpTo(batches, b, row), patches)
      {
        if !batches[b].rows[row].timeValid {
          return None;
        }
        var u := batches[b].rows[row].row;
        var day := u.eventTime / 86400;
        GroupedStep(RowsUpTo(batches, b, row), patches, u);
        OneMoreRow(batches, b, row);
        patches := patches[day := PatchOf(patches, day) + [u]];
        row := row + 1;
      }
      OneMoreBatch(batches, b);
      b := b + 1;
    }
    r := Some(patches);
  }
}
