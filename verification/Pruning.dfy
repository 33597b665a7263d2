/**
 * What queries read of a shard, against the reference in which every backfilled
 * row takes effect and every unwritten cell reads as its default.
 */
module Pruning {
  import opened DataValues
  import opened CuckooTable
  import opened Upserts
  import opened Lifecycle
  import opened LiveIndexes
  import opened ShardSteps

  // ------------------------------------------------- against the reference

  // A column not counted holds only defaults.
  ghost predicate CountsFollow(schema: Schema, x: Shard) {
    forall k, c :: k in x.state.archive && c in x.state.archive[k] && Drops(schema, x.counted, k, c) ==>
      Valid(x.state.archive[k][c]) == schema.Default(c)
  }

  // Archived cells that are null though they have a default: sort cells that
  // nothing has written.
  ghost predicate NullsOk(schema: Schema, x: Shard) {
    forall k, c :: KeyColumn(k, c) in x.nulls ==>
      && k in x.full && k in x.state.archive && c !in x.full[k] && c !in x.state.archive[k]
      && c in schema.sortColumns && schema.Default(c).Valid?
  }

  // The archive has the reference's keys, and reads like it but for lost and null
  // cells.
  ghost predicate LostExact(schema: Schema, x: Shard) {
    && x.state.archive.Keys == x.full.Keys
    && (forall z :: z in x.lost ==> z.key in x.full)
    && (forall k, c :: k in x.full ==> ReadsFull(schema, x, k, c))
  }

  ghost predicate ReadsFull(schema: Schema, x: Shard, k: Key, c: nat) {
    ReadCell(schema, x.nulls, x.state.archive, k, c) == ReadCell(schema, {}, x.full, k, c) <==>
    KeyColumn(k, c) !in x.lost && KeyColumn(k, c) !in x.nulls
  }

  ghost predicate ShardInv(schema: Schema, x: Shard) {
    && Inv(Reference(x), schema.time) && CountsFollow(schema, x) && NullsOk(schema, x) && LostExact(schema, x)
    && Indexes(x.index, x.state.live) && SeenThen(x)
  }

  // Columns only come to live batches.
  ghost predicate SeenThen(x: Shard) {
    x.state.job.Archiving? ==> x.seen <= x.index.created
  }

  // Every step is the reference's step on the reference.
  lemma {:induction false} StepsTogether(schema: Schema, x: Shard, a: Action)
    requires Enabled(x.state, a, schema.time)
    ensures Enabled(Reference(x), a, schema.time)
    ensures Reference(Step(schema, x, a)) == Do(Reference(x), a, schema.time)
  {
    hide Apply, Select, Fold, Publish, Recount, LostAfter, NullsAfter, NullsMoved, PlaceBatch;
  }

  ghost predicate SortOnly(schema: Schema, nulls: set<KeyColumn>) {
    forall z :: z in nulls ==> z.column in schema.sortColumns
  }

  // One cell of the published day: a dropped write leaves it as it was, and a new
  // record that does not write it shows its default or null.
  lemma {:induction false} PublishCell(schema: Schema, nulls: set<KeyColumn>, counted: set<DayColumn>, m: Records,
      us: seq<Upsert>, k: Key, c: nat)
    requires k in Apply(m, us) && SortOnly(schema, nulls)
    ensures ReadCell(schema, NullsAfter(schema, nulls, m, us), Publish(schema, nulls, counted, m, us), k, c) ==
            if Writes(us, k, c) && !(InPlace(schema, nulls, m, us, k) && Drops(schema, counted, k, c))
               then Valid(Fold(us)[k][c])
            else if k in m then ReadCell(schema, nulls, m, k, c)
            else if KeyColumn(k, c) in NullsAfter(schema, nulls, m, us) then Null else schema.Default(c)
  {
    hide Fold, Apply, Moved, StoreSets;
    ApplyGet(m, us, k);
  }

  lemma {:induction false} ApplyCell(schema: Schema, nulls: set<KeyColumn>, m: Records, us: seq<Upsert>, k: Key, c: nat)
    ensures ReadCell(schema, nulls, Apply(m, us), k, c) ==
            if Writes(us, k, c) then Valid(Fold(us)[k][c]) else ReadCell(schema, nulls, m, k, c)
  {
    hide Fold, Apply;
    ApplyGet(m, us, k);
  }

  lemma {:induction false} SameKeys(m: Records, n: Records, us: seq<Upsert>)
    requires m.Keys == n.Keys
    ensures Apply(m, us).Keys == Apply(n, us).Keys
    ensures forall k :: k in m || k in Fold(us) <==> k in Apply(m, us)
  {
    forall k ensures (k in Apply(m, us) <==> k in Apply(n, us)) && (k in m || k in Fold(us) <==> k in Apply(m, us)) {
      ApplyGet(m, us, k);
      ApplyGet(n, us, k);
    }
  }

  // A cell that is not counted reads as its default.
  lemma {:induction false} DropsDefault(schema: Schema, x: Shard, k: Key, c: nat)
    requires CountsFollow(schema, x) && SortOnly(schema, x.nulls) && k in x.state.archive
             && Drops(schema, x.counted, k, c)
    ensures ReadCell(schema, x.nulls, x.state.archive, k, c) == schema.Default(c)
  {
  }

  lemma {:induction false} NullsSorted(schema: Schema, x: Shard)
    requires NullsOk(schema, x)
    ensures SortOnly(schema, x.nulls)
  {
    forall z | z in x.nulls ensures z.column in schema.sortColumns {
      assert z == KeyColumn(z.key, z.column);
    }
  }

  // One cell of the archive against the reference.
  lemma {:induction false} BackfillCell(schema: Schema, x: Shard, day: nat, k: Key, c: nat)
    requires x.state.job.Backfilling? && CountsFollow(schema, x) && NullsOk(schema, x) && LostExact(schema, x)
    requires k in StepBackfillDay(schema, x, day).full
    ensures ReadsFull(schema, StepBackfillDay(schema, x, day), k, c)
  {
    var us := DayRows(x.state, day);
    var m, x' := x.state.archive, StepBackfillDay(schema, x, day);
    hide Fold, Apply, Recount, DayRows, CountsFollow, Moved, StoreSets;
    SameKeys(m, x.full, us);
    NullsSorted(schema, x);
    PublishCell(schema, x.nulls, x.counted, m, us, k, c);
    ApplyCell(schema, {}, x.full, us, k, c);
    if Writes(us, k, c) {
      if InPlace(schema, x.nulls, m, us, k) && Drops(schema, x.counted, k, c) {
        DropsDefault(schema, x, k, c);
      }
    } else {
      assert KeyColumn(k, c) in x'.lost <==> KeyColumn(k, c) in x.lost;
      if k in m {
        assert ReadsFull(schema, x, k, c);
      }
    }
  }

  lemma {:induction false} BackfillLostExact(schema: Schema, x: Shard, day: nat)
    requires x.state.job.Backfilling? && CountsFollow(schema, x) && NullsOk(schema, x) && LostExact(schema, x)
    ensures LostExact(schema, StepBackfillDay(schema, x, day))
  {
    var us := DayRows(x.state, day);
    var m, x' := x.state.archive, StepBackfillDay(schema, x, day);
    hide Fold, Apply, Recount, DayRows, CountsFollow, NullsOk, ReadsFull, StoreSets, Moved;
    SameKeys(m, x.full, us);
    forall k, c | k in x'.full ensures ReadsFull(schema, x', k, c) {
      BackfillCell(schema, x, day, k, c);
    }
    forall z | z in x'.lost ensures z.key in x'.full {
      assert z == KeyColumn(z.key, z.column);
    }
  }

  lemma {:induction false} BackfillNulls(schema: Schema, x: Shard, day: nat)
    requires x.state.job.Backfilling? && NullsOk(schema, x) && x.state.archive.Keys == x.full.Keys
    ensures NullsOk(schema, StepBackfillDay(schema, x, day))
  {
    var us := DayRows(x.state, day);
    var m, x' := x.state.archive, StepBackfillDay(schema, x, day);
    hide Fold, Apply, Recount, DayRows, StoreSets, Moved;
    SameKeys(m, x.full, us);
    forall k, c | KeyColumn(k, c) in x'.nulls
      ensures && k in x'.full && k in x'.state.archive && c !in x'.full[k] && c !in x'.state.archive[k]
              && c in schema.sortColumns && schema.Default(c).Valid?
    {
      ApplyGet(m, us, k);
      ApplyGet(x.full, us, k);
    }
  }

  lemma {:induction false} BackfillCounts(schema: Schema, x: Shard, day: nat)
    requires x.state.job.Backfilling? && CountsFollow(schema, x) && Timed(x.state.job.captured, schema.time)
    ensures CountsFollow(schema, StepBackfillDay(schema, x, day))
  {
    var us := DayRows(x.state, day);
    var m, x' := x.state.archive, StepBackfillDay(schema, x, day);
    SelectTimed(x.state.job.captured, schema.time, OnDay(day));
    hide Fold, Apply, Recount, DayRows, CountsFollow, InPlace, LostAfter, NullsAfter, Select, Timed, Merges, Kept;
    forall k, c | k in x'.state.archive && c in x'.state.archive[k] && Drops(schema, x'.counted, k, c)
      ensures Valid(x'.state.archive[k][c]) == schema.Default(c)
    {
      if Merges(schema, x.nulls, m, us) && schema.DayOf(k) == day {
        RecountedCell(schema, x.counted, x'.state.archive, {day}, k, c);
      } else {
        if Merges(schema, x.nulls, m, us) {
          RecountedOther(schema, x.counted, x'.state.archive, {day}, k, c);
        }
        WrittenInPlace(schema, x.nulls, m, us, day, k);
        KeptCell(schema, x, k, Apply(m, us)[k], c);
      }
    }
    assert CountsFollow(schema, x') by {
      CountsFollowIs(schema, x');
    }
  }

  lemma {:induction false} CountsFollowIs(schema: Schema, x: Shard)
    requires forall k, c :: k in x.state.archive && c in x.state.archive[k] && Drops(schema, x.counted, k, c) ==>
               Valid(x.state.archive[k][c]) == schema.Default(c)
    ensures CountsFollow(schema, x)
  {
  }

  // Outside a merged day every record is written in place, if at all.
  lemma {:induction false} WrittenInPlace(schema: Schema, nulls: set<KeyColumn>, m: Records, us: seq<Upsert>,
      day: nat, k: Key)
    requires Timed(us, schema.time) && (forall i :: 0 <= i < |us| ==> us[i].eventTime / 86400 == day)
    requires k in Apply(m, us) && (Merges(schema, nulls, m, us) ==> schema.DayOf(k) != day)
    ensures InPlace(schema, nulls, m, us, k) && k in m
  {
    if exists i :: 0 <= i < |us| && us[i].key == k {
      var i :| 0 <= i < |us| && us[i].key == k;
      assert us[i].eventTime / 86400 == day;
    } else {
      FoldNone(us, k);
      ApplyGet(m, us, k);
      NotMoved(schema, nulls, m, us, k);
    }
  }

  lemma {:induction false} NotMoved(schema: Schema, nulls: set<KeyColumn>, m: Records, us: seq<Upsert>, k: Key)
    requires forall i :: 0 <= i < |us| ==> us[i].key != k
    ensures !Moved(schema, nulls, m, us, k)
    decreases |us|
  {
    if us != [] {
      NotMoved(schema, nulls, m, us[..|us| - 1], k);
    }
  }

  lemma {:induction false} KeptCell(schema: Schema, x: Shard, k: Key, now: Cells, c: nat)
    requires CountsFollow(schema, x) && k in x.state.archive && Drops(schema, x.counted, k, c)
    requires c in Kept(schema, x.counted, k, x.state.archive[k], now)
    ensures Valid(Kept(schema, x.counted, k, x.state.archive[k], now)[c]) == schema.Default(c)
  {
  }

  lemma {:induction false} RecountedOther(schema: Schema, counted: set<DayColumn>, m: Records, days: set<nat>, k: Key,
      c: nat)
    requires schema.DayOf(k) !in days
    ensures Drops(schema, Recount(schema, counted, m, days), k, c) <==> Drops(schema, counted, k, c)
  {
    assert DayColumn(schema.DayOf(k), c).day == schema.DayOf(k);
  }

  // A recounted day counts every value that is not the default.
  lemma {:induction false} RecountedCell(schema: Schema, counted: set<DayColumn>, m: Records, days: set<nat>, k: Key,
      c: nat)
    requires k in m && c in m[k] && c !in schema.sortColumns && schema.DayOf(k) in days
    ensures DayColumn(schema.DayOf(k), c) in Recount(schema, counted, m, days) || Valid(m[k][c]) == schema.Default(c)
  {
    if Valid(m[k][c]) != schema.Default(c) {
      assert DayColumn(schema.DayOf(k), c) in NonDefault(schema, m);
    }
  }

  lemma {:induction false} NonDefaultKey(schema: Schema, m: Records, day: nat, c: nat) returns (k: Key)
    requires DayColumn(day, c) in NonDefault(schema, m)
    ensures k in m && c in m[k] && schema.DayOf(k) == day && Valid(m[k][c]) != schema.Default(c)
  {
    var k', c' :| k' in m && c' in m[k'] && c' !in schema.sortColumns && Valid(m[k'][c']) != schema.Default(c')
                  && DayColumn(day, c) == DayColumn(schema.DayOf(k'), c');
    k := k';
  }

  ghost function MovedRecords(schema: Schema, s: State): Records {
    map k | k in s.live && Stable(schema, s, k) :: s.live[k]
  }

  // Archived keys are older than the cutoff, so a commit only adds records.
  lemma {:induction false} CommitAdds(schema: Schema, x: Shard)
    requires ShardInv(schema, x) && x.state.job.Archiving?
    ensures var x', moved := StepCommit(schema, x), MovedRecords(schema, x.state);
            x'.state.archive == x.state.archive + moved && x'.full == x.full + moved && moved.Keys !! x.full.Keys
  {
    hide KeyInv, Recount, NullsMoved;
    var x', moved := StepCommit(schema, x), MovedRecords(schema, x.state);
    assert moved == map k | k in x.state.live
                      && x.state.cutoff <= schema.time(k) < x.state.watermark :: x.state.live[k];
  }

  lemma {:induction false} CommitNulls(schema: Schema, x: Shard)
    requires ShardInv(schema, x) && x.state.job.Archiving?
    ensures NullsOk(schema, StepCommit(schema, x))
  {
    CommitAdds(schema, x);
    hide Inv, Recount;
    var x', moved := StepCommit(schema, x), MovedRecords(schema, x.state);
    forall k, c | KeyColumn(k, c) in x'.nulls
      ensures && k in x'.full && k in x'.state.archive && c !in x'.full[k] && c !in x'.state.archive[k]
              && c in schema.sortColumns && schema.Default(c).Valid?
    {
      if k in moved {
        assert x'.full[k] == x.state.live[k] && x'.state.archive[k] == x.state.live[k];
      }
    }
  }

  lemma {:induction false} CommitLostExact(schema: Schema, x: Shard)
    requires ShardInv(schema, x) && x.state.job.Archiving?
    ensures LostExact(schema, StepCommit(schema, x))
  {
    CommitAdds(schema, x);
    CommitNulls(schema, x);
    hide Inv, Recount;
    var x', moved := StepCommit(schema, x), MovedRecords(schema, x.state);
    forall k, c | k in x'.full ensures ReadsFull(schema, x', k, c) {
      if k !in moved {
        assert ReadsFull(schema, x, k, c);
      }
    }
  }

  lemma {:induction false} CommitCounts(schema: Schema, x: Shard)
    requires CountsFollow(schema, x) && x.state.job.Archiving?
    ensures CountsFollow(schema, StepCommit(schema, x))
  {
    hide Recount, NullsMoved;
    var x' := StepCommit(schema, x);
    var days := MovedDays(schema, x.state);
    forall k, c | k in x'.state.archive && c in x'.state.archive[k] && Drops(schema, x'.counted, k, c)
      ensures Valid(x'.state.archive[k][c]) == schema.Default(c)
    {
      if schema.DayOf(k) in days {
        RecountedCell(schema, x.counted, x'.state.archive, days, k, c);
      } else {
        RecountedOther(schema, x.counted, x'.state.archive, days, k, c);
      }
    }
  }

  lemma {:induction false} ShardStepKept(schema: Schema, x: Shard, a: Action)
    requires ShardInv(schema, x) && Enabled(x.state, a, schema.time)
    ensures ShardInv(schema, Step(schema, x, a))
  {
    StepsTogether(schema, x, a);
    StepKept(Reference(x), a, schema.time);
    IndexKept(schema, x, a);
    SeenKept(schema, x, a);
    match a {
      case BackfillDay(d) =>
        CapturedTimed(Reference(x), schema.time);
        BackfillLostExact(schema, x, d);
        BackfillNulls(schema, x, d);
        BackfillCounts(schema, x, d);
      case CommitArchive =>
        CommitLostExact(schema, x);
        CommitNulls(schema, x);
        CommitCounts(schema, x);
      case _ =>
        hide Inv, CountsFollow, LostExact, NullsOk, Do, Indexes, IndexAfter;
        QuietArchive(x.state, a, schema.time);
        SameLost(schema, x, Step(schema, x, a));
    }
  }

  // Live records keep their places through every step.
  lemma {:induction false} IndexKept(schema: Schema, x: Shard, a: Action)
    requires Indexes(x.index, x.state.live) && Enabled(x.state, a, schema.time)
    ensures Indexes(Step(schema, x, a).index, Step(schema, x, a).state.live)
  {
    hide Apply, Select, Publish, Recount, LostAfter, NullsAfter, NullsMoved, Indexes, PlaceRows, Active;
    var ix, live, w := x.index, x.state.live, x.state.watermark;
    match a {
      case Ingest(batch) => BatchIndexes(ix, schema.liveBatchSize, batch, AtLeast(w), live);
      case Replay => BatchIndexes(ix, schema.liveBatchSize, x.state.log[x.state.position], AtLeast(w), live);
      case PurgeLive(keys) => PurgeIndexes(ix, live, keys);
      case Crash => NothingIndexed();
      case _ =>
    }
  }

  lemma {:induction false} SeenKept(schema: Schema, x: Shard, a: Action)
    requires SeenThen(x) && Enabled(x.state, a, schema.time)
    ensures SeenThen(Step(schema, x, a))
  {
    hide Apply, Select, Publish, Recount, LostAfter, NullsAfter, NullsMoved, PlaceRows, Active;
    var size, w := schema.liveBatchSize, x.state.watermark;
    match a {
      case Ingest(batch) => CreatedGrows(x.index, size, Select(batch, AtLeast(w)), Active(batch));
      case Replay =>
        CreatedGrows(x.index, size, Select(x.state.log[x.state.position], AtLeast(w)),
                     Active(x.state.log[x.state.position]));
      case _ =>
    }
  }

  lemma {:induction false} NothingIndexed()
    ensures Indexes(EmptyIndex(), map[])
  {
  }

  lemma {:induction false} CapturedTimed(s: State, time: Key -> nat)
    requires Inv(s, time) && s.job.Backfilling?
    ensures Timed(s.job.captured, time)
  {
  }

  lemma {:induction false} QuietArchive(s: State, a: Action, time: Key -> nat)
    requires Enabled(s, a, time) && !a.BackfillDay? && !a.CommitArchive?
    ensures Do(s, a, time).archive == s.archive
  {
    hide Apply, Select;
  }

  lemma {:induction false} SameLost(schema: Schema, x: Shard, y: Shard)
    requires CountsFollow(schema, x) && LostExact(schema, x) && NullsOk(schema, x)
    requires y == x.(state := y.state, index := y.index, seen := y.seen) && y.state.archive == x.state.archive
    ensures CountsFollow(schema, y) && LostExact(schema, y) && NullsOk(schema, y)
  {
    forall k, c | k in y.full ensures ReadsFull(schema, y, k, c) {
      assert ReadsFull(schema, x, k, c);
    }
  }

  // Every run keeps the invariant.
  lemma {:induction false} ShardRunKept(schema: Schema, run: seq<Action>)
    requires Possible(schema, run)
    ensures ShardInv(schema, Ran(schema, run))
    decreases |run|
  {
    hide ShardInv, Step, Enabled;
    if run == [] {
      StartInv(schema);
    } else {
      ShardRunKept(schema, run[..|run| - 1]);
      ShardStepKept(schema, Ran(schema, run[..|run| - 1]), run[|run| - 1]);
    }
  }

  lemma {:induction false} StartInv(schema: Schema)
    ensures ShardInv(schema, Start())
  {
    assert Legal([], schema.time) && After([], schema.time) == Init();
    RunKept([], schema.time);
    NothingIndexed();
  }

  // ------------------------------------------------------ what queries see

  ghost predicate Drained(s: State) {
    Serving(s) && s.job.Idle? && s.queue == []
  }

  // A record still in the live store whose batch lacks a column with a default.
  ghost predicate LiveNull(schema: Schema, x: Shard, k: Key, c: nat) {
    k in VisibleLive(x.state, schema.time) && Unfilled(schema, x.state.live, x.index, k, c)
  }

  // Queries read what the log says of the cell.
  ghost predicate ShowsCell(schema: Schema, x: Shard, k: Key, c: nat) {
    Shown(schema, x, k, c) == ReadCell(schema, {}, Fold(Flat(x.state.log)), k, c)
  }

  // A drained shard shows the fold of the log, but for exactly the lost cells,
  // which show the default, and the null ones.
  ghost predicate ShowsFold(schema: Schema, x: Shard) {
    var fold := Fold(Flat(x.state.log));
    && View(x.state, schema.time).Keys == fold.Keys
    && (forall k, c :: k in fold ==>
          (ShowsCell(schema, x, k, c) <==>
             KeyColumn(k, c) !in x.lost && KeyColumn(k, c) !in x.nulls && !LiveNull(schema, x, k, c)))
    && (forall z :: z in x.lost || z in x.nulls ==> z.key in fold)
    && (forall k, c :: KeyColumn(k, c) in x.nulls || LiveNull(schema, x, k, c) ==>
          Shown(schema, x, k, c) == Null && schema.Default(c).Valid? && !(k in fold && c in fold[k]))
  }

  // Archived keys are not visible live.
  lemma {:induction false} ArchivedOrLive(schema: Schema, x: Shard)
    requires ShardInv(schema, x)
    ensures VisibleLive(x.state, schema.time).Keys !! x.full.Keys && x.state.archive.Keys == x.full.Keys
  {
    hide KeyInv, NullsOk, CountsFollow, ReadsFull, Indexes;
  }

  // One cell: what a query reads against the view of the reference.
  lemma {:induction false} ShownExact(schema: Schema, x: Shard, k: Key, c: nat)
    requires ShardInv(schema, x) && k in View(Reference(x), schema.time)
    ensures Shown(schema, x, k, c) == ReadCell(schema, {}, View(Reference(x), schema.time), k, c) <==>
            KeyColumn(k, c) !in x.lost && KeyColumn(k, c) !in x.nulls && !LiveNull(schema, x, k, c)
  {
    ArchivedOrLive(schema, x);
    hide Inv, CountsFollow, Indexes;
    var live := VisibleLive(x.state, schema.time);
    assert live == VisibleLive(Reference(x), schema.time);
    if k in live {
      assert KeyColumn(k, c) !in x.lost && KeyColumn(k, c) !in x.nulls;
    } else {
      assert ReadsFull(schema, x, k, c);
    }
  }

  // Null cells read as null, have a default and are not written.
  lemma {:induction false} NullShown(schema: Schema, x: Shard, k: Key, c: nat)
    requires ShardInv(schema, x) && (KeyColumn(k, c) in x.nulls || LiveNull(schema, x, k, c))
    ensures Shown(schema, x, k, c) == Null && schema.Default(c).Valid?
    ensures var m := View(Reference(x), schema.time); k in m && c !in m[k]
  {
    ArchivedOrLive(schema, x);
    hide Inv, CountsFollow, Indexes;
    assert VisibleLive(x.state, schema.time) == VisibleLive(Reference(x), schema.time);
  }

  lemma {:induction false} DrainedShard(schema: Schema, x: Shard)
    requires ShardInv(schema, x) && Drained(x.state)
    ensures ShowsFold(schema, x)
  {
    hide Fold, Flat, KeyInv, CountsFollow, ReadsFull, Indexes, Shown, LiveNull, NullsOk;
    DrainedState(Reference(x), schema.time);
    var fold := Fold(Flat(x.state.log));
    assert View(Reference(x), schema.time) == fold;
    assert View(x.state, schema.time).Keys == fold.Keys;
    hide View, VisibleLive;
    forall k, c | k in fold
      ensures ShowsCell(schema, x, k, c) <==>
                KeyColumn(k, c) !in x.lost && KeyColumn(k, c) !in x.nulls && !LiveNull(schema, x, k, c)
    {
      ShownExact(schema, x, k, c);
    }
    forall k, c | KeyColumn(k, c) in x.nulls || LiveNull(schema, x, k, c)
      ensures Shown(schema, x, k, c) == Null && schema.Default(c).Valid? && k in fold && c !in fold[k]
    {
      NullShown(schema, x, k, c);
    }
    forall z | z in x.lost || z in x.nulls ensures z.key in fold {
      assert z == KeyColumn(z.key, z.column);
      if z in x.lost {
        LostArchived(schema, x, z);
      }
    }
  }

  lemma {:induction false} LostArchived(schema: Schema, x: Shard, z: KeyColumn)
    requires LostExact(schema, x) && z in x.lost
    ensures z.key in View(Reference(x), schema.time)
  {
    hide ReadsFull;
  }

  // Crash safety: after any run of ingestion, archiving, backfill, purging,
  // crashes and replay, once the log is replayed, no job is running and the
  // queue is drained, every query reads the left fold of all logged upserts in
  // log order, except in exactly three kinds of cells: those whose last backfill
  // was dropped, archived sort cells stored as null in place of a default, and
  // live cells of a column with a default that their batch lacks.
  lemma {:induction false} DrainedRun(schema: Schema, run: seq<Action>)
    requires Possible(schema, run)
    ensures var x := Ran(schema, run);
            && (Drained(x.state) ==> ShowsFold(schema, x))
            && x.state.archive.Keys !! VisibleLive(x.state, schema.time).Keys
  {
    var x := Ran(schema, run);
    ShardRunKept(schema, run);
    hide Possible, Ran, KeyInv, ShowsFold;
    if Drained(x.state) {
      DrainedShard(schema, x);
    }
  }

  // An unsorted cell that a commit turns from null to its default.
  ghost predicate FillsIn(schema: Schema, x: Shard, k: Key, c: nat) {
    Stable(schema, x.state, k) && c !in schema.sortColumns && Unfilled(schema, x.state.live, x.index, k, c)
  }

  // A sort cell that a commit turns from its default to null: the column came to
  // the live batch after the job's snapshot.
  ghost predicate Empties(schema: Schema, x: Shard, k: Key, c: nat) {
    && Stable(schema, x.state, k) && c in schema.sortColumns
    && Unfilled(schema, x.state.live, Snapshot(x), k, c) && !x.index.Lacks(k, c)
  }

  // Committing an archive version changes the query results of exactly these.
  ghost predicate CommitChanges(schema: Schema, x: Shard, y: Shard, k: Key, c: nat) {
    && (Shown(schema, y, k, c) == Shown(schema, x, k, c) <==> !FillsIn(schema, x, k, c) && !Empties(schema, x, k, c))
    && (FillsIn(schema, x, k, c) ==> Shown(schema, x, k, c) == Null && Shown(schema, y, k, c) == schema.Default(c))
    && (Empties(schema, x, k, c) ==> Shown(schema, x, k, c) == schema.Default(c) && Shown(schema, y, k, c) == Null)
  }

  lemma {:induction false} CommitShows(schema: Schema, x: Shard, k: Key, c: nat)
    requires ShardInv(schema, x) && x.state.job.Archiving?
    ensures var y := StepCommit(schema, x);
            View(y.state, schema.time) == View(x.state, schema.time) && CommitChanges(schema, x, y, k, c)
  {
    InvSeen(schema, x);
    hide ShardInv, StepCommit, Recount, View;
    InvCutoff(schema, x);
    CommitViewed(schema, x);
    CommitStores(schema, x, k, c);
    CommitVisible(schema, x, k);
  }

  lemma {:induction false} CommitViewed(schema: Schema, x: Shard)
    requires x.state.job.Archiving? && x.state.cutoff <= x.state.watermark
    ensures View(StepCommit(schema, x).state, schema.time) == View(x.state, schema.time)
  {
    hide View, Recount, NullsMoved;
    CommitView(x.state, schema.time);
  }

  lemma {:induction false} CommitVisible(schema: Schema, x: Shard, k: Key)
    requires x.state.cutoff <= x.state.watermark
    ensures var y := StepCommit(schema, x);
            && y.state.live == x.state.live && y.index == x.index
            && (k in VisibleLive(y.state, schema.time) <==>
                  k in VisibleLive(x.state, schema.time) && !Stable(schema, x.state, k))
            && (Stable(schema, x.state, k) ==> k in VisibleLive(x.state, schema.time))
  {
    hide Recount, NullsMoved;
  }

  // A record just archived, and the others.
  lemma {:induction false} CommitStores(schema: Schema, x: Shard, k: Key, c: nat)
    requires ShardInv(schema, x) && x.state.job.Archiving?
    ensures var y := StepCommit(schema, x);
            ReadCell(schema, y.nulls, y.state.archive, k, c) ==
            if !Stable(schema, x.state, k) then ReadCell(schema, x.nulls, x.state.archive, k, c)
            else if c in schema.sortColumns && Unfilled(schema, x.state.live, Snapshot(x), k, c) then Null
            else ReadCell(schema, {}, x.state.live, k, c)
  {
    CommitAdds(schema, x);
    hide Inv, LostExact, CountsFollow, Recount, Indexes;
    if Stable(schema, x.state, k) {
      assert KeyColumn(k, c) !in x.nulls;
      assert StepCommit(schema, x).state.archive[k] == x.state.live[k];
    }
  }

  lemma {:induction false} InvSeen(schema: Schema, x: Shard)
    requires ShardInv(schema, x) && x.state.job.Archiving?
    ensures x.seen <= x.index.created && Indexes(x.index, x.state.live)
  {
    hide Inv, LostExact, CountsFollow, NullsOk, Indexes;
  }

  lemma {:induction false} InvCutoff(schema: Schema, x: Shard)
    requires ShardInv(schema, x) && x.state.job.Archiving?
    ensures x.state.cutoff <= x.state.watermark
  {
    hide KeyInv, LostExact, CountsFollow, NullsOk, Indexes;
  }

  // In every run.
  lemma {:induction false} CommitChangesExactly(schema: Schema, run: seq<Action>, k: Key, c: nat)
    requires Possible(schema, run) && Ran(schema, run).state.job.Archiving?
    ensures var x := Ran(schema, run);
            var y := Step(schema, x, CommitArchive);
            View(y.state, schema.time) == View(x.state, schema.time) && CommitChanges(schema, x, y, k, c)
  {
    hide Possible, Ran, View, CommitChanges, ShardInv, StepCommit;
    ShardRunKept(schema, run);
    CommitShows(schema, Ran(schema, run), k, c);
  }

  // Jobs change query results only where they apply rows.
  lemma {:induction false} QuietStepsShow(schema: Schema, x: Shard, a: Action, k: Key, c: nat)
    requires Enabled(x.state, a, schema.time)
    requires a.SetWatermark? || a.TakeSnapshot? || a.PurgeLive? || a.StartBackfill? || a.FinishBackfill? || a.PurgeLog?
    ensures View(Step(schema, x, a).state, schema.time) == View(x.state, schema.time)
    ensures Shown(schema, Step(schema, x, a), k, c) == Shown(schema, x, k, c)
  {
    hide View;
    QuietStepsKeepView(x.state, a, schema.time);
    assert VisibleLive(Step(schema, x, a).state, schema.time) == VisibleLive(x.state, schema.time);
  }

  // ------------------------------------------------------- which steps lose

  // No write in place leaves a value that is not the default in a column that
  // held only defaults.
  ghost predicate Lossless(schema: Schema, x: Shard, day: nat)
    requires x.state.job.Backfilling?
  {
    forall k, c :: !Loses(schema, x.nulls, x.counted, x.state.archive, DayRows(x.state, day), k, c)
  }

  // Backfilling a day loses something exactly when the guard fails.
  lemma {:induction false} LosslessStep(schema: Schema, x: Shard, day: nat)
    requires x.state.job.Backfilling? && x.lost == {}
    ensures StepBackfillDay(schema, x, day).lost == {} <==> Lossless(schema, x, day)
  {
    hide Fold, Apply, Recount, InPlace, Publish, DayRows, NullsAfter;
    var us, lost := DayRows(x.state, day), StepBackfillDay(schema, x, day).lost;
    if Lossless(schema, x, day) {
      forall z ensures z !in lost {
        assert z == KeyColumn(z.key, z.column);
      }
    } else {
      var k, c :| Loses(schema, x.nulls, x.counted, x.state.archive, us, k, c);
      assert KeyColumn(k, c) in lost;
    }
  }

  ghost predicate LosslessRun(schema: Schema, run: seq<Action>)
    requires Possible(schema, run)
    decreases |run|
  {
    run == [] ||
    var x, a := Ran(schema, run[..|run| - 1]), run[|run| - 1];
    LosslessRun(schema, run[..|run| - 1]) && (a.BackfillDay? ==> Lossless(schema, x, a.day))
  }

  lemma {:induction false} LosslessRunKept(schema: Schema, run: seq<Action>)
    requires Possible(schema, run) && LosslessRun(schema, run)
    ensures Ran(schema, run).lost == {}
    decreases |run|
  {
    if run != [] {
      LosslessRunKept(schema, run[..|run| - 1]);
      var x, a := Ran(schema, run[..|run| - 1]), run[|run| - 1];
      hide Lossless, Do, StepCommit, IndexAfter;
      CommitLost(schema, x);
      if a.BackfillDay? {
        LosslessStep(schema, x, a.day);
      }
    }
  }

  lemma {:induction false} CommitLost(schema: Schema, x: Shard)
    ensures StepCommit(schema, x).lost == x.lost
  {
  }

  // If no backfilled day fails the guard, queries read the fold in a cell exactly
  // when no default is shown as null there.
  lemma {:induction false} LosslessDrained(schema: Schema, run: seq<Action>, k: Key, c: nat)
    requires Possible(schema, run) && LosslessRun(schema, run) && Drained(Ran(schema, run).state)
    requires k in Fold(Flat(Ran(schema, run).state.log))
    ensures var x := Ran(schema, run);
            && k in View(x.state, schema.time)
            && (ShowsCell(schema, x, k, c) <==> KeyColumn(k, c) !in x.nulls && !LiveNull(schema, x, k, c))
  {
    hide Possible, LosslessRun, Ran, View, Fold, Flat, ShowsCell, LiveNull;
    LosslessRunKept(schema, run);
    DrainedRun(schema, run);
  }

  // ---------------------------------------------------------------- draining

  // The reference accepts the same runs and goes through its own states.
  lemma {:induction false} RunsTogether(schema: Schema, run: seq<Action>)
    ensures Possible(schema, run) <==> Legal(run, schema.time)
    ensures Possible(schema, run) ==> Reference(Ran(schema, run)) == After(run, schema.time)
    decreases |run|
  {
    hide Do, Step;
    if run != [] {
      RunsTogether(schema, run[..|run| - 1]);
      if Possible(schema, run[..|run| - 1]) {
        var x, a := Ran(schema, run[..|run| - 1]), run[|run| - 1];
        SameEnabled(x.state, x.full, a, schema.time);
        if Enabled(x.state, a, schema.time) {
          StepsTogether(schema, x, a);
        }
      }
    }
  }

  lemma {:induction false} SameEnabled(s: State, full: Records, a: Action, time: Key -> nat)
    ensures Enabled(s, a, time) <==> Enabled(s.(archive := full), a, time)
  {
  }

  // From every reachable state the running job can finish, the log can be
  // replayed and the queue drained.
  lemma {:induction false} ShardCanDrain(schema: Schema, run: seq<Action>) returns (more: seq<Action>)
    requires Possible(schema, run)
    ensures Possible(schema, run + more)
    ensures var x := Ran(schema, run + more);
            x.state.log == Ran(schema, run).state.log && Drained(x.state) && ShowsFold(schema, x)
  {
    hide Possible, Ran, Legal, After, ShowsFold;
    RunsTogether(schema, run);
    more := CanDrain(run, schema.time);
    RunsTogether(schema, run + more);
    DrainedRun(schema, run + more);
  }
}
