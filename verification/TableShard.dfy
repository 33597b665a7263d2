/** A fact-table shard, operation by operation, as the lifecycle steps. */
module TableShards {
  import opened Common
  import opened CuckooTable
  import opened Upserts
  import opened Lifecycle
  import opened LiveIndexes
  import opened ShardSteps
  import opened Pruning

  lemma {:induction false} SelectSnoc(us: seq<Upsert>, i: nat, keep: nat -> bool)
    requires i < |us|
    ensures Select(us[..i + 1], keep) ==
              if keep(us[i].eventTime) then Select(us[..i], keep) + [us[i]] else Select(us[..i], keep)
  {
    assert us[..i + 1][..i] == us[..i];
  }

  lemma {:induction false} ApplySnoc(m: Records, us: seq<Upsert>, u: Upsert)
    ensures Apply(m, us + [u]) == Put(Apply(m, us), u)
  {
    assert (us + [u])[..|us + [u]| - 1] == us;
  }

  lemma {:induction false} PlaceSnoc(ix: LiveIndex, batchSize: nat, us: seq<Upsert>, u: Upsert, active: set<nat>)
    ensures PlaceRows(ix, batchSize, us + [u], active) ==
              PlaceRow(PlaceRows(ix, batchSize, us, active), batchSize, u, active)
  {
    assert (us + [u])[..|us + [u]| - 1] == us;
  }

  // The live records between two cutoffs, but for those still to do.
  ghost function LiveMoved(live: Records, lo: nat, hi: nat, time: Key -> nat, todo: set<Key>): Records {
    map k | k in live && k !in todo && lo <= time(k) < hi :: live[k]
  }

  lemma {:induction false} MoveOne(archive: Records, live: Records, lo: nat, hi: nat, time: Key -> nat,
      todo: set<Key>, k: Key)
    requires k in todo && k in live
    ensures archive + LiveMoved(live, lo, hi, time, todo - {k}) ==
            if lo <= time(k) < hi then (archive + LiveMoved(live, lo, hi, time, todo))[k := live[k]]
            else archive + LiveMoved(live, lo, hi, time, todo)
  {
    assert LiveMoved(live, lo, hi, time, todo - {k}) ==
           if lo <= time(k) < hi then LiveMoved(live, lo, hi, time, todo)[k := live[k]]
              else LiveMoved(live, lo, hi, time, todo);
  }

  lemma {:induction false} MoveAll(archive: Records, live: Records, lo: nat, hi: nat, time: Key -> nat)
    ensures archive + LiveMoved(live, lo, hi, time, live.Keys) == archive
    ensures LiveMoved(live, lo, hi, time, {}) == map k | k in live && lo <= time(k) < hi :: live[k]
  {
    assert LiveMoved(live, lo, hi, time, live.Keys) == map[];
  }

  class TableShard {
    const schema: Schema
    // On disk.
    var log: seq<seq<Upsert>>
    var purged: set<nat>
    var persistedCutoff: nat
    var persistedBackfill: nat
    var archive: Records
    // The archived cells stored as null though their column has a default, and
    // the archive columns of a day whose non-default count is not zero.
    var nulls: set<KeyColumn>
    var counted: set<DayColumn>
    // In memory.
    var watermark: nat
    var live: Records
    var index: LiveIndex
    // The columns the live batches had at the archiving job's snapshot.
    var seen: set<BatchColumn>
    var queue: seq<Upsert>
    var position: nat
    var job: Job
    // The cells whose last backfill was dropped, and the archive had none been.
    ghost var lost: set<KeyColumn>
    ghost var full: Records

    constructor (tableSchema: Schema)
      ensures schema == tableSchema && X() == Start()
    {
      schema := tableSchema;
      log, purged, persistedCutoff, persistedBackfill, archive, nulls, counted := [], {}, 0, 0, map[], {}, {};
      watermark, live, index, seen, queue, position, job := 0, map[], EmptyIndex(), {}, [], 0, Idle;
      lost, full := {}, map[];
    }

    ghost function S(): State
      reads this
    {
      State(log, purged, persistedCutoff, persistedBackfill, archive, watermark, live, queue, position, job)
    }

    ghost function X(): Shard
      reads this
    {
      Shard(S(), index, seen, nulls, counted, lost, full)
    }

    ghost predicate Valid()
      reads this
    {
      ShardInv(schema, X())
    }

    // Routes each row by the watermark: to the live store, or to the queue
    // unless its backfill is already persisted.
    method ApplyUpsertBatch(batch: seq<Upsert>, skipBackfillRows: bool)
      modifies this`live, this`index, this`queue
      ensures live == Apply(old(live), Select(batch, AtLeast(watermark)))
      ensures index == PlaceRows(old(index), schema.liveBatchSize, Select(batch, AtLeast(watermark)), Active(batch))
      ensures queue == old(queue) + (if skipBackfillRows then [] else Select(batch, Below(watermark)))
    {
      hide Apply, Select, PlaceRows, Active;
      var backfillRows := [];
      var active := Active(batch);
      NothingRouted(live, index, batch, active);
      var i := 0;
      while i < |batch|
        invariant 0 <= i <= |batch|
        invariant live == Apply(old(live), Select(batch[..i], AtLeast(watermark)))
        invariant index == PlaceRows(old(index), schema.liveBatchSize, Select(batch[..i], AtLeast(watermark)), active)
        invariant backfillRows == if skipBackfillRows then [] else Select(batch[..i], Below(watermark))
        invariant queue == old(queue)
      {
        SelectSnoc(batch, i, AtLeast(watermark));
        SelectSnoc(batch, i, Below(watermark));
        var u := batch[i];
        if u.eventTime < watermark {
          if !skipBackfillRows {
            backfillRows := backfillRows + [u];
          }
        } else {
          ApplySnoc(old(live), Select(batch[..i], AtLeast(watermark)), u);
          PlaceSnoc(old(index), schema.liveBatchSize, Select(batch[..i], AtLeast(watermark)), u, active);
          live := Put(live, u);
          index := PlaceRow(index, schema.liveBatchSize, u, active);
        }
        i := i + 1;
      }
      assert batch[..i] == batch;
      queue := queue + backfillRows;
    }

    lemma {:induction false} NothingRouted(m: Records, ix: LiveIndex, batch: seq<Upsert>, active: set<nat>)
      ensures Apply(m, Select(batch[..0], AtLeast(watermark))) == m && Select(batch[..0], Below(watermark)) == []
      ensures PlaceRows(ix, schema.liveBatchSize, Select(batch[..0], AtLeast(watermark)), active) == ix
    {
    }

    // Logs the batch and applies it.
    method SaveUpsertBatch(batch: seq<Upsert>)
      requires Enabled(S(), Ingest(batch), schema.time)
      modifies this`log, this`live, this`index, this`queue, this`position
      ensures X() == Step(schema, old(X()), Ingest(batch))
      ensures old(Valid()) ==> Valid()
    {
      hide ShardInv, Step, Enabled, Apply, Select, PlaceRows, Active;
      ghost var before := X();
      log := log + [batch];
      ApplyUpsertBatch(batch, false);
      position := position + 1;
      IsIngest(schema, before, batch);
      if ShardInv(schema, before) {
        ShardStepKept(schema, before, Ingest(batch));
      }
    }

    lemma {:induction false} IsIngest(schema: Schema, x: Shard, batch: seq<Upsert>)
      requires Enabled(x.state, Ingest(batch), schema.time)
      ensures Step(schema, x, Ingest(batch)) ==
                x.(state := DoIngest(x.state, batch), index := PlaceBatch(schema, x, batch))
    {
    }

    // Raises the high watermark, or refuses a cutoff that is not newer. Queries
    // see no difference.
    method BeginArchive(cutoff: nat) returns (ok: bool)
      requires Valid() && Serving(S()) && job.Idle?
      modifies this`watermark, this`seen, this`job
      ensures Valid() && View(S(), schema.time) == old(View(S(), schema.time))
      ensures forall k, c :: Shown(schema, X(), k, c) == old(Shown(schema, X(), k, c))
      ensures ok <==> cutoff > persistedCutoff
      ensures ok ==> job.Archiving? && watermark == cutoff
    {
      if cutoff <= persistedCutoff {
        return false;
      }
      hide ShardInv, View, Shown;
      BeginsArchive(schema, X(), cutoff);
      watermark, seen, job := cutoff, index.created, Job.Archiving;
      return true;
    }

    lemma {:induction false} BeginsArchive(schema: Schema, x: Shard, cutoff: nat)
      requires ShardInv(schema, x) && Serving(x.state) && x.state.job.Idle? && cutoff > x.state.cutoff
      ensures var y := x.(state := x.state.(watermark := cutoff, job := Job.Archiving), seen := x.index.created);
              && ShardInv(schema, y) && View(y.state, schema.time) == View(x.state, schema.time)
              && forall k, c :: Shown(schema, y, k, c) == Shown(schema, x, k, c)
    {
      IsWatermark(schema, x, cutoff);
      hide ShardInv, View, Step, Shown, Enabled;
      var y := Step(schema, x, SetWatermark(cutoff));
      ShardStepKept(schema, x, SetWatermark(cutoff));
      forall k, c: nat ensures Shown(schema, y, k, c) == Shown(schema, x, k, c) {
        QuietStepsShow(schema, x, SetWatermark(cutoff), k, c);
      }
      QuietStepsShow(schema, x, SetWatermark(cutoff), [], 0);
    }

    lemma {:induction false} IsWatermark(schema: Schema, x: Shard, cutoff: nat)
      requires Serving(x.state) && x.state.job.Idle? && cutoff > x.state.cutoff
      ensures Enabled(x.state, SetWatermark(cutoff), schema.time)
      ensures Step(schema, x, SetWatermark(cutoff)) ==
              x.(state := x.state.(watermark := cutoff, job := Job.Archiving), seen := x.index.created)
    {
    }

    // Copies the live batches' lists of columns; ingestion may go on meanwhile.
    method TakeSnapshot()
      requires Valid() && job.Archiving?
      modifies this`seen
      ensures Valid() && seen == index.created
    {
      ghost var before := X();
      seen := index.created;
      assert X() == Step(schema, before, Action.TakeSnapshot);
      hide ShardInv, Step;
      ShardStepKept(schema, before, Action.TakeSnapshot);
    }

    // Moves the stable live records into the archive, counts the days they go to
    // anew and publishes the cutoff. The query results of exactly the cells that
    // it fills in or empties change.
    method CommitArchive()
      requires Valid() && job.Archiving?
      modifies this`archive, this`nulls, this`counted, this`full, this`persistedCutoff, this`job
      ensures Valid() && View(S(), schema.time) == old(View(S(), schema.time))
      ensures X() == Step(schema, old(X()), Action.CommitArchive)
      ensures forall k, c ::
                Shown(schema, X(), k, c) == old(Shown(schema, X(), k, c)) <==>
                !FillsIn(schema, old(X()), k, c) && !Empties(schema, old(X()), k, c)
    {
      ghost var before := X();
      var days := MoveStable();
      full := DoCommit(Reference(before), schema.time).archive;
      counted := Recount(schema, counted, archive, days);
      persistedCutoff, job := watermark, Idle;
      assert S() == DoCommit(before.state, schema.time);
      assert X() == StepCommit(schema, before);
      hide ShardInv, View, Recount, Shown, FillsIn, Empties, StepCommit;
      ShardStepKept(schema, before, Action.CommitArchive);
      forall k, c: nat
        ensures Shown(schema, X(), k, c) == Shown(schema, before, k, c) <==>
                !FillsIn(schema, before, k, c) && !Empties(schema, before, k, c)
      {
        CommitShows(schema, before, k, c);
      }
      CommitShows(schema, before, [], 0);
    }

    // Moves the records one by one, in whatever order.
    method MoveStable() returns (days: set<nat>)
      modifies this`archive, this`nulls
      ensures archive == old(archive) + (map k | k in live && persistedCutoff <= schema.time(k) < watermark :: live[k])
      ensures nulls == old(nulls) + NullsMoved(schema, old(S()), Noted())
      ensures days == MovedDays(schema, old(S()))
    {
      hide LiveMoved, StoredNulls, NullsOf, StableDays, NullsMoved, MovedDays;
      ghost var was := archive;
      NothingStored();
      MoveAll(was, live, persistedCutoff, watermark, schema.time);
      var todo := live.Keys;
      var stored: set<KeyColumn> := {};
      days := {};
      while todo != {}
        invariant todo <= live.Keys && nulls == old(nulls)
        invariant archive == was + LiveMoved(live, persistedCutoff, watermark, schema.time, todo)
        invariant days == StableDays(todo)
        invariant StoredNulls(todo, stored)
        decreases todo
      {
        var _ := SomeElement(todo);
        var k :| k in todo;
        MoveOne(was, live, persistedCutoff, watermark, schema.time, todo, k);
        StoredNext(todo, stored, k);
        if persistedCutoff <= schema.time(k) < watermark {
          archive := archive[k := live[k]];
          days := days + {schema.DayOf(k)};
          stored := stored + NullsOf(k);
        }
        todo := todo - {k};
      }
      nulls := nulls + stored;
      StoredAll(old(S()), stored, days);
    }

    // The live store as the snapshot has it.
    function Noted(): LiveIndex
      reads this`index, this`seen
    {
      index.(created := seen)
    }

    // The sort cells of a record to be stored as null.
    function NullsOf(k: Key): set<KeyColumn>
      reads this`live, this`index, this`seen
    {
      set c | c in schema.sortColumns && Unfilled(schema, live, Noted(), k, c) :: KeyColumn(k, c)
    }

    lemma {:induction false} StoredNext(todo: set<Key>, stored: set<KeyColumn>, k: Key)
      requires k in todo && k in live && StoredNulls(todo, stored)
      ensures var stable := persistedCutoff <= schema.time(k) < watermark;
              && StoredNulls(todo - {k}, if stable then stored + NullsOf(k) else stored)
              && StableDays(todo - {k}) == if stable then StableDays(todo) + {schema.DayOf(k)} else StableDays(todo)
    {
    }

    lemma {:induction false} NothingStored()
      ensures StoredNulls(live.Keys, {}) && StableDays(live.Keys) == {}
    {
    }

    lemma {:induction false} StoredAll(s: State, stored: set<KeyColumn>, days: set<nat>)
      requires s.live == live && s.cutoff == persistedCutoff && s.watermark == watermark && StoredNulls({}, stored)
      requires days == StableDays({})
      ensures stored == NullsMoved(schema, s, Noted()) && days == MovedDays(schema, s)
    {
      forall z ensures z in stored <==> z in NullsMoved(schema, s, Noted()) {
        assert z == KeyColumn(z.key, z.column);
      }
    }

    ghost function StableDays(todo: set<Key>): set<nat>
      reads this`live, this`persistedCutoff, this`watermark
    {
      set k | k in live && k !in todo && persistedCutoff <= schema.time(k) < watermark :: schema.DayOf(k)
    }

    // The sort cells of the records moved so far that are stored as null.
    ghost predicate StoredNulls(todo: set<Key>, stored: set<KeyColumn>)
      reads this`live, this`index, this`seen, this`persistedCutoff, this`watermark
    {
      forall k, c :: KeyColumn(k, c) in stored <==>
        && k in live && k !in todo && persistedCutoff <= schema.time(k) < watermark
        && c in schema.sortColumns && Unfilled(schema, live, Noted(), k, c)
    }

    // Restart: everything in memory is gone, cutoff and progress are read back.
    // What is left is enough for a replay.
    method LoadMetaData()
      requires Valid()
      modifies this`watermark, this`live, this`index, this`queue, this`position, this`job
      ensures Valid() && job.Idle?
    {
      hide ShardInv, Step;
      ghost var before := X();
      watermark := persistedCutoff;
      live, index, queue, position, job := map[], EmptyIndex(), [], 0, Idle;
      IsCrash(schema, before);
      ShardStepKept(schema, before, Crash);
    }

    lemma {:induction false} IsCrash(schema: Schema, x: Shard)
      ensures Step(schema, x, Crash) ==
              x.(state := x.state.(watermark := x.state.cutoff, live := map[], queue := [], position := 0, job := Idle),
                 index := EmptyIndex())
    {
    }

    // Replays the log entries that are left, skipping the rows whose backfill
    // is persisted.
    method PlayRedoLog()
      requires Valid() && job.Idle?
      modifies this`live, this`index, this`queue, this`position
      ensures Valid() && Serving(S())
    {
      hide ShardInv, Step;
      InvPosition(schema, X());
      while position < |log|
        invariant position <= |log| && Valid()
      {
        ghost var before := X();
        ShardStepKept(schema, before, Replay);
        ReplayEntry();
        IsReplay(schema, before);
        InvPosition(schema, X());
      }
    }

    lemma {:induction false} IsReplay(schema: Schema, x: Shard)
      requires x.state.position < |x.state.log|
      ensures Step(schema, x, Replay) == x.(state := DoReplay(x.state), index := IndexAfter(schema, x, Replay))
    {
    }

    method ReplayEntry()
      requires position < |log|
      modifies this`live, this`index, this`queue, this`position
      ensures S() == DoReplay(old(S())) && index == IndexAfter(schema, old(X()), Replay)
    {
      hide Apply, Select, PlaceRows, Active;
      if position !in purged {
        NoRows(queue);
        ApplyUpsertBatch(log[position], position < persistedBackfill);
      }
      position := position + 1;
    }

    lemma {:induction false} NoRows(us: seq<Upsert>)
      ensures us + [] == us
    {
    }

    lemma {:induction false} InvPosition(schema: Schema, x: Shard)
      requires ShardInv(schema, x)
      ensures x.state.position <= |x.state.log|
    {
    }

    // A whole backfill job: takes the queue, patches the affected days in any
    // order and persists the progress. Then queries see every logged upsert, but
    // for exactly the cells that `ShowsFold` names.
    method Backfill()
      requires Valid() && Serving(S()) && job.Idle?
      modifies this`archive, this`nulls, this`counted, this`lost, this`full, this`queue, this`job,
                 this`persistedBackfill
      ensures Valid() && Drained(S()) && ShowsFold(schema, X())
    {
      hide ShardInv, ShowsFold, Step;
      ShardStepKept(schema, X(), Action.StartBackfill);
      StartBackfill();
      while job.todo != {}
        invariant job.Backfilling? && queue == [] && Valid()
        decreases job.todo
      {
        var _ := SomeElement(job.todo);
        var day :| day in job.todo;
        ShardStepKept(schema, X(), Action.BackfillDay(day));
        BackfillDay(day);
      }
      ShardStepKept(schema, X(), Action.FinishBackfill);
      InvServing(schema, X());
      FinishBackfill();
      DrainedShard(schema, X());
    }

    lemma {:induction false} InvServing(schema: Schema, x: Shard)
      requires ShardInv(schema, x) && !x.state.job.Idle?
      ensures Serving(x.state)
    {
    }

    method StartBackfill()
      requires Enabled(S(), Action.StartBackfill, schema.time)
      modifies this`queue, this`job
      ensures X() == Step(schema, old(X()), Action.StartBackfill) && job.Backfilling? && queue == []
    {
      var days := DaysOf(queue);
      job, queue := Backfilling(queue, position, days), [];
    }

    // Publishes one day.
    method BackfillDay(day: nat)
      requires job.Backfilling? && day in job.todo
      modifies this`archive, this`nulls, this`counted, this`lost, this`full, this`job
      ensures X() == Step(schema, old(X()), Action.BackfillDay(day)) && job.Backfilling?
              && job.todo == old(job.todo) - {day}
    {
      hide *;
      ghost var before := X();
      Fields();
      IsBackfillDay(schema, before, day);
      var rows := Select(job.captured, OnDay(day));
      var r := PublishDay(schema, nulls, counted, archive, rows, day);
      lost, full := LostAfter(schema, before, rows), Apply(full, rows);
      archive, nulls, counted := r.archive, r.nulls, r.counted;
      job := job.(todo := job.todo - {day});
      Fields();
    }

    lemma {:induction false} Fields()
      ensures X() == Shard(State(log, purged, persistedCutoff, persistedBackfill, archive, watermark, live, queue,
                                 position,
                                 job), index, seen, nulls, counted, lost, full)
    {
    }

    lemma {:induction false} IsBackfillDay(schema: Schema, x: Shard, day: nat)
      requires x.state.job.Backfilling? && day in x.state.job.todo
      ensures Enabled(x.state, Action.BackfillDay(day), schema.time)
      ensures var us := Select(x.state.job.captured, OnDay(day));
              var r := PublishDay(schema, x.nulls, x.counted, x.state.archive, us, day);
              Step(schema, x, Action.BackfillDay(day)) ==
              Shard(x.state.(archive := r.archive, job := x.state.job.(todo := x.state.job.todo - {day})), x.index,
                    x.seen,
                    r.nulls, r.counted, LostAfter(schema, x, us), Apply(x.full, us))
    {
    }

    method FinishBackfill()
      requires job.Backfilling? && job.todo == {}
      modifies this`persistedBackfill, this`job
      ensures X() == Step(schema, old(X()), Action.FinishBackfill) && job.Idle?
    {
      if job.upTo > persistedBackfill {
        persistedBackfill := job.upTo;
      }
      job := Idle;
    }

    method DaysOf(us: seq<Upsert>) returns (days: set<nat>)
      ensures days == Days(us)
    {
      days := {};
      for i := 0 to |us|
        invariant days == set j | 0 <= j < i :: us[j].eventTime / 86400
      {
        days := days + {us[i].eventTime / 86400};
      }
    }

    // After a restart, replay and one backfill, queries see every logged upsert,
    // but for exactly the cells that `ShowsFold` names.
    method Recover()
      requires Valid()
      modifies this`watermark, this`live, this`index, this`queue, this`position, this`job
      modifies this`archive, this`nulls, this`counted, this`lost, this`full, this`persistedBackfill
      ensures Valid() && Drained(S()) && ShowsFold(schema, X())
    {
      hide ShardInv, ShowsFold;
      LoadMetaData();
      PlayRedoLog();
      Backfill();
    }
  }
}
