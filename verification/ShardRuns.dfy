/** Short runs after which, or in which, queries do not read what the log says. */
module ShardRuns {
  import opened Common
  import opened DataValues
  import opened CuckooTable
  import opened Upserts
  import opened Lifecycle
  import opened LiveIndexes
  import opened ShardSteps
  import opened Pruning

  lemma {:induction false} NextStep(schema: Schema, run: seq<Action>, n: nat)
    requires n < |run| && Possible(schema, run[..n]) && Enabled(Ran(schema, run[..n]).state, run[n], schema.time)
    ensures Possible(schema, run[..n + 1]) && Ran(schema, run[..n + 1]) == Step(schema, Ran(schema, run[..n]), run[n])
  {
    assert run[..n + 1][..n] == run[..n];
  }

  lemma {:induction false} NothingRun(schema: Schema, run: seq<Action>)
    ensures Possible(schema, run[..0]) && Ran(schema, run[..0]) == Start() && Start().state == Init()
  {
  }

  lemma {:induction false} OneRow(m: Records, ix: LiveIndex, u: Upsert, keep: nat -> bool)
    ensures Select([u], keep) == if keep(u.eventTime) then [u] else []
    ensures Apply(m, [u]) == Put(m, u) && Apply(m, []) == m
    ensures PlaceRows(ix, 8, [u], Active([u])) == PlaceRow(ix, 8, u, u.cells.Keys)
    ensures PlaceRows(ix, 8, [], Active([u])) == ix
  {
    OneSelected(m, u, keep);
    OnePlaced(ix, u, Active([u]));
    OneActive(u);
    hide Active, PlaceRow, PlaceRows, Select, Apply;
  }

  lemma {:induction false} OneSelected(m: Records, u: Upsert, keep: nat -> bool)
    ensures Select([u], keep) == if keep(u.eventTime) then [u] else []
    ensures Apply(m, [u]) == Put(m, u) && Apply(m, []) == m
  {
    assert [u][..0] == [];
  }

  lemma {:induction false} OnePlaced(ix: LiveIndex, u: Upsert, active: set<nat>)
    ensures PlaceRows(ix, 8, [u], active) == PlaceRow(ix, 8, u, active) && PlaceRows(ix, 8, [], active) == ix
  {
    hide PlaceRow;
    assert [u][..0] == [];
  }

  lemma {:induction false} OneActive(u: Upsert)
    ensures Active([u]) == u.cells.Keys
  {
    var active := Active([u]);
    forall c | c in u.cells ensures c in active {
      assert c in [u][0].cells;
    }
    forall c | c in active ensures c in u.cells {
      var i :| 0 <= i < 1 && c in [u][i].cells;
      assert i == 0;
    }
  }

  // ------------------------------------------------- archiving one record

  // A table of whatever sort columns and defaults whose records are of time zero.
  ghost function Plain(sortColumns: set<nat>, defaults: map<nat, DataValue>): Schema {
    Schema(_ => 0, sortColumns, defaults, 8, 8)
  }

  // A row of a batch with column 0 only.
  ghost function FirstRow(k: Key): Upsert {
    Upsert(k, 0, map[0 := 1], {0})
  }

  ghost function ArchivingRun(k: Key): seq<Action> {
    [Ingest([FirstRow(k)]), SetWatermark(1), CommitArchive]
  }

  ghost function Index(k: Key): LiveIndex {
    LiveIndex(map[k := BASE_BATCH_ID], {BatchColumn(BASE_BATCH_ID, 0)}, RecordID(BASE_BATCH_ID, 1))
  }

  ghost function Ingested(k: Key, watermark: nat, job: Job): Shard {
    Start().(state := State([[FirstRow(k)]], {}, 0, 0, map[], watermark, map[k := FirstRow(k).cells], [], 1, job),
             index := Index(k), seen := if job.Archiving? then Index(k).created else {})
  }

  lemma {:induction false} Ingests(schema: Schema, k: Key)
    requires schema.liveBatchSize == 8 && schema.time(k) == 0
    ensures Enabled(Init(), Ingest([FirstRow(k)]), schema.time)
    ensures Step(schema, Start(), Ingest([FirstRow(k)])) == Ingested(k, 0, Idle)
  {
    OneRow(map[], EmptyIndex(), FirstRow(k), AtLeast(0));
    OneRow(map[], EmptyIndex(), FirstRow(k), Below(0));
    hide Apply, Select, PlaceRows, Active;
    assert PlaceRow(EmptyIndex(), 8, FirstRow(k), {0}) == Index(k) by {
      assert Columns(BASE_BATCH_ID, {0} + {0}) == {BatchColumn(BASE_BATCH_ID, 0)};
    }
  }

  lemma {:induction false} Watermarks(schema: Schema, k: Key)
    requires schema.liveBatchSize == 8 && schema.time(k) == 0
    ensures Enabled(Ingested(k, 0, Idle).state, SetWatermark(1), schema.time)
    ensures Step(schema, Ingested(k, 0, Idle), SetWatermark(1)) == Ingested(k, 1, Job.Archiving)
  {
  }

  // The run is legal up to the commit.
  lemma {:induction false} BeforeCommit(schema: Schema, k: Key)
    requires schema.liveBatchSize == 8 && schema.time(k) == 0
    ensures Possible(schema, ArchivingRun(k)[..2]) && Ran(schema, ArchivingRun(k)[..2]) == Ingested(k, 1, Job.Archiving)
    ensures Possible(schema, ArchivingRun(k))
            && Ran(schema, ArchivingRun(k)) == StepCommit(schema, Ingested(k, 1, Job.Archiving))
  {
    hide Possible, Ran, Step, Enabled, Start, Ingested;
    var run := ArchivingRun(k);
    NothingRun(schema, run);
    Ingests(schema, k);
    NextStep(schema, run, 0);
    Watermarks(schema, k);
    NextStep(schema, run, 1);
    CommitsNext(schema, k);
    NextStep(schema, run, 2);
    assert run[..3] == run;
  }

  lemma {:induction false} CommitsNext(schema: Schema, k: Key)
    ensures var x := Ingested(k, 1, Job.Archiving);
            Enabled(x.state, CommitArchive, schema.time) && Step(schema, x, CommitArchive) == StepCommit(schema, x)
  {
  }

  // Column 1 is unwritten, has the default 7 and is not in the live batch.
  lemma {:induction false} SevenUnfilled(sortColumns: set<nat>, k: Key)
    ensures var schema, x := Plain(sortColumns, map[1 := Valid(7)]), Ingested(k, 1, Job.Archiving);
            && Stable(schema, x.state, k) && Unfilled(schema, x.state.live, x.index, k, 1)
               && schema.Default(1) == Valid(7)
            && x.state.log == [[FirstRow(k)]] && x.state.job.Archiving?
            && Drained(StepCommit(schema, x).state) && StepCommit(schema, x).state.log == [[FirstRow(k)]]
  {
    hide Recount, NullsMoved;
  }

  // An unsorted column: queries read null until the commit and seven after it.
  lemma {:induction false} CommitFillsIn(k: Key)
    ensures var schema, run := Plain({}, map[1 := Valid(7)]), ArchivingRun(k);
            && Possible(schema, run[..2]) && Ran(schema, run[..2]).state.job.Archiving?
            && var x := Ran(schema, run[..2]);
               Shown(schema, x, k, 1) == Null && Shown(schema, Step(schema, x, CommitArchive), k, 1) == Valid(7)
  {
    var schema, run := Plain({}, map[1 := Valid(7)]), ArchivingRun(k);
    BeforeCommit(schema, k);
    SevenUnfilled({}, k);
    hide Possible, Ran, Shown, Step, StepCommit, Ingested;
    assert FillsIn(schema, Ran(schema, run[..2]), k, 1);
    CommitChangesExactly(schema, run[..2], k, 1);
  }

  // A sort column: the drained shard shows null where the log says seven.
  lemma {:induction false} CommitStoresNull(k: Key)
    ensures var schema, run := Plain({1}, map[1 := Valid(7)]), ArchivingRun(k);
            && Possible(schema, run) && Drained(Ran(schema, run).state)
            && var x := Ran(schema, run);
               Shown(schema, x, k, 1) == Null && !ShowsCell(schema, x, k, 1) && KeyColumn(k, 1) !in x.lost
  {
    var schema, run := Plain({1}, map[1 := Valid(7)]), ArchivingRun(k);
    BeforeCommit(schema, k);
    SevenUnfilled({1}, k);
    hide Possible, Ran, Shown, Recount, ShowsCell, Ingested;
    var x := Ingested(k, 1, Job.Archiving);
    assert KeyColumn(k, 1) in StepCommit(schema, x).nulls;
    assert StepCommit(schema, x).lost == {} by {
      NoneLost(k);
    }
    hide StepCommit;
    DrainedRun(schema, run);
  }

  lemma {:induction false} NoneLost(k: Key)
    ensures Ingested(k, 1, Job.Archiving).lost == {}
  {
  }

  // ------------------------------------------------------ a column that is late

  // Column 1 is a sort column with the default 7; the other key is more recent.
  ghost function Later(l: Key): Schema {
    Schema(k => if k == l then 1 else 0, {1}, map[1 := Valid(7)], 8, 8)
  }

  ghost function LateRow(l: Key): Upsert {
    Upsert(l, 1, map[1 := 9], {1})
  }

  // The column comes to the live batch after the job's snapshot.
  ghost function LateRun(k: Key, l: Key): seq<Action> {
    [Ingest([FirstRow(k)]), SetWatermark(1), Ingest([LateRow(l)])]
  }

  ghost function BothIndexed(k: Key, l: Key): LiveIndex {
    LiveIndex(map[k := BASE_BATCH_ID, l := BASE_BATCH_ID],
                {BatchColumn(BASE_BATCH_ID, 0), BatchColumn(BASE_BATCH_ID, 1)},
              RecordID(BASE_BATCH_ID, 2))
  }

  lemma {:induction false} LateIngests(k: Key, l: Key)
    requires k != l
    ensures var x := Ingested(k, 1, Job.Archiving);
            && Enabled(x.state, Ingest([LateRow(l)]), Later(l).time)
            && var y := Step(Later(l), x, Ingest([LateRow(l)]));
               && y.index == BothIndexed(k, l) && y.seen == {BatchColumn(BASE_BATCH_ID, 0)} && y.state.job.Archiving?
               && y.state.live == map[k := FirstRow(k).cells, l := LateRow(l).cells]
               && y.state.cutoff == 0 && y.state.watermark == 1
  {
    var x := Ingested(k, 1, Job.Archiving);
    OneRow(x.state.live, x.index, LateRow(l), AtLeast(1));
    OneRow(x.state.live, x.index, LateRow(l), Below(1));
    hide Apply, Select, PlaceRows, Active;
    assert PlaceRow(x.index, 8, LateRow(l), {1}) == BothIndexed(k, l) by {
      assert Columns(BASE_BATCH_ID, {1} + {1}) == {BatchColumn(BASE_BATCH_ID, 1)};
    }
  }

  // Queries read the default until the commit and null after it.
  lemma {:induction false} CommitEmpties(k: Key, l: Key)
    requires k != l
    ensures var schema, run := Later(l), LateRun(k, l);
            && Possible(schema, run) && Ran(schema, run).state.job.Archiving?
            && var x := Ran(schema, run);
               Shown(schema, x, k, 1) == Valid(7) && Shown(schema, Step(schema, x, CommitArchive), k, 1) == Null
  {
    hide Possible, Ran, Shown, Step, StepCommit, Ingested, Enabled, Empties, Later, LateRow, FirstRow;
    var schema, run := Later(l), LateRun(k, l);
    assert run[..2] == ArchivingRun(k)[..2];
    LaterIs(k, l);
    BeforeCommit(schema, k);
    LateEmpties(k, l);
    NextStep(schema, run, 2);
    assert run[..3] == run;
    CommitChangesExactly(schema, run, k, 1);
  }

  lemma {:induction false} LaterIs(k: Key, l: Key)
    requires k != l
    ensures Later(l).liveBatchSize == 8 && Later(l).time(k) == 0
  {
  }

  lemma {:induction false} LateEmpties(k: Key, l: Key)
    requires k != l
    ensures var x := Ingested(k, 1, Job.Archiving);
            && Enabled(x.state, Ingest([LateRow(l)]), Later(l).time)
            && Step(Later(l), x, Ingest([LateRow(l)])).state.job.Archiving?
            && Empties(Later(l), Step(Later(l), x, Ingest([LateRow(l)])), k, 1) && Later(l).Default(1) == Valid(7)
  {
    LateIngests(k, l);
    hide Step, Enabled;
  }

  // ------------------------------------------------------------ a lost update

  // A row of column 1, which no archived record has.
  ghost function SecondRow(k: Key): Upsert {
    Upsert(k, 0, map[1 := 7], {1})
  }

  // A record is archived without column 1, and then backfilled with it.
  ghost function LosingRun(k: Key): seq<Action> {
    ArchivingRun(k) + [Ingest([SecondRow(k)]), StartBackfill, BackfillDay(0), FinishBackfill]
  }

  // The record is archived, with column 0 counted.
  ghost function Archived(k: Key): Shard {
    var m: Records := map[k := FirstRow(k).cells];
    Shard(State([[FirstRow(k)]], {}, 1, 0, m, 1, m, [], 1, Idle), Index(k), Index(k).created, {}, {DayColumn(0, 0)},
          {}, m)
  }

  // The second row is queued, and taken by backfill.
  ghost function Taken(k: Key): Shard {
    var m: Records := map[k := FirstRow(k).cells];
    Shard(State([[FirstRow(k)], [SecondRow(k)]], {}, 1, 0, m, 1, m, [], 2, Backfilling([SecondRow(k)], 2, {0})),
          Index(k), Index(k).created, {}, {DayColumn(0, 0)}, {}, m)
  }

  lemma {:induction false} CountsOne(k: Key)
    ensures NonDefault(Plain({}, map[]), map[k := FirstRow(k).cells]) == {DayColumn(0, 0)}
  {
    var m := map[k := FirstRow(k).cells];
    assert k in m && 0 in m[k] && Valid(m[k][0]) != Plain({}, map[]).Default(0);
  }

  lemma {:induction false} Archives(k: Key)
    ensures StepCommit(Plain({}, map[]), Ingested(k, 1, Job.Archiving)) == Archived(k)
  {
    var schema, x := Plain({}, map[]), Ingested(k, 1, Job.Archiving);
    CountsOne(k);
    hide NonDefault;
    var m: Records := map[k := FirstRow(k).cells];
    var y := StepCommit(schema, x);
    assert y.state.archive == m && y.full == m;
    assert MovedDays(schema, x.state) == {0} by {
      assert Stable(schema, x.state, k) && schema.DayOf(k) == 0;
    }
    assert y.counted == {DayColumn(0, 0)};
    assert y.nulls == {};
  }

  lemma {:induction false} Takes(k: Key)
    ensures Enabled(Archived(k).state, Ingest([SecondRow(k)]), Plain({}, map[]).time)
    ensures var x := Step(Plain({}, map[]), Archived(k), Ingest([SecondRow(k)]));
            Enabled(x.state, StartBackfill, Plain({}, map[]).time)
            && Step(Plain({}, map[]), x, StartBackfill) == Taken(k)
  {
    OneRow(Archived(k).state.live, Index(k), SecondRow(k), AtLeast(1));
    OneRow(Archived(k).state.live, Index(k), SecondRow(k), Below(1));
    hide Apply, Select, PlaceRows, Active;
    assert Days([SecondRow(k)]) == {0} by {
      assert [SecondRow(k)][0].eventTime / 86400 == 0;
    }
    var x := Step(Plain({}, map[]), Archived(k), Ingest([SecondRow(k)]));
    assert x.state.queue == [SecondRow(k)];
  }

  lemma {:induction false} NeverMoved(schema: Schema, nulls: set<KeyColumn>, m: Records, us: seq<Upsert>, k: Key)
    requires schema.sortColumns == {}
    ensures !Moved(schema, nulls, m, us, k)
    decreases |us|
  {
    if us != [] {
      NeverMoved(schema, nulls, m, us[..|us| - 1], k);
    }
  }

  lemma {:induction false} LosesSeven(k: Key)
    ensures var x := Taken(k);
            && DayRows(x.state, 0) == [SecondRow(k)]
            && Loses(Plain({}, map[]), x.nulls, x.counted, x.state.archive, DayRows(x.state, 0), k, 1)
  {
    OneRow(map[], EmptyIndex(), SecondRow(k), OnDay(0));
    OneGet(SecondRow(k), k);
    hide Apply, Select, Fold, Moved;
    NeverMoved(Plain({}, map[]), {}, Taken(k).state.archive, [SecondRow(k)], k);
    assert DayRows(Taken(k).state, 0) == [SecondRow(k)];
  }

  lemma {:induction false} Finishes(k: Key)
    ensures Enabled(Taken(k).state, BackfillDay(0), Plain({}, map[]).time)
    ensures var x := Step(Plain({}, map[]), Taken(k), BackfillDay(0));
            Enabled(x.state, FinishBackfill, Plain({}, map[]).time) &&
            var y := Step(Plain({}, map[]), x, FinishBackfill);
            Drained(y.state) && KeyColumn(k, 1) in y.lost
  {
    hide Apply, Select, Fold, Publish, Recount, Loses, Merges, DayRows, NullsAfter;
    LosesSeven(k);
    var x := Step(Plain({}, map[]), Taken(k), BackfillDay(0));
    assert Writes(DayRows(Taken(k).state, 0), k, 1) by {
      LosesWrites(Plain({}, map[]), Taken(k).nulls, Taken(k).counted, Taken(k).state.archive,
                  DayRows(Taken(k).state, 0), k, 1);
    }
    assert KeyColumn(k, 1) in x.lost;
  }

  lemma {:induction false} LosesWrites(schema: Schema, nulls: set<KeyColumn>, counted: set<DayColumn>, m: Records,
      us: seq<Upsert>, k: Key, c: nat)
    requires Loses(schema, nulls, counted, m, us, k, c)
    ensures Writes(us, k, c)
  {
    hide Fold, InPlace;
  }

  // The backfill of column 1 is written in place and dropped.
  lemma {:induction false} LosingRunLoses(k: Key)
    ensures Possible(Plain({}, map[]), LosingRun(k))
    ensures var x := Ran(Plain({}, map[]), LosingRun(k)); Drained(x.state) && KeyColumn(k, 1) in x.lost
  {
    hide Possible, Ran, Step, Enabled, Plain, Ingested, Archived, Taken, StepCommit;
    var schema, run := Plain({}, map[]), LosingRun(k);
    assert run[..3] == ArchivingRun(k);
    PlainIs(k);
    BeforeCommit(schema, k);
    Archives(k);
    Takes(k);
    NextStep(schema, run, 3);
    NextStep(schema, run, 4);
    Finishes(k);
    NextStep(schema, run, 5);
    NextStep(schema, run, 6);
    assert run[..7] == run;
  }

  lemma {:induction false} PlainIs(k: Key)
    ensures Plain({}, map[]).liveBatchSize == 8 && Plain({}, map[]).time(k) == 0
  {
  }

  // So queries read a null where the log says seven.
  lemma {:induction false} UpdateIsLost(k: Key)
    ensures Possible(Plain({}, map[]), LosingRun(k))
    ensures var schema, x := Plain({}, map[]), Ran(Plain({}, map[]), LosingRun(k));
            Drained(x.state) && !ShowsCell(schema, x, k, 1)
  {
    LosingRunLoses(k);
    hide Possible, Ran, ShowsCell, LiveNull;
    DrainedRun(Plain({}, map[]), LosingRun(k));
  }
}
