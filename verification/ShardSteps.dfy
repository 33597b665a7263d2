/**
 * The lifecycle as columns carry it out. Three things set it apart from the
 * reference `Lifecycle`. Backfill writes in place leave a column's non-default
 * count as it is, and pruning then drops the vectors of every column whose count
 * is zero. A live batch that lacks a column shows it as null, whatever its
 * default. And archiving or backfilling such a record stores the default in an
 * unsorted column, but null in a sort column.
 */
module ShardSteps {
  import opened Common
  import opened DataValues
  import opened CuckooTable
  import opened Upserts
  import opened Lifecycle
  import opened LiveIndexes

  // Event times are fixed by the key. Columns have defaults; some are sort columns.
  datatype Schema = Schema(time: Key -> nat, sortColumns: set<nat>, defaults: map<nat, DataValue>,
      liveBatchSize: nat, storeBatchSize: nat) {
    function Default(c: nat): DataValue {
      if c in defaults then defaults[c] else Null
    }

    function DayOf(k: Key): nat {
      time(k) / 86400
    }
  }

  datatype DayColumn = DayColumn(day: nat, column: nat)

  datatype KeyColumn = KeyColumn(key: Key, column: nat)

  // A cell of stored records: written, stored as null though it has a default, or
  // the default.
  function ReadCell(schema: Schema, nulls: set<KeyColumn>, m: Records, k: Key, c: nat): DataValue {
    if k in m && c in m[k] then Valid(m[k][c]) else if KeyColumn(k, c) in nulls then Null else schema.Default(c)
  }

  // ------------------------------------------------------- backfilling a day

  predicate ChangesSortColumn(schema: Schema, nulls: set<KeyColumn>, m: Records, u: Upsert) {
    exists c :: c in u.cells && c in schema.sortColumns && Valid(u.cells[c]) != ReadCell(schema, nulls, m, u.key, c)
  }

  // Some row of the key changes a sort column of the record it finds, which is
  // then deleted and inserted again.
  predicate Moved(schema: Schema, nulls: set<KeyColumn>, m: Records, us: seq<Upsert>, k: Key)
    decreases |us|
  {
    us != [] &&
    var init, u := us[..|us| - 1], us[|us| - 1];
    Moved(schema, nulls, m, init, k) || (u.key == k && ChangesSortColumn(schema, nulls, Apply(m, init), u))
  }

  // The record stays in the base batch and is written in place.
  predicate InPlace(schema: Schema, nulls: set<KeyColumn>, m: Records, us: seq<Upsert>, k: Key) {
    k in m && !Moved(schema, nulls, m, us, k)
  }

  // Writes in place to this cell do not outlive pruning.
  predicate Drops(schema: Schema, counted: set<DayColumn>, k: Key, c: nat) {
    c !in schema.sortColumns && DayColumn(schema.DayOf(k), c) !in counted
  }

  // A record written in place, pruned.
  function Kept(schema: Schema, counted: set<DayColumn>, k: Key, was: Cells, now: Cells): (r: Cells)
    ensures forall c :: c in r <==> if Drops(schema, counted, k, c) then c in was else c in now
    ensures forall c :: c in r ==>
              if Drops(schema, counted, k, c) then c in was && r[c] == was[c] else c in now && r[c] == now[c]
  {
    (map c | c in was && Drops(schema, counted, k, c) :: was[c]) +
    (map c | c in now && !Drops(schema, counted, k, c) :: now[c])
  }

  // The archive after backfilling rows of one day.
  function Publish(schema: Schema, nulls: set<KeyColumn>, counted: set<DayColumn>, m: Records, us: seq<Upsert>):
      (r: Records)
    ensures r.Keys == Apply(m, us).Keys
    ensures forall k :: k in r ==>
              r[k] == if InPlace(schema, nulls, m, us, k) then Kept(schema, counted, k, m[k], Apply(m, us)[k])
                      else Apply(m, us)[k]
  {
    var all := Apply(m, us);
    map k | k in all :: if InPlace(schema, nulls, m, us, k) then Kept(schema, counted, k, m[k], all[k]) else all[k]
  }

  // The day and unsorted column of every value that is not the default.
  function NonDefault(schema: Schema, m: Records): set<DayColumn> {
    set k, c | k in m && c in m[k] && c !in schema.sortColumns && Valid(m[k][c]) != schema.Default(c) ::
      DayColumn(schema.DayOf(k), c)
  }

  // Merging a day counts its values anew.
  function Recount(schema: Schema, counted: set<DayColumn>, m: Records, days: set<nat>): set<DayColumn> {
    (set x | x in counted && x.day !in days) + (set x | x in NonDefault(schema, m) && x.day in days)
  }

  // Some row is not written in place, so the day is merged.
  predicate Merges(schema: Schema, nulls: set<KeyColumn>, m: Records, us: seq<Upsert>) {
    exists i :: 0 <= i < |us| && !InPlace(schema, nulls, m, us, us[i].key)
  }

  // The cells that the rows write, or write in vain.
  predicate Writes(us: seq<Upsert>, k: Key, c: nat) {
    k in Fold(us) && c in Fold(us)[k]
  }

  // The keys whose records go to the temporary store, in the order they do.
  function Entered(schema: Schema, nulls: set<KeyColumn>, m: Records, us: seq<Upsert>): seq<Key>
    decreases |us|
  {
    if us == [] then []
    else
      var init, u := us[..|us| - 1], us[|us| - 1];
      var ks := Entered(schema, nulls, m, init);
      if u.key !in ks && (u.key !in m || ChangesSortColumn(schema, nulls, Apply(m, init), u)) then ks + [u.key] else ks
  }

  // Records of the temporary store share a batch with the column if one of them
  // was moved, which sets all columns, or is written there.
  predicate StoreSets(schema: Schema, nulls: set<KeyColumn>, m: Records, us: seq<Upsert>, k: Key, c: nat) {
    var ks := Entered(schema, nulls, m, us);
    exists i, j :: 0 <= i < |ks| && 0 <= j < |ks| && ks[i] == k && SameBatch(schema, i, j)
           && (ks[j] in m || Writes(us, ks[j], c))
  }

  predicate SameBatch(schema: Schema, i: nat, j: nat) {
    NthRecord(i, schema.storeBatchSize).batchID == NthRecord(j, schema.storeBatchSize).batchID
  }

  // A new record's sort cell that no record of its store batch sets.
  predicate StoresNull(schema: Schema, nulls: set<KeyColumn>, m: Records, us: seq<Upsert>, k: Key, c: nat) {
    && k in Fold(us) && k !in m && c in schema.sortColumns && !Writes(us, k, c) && schema.Default(c).Valid?
    && !StoreSets(schema, nulls, m, us, k, c)
  }

  function NullsAfter(schema: Schema, nulls: set<KeyColumn>, m: Records, us: seq<Upsert>): (r: set<KeyColumn>)
    ensures forall k, c :: KeyColumn(k, c) in r <==>
              (KeyColumn(k, c) in nulls && !Writes(us, k, c)) || StoresNull(schema, nulls, m, us, k, c)
  {
    (set z | z in nulls && !Writes(us, z.key, z.column)) +
    (set k, c | k in Fold(us) && c in schema.sortColumns && StoresNull(schema, nulls, m, us, k, c) :: KeyColumn(k, c))
  }

  // --------------------------------------------------------------- the steps

  // `index` says where live records are, `seen` which columns the live batches had
  // when the archiving job took its snapshot, and `nulls` which archived cells are
  // null though their column has a default; `counted` are the unsorted archive columns
  // of a day whose non-default count is not zero. For the record: the cells whose
  // last backfill was dropped, and the archive if none ever were.
  datatype Shard = Shard(state: State, index: LiveIndex, seen: set<BatchColumn>, nulls: set<KeyColumn>,
      counted: set<DayColumn>,
      lost: set<KeyColumn>, full: Records)

  ghost function Reference(x: Shard): State {
    x.state.(archive := x.full)
  }

  ghost function Start(): Shard {
    Shard(Init(), EmptyIndex(), {}, {}, {}, {}, map[])
  }

  ghost function DayRows(s: State, day: nat): seq<Upsert>
    requires s.job.Backfilling?
  {
    Select(s.job.captured, OnDay(day))
  }

  ghost predicate Loses(schema: Schema, nulls: set<KeyColumn>, counted: set<DayColumn>, m: Records, us: seq<Upsert>,
      k: Key, c: nat) {
    && Writes(us, k, c) && InPlace(schema, nulls, m, us, k) && Drops(schema, counted, k, c)
    && Valid(Fold(us)[k][c]) != schema.Default(c)
  }

  ghost function LostAfter(schema: Schema, x: Shard, us: seq<Upsert>): (r: set<KeyColumn>)
    ensures forall k, c :: KeyColumn(k, c) in r <==>
              if Writes(us, k, c) then Loses(schema, x.nulls, x.counted, x.state.archive, us, k, c)
              else KeyColumn(k, c) in x.lost
  {
    (set z | z in x.lost && !Writes(us, z.key, z.column)) +
    (set k, c | k in Fold(us) && c in Fold(us)[k] && Loses(schema, x.nulls, x.counted, x.state.archive, us, k, c) ::
       KeyColumn(k, c))
  }

  datatype Published = Published(archive: Records, nulls: set<KeyColumn>, counted: set<DayColumn>)

  // The new archive version; a merge has counted the day's values anew.
  function PublishDay(schema: Schema, nulls: set<KeyColumn>, counted: set<DayColumn>, m: Records, us: seq<Upsert>,
      day: nat): Published {
    var archive := Publish(schema, nulls, counted, m, us);
    Published(archive, NullsAfter(schema, nulls, m, us),
              if Merges(schema, nulls, m, us) then Recount(schema, counted, archive, {day}) else counted)
  }

  ghost function StepBackfillDay(schema: Schema, x: Shard, day: nat): Shard
    requires x.state.job.Backfilling?
  {
    var us := DayRows(x.state, day);
    var r := PublishDay(schema, x.nulls, x.counted, x.state.archive, us, day);
    Shard(DoBackfillDay(x.state, day).(archive := r.archive), x.index, x.seen, r.nulls, r.counted,
          LostAfter(schema, x, us), Apply(x.full, us))
  }

  // The live record is moved to the archive.
  predicate Stable(schema: Schema, s: State, k: Key) {
    k in s.live && s.cutoff <= schema.time(k) < s.watermark
  }

  ghost function MovedDays(schema: Schema, s: State): set<nat> {
    set k | k in s.live && Stable(schema, s, k) :: schema.DayOf(k)
  }

  // The cell is unwritten, has a default, and the record's batch lacks the column.
  predicate Unfilled(schema: Schema, live: Records, index: LiveIndex, k: Key, c: nat) {
    k in live && c !in live[k] && schema.Default(c).Valid? && index.Lacks(k, c)
  }

  ghost function NullsMoved(schema: Schema, s: State, index: LiveIndex): (r: set<KeyColumn>)
    ensures forall k, c :: KeyColumn(k, c) in r <==>
              Stable(schema, s, k) && c in schema.sortColumns && Unfilled(schema, s.live, index, k, c)
  {
    set k, c | k in s.live && c in schema.sortColumns && Stable(schema, s, k)
    && Unfilled(schema, s.live, index, k, c) ::
      KeyColumn(k, c)
  }

  // The live store as the archiving job's snapshot has it.
  ghost function Snapshot(x: Shard): LiveIndex {
    x.index.(created := x.seen)
  }

  ghost function StepCommit(schema: Schema, x: Shard): Shard {
    var s := DoCommit(x.state, schema.time);
    x.(state := s, nulls := x.nulls + NullsMoved(schema, x.state, Snapshot(x)),
       counted := Recount(schema, x.counted, s.archive, MovedDays(schema, x.state)),
       full := DoCommit(Reference(x), schema.time).archive)
  }

  ghost function PlaceBatch(schema: Schema, x: Shard, batch: seq<Upsert>): LiveIndex {
    PlaceRows(x.index, schema.liveBatchSize, Select(batch, AtLeast(x.state.watermark)), Active(batch))
  }

  ghost function IndexAfter(schema: Schema, x: Shard, a: Action): LiveIndex
    requires Enabled(x.state, a, schema.time)
  {
    match a
    case Ingest(batch) => PlaceBatch(schema, x, batch)
    case PurgeLive(keys) => x.index.(place := x.index.place - keys)
    case Crash => EmptyIndex()
    case Replay =>
      if x.state.position in x.state.purged then x.index else PlaceBatch(schema, x, x.state.log[x.state.position])
    case _ => x.index
  }

  ghost function Step(schema: Schema, x: Shard, a: Action): Shard
    requires Enabled(x.state, a, schema.time)
  {
    match a
    case CommitArchive => StepCommit(schema, x)
    case BackfillDay(d) => StepBackfillDay(schema, x, d)
    case _ =>
      x.(state := Do(x.state, a, schema.time), index := IndexAfter(schema, x, a),
         seen := if a.SetWatermark? || a.TakeSnapshot? then x.index.created else x.seen)
  }

  ghost predicate Possible(schema: Schema, run: seq<Action>)
    decreases |run|, 0
  {
    run == [] ||
    (Possible(schema, run[..|run| - 1]) &&
     Enabled(Ran(schema, run[..|run| - 1]).state, run[|run| - 1], schema.time))
  }

  ghost function Ran(schema: Schema, run: seq<Action>): Shard
    requires Possible(schema, run)
    decreases |run|, 1
  {
    if run == [] then Start() else Step(schema, Ran(schema, run[..|run| - 1]), run[|run| - 1])
  }

  // ------------------------------------------------------------- the queries

  // What a query reads of a cell: a live batch that lacks the column shows null.
  ghost function Shown(schema: Schema, x: Shard, k: Key, c: nat): DataValue {
    if k in VisibleLive(x.state, schema.time) then
      if Unfilled(schema, x.state.live, x.index, k, c) then Null else ReadCell(schema, {}, x.state.live, k, c)
    else ReadCell(schema, x.nulls, x.state.archive, k, c)
  }
}
