/** Applying an upsert batch to the live store, in batches of records and column by column. */
module Ingestion {
  import opened Common
  import opened DataValues
  import CuckooTable

  type Key = CuckooTable.Key

  datatype UpdateMode = OverwriteNotNull | ForceOverwrite | WithAddition | WithMin | WithMax

  datatype Column = Column(id: nat, mode: UpdateMode, values: seq<DataValue>)

  datatype UpsertBatch = UpsertBatch(keys: seq<Key>, eventTimes: seq<nat>, columns: seq<Column>) {
    function NumRows(): nat {
      |keys|
    }

    ghost predicate Valid() {
      && |eventTimes| == NumRows()
      && (forall c :: 0 <= c < |columns| ==> |columns[c].values| == NumRows())
      && (forall c, d :: 0 <= c < d < |columns| ==> columns[c].id != columns[d].id)
    }
  }

  // A cell of the live store.
  datatype Loc = Loc(record: RecordID, column: nat)

  // The live store's cells. A column of a batch is created filled with its default,
  // so a cell that was never written reads as the default of its column.
  datatype Cells = Cells(defaults: map<nat, DataValue>, written: map<Loc, DataValue>) {
    function Default(column: nat): DataValue {
      if column in defaults then defaults[column] else Null
    }

    function Write(loc: Loc, v: DataValue): Cells {
      this.(written := written[loc := v])
    }
  }

  function Read(cells: Cells, loc: Loc): DataValue {
    if loc in cells.written then cells.written[loc] else cells.Default(loc.column)
  }

  // The new value of a cell. A null is skipped unless an update forces it;
  // addition, minimum and maximum need an old value to work on.
  function Combine(mode: UpdateMode, forUpdate: bool, was: DataValue, v: DataValue): DataValue {
    if v.Null? then
      if forUpdate && mode.ForceOverwrite? then Null else was
    else if was.Null? then v
    else match mode
      case OverwriteNotNull => v
      case ForceOverwrite => v
      case WithAddition => Valid(was.v + v.v)
      case WithMin => if was.v > v.v then v else was
      case WithMax => if was.v < v.v then v else was
  }

  // ------------------------------------------------- what the modes mean

  // A cell after a sequence of updates.
  function Updates(mode: UpdateMode, was: DataValue, vs: seq<DataValue>): DataValue
    decreases |vs|
  {
    if vs == [] then was else Combine(mode, true, Updates(mode, was, vs[..|vs| - 1]), vs[|vs| - 1])
  }

  // The non-null values among those given, in order.
  function NonNull(vs: seq<DataValue>): (r: seq<int>)
    decreases |vs|
  {
    if vs == [] then []
    else NonNull(vs[..|vs| - 1]) + (if vs[|vs| - 1].Valid? then [vs[|vs| - 1].v] else [])
  }

  function Sum(s: seq<int>): int {
    if s == [] then 0 else Sum(s[..|s| - 1]) + s[|s| - 1]
  }

  // The value a cell holds and the non-null values that then reach it.
  function Given(was: DataValue, vs: seq<DataValue>): (r: seq<int>)
    ensures r == [] <==> was.Null? && NonNull(vs) == []
  {
    (if was.Valid? then [was.v] else []) + NonNull(vs)
  }

  lemma {:induction false} GivenStep(was: DataValue, vs: seq<DataValue>)
    requires vs != []
    ensures var v := vs[|vs| - 1];
            Given(was, vs) == Given(was, vs[..|vs| - 1]) + (if v.Valid? then [v.v] else [])
  {
  }

  // Overwriting keeps the last non-null value.
  lemma {:induction false} OverwriteKeepsLast(was: DataValue, vs: seq<DataValue>)
    ensures var all := Given(was, vs);
            Updates(OverwriteNotNull, was, vs) == if all == [] then Null else Valid(all[|all| - 1])
    decreases |vs|
  {
    if vs != [] {
      OverwriteKeepsLast(was, vs[..|vs| - 1]);
      GivenStep(was, vs);
    }
  }

  // Forced overwriting keeps the last value, null or not.
  lemma {:induction false} ForceKeepsLast(was: DataValue, vs: seq<DataValue>)
    requires vs != []
    ensures Updates(ForceOverwrite, was, vs) == vs[|vs| - 1]
  {
  }

  // Addition sums the non-null values, what the cell held included.
  lemma {:induction false} AdditionSums(was: DataValue, vs: seq<DataValue>)
    ensures var all := Given(was, vs);
            Updates(WithAddition, was, vs) == if all == [] then Null else Valid(Sum(all))
    decreases |vs|
  {
    if vs != [] {
      AdditionSums(was, vs[..|vs| - 1]);
      GivenStep(was, vs);
      var init := Given(was, vs[..|vs| - 1]);
      if vs[|vs| - 1].Valid? {
        assert (init + [vs[|vs| - 1].v])[..|init|] == init;
      } else {
        assert Given(was, vs) == init;
      }
    }
  }

  // Minimum and maximum keep a non-null value that bounds them all.
  lemma {:induction false} MinIsLeast(was: DataValue, vs: seq<DataValue>)
    ensures var m, all := Updates(WithMin, was, vs), Given(was, vs);
            if all == [] then m == Null
            else m.Valid? && m.v in all && forall i :: 0 <= i < |all| ==> m.v <= all[i]
    decreases |vs|
  {
    if vs != [] {
      MinIsLeast(was, vs[..|vs| - 1]);
      GivenStep(was, vs);
    }
  }

  lemma {:induction false} MaxIsGreatest(was: DataValue, vs: seq<DataValue>)
    ensures var m, all := Updates(WithMax, was, vs), Given(was, vs);
            if all == [] then m == Null
            else m.Valid? && m.v in all && forall i :: 0 <= i < |all| ==> m.v >= all[i]
    decreases |vs|
  {
    if vs != [] {
      MaxIsGreatest(was, vs[..|vs| - 1]);
      GivenStep(was, vs);
    }
  }

  // A new record takes its first value as an insert, over the default. The
  // insert is one more update, except that it never forces a null: the two
  // differ exactly when that null would be the last word.
  lemma {:induction false} InsertIsUpdate(mode: UpdateMode, default: DataValue, first: DataValue, vs: seq<DataValue>)
    ensures Updates(mode, Combine(mode, false, default, first), vs) == Updates(mode, default, [first] + vs) <==>
            !(mode.ForceOverwrite? && first.Null? && default.Valid? && vs == [])
    decreases |vs|
  {
    var all := [first] + vs;
    if vs == [] {
      assert all[..|all| - 1] == [];
    } else {
      assert all[..|all| - 1] == [first] + vs[..|vs| - 1];
      InsertIsUpdate(mode, default, first, vs[..|vs| - 1]);
    }
  }

  // The batch's column with the given id, or -1.
  function FindColumn(columns: seq<Column>, id: nat): (c: int)
    ensures -1 <= c < |columns|
    ensures c >= 0 ==> columns[c].id == id
    ensures c < 0 ==> forall i :: 0 <= i < |columns| ==> columns[i].id != id
  {
    if columns == [] then -1
    else if columns[|columns| - 1].id == id then |columns| - 1
    else FindColumn(columns[..|columns| - 1], id)
  }

  // What a row of the batch makes of a cell in the given column.
  ghost function CellAfter(b: UpsertBatch, deleted: set<nat>, column: nat, forUpdate: bool, v: DataValue,
      row: nat): DataValue
    requires b.Valid() && row < b.NumRows()
  {
    var c := FindColumn(b.columns, column);
    if c < 0 || column in deleted then v else Combine(b.columns[c].mode, forUpdate, v, b.columns[c].values[row])
  }

  // ------------------------------------------- the reference: row by row

  datatype Store = Store(primaryKey: map<Key, RecordID>, next: RecordID, cells: Cells)

  // Columns first to last of one row.
  ghost function WriteRow(cells: Cells, record: RecordID, b: UpsertBatch, deleted: set<nat>, forUpdate: bool, row: nat,
      n: nat): (r: Cells)
    requires b.Valid() && row < b.NumRows() && n <= |b.columns|
    ensures r.defaults == cells.defaults
  {
    if n == 0 then cells
    else
      var done := WriteRow(cells, record, b, deleted, forUpdate, row, n - 1);
      var col := b.columns[n - 1];
      if col.id in deleted then done
      else
        var loc := Loc(record, col.id);
        done.Write(loc, Combine(col.mode, forUpdate, Read(done, loc), col.values[row]))
  }

  ghost function UpsertRow(s: Store, b: UpsertBatch, deleted: set<nat>, batchSize: nat, row: nat): Store
    requires b.Valid() && row < b.NumRows()
  {
    if b.keys[row] in s.primaryKey then
      s.(cells := WriteRow(s.cells, s.primaryKey[b.keys[row]], b, deleted, true, row, |b.columns|))
    else
      Store(s.primaryKey[b.keys[row] := s.next], Advance(s.next, batchSize),
            WriteRow(s.cells, s.next, b, deleted, false, row, |b.columns|))
  }

  // Rows below the watermark are left to backfill.
  ghost function UpsertRows(s: Store, b: UpsertBatch, deleted: set<nat>, batchSize: nat, watermark: nat, n: nat): Store
    requires b.Valid() && n <= b.NumRows()
  {
    if n == 0 then s
    else
      var done := UpsertRows(s, b, deleted, batchSize, watermark, n - 1);
      if b.eventTimes[n - 1] < watermark then done else UpsertRow(done, b, deleted, batchSize, n - 1)
  }

  lemma {:induction false} WriteRowCell(cells: Cells, record: RecordID, b: UpsertBatch, deleted: set<nat>,
      forUpdate: bool, row: nat, n: nat, loc: Loc)
    requires b.Valid() && row < b.NumRows() && n <= |b.columns|
    ensures Read(WriteRow(cells, record, b, deleted, forUpdate, row, n), loc) ==
            if loc.record == record && FindColumn(b.columns, loc.column) < n
            then CellAfter(b, deleted, loc.column, forUpdate, Read(cells, loc), row)
            else Read(cells, loc)
    decreases n
  {
    if n > 0 {
      WriteRowCell(cells, record, b, deleted, forUpdate, row, n - 1, loc);
      var c := FindColumn(b.columns, loc.column);
      assert b.columns[n - 1].id == loc.column <==> c == n - 1;
    }
  }

  // ------------------------------------------------------ the records to write

  datatype RecordInfo = RecordInfo(row: nat, index: nat)

  // Where a row goes, once the rows before it have been given their records.
  datatype Target = Skipped | To(record: RecordID, insert: bool)

  ghost function TargetOf(s: Store, b: UpsertBatch, watermark: nat, row: nat): Target
    requires b.Valid() && row < b.NumRows()
  {
    if b.eventTimes[row] < watermark then Skipped
    else if b.keys[row] in s.primaryKey then To(s.primaryKey[b.keys[row]], false)
    else To(s.next, true)
  }

  datatype Job = Job(start: Store, batch: UpsertBatch, deleted: set<nat>, batchSize: nat, watermark: nat) {
    ghost function After(n: nat): Store
      requires batch.Valid() && n <= batch.NumRows()
    {
      UpsertRows(start, batch, deleted, batchSize, watermark, n)
    }

    ghost function Target(row: nat): Target
      requires batch.Valid() && row < batch.NumRows()
    {
      TargetOf(After(row), batch, watermark, row)
    }

    // The rows among the first n that insert (or update) records of one batch.
    ghost function Records(n: nat, batchID: int, insert: bool): (r: seq<RecordInfo>)
      requires batch.Valid() && n <= batch.NumRows()
      ensures forall i :: 0 <= i < |r| ==> r[i].row < n
    {
      if n == 0 then []
      else
        var t := Target(n - 1);
        Records(n - 1, batchID, insert)
        + (if t.To? && t.insert == insert && t.record.batchID == batchID then [RecordInfo(n - 1, t.record.index)]
           else [])
    }
  }

  // Writing the records of one batch in order, seen from one cell.
  ghost function Run(b: UpsertBatch, deleted: set<nat>, column: nat, forUpdate: bool, v: DataValue,
      records: seq<RecordInfo>, index: nat): DataValue
    requires b.Valid() && forall i :: 0 <= i < |records| ==> records[i].row < b.NumRows()
    decreases |records|
  {
    if records == [] then v
    else
      var r := records[|records| - 1];
      var done := Run(b, deleted, column, forUpdate, v, records[..|records| - 1], index);
      if r.index == index then CellAfter(b, deleted, column, forUpdate, done, r.row) else done
  }

  lemma {:induction false} RunSnoc(b: UpsertBatch, deleted: set<nat>, column: nat, forUpdate: bool, v: DataValue,
      records: seq<RecordInfo>, r: RecordInfo, index: nat)
    requires b.Valid() && r.row < b.NumRows() && forall i :: 0 <= i < |records| ==> records[i].row < b.NumRows()
    ensures Run(b, deleted, column, forUpdate, v, records + [r], index) ==
            var done := Run(b, deleted, column, forUpdate, v, records, index);
            if r.index == index then CellAfter(b, deleted, column, forUpdate, done, r.row) else done
  {
    assert (records + [r])[..|records + [r]| - 1] == records;
  }

  lemma {:induction false} RunMisses(b: UpsertBatch, deleted: set<nat>, column: nat, forUpdate: bool, v: DataValue,
      records: seq<RecordInfo>, index: nat)
    requires b.Valid() && forall i :: 0 <= i < |records| ==> records[i].row < b.NumRows() && records[i].index != index
    ensures Run(b, deleted, column, forUpdate, v, records, index) == v
    decreases |records|
  {
    if records != [] {
      RunMisses(b, deleted, column, forUpdate, v, records[..|records| - 1], index);
    }
  }

  // ------------------------------------------------ batched equals row by row

  // Records in use lie before the next one to write, and from there on every
  // cell holds its default.
  ghost predicate WellFormed(s: Store) {
    && (forall k :: k in s.primaryKey ==> Precedes(s.primaryKey[k], s.next))
    && (forall loc: Loc :: Precedes(loc.record, s.next) || Read(s.cells, loc) == s.cells.Default(loc.column))
  }

  lemma {:induction false} StepWellFormed(s: Store, b: UpsertBatch, deleted: set<nat>, batchSize: nat, row: nat)
    requires b.Valid() && row < b.NumRows() && WellFormed(s)
    ensures WellFormed(UpsertRow(s, b, deleted, batchSize, row))
    ensures var t := UpsertRow(s, b, deleted, batchSize, row); t.next == s.next || Precedes(s.next, t.next)
    ensures b.keys[row] in s.primaryKey ==> UpsertRow(s, b, deleted, batchSize, row).next == s.next
    ensures b.keys[row] !in s.primaryKey ==> Precedes(s.next, UpsertRow(s, b, deleted, batchSize, row).next)
  {
    var t := UpsertRow(s, b, deleted, batchSize, row);
    var known := b.keys[row] in s.primaryKey;
    forall loc: Loc ensures Precedes(loc.record, t.next) || Read(t.cells, loc) == t.cells.Default(loc.column) {
      WriteRowCell(s.cells, if known then s.primaryKey[b.keys[row]]
                   else s.next, b, deleted, known, row, |b.columns|, loc);
    }
  }

  lemma {:induction false} SameWellFormed(s: Store, t: Store)
    requires WellFormed(s) && t.primaryKey == s.primaryKey && t.next == s.next && t.cells.defaults == s.cells.defaults
    requires forall loc :: Read(t.cells, loc) == Read(s.cells, loc)
    ensures WellFormed(t)
  {
  }

  // A new key's record is its row inserted over the defaults.
  lemma {:induction false} NewRecord(s: Store, b: UpsertBatch, deleted: set<nat>, batchSize: nat, row: nat, column: nat)
    requires b.Valid() && row < b.NumRows() && WellFormed(s) && b.keys[row] !in s.primaryKey
    ensures Read(UpsertRow(s, b, deleted, batchSize, row).cells, Loc(s.next, column)) ==
            CellAfter(b, deleted, column, false, s.cells.Default(column), row)
  {
    WriteRowCell(s.cells, s.next, b, deleted, false, row, |b.columns|, Loc(s.next, column));
    assert Read(s.cells, Loc(s.next, column)) == s.cells.Default(column);
  }

  lemma {:induction false} JobWellFormed(j: Job, n: nat)
    requires j.batch.Valid() && n <= j.batch.NumRows() && WellFormed(j.start)
    ensures WellFormed(j.After(n)) && j.After(n).cells.defaults == j.start.cells.defaults
    decreases n
  {
    if n > 0 {
      JobWellFormed(j, n - 1);
      StepWellFormed(j.After(n - 1), j.batch, j.deleted, j.batchSize, n - 1);
    }
  }

  // Every record written so far lies before the next one.
  lemma {:induction false} RecordsBefore(j: Job, n: nat, batchID: int, insert: bool)
    requires j.batch.Valid() && n <= j.batch.NumRows() && WellFormed(j.start)
    ensures forall i :: 0 <= i < |j.Records(n, batchID, insert)| ==>
              Precedes(RecordID(batchID, j.Records(n, batchID, insert)[i].index), j.After(n).next)
    decreases n
  {
    if n > 0 {
      RecordsBefore(j, n - 1, batchID, insert);
      JobWellFormed(j, n - 1);
      StepWellFormed(j.After(n - 1), j.batch, j.deleted, j.batchSize, n - 1);
    }
  }

  ghost function Batched(j: Job, n: nat, loc: Loc): DataValue
    requires j.batch.Valid() && n <= j.batch.NumRows()
  {
    var inserted := Run(j.batch, j.deleted, loc.column, false, Read(j.start.cells, loc),
                        j.Records(n, loc.record.batchID, true), loc.record.index);
    Run(j.batch, j.deleted, loc.column, true, inserted, j.Records(n, loc.record.batchID, false), loc.record.index)
  }

  lemma {:induction false} RefStep(j: Job, n: nat, loc: Loc)
    requires j.batch.Valid() && n < j.batch.NumRows()
    ensures var t := j.Target(n); var was := Read(j.After(n).cells, loc);
            Read(j.After(n + 1).cells, loc) ==
            if t.To? && t.record == loc.record then CellAfter(j.batch, j.deleted, loc.column, !t.insert, was, n)
               else was
  {
    var s, t := j.After(n), j.Target(n);
    if t.To? {
      WriteRowCell(s.cells, t.record, j.batch, j.deleted, !t.insert, n, |j.batch.columns|, loc);
    }
  }

  // All inserts before all updates gives each cell the value of row order.
  lemma {:induction false} BatchedCell(j: Job, n: nat, loc: Loc)
    requires j.batch.Valid() && n <= j.batch.NumRows() && WellFormed(j.start)
    ensures Batched(j, n, loc) == Read(j.After(n).cells, loc)
    decreases n
  {
    if n > 0 {
      BatchedCell(j, n - 1, loc);
      RefStep(j, n - 1, loc);
      BatchedStep(j, n - 1, loc);
    }
  }

  lemma {:induction false} BatchedStep(j: Job, n: nat, loc: Loc)
    requires j.batch.Valid() && n < j.batch.NumRows() && WellFormed(j.start)
    ensures var t := j.Target(n); var was := Batched(j, n, loc);
            Batched(j, n + 1, loc) ==
            if t.To? && t.record == loc.record then CellAfter(j.batch, j.deleted, loc.column, !t.insert, was, n)
               else was
  {
    hide UpsertRows, WellFormed, Job.After, Job.Target, Job.Records, Run, CellAfter;
    var t := j.Target(n);
    var batchID, index := loc.record.batchID, loc.record.index;
    var ins, upd := j.Records(n, batchID, true), j.Records(n, batchID, false);
    var v := Read(j.start.cells, loc);
    RecordsStep(j, n, batchID, true);
    RecordsStep(j, n, batchID, false);
    if t.To? && t.record.batchID == batchID {
      var r := RecordInfo(n, t.record.index);
      if !t.insert {
        var inserted := Run(j.batch, j.deleted, loc.column, false, v, ins, index);
        RunSnoc(j.batch, j.deleted, loc.column, true, inserted, upd, r, index);
      } else {
        RunSnoc(j.batch, j.deleted, loc.column, false, v, ins, r, index);
        if t.record == loc.record {
          FreshCell(j, n, loc);
          RunMisses(j.batch, j.deleted, loc.column, false, v, ins, index);
          RunMisses(j.batch, j.deleted, loc.column, true, v, upd, index);
          RunMisses(j.batch, j.deleted, loc.column, true, CellAfter(j.batch, j.deleted, loc.column, false, v, n), upd,
                    index);
        }
      }
    }
  }

  lemma {:induction false} RecordsStep(j: Job, n: nat, batchID: int, insert: bool)
    requires j.batch.Valid() && n < j.batch.NumRows()
    ensures var t := j.Target(n);
            j.Records(n + 1, batchID, insert) ==
            if t.To? && t.insert == insert && t.record.batchID == batchID
            then j.Records(n, batchID, insert) + [RecordInfo(n, t.record.index)] else j.Records(n, batchID, insert)
  {
    hide UpsertRows;
  }

  // An inserted record has no earlier writes.
  lemma {:induction false} FreshCell(j: Job, n: nat, loc: Loc)
    requires j.batch.Valid() && n < j.batch.NumRows() && WellFormed(j.start)
    requires j.Target(n).To? && j.Target(n).insert && j.Target(n).record == loc.record
    ensures forall i :: 0 <= i < |j.Records(n, loc.record.batchID, true)| ==>
              j.Records(n, loc.record.batchID, true)[i].index != loc.record.index
    ensures forall i :: 0 <= i < |j.Records(n, loc.record.batchID, false)| ==>
              j.Records(n, loc.record.batchID, false)[i].index != loc.record.index
  {
    JobWellFormed(j, n);
    RecordsBefore(j, n, loc.record.batchID, true);
    RecordsBefore(j, n, loc.record.batchID, false);
  }

  // ------------------------------------------------------------- the live store

  type Groups = map<int, seq<RecordInfo>>

  function Group(m: Groups, batchID: int): seq<RecordInfo> {
    if batchID in m then m[batchID] else []
  }

  function Append(m: Groups, batchID: int, r: RecordInfo): Groups {
    m[batchID := Group(m, batchID) + [r]]
  }

  // The groups hold the rows to insert (or update) of every batch.
  ghost predicate Grouped(j: Job, n: nat, m: Groups, insert: bool)
    requires j.batch.Valid() && n <= j.batch.NumRows()
  {
    forall batchID :: Group(m, batchID) == j.Records(n, batchID, insert)
  }

  lemma {:induction false} GroupedStep(j: Job, n: nat, m: Groups, insert: bool)
    requires j.batch.Valid() && n < j.batch.NumRows() && Grouped(j, n, m, insert)
    ensures var t := j.Target(n);
            Grouped(j, n + 1, if t.To? && t.insert == insert
                    then Append(m, t.record.batchID, RecordInfo(n, t.record.index)) else m, insert)
  {
    var t := j.Target(n);
    var m' := if t.To? && t.insert == insert then Append(m, t.record.batchID, RecordInfo(n, t.record.index)) else m;
    forall batchID ensures Group(m', batchID) == j.Records(n + 1, batchID, insert) {
      assert Group(m, batchID) == j.Records(n, batchID, insert);
    }
  }

  lemma {:induction false} NothingGrouped(j: Job)
    requires j.batch.Valid()
    ensures Grouped(j, 0, map[], true) && Grouped(j, 0, map[], false) && j.After(0) == j.start
  {
  }

  lemma {:induction false} AfterStep(j: Job, n: nat)
    requires j.batch.Valid() && n < j.batch.NumRows()
    ensures var t := j.Target(n); var s, s' := j.After(n), j.After(n + 1);
            && t == TargetOf(s, j.batch, j.watermark, n)
            && s'.primaryKey == (if t.To? && t.insert then s.primaryKey[j.batch.keys[n] := s.next] else s.primaryKey)
            && s'.next == if t.To? && t.insert then Advance(s.next, j.batchSize) else s.next
  {
  }

  // A cell of one batch after writing the first columns to its records.
  ghost predicate ColumnsWritten(was: Cells, now: Cells, b: UpsertBatch, deleted: set<nat>, batchID: int,
      records: seq<RecordInfo>, forUpdate: bool, n: nat)
    requires b.Valid() && n <= |b.columns| && forall i :: 0 <= i < |records| ==> records[i].row < b.NumRows()
  {
    && now.defaults == was.defaults
    && (forall loc ::
          Read(now, loc) ==
          if loc.record.batchID == batchID && FindColumn(b.columns, loc.column) < n
          then Run(b, deleted, loc.column, forUpdate, Read(was, loc), records, loc.record.index)
          else Read(was, loc))
  }

  lemma {:induction false} RunNoColumn(b: UpsertBatch, deleted: set<nat>, column: nat, forUpdate: bool,
      v: DataValue, records: seq<RecordInfo>, index: nat)
    requires b.Valid() && forall i :: 0 <= i < |records| ==> records[i].row < b.NumRows()
    requires var c := FindColumn(b.columns, column);
             c < 0 || column in deleted || (b.columns[c].mode.OverwriteNotNull?
                                            && forall r :: 0 <= r < b.NumRows() ==> b.columns[c].values[r].Null?)
    ensures Run(b, deleted, column, forUpdate, v, records, index) == v
    decreases |records|
  {
    if records != [] {
      RunNoColumn(b, deleted, column, forUpdate, v, records[..|records| - 1], index);
    }
  }

  lemma {:induction false} NoColumnsWritten(was: Cells, b: UpsertBatch, deleted: set<nat>, batchID: int,
      records: seq<RecordInfo>, forUpdate: bool)
    requires b.Valid() && forall i :: 0 <= i < |records| ==> records[i].row < b.NumRows()
    ensures ColumnsWritten(was, was, b, deleted, batchID, records, forUpdate, 0)
  {
    forall loc: Loc | loc.record.batchID == batchID && FindColumn(b.columns, loc.column) < 0
      ensures Run(b, deleted, loc.column, forUpdate, Read(was, loc), records, loc.record.index) == Read(was, loc)
    {
      RunNoColumn(b, deleted, loc.column, forUpdate, Read(was, loc), records, loc.record.index);
    }
  }

  // One column of the records of a batch.
  ghost predicate ColumnWritten(was: Cells, now: Cells, b: UpsertBatch, deleted: set<nat>, batchID: int,
      records: seq<RecordInfo>, forUpdate: bool, c: nat)
    requires b.Valid() && c < |b.columns| && forall i :: 0 <= i < |records| ==> records[i].row < b.NumRows()
  {
    && now.defaults == was.defaults
    && (forall loc ::
          Read(now, loc) ==
          if loc.record.batchID == batchID && loc.column == b.columns[c].id
          then Run(b, deleted, loc.column, forUpdate, Read(was, loc), records, loc.record.index)
          else Read(was, loc))
  }

  lemma {:induction false} NextColumn(was: Cells, mid: Cells, now: Cells, b: UpsertBatch, deleted: set<nat>,
      batchID: int, records: seq<RecordInfo>, forUpdate: bool, c: nat)
    requires b.Valid() && c < |b.columns| && forall i :: 0 <= i < |records| ==> records[i].row < b.NumRows()
    requires ColumnsWritten(was, mid, b, deleted, batchID, records, forUpdate, c)
    requires ColumnWritten(mid, now, b, deleted, batchID, records, forUpdate, c)
    ensures ColumnsWritten(was, now, b, deleted, batchID, records, forUpdate, c + 1)
  {
    forall loc ensures Read(now, loc) ==
      if loc.record.batchID == batchID && FindColumn(b.columns, loc.column) < c + 1
      then Run(b, deleted, loc.column, forUpdate, Read(was, loc), records, loc.record.index)
      else Read(was, loc)
    {
      assert FindColumn(b.columns, loc.column) == c <==> loc.column == b.columns[c].id;
      assert Read(mid, loc) ==
        if loc.record.batchID == batchID && FindColumn(b.columns, loc.column) < c
        then Run(b, deleted, loc.column, forUpdate, Read(was, loc), records, loc.record.index)
        else Read(was, loc);
    }
  }

  lemma {:induction false} ColumnSkipped(was: Cells, b: UpsertBatch, deleted: set<nat>, batchID: int,
      records: seq<RecordInfo>, forUpdate: bool, c: nat)
    requires b.Valid() && c < |b.columns| && forall i :: 0 <= i < |records| ==> records[i].row < b.NumRows()
    requires var col := b.columns[c];
             col.id in deleted || (col.mode.OverwriteNotNull?
                                   && forall r :: 0 <= r < b.NumRows() ==> col.values[r].Null?)
    ensures ColumnWritten(was, was, b, deleted, batchID, records, forUpdate, c)
  {
    forall loc: Loc | loc.record.batchID == batchID && loc.column == b.columns[c].id
      ensures Run(b, deleted, loc.column, forUpdate, Read(was, loc), records, loc.record.index) == Read(was, loc)
    {
      assert FindColumn(b.columns, loc.column) == c;
      RunNoColumn(b, deleted, loc.column, forUpdate, Read(was, loc), records, loc.record.index);
    }
  }

  lemma {:induction false} CellWritten(was: Cells, mid: Cells, b: UpsertBatch, deleted: set<nat>, batchID: int,
      records: seq<RecordInfo>, forUpdate: bool, c: nat, i: nat)
    requires b.Valid() && c < |b.columns| && i < |records|
             && forall i :: 0 <= i < |records| ==> records[i].row < b.NumRows()
    requires b.columns[c].id !in deleted && ColumnWritten(was, mid, b, deleted, batchID, records[..i], forUpdate, c)
    ensures var r, col := records[i], b.columns[c];
            var loc := Loc(RecordID(batchID, r.index), col.id);
            var now := mid.Write(loc, Combine(col.mode, forUpdate, Read(mid, loc), col.values[r.row]));
            ColumnWritten(was, now, b, deleted, batchID, records[..i + 1], forUpdate, c)
  {
    var r, col := records[i], b.columns[c];
    var target := Loc(RecordID(batchID, r.index), col.id);
    var now := mid.Write(target, Combine(col.mode, forUpdate, Read(mid, target), col.values[r.row]));
    assert records[..i + 1] == records[..i] + [r];
    assert FindColumn(b.columns, col.id) == c;
    forall loc ensures Read(now, loc) ==
      if loc.record.batchID == batchID && loc.column == col.id
      then Run(b, deleted, loc.column, forUpdate, Read(was, loc), records[..i + 1], loc.record.index)
      else Read(was, loc)
    {
      RunSnoc(b, deleted, loc.column, forUpdate, Read(was, loc), records[..i], r, loc.record.index);
      assert Read(mid, loc) ==
        if loc.record.batchID == batchID && loc.column == col.id
        then Run(b, deleted, loc.column, forUpdate, Read(was, loc), records[..i], loc.record.index)
        else Read(was, loc);
    }
  }

  ghost predicate GroupsOk(b: UpsertBatch, groups: Groups) {
    forall batchID, i :: batchID in groups && 0 <= i < |groups[batchID]| ==> groups[batchID][i].row < b.NumRows()
  }

  // Every cell after writing the groups of all batches but those in todo.
  ghost predicate GroupsWritten(was: Cells, now: Cells, b: UpsertBatch, deleted: set<nat>, groups: Groups,
      todo: set<int>, forUpdate: bool)
    requires b.Valid() && GroupsOk(b, groups)
  {
    && now.defaults == was.defaults
    && (forall loc: Loc ::
          Read(now, loc) ==
          if loc.record.batchID in groups && loc.record.batchID !in todo
          then Run(b, deleted, loc.column, forUpdate, Read(was, loc), groups[loc.record.batchID], loc.record.index)
          else Read(was, loc))
  }

  lemma {:induction false} GroupWritten(was: Cells, mid: Cells, now: Cells, b: UpsertBatch, deleted: set<nat>,
      groups: Groups, todo: set<int>, forUpdate: bool, batchID: int)
    requires b.Valid() && GroupsOk(b, groups) && batchID in todo && batchID in groups
    requires GroupsWritten(was, mid, b, deleted, groups, todo, forUpdate)
    requires ColumnsWritten(mid, now, b, deleted, batchID, groups[batchID], forUpdate, |b.columns|)
    ensures GroupsWritten(was, now, b, deleted, groups, todo - {batchID}, forUpdate)
  {
    forall loc: Loc ensures Read(now, loc) ==
      if loc.record.batchID in groups && loc.record.batchID !in todo - {batchID}
      then Run(b, deleted, loc.column, forUpdate, Read(was, loc), groups[loc.record.batchID], loc.record.index)
      else Read(was, loc)
    {
      assert Read(mid, loc) ==
        if loc.record.batchID in groups && loc.record.batchID !in todo
        then Run(b, deleted, loc.column, forUpdate, Read(was, loc), groups[loc.record.batchID], loc.record.index)
        else Read(was, loc);
    }
  }

  lemma {:induction false} RecordsOk(j: Job, groups: Groups, insert: bool)
    requires j.batch.Valid() && Grouped(j, j.batch.NumRows(), groups, insert)
    ensures GroupsOk(j.batch, groups)
  {
    forall batchID, i | batchID in groups
           && 0 <= i < |groups[batchID]| ensures groups[batchID][i].row < j.batch.NumRows() {
      assert Group(groups, batchID) == j.Records(j.batch.NumRows(), batchID, insert);
    }
  }

  // Writing all insert groups and then all update groups is `Batched`.
  lemma {:induction false} BothGroupsWritten(j: Job, inserts: Groups, updates: Groups, mid: Cells, now: Cells, loc: Loc)
    requires j.batch.Valid() && WellFormed(j.start) && GroupsOk(j.batch, inserts) && GroupsOk(j.batch, updates)
    requires Grouped(j, j.batch.NumRows(), inserts, true) && Grouped(j, j.batch.NumRows(), updates, false)
    requires GroupsWritten(j.start.cells, mid, j.batch, j.deleted, inserts, {}, false)
    requires GroupsWritten(mid, now, j.batch, j.deleted, updates, {}, true)
    ensures Read(now, loc) == Read(j.After(j.batch.NumRows()).cells, loc)
  {
    var n, batchID := j.batch.NumRows(), loc.record.batchID;
    assert Group(inserts, batchID) == j.Records(n, batchID, true);
    assert Group(updates, batchID) == j.Records(n, batchID, false);
    hide Job.Records, UpsertRows, Job.After, WellFormed;
    assert Read(mid, loc) == Run(j.batch, j.deleted, loc.column, false, Read(j.start.cells, loc),
                                 Group(inserts, batchID), loc.record.index);
    assert Read(now, loc) == Run(j.batch, j.deleted, loc.column, true, Read(mid, loc), Group(updates, batchID),
                                 loc.record.index);
    BatchedCell(j, n, loc);
  }

  class LiveStore {
    const batchSize: nat
    var primaryKey: map<Key, RecordID>
    var nextWriteRecord: RecordID
    var lastReadRecord: RecordID
    var archivingCutoffHighWatermark: nat
    var cells: Cells

    constructor (size: nat, defaults: map<nat, DataValue>)
      ensures WellFormed(State()) && cells == Cells(defaults, map[])
              && primaryKey == map[] && batchSize == size && lastReadRecord == nextWriteRecord
    {
      batchSize := size;
      primaryKey, cells := map[], Cells(defaults, map[]);
      nextWriteRecord := RecordID(BASE_BATCH_ID, 0);
      lastReadRecord := RecordID(BASE_BATCH_ID, 0);
      archivingCutoffHighWatermark := 0;
    }

    ghost function State(): Store
      reads this
    {
      Store(primaryKey, nextWriteRecord, cells)
    }

    method AdvanceNextWriteRecord()
      modifies this`nextWriteRecord
      ensures nextWriteRecord == Advance(old(nextWriteRecord), batchSize)
      ensures Precedes(old(nextWriteRecord), nextWriteRecord)
    {
      if nextWriteRecord.index + 1 == batchSize {
        nextWriteRecord := RecordID(nextWriteRecord.batchID + 1, 0);
      } else {
        nextWriteRecord := nextWriteRecord.(index := nextWriteRecord.index + 1);
      }
    }

    // Gives every row its record, grouped by batch; rows below the watermark
    // are set aside for backfill, or passed over while a redo log is replayed
    // that has queued them before.
    method InsertPrimaryKeys(b: UpsertBatch, ghost deleted: set<nat>, skipBackfillRows: bool)
      returns (updateRecords: Groups, insertRecords: Groups, backfillRows: seq<nat>)
      requires b.Valid()
      modifies this`primaryKey, this`nextWriteRecord
      ensures var j := Job(old(State()), b, deleted, batchSize, archivingCutoffHighWatermark);
              && primaryKey == j.After(b.NumRows()).primaryKey && nextWriteRecord == j.After(b.NumRows()).next
              && Grouped(j, b.NumRows(), updateRecords, false) && Grouped(j, b.NumRows(), insertRecords, true)
      ensures backfillRows == BackfillRows(b, archivingCutoffHighWatermark, skipBackfillRows, b.NumRows())
    {
      ghost var j := Job(State(), b, deleted, batchSize, archivingCutoffHighWatermark);
      updateRecords, insertRecords, backfillRows := map[], map[], [];
      NothingGrouped(j);
      hide Grouped, UpsertRows, Job.After, Job.Target;
      var row := 0;
      while row < b.NumRows()
        invariant 0 <= row <= b.NumRows()
        invariant primaryKey == j.After(row).primaryKey && nextWriteRecord == j.After(row).next
        invariant Grouped(j, row, updateRecords, false) && Grouped(j, row, insertRecords, true)
        invariant backfillRows == BackfillRows(b, archivingCutoffHighWatermark, skipBackfillRows, row)
      {
        GroupedStep(j, row, updateRecords, false);
        GroupedStep(j, row, insertRecords, true);
        AfterStep(j, row);
        var target := FindOrInsert(b, row);
        assert target == j.Target(row);
        match target {
          case Skipped =>
            if !skipBackfillRows {
              backfillRows := backfillRows + [row];
            }
          case To(record, true) => insertRecords := Append(insertRecords, record.batchID,
                                                           RecordInfo(row, record.index));
          case To(record, false) => updateRecords := Append(updateRecords, record.batchID,
                                                            RecordInfo(row, record.index));
        }
        row := row + 1;
      }
    }

    // The record of one row, new or existing.
    method FindOrInsert(b: UpsertBatch, row: nat) returns (target: Target)
      requires b.Valid() && row < b.NumRows()
      modifies this`primaryKey, this`nextWriteRecord
      ensures target == TargetOf(old(State()), b, archivingCutoffHighWatermark, row)
      ensures primaryKey == if target.To? && target.insert then old(primaryKey)[b.keys[row] := old(nextWriteRecord)]
              else old(primaryKey)
      ensures nextWriteRecord == if target.To? && target.insert then Advance(old(nextWriteRecord), batchSize)
              else old(nextWriteRecord)
    {
      if b.eventTimes[row] < archivingCutoffHighWatermark {
        return Skipped;
      }
      if b.keys[row] in primaryKey {
        return To(primaryKey[b.keys[row]], false);
      }
      target := To(nextWriteRecord, true);
      primaryKey := primaryKey[b.keys[row] := nextWriteRecord];
      AdvanceNextWriteRecord();
    }

    // Column by column, the given rows into the given records of one batch.
    method WriteBatchRecords(b: UpsertBatch, deleted: set<nat>, batchID: int, records: seq<RecordInfo>, forUpdate: bool)
      requires b.Valid() && forall i :: 0 <= i < |records| ==> records[i].row < b.NumRows()
      modifies this`cells
      ensures ColumnsWritten(old(cells), cells, b, deleted, batchID, records, forUpdate, |b.columns|)
    {
      NoColumnsWritten(cells, b, deleted, batchID, records, forUpdate);
      hide ColumnsWritten, ColumnWritten, Run;
      var c := 0;
      while c < |b.columns|
        invariant 0 <= c <= |b.columns|
        invariant ColumnsWritten(old(cells), cells, b, deleted, batchID, records, forUpdate, c)
      {
        ghost var before := cells;
        WriteColumn(b, deleted, batchID, records, forUpdate, c);
        NextColumn(old(cells), before, cells, b, deleted, batchID, records, forUpdate, c);
        c := c + 1;
      }
    }

    method WriteColumn(b: UpsertBatch, deleted: set<nat>, batchID: int, records: seq<RecordInfo>, forUpdate: bool,
        c: nat)
      requires b.Valid() && c < |b.columns| && forall i :: 0 <= i < |records| ==> records[i].row < b.NumRows()
      modifies this`cells
      ensures ColumnWritten(old(cells), cells, b, deleted, batchID, records, forUpdate, c)
    {
      var col := b.columns[c];
      if col.id in deleted || (col.mode.OverwriteNotNull? && forall r :: 0 <= r < b.NumRows() ==> col.values[r].Null?) {
        ColumnSkipped(cells, b, deleted, batchID, records, forUpdate, c);
        return;
      }
      var i := 0;
      while i < |records|
        invariant 0 <= i <= |records|
        invariant ColumnWritten(old(cells), cells, b, deleted, batchID, records[..i], forUpdate, c)
      {
        hide ColumnWritten;
        var r := records[i];
        CellWritten(old(cells), cells, b, deleted, batchID, records, forUpdate, c, i);
        var loc := Loc(RecordID(batchID, r.index), col.id);
        cells := cells.Write(loc, Combine(col.mode, forUpdate, Read(cells, loc), col.values[r.row]));
        i := i + 1;
      }
      assert records[..i] == records;
    }

    // Every group, in whatever order the map is walked.
    method WriteGroups(b: UpsertBatch, deleted: set<nat>, groups: Groups, forUpdate: bool)
      requires b.Valid() && GroupsOk(b, groups)
      modifies this`cells
      ensures GroupsWritten(old(cells), cells, b, deleted, groups, {}, forUpdate)
      ensures cells.defaults == old(cells.defaults)
    {
      var todo := groups.Keys;
      while todo != {}
        invariant todo <= groups.Keys
        invariant GroupsWritten(old(cells), cells, b, deleted, groups, todo, forUpdate)
        decreases todo
      {
        hide GroupsWritten, ColumnsWritten, Run;
        var _ := SomeElement(todo);
        var batchID :| batchID in todo;
        ghost var before := cells;
        WriteBatchRecords(b, deleted, batchID, groups[batchID], forUpdate);
        GroupWritten(old(cells), before, cells, b, deleted, groups, todo, forUpdate, batchID);
        todo := todo - {batchID};
      }
    }

    // The batch is applied as if row by row in row order.
    method ApplyUpsertBatch(b: UpsertBatch, deleted: set<nat>, skipBackfillRows: bool) returns (backfillRows: seq<nat>)
      requires b.Valid() && WellFormed(State())
      modifies this`primaryKey, this`nextWriteRecord, this`cells, this`lastReadRecord
      ensures var reference := UpsertRows(old(State()), b, deleted, batchSize, archivingCutoffHighWatermark,
                                          b.NumRows());
              && primaryKey == reference.primaryKey && nextWriteRecord == lastReadRecord == reference.next
              && cells.defaults == old(cells.defaults)
              && forall loc :: Read(cells, loc) == Read(reference.cells, loc)
      ensures WellFormed(State())
      ensures backfillRows == BackfillRows(b, archivingCutoffHighWatermark, skipBackfillRows, b.NumRows())
    {
      ghost var j := Job(State(), b, deleted, batchSize, archivingCutoffHighWatermark);
      var updateRecords, insertRecords;
      updateRecords, insertRecords, backfillRows := InsertPrimaryKeys(b, deleted, skipBackfillRows);
      RecordsOk(j, updateRecords, false);
      RecordsOk(j, insertRecords, true);
      hide Grouped, GroupsWritten, GroupsOk, WellFormed, UpsertRows;
      WriteGroups(b, deleted, insertRecords, false);
      ghost var mid := cells;
      WriteGroups(b, deleted, updateRecords, true);
      forall loc ensures Read(cells, loc) == Read(j.After(b.NumRows()).cells, loc) {
        BothGroupsWritten(j, insertRecords, updateRecords, mid, cells, loc);
      }
      lastReadRecord := nextWriteRecord;
      JobWellFormed(j, b.NumRows());
      SameWellFormed(j.After(b.NumRows()), State());
    }
  }

  ghost function BackfillRows(b: UpsertBatch, watermark: nat, skip: bool, n: nat): seq<nat>
    requires b.Valid() && n <= b.NumRows()
  {
    if n == 0 || skip then []
    else BackfillRows(b, watermark, skip, n - 1) + (if b.eventTimes[n - 1] < watermark then [n - 1] else [])
  }
}
