/** Backfilling one day: forked columns, deleted base rows and the temporary store. */
module Backfill {
  import opened Common
  import opened DataValues
  import opened BackfillSpec
  import opened BackfillStore

  type ColumnArray = array<DataValue>

  class BackfillContext {
    // The day's archive batch. Its columns are shared with running queries.
    const base: Base
    const baseColumns: seq<ColumnArray>
    var newColumns: seq<ColumnArray>
    var columnsForked: seq<bool>
    var columnsToPurge: seq<ColumnArray>
    var baseRowDeleted: seq<nat>
    var primaryKey: map<Key, RecordID>
    var temp: map<RecordID, Stored>
    var created: set<Place>
    var nextWriteRecord: RecordID
    // The forked copies, and what the new columns hold.
    ghost var owned: set<ColumnArray>
    ghost var contents: Columns

    ghost function P(): Progress
      reads this
    {
      Progress(contents, baseRowDeleted, primaryKey, temp, created, nextWriteRecord)
    }

    // The base's columns hold what they held at the start.
    ghost predicate BaseKept()
      reads baseColumns
    {
      |baseColumns| == |base.columns| && forall c :: 0 <= c < |baseColumns| ==> baseColumns[c][..] == base.columns[c]
    }

    ghost predicate Holds()
      reads this`newColumns, this`contents, newColumns
    {
      && |newColumns| == |contents|
      && forall c :: 0 <= c < |newColumns| ==> newColumns[c].Length == |base.keys| && newColumns[c][..] == contents[c]
    }

    // Forked columns are private copies; the others are still the base's.
    ghost predicate Private()
      reads this`newColumns, this`columnsForked, this`owned, this`columnsToPurge
    {
      && |newColumns| == |columnsForked| == |baseColumns|
      && (forall c :: 0 <= c < |newColumns| && !columnsForked[c] ==> newColumns[c] == baseColumns[c])
      && (forall c :: 0 <= c < |newColumns| && columnsForked[c] ==>
            newColumns[c] in owned && baseColumns[c] in columnsToPurge)
      && (forall c, d :: 0 <= c < d < |newColumns| && columnsForked[c] && columnsForked[d] ==>
            newColumns[c] != newColumns[d])
      && (forall c :: 0 <= c < |baseColumns| ==> baseColumns[c] !in owned)
      && (forall a :: a in columnsToPurge ==> a in baseColumns)
    }

    ghost predicate Forks()
      reads this`newColumns, this`columnsForked, this`owned, this`columnsToPurge, this`contents, baseColumns, newColumns
    {
      BaseKept() && Holds() && Private()
    }

    ghost predicate Valid()
      reads this, newColumns, baseColumns
    {
      Forks() && Inv(base, P())
    }

    // Writes one cell, forking the column on its first write.
    method SetForked(columnID: nat, row: nat, value: DataValue)
      requires Forks() && columnID < |newColumns| && row < |base.keys|
      modifies this`newColumns, this`columnsForked, this`columnsToPurge, this`owned, this`contents, owned
      ensures Forks() && contents == old(contents)[columnID := old(contents)[columnID][row := value]]
      ensures fresh(owned - old(owned))
    {
      if !columnsForked[columnID] {
        Fork(columnID);
      }
      newColumns[columnID][row] := value;
      contents := contents[columnID := contents[columnID][row := value]];
    }

    method Fork(columnID: nat)
      requires Forks() && columnID < |newColumns| && !columnsForked[columnID]
      modifies this`newColumns, this`columnsForked, this`columnsToPurge, this`owned
      ensures Forks() && columnsForked[columnID]
      ensures fresh(owned - old(owned))
    {
      columnsToPurge := columnsToPurge + [baseColumns[columnID]];
      var copy := CopyOnWrite(baseColumns[columnID]);
      newColumns := newColumns[columnID := copy];
      columnsForked := columnsForked[columnID := true];
      owned := owned + {copy};
    }

    static method CopyOnWrite(source: ColumnArray) returns (copy: ColumnArray)
      ensures fresh(copy) && copy[..] == source[..]
    {
      copy := new DataValue[source.Length];
      var i := 0;
      while i < source.Length
        invariant 0 <= i <= source.Length && copy.Length == source.Length && copy[..i] == source[..i]
      {
        copy[i] := source[i];
        i := i + 1;
      }
    }

    constructor (day: Base, columns: seq<ColumnArray>)
      requires day.Valid() && |columns| == |day.columns|
               && forall c :: 0 <= c < |columns| ==> columns[c][..] == day.columns[c]
      ensures base == day && baseColumns == columns && Forks() && contents == day.columns && owned == {}
      ensures primaryKey == map[] && temp == map[] && created == {} && baseRowDeleted == [] && columnsToPurge == []
      ensures nextWriteRecord == RecordID(BASE_BATCH_ID, 0)
    {
      base, baseColumns, newColumns := day, columns, columns;
      columnsForked := seq(|columns|, _ => false);
      columnsToPurge, baseRowDeleted, primaryKey, temp, created := [], [], map[], map[], {};
      nextWriteRecord := RecordID(BASE_BATCH_ID, 0);
      owned, contents := {}, day.columns;
      new;
      assert forall c :: 0 <= c < |columns| ==> |columns[c][..]| == columns[c].Length;
    }

    // Indexes the base rows by primary key; of rows with the same key, the first.
    method BuildIndex()
      requires primaryKey == map[]
      modifies this`primaryKey
      ensures primaryKey == BaseIndex(base, |base.keys|)
      ensures forall k :: k in primaryKey <==> k in base.keys
      ensures forall k :: k in primaryKey ==> FirstRow(base, |base.keys|, k, primaryKey[k])
    {
      var row := 0;
      while row < |base.keys|
        invariant 0 <= row <= |base.keys| && primaryKey == BaseIndex(base, row)
      {
        if base.keys[row] !in primaryKey {
          primaryKey := primaryKey[base.keys[row] := RecordID(base.batchID, row)];
        }
        row := row + 1;
      }
      forall k ensures k in primaryKey <==> k in base.keys {
        BaseIndexKeys(base, |base.keys|, k);
        assert base.keys[..|base.keys|] == base.keys;
      }
      forall k | k in primaryKey ensures FirstRow(base, |base.keys|, k, primaryKey[k]) {
        BaseIndexHas(base, |base.keys|, k);
      }
    }

    // Looks for a sort column the patch row changes; if there is one, gives the
    // whole changed row.
    method GetChangedBaseRow(row: nat, cells: Record) returns (changed: bool, changedRow: Change)
      requires Forks() && row < |base.keys| && |cells| == |contents|
      ensures |contents| == |base.columns| && forall c :: 0 <= c < |contents| ==> |contents[c]| == |base.keys|
      ensures changed <==> ChangesSortColumn(base, RowAt(contents, row), cells)
      ensures changed ==> changedRow == BaseChange(RowAt(contents, row), cells, base.dropped)
    {
      Widths();
      changedRow := [];
      ghost var all := RowAt(contents, row);
      var columnID := 0;
      while columnID < |cells|
        invariant 0 <= columnID <= |cells|
        invariant forall c :: 0 <= c < columnID && c in base.sortColumns && cells[c].Valid? ==> cells[c] == all[c]
      {
        if cells[columnID].Valid? && columnID in base.sortColumns && newColumns[columnID][row] != cells[columnID] {
          changedRow := ChangedRow(row, cells);
          assert cells[columnID] != all[columnID];
          return true, changedRow;
        }
        columnID := columnID + 1;
      }
      changed := false;
    }

    method ChangedRow(row: nat, cells: Record) returns (changedRow: Change)
      requires Forks() && row < |base.keys| && |cells| == |contents|
      requires forall c :: 0 <= c < |contents| ==> |contents[c]| == |base.keys|
      ensures changedRow == BaseChange(RowAt(contents, row), cells, base.dropped)
    {
      changedRow := [];
      ghost var goal := BaseChange(RowAt(contents, row), cells, base.dropped);
      while |changedRow| < |cells|
        invariant |changedRow| <= |cells| && changedRow == goal[..|changedRow|]
      {
        var c := |changedRow|;
        changedRow := changedRow +
          [if c in base.dropped then None else Some(if cells[c].Valid? then cells[c] else newColumns[c][row])];
      }
    }

    // Sets the given cells of a record of the temporary store, creating the
    // columns its batch lacks.
    method ApplyChangedRowToLiveStore(id: RecordID, key: Key, changedRow: Change)
      requires id in temp ==> |temp[id].row| == |changedRow|
      modifies this`temp, this`created
      ensures temp == old(temp)[id := Stored(key,
                                             if id in old(temp) then SetAll(old(temp)[id].row, changedRow)
                                                else changedRow)]
      ensures created == old(created) + Touched(id.batchID, changedRow)
    {
      var row := if id in temp then temp[id].row else Unwritten(|changedRow|);
      ghost var start := row;
      var columnID := 0;
      while columnID < |changedRow|
        invariant 0 <= columnID <= |changedRow| == |row| && temp == old(temp)
        invariant forall c :: 0 <= c < |row| ==>
                    row[c] == if c < columnID && changedRow[c].Some? then changedRow[c] else start[c]
        invariant created == old(created) + Touched(id.batchID, changedRow[..columnID])
      {
        assert changedRow[..columnID + 1] == changedRow[..columnID] + [changedRow[columnID]];
        if changedRow[columnID].Some? {
          created := created + {Place(id.batchID, columnID)};
          row := row[columnID := changedRow[columnID]];
        }
        TouchedStep(id.batchID, changedRow, columnID);
        columnID := columnID + 1;
      }
      assert changedRow[..columnID] == changedRow;
      assert row == SetAll(start, changedRow) && (id !in temp ==> row == changedRow);
      temp := temp[id := Stored(key, row)];
    }

    // Writes the changed unsorted columns of a base row into forked columns.
    method WritePatchValueForUnsortedColumn(row: nat, cells: Record) returns (updated: bool)
      requires Forks() && row < |base.keys| && |cells| == |contents|
      modifies this`newColumns, this`columnsForked, this`columnsToPurge, this`owned, this`contents, owned
      ensures Forks() && fresh(owned - old(owned))
      ensures contents == SetCells(old(contents), base.sortColumns, row, cells, |cells|)
      ensures !updated ==> contents == old(contents)
    {
      hide Forks, SetCells;
      updated := false;
      ghost var before := contents;
      Widths();
      SetNoCells(before, base.sortColumns, row, cells);
      var columnID := 0;
      while columnID < |cells|
        invariant 0 <= columnID <= |cells| && |contents| == |before| && Forks() && fresh(owned - old(owned))
        invariant contents == SetCells(before, base.sortColumns, row, cells, columnID)
        invariant !updated ==> contents == before
      {
        SetNextCell(before, base.sortColumns, row, cells, columnID);
        if cells[columnID].Valid? && columnID !in base.sortColumns {
          var now := ReadCell(columnID, row);
          if now != cells[columnID] {
            SetForked(columnID, row, cells[columnID]);
            updated := true;
          } else {
            assert contents[columnID][row := cells[columnID]] == contents[columnID];
          }
        }
        columnID := columnID + 1;
      }
    }

    lemma {:induction false} Widths()
      requires Forks()
      ensures |contents| == |base.columns| && forall c :: 0 <= c < |contents| ==> |contents[c]| == |base.keys|
    {
      assert forall c :: 0 <= c < |newColumns| ==> |newColumns[c][..]| == newColumns[c].Length;
    }

    method ReadCell(columnID: nat, row: nat) returns (v: DataValue)
      requires Forks() && columnID < |contents| && row < |base.keys|
      ensures |contents[columnID]| == |base.keys| && |contents| == |newColumns| && v == contents[columnID][row]
    {
      v := newColumns[columnID][row];
      assert newColumns[columnID][..][row] == v;
    }

    // One patch row: a new record, an update in the temporary store, a move
    // there, or an update in place.
    method BackfillRow(r: PatchRow)
      requires Valid() && base.Fits(r) && !InBase(nextWriteRecord)
      modifies this, owned
      ensures Valid() && fresh(owned - old(owned))
      ensures Result(base, P()) == Upsert(base.Fresh(), old(Result(base, P())), r)
      ensures P() == StoreAfter(base, old(P()), r).(columns := contents, deleted := baseRowDeleted)
      ensures nextWriteRecord == old(nextWriteRecord)
              || nextWriteRecord == Advance(old(nextWriteRecord), base.storeBatchSize)
    {
      hide Forks, Located, Created, Result, Upsert, SetCells, Shaped, Touched, Base.Valid, RecordOf;
      ghost var before := P();
      Widths();
      var next := nextWriteRecord;
      if r.key !in primaryKey {
        var change := PatchChange(r.cells);
        StoreRecord(base, before, r, change);
        StoreFree(base, before);
        primaryKey := primaryKey[r.key := next];
        AdvanceNextWriteRecord();
        ApplyChangedRowToLiveStore(next, r.key, change);
        assert before.deleted + [] == before.deleted;
        assert P() == AddRecord(base, before, Stored(r.key, change));
      } else if !InBase(primaryKey[r.key]) {
        var id := primaryKey[r.key];
        UpdateTemp(base, before, r);
        StoredAt(base, before, r.key);
        ApplyChangedRowToLiveStore(id, r.key, PatchChange(r.cells));
        assert P() == SetRecord(before, id, PatchChange(r.cells));
      } else {
        StoredAt(base, before, r.key);
        UpdateBaseRow(r, primaryKey[r.key].index);
      }
    }

    // A row of the base batch: moved if a sort column changes, else in place.
    method UpdateBaseRow(r: PatchRow, row: nat)
      requires Valid() && base.Fits(r) && !InBase(nextWriteRecord) && row < |base.keys|
      requires r.key in primaryKey && primaryKey[r.key].index == row && InBase(primaryKey[r.key])
      modifies this, owned
      ensures Valid() && fresh(owned - old(owned))
      ensures Result(base, P()) == Upsert(base.Fresh(), old(Result(base, P())), r)
      ensures P() == StoreAfter(base, old(P()), r).(columns := contents, deleted := baseRowDeleted)
      ensures nextWriteRecord == old(nextWriteRecord)
              || nextWriteRecord == Advance(old(nextWriteRecord), base.storeBatchSize)
    {
      hide Forks, Located, Created, Result, Upsert, ChangesSortColumn, RecordOf, BaseChange, Mask;
      BaseRecordIs(base, P(), r.key);
      var changed, changedRow := GetChangedBaseRow(row, r.cells);
      ChangeSeen(base, RowAt(contents, row), r);
      if changed {
        MoveBaseRow(r, row, changedRow);
      } else {
        UpdateInPlace(r, row);
      }
    }

    // Deletes the base row and stores the changed one.
    method MoveBaseRow(r: PatchRow, row: nat, changedRow: Change)
      requires Valid() && base.Fits(r) && !InBase(nextWriteRecord) && row < |base.keys|
      requires r.key in primaryKey && primaryKey[r.key].index == row && InBase(primaryKey[r.key])
      requires changedRow == BaseChange(RecordOf(base, P(), r.key), r.cells, base.dropped)
      requires ChangesSortColumn(base, Mask(RecordOf(base, P(), r.key), base.dropped), r.cells)
      modifies this, owned
      ensures Valid() && fresh(owned - old(owned))
      ensures Result(base, P()) == Upsert(base.Fresh(), old(Result(base, P())), r)
      ensures P() == StoreAfter(base, old(P()), r).(columns := contents, deleted := baseRowDeleted)
      ensures nextWriteRecord == old(nextWriteRecord)
              || nextWriteRecord == Advance(old(nextWriteRecord), base.storeBatchSize)
    {
      hide Forks, Located, Created, Result, Upsert, Touched, ChangesSortColumn, RecordOf, BaseChange, Mask;
      ghost var before := P();
      var next := nextWriteRecord;
      StoreRecord(base, before, r, changedRow);
      StoreFree(base, before);
      baseRowDeleted := baseRowDeleted + [row];
      AdvanceNextWriteRecord();
      primaryKey := primaryKey[r.key := next];
      ApplyChangedRowToLiveStore(next, r.key, changedRow);
      assert P() == AddRecord(base, before, Stored(r.key, changedRow)).(deleted := before.deleted + [row]);
    }

    method UpdateInPlace(r: PatchRow, row: nat)
      requires Valid() && base.Fits(r) && !InBase(nextWriteRecord) && row < |base.keys|
      requires r.key in primaryKey && primaryKey[r.key].index == row && InBase(primaryKey[r.key])
      requires !ChangesSortColumn(base, RecordOf(base, P(), r.key), r.cells)
      requires !ChangesSortColumn(base, Mask(RecordOf(base, P(), r.key), base.dropped), r.cells)
      modifies this, owned
      ensures Valid() && fresh(owned - old(owned))
      ensures Result(base, P()) == Upsert(base.Fresh(), old(Result(base, P())), r)
      ensures P() == StoreAfter(base, old(P()), r).(columns := contents, deleted := baseRowDeleted)
      ensures nextWriteRecord == old(nextWriteRecord)
              || nextWriteRecord == Advance(old(nextWriteRecord), base.storeBatchSize)
    {
      hide Forks, Located, Created, Result, Upsert, SetCells, ChangesSortColumn, RecordOf, Mask, Overlay;
      ghost var before := P();
      BaseRecordIs(base, before, r.key);
      SortCellsStay(base, before.columns, row, r.cells);
      SetCellsRow(base, before.columns, row, r.cells);
      var _ := WritePatchValueForUnsortedColumn(row, r.cells);
      Widths();
      UpdateBase(base, before, r, contents);
      assert P() == before.(columns := contents);
    }

    method AdvanceNextWriteRecord()
      modifies this`nextWriteRecord
      ensures nextWriteRecord == Advance(old(nextWriteRecord), base.storeBatchSize)
    {
      if nextWriteRecord.index + 1 == base.storeBatchSize {
        nextWriteRecord := RecordID(nextWriteRecord.batchID + 1, 0);
      } else {
        nextWriteRecord := nextWriteRecord.(index := nextWriteRecord.index + 1);
      }
    }

    // A forked column whose non-default count is zero loses its vectors and
    // reads as the default. A column still shared with the base has no others.
    method PruneColumns()
      requires Valid()
      modifies this`contents, owned
      ensures Valid() && P() == Pruned(base, old(P()))
    {
      ghost var before := P();
      Widths();
      PruneNone(base, before);
      var columnID := 0;
      while columnID < |newColumns|
        invariant 0 <= columnID <= |newColumns| && Forks() && P() == before.(columns := contents)
        invariant contents == PrunedUpTo(base, before, columnID)
      {
        hide Forks, Inv, PrunedUpTo;
        PruneNext(base, before, columnID);
        ForkedOrDefault(before, columnID);
        if columnsForked[columnID] && columnID !in base.counted {
          FillDefault(columnID);
        }
        columnID := columnID + 1;
      }
      PruneAll(base, before);
    }

    lemma {:induction false} ForkedOrDefault(before: Progress, c: nat)
      requires Forks() && base.Valid() && c < |newColumns| && Shaped(base, before) && contents[c] == before.columns[c]
      ensures !columnsForked[c] && c !in base.counted ==> contents[c] == seq(|base.keys|, _ => base.defaults[c])
    {
      if !columnsForked[c] && c !in base.counted {
        assert contents[c] == base.columns[c];
      }
    }

    method FillDefault(columnID: nat)
      requires Forks() && columnID < |newColumns| && columnsForked[columnID] && |base.defaults| == |base.columns|
      modifies this`contents, owned
      ensures Forks() && contents == old(contents)[columnID := seq(|base.keys|, _ => base.defaults[columnID])]
    {
      var column := newColumns[columnID];
      var i := 0;
      while i < column.Length
        invariant 0 <= i <= column.Length
        invariant forall j :: 0 <= j < i ==> column[j] == base.defaults[columnID]
        invariant forall a: ColumnArray :: a in owned && a != column ==> a[..] == old(a[..])
        invariant contents == old(contents)
        modifies column
      {
        column[i] := base.defaults[columnID];
        i := i + 1;
      }
      contents := contents[columnID := seq(|base.keys|, _ => base.defaults[columnID])];
    }

    // Backfill of a day publishes, cell by cell, the left fold of its patch rows
    // over the base with non-null overwrite, but for the two kinds of cells that
    // `PublishesFold` names; the base's own columns are not touched.
    method BackfillDay(patch: seq<PatchRow>)
      requires base.Valid() && Forks() && contents == base.columns && owned == {}
      requires primaryKey == map[] && temp == map[] && created == {} && baseRowDeleted == []
      requires nextWriteRecord == RecordID(BASE_BATCH_ID, 0)
      requires |patch| <= -BASE_BATCH_ID && AllWide(patch, |base.columns|)
               && forall i :: 0 <= i < |patch| ==> base.Fits(patch[i])
      modifies this
      ensures Valid() && fresh(owned)
      ensures PublishesFold(base, patch, P()) && Numbered(base, patch, P()) && SetsThose(base, patch, P())
    {
      hide Forks, Located, Created, Result, FoldUpserts, Upsert, BaseIndex, BaseTable, Shaped, Moves, Unmoved,
           PublishesFold, Mask, Numbered, SetsThose, StoreAfter, Pruned;
      BuildIndex();
      StartsAtBase(base);
      var i := 0;
      while i < |patch|
        invariant 0 <= i <= |patch| && Valid() && fresh(owned) && AllWide(patch[..i], |base.columns|)
        invariant nextWriteRecord.batchID <= BASE_BATCH_ID + i
        invariant Result(base, P()) == FoldUpserts(base.Fresh(), BaseTable(base), patch[..i])
        invariant Unmoved(base, patch[..i], primaryKey)
        invariant Numbered(base, patch[..i], P()) && SetsThose(base, patch[..i], P())
      {
        FoldSnoc(base.Fresh(), BaseTable(base), patch, i);
        ghost var before := P();
        BackfillRow(patch[i]);
        UnmovedNext(base, patch, i, before, P());
        NumberedNext(base, patch, i, before, P());
        SetsNext(base, patch, i, before, P());
        i := i + 1;
      }
      assert patch[..i] == patch;
      ghost var applied := P();
      PruneColumns();
      PublishedIsFold(base, patch, applied);
      PrunedStore(base, patch, applied);
    }
  }

  lemma {:induction false} TouchedStep(batchID: int, change: Change, n: nat)
    requires n < |change|
    ensures Touched(batchID, change[..n + 1]) ==
            Touched(batchID, change[..n]) + (if change[n].Some? then {Place(batchID, n)} else {})
  {
  }

  lemma {:induction false} BaseRecordIs(b: Base, p: Progress, k: Key)
    requires Inv(b, p) && k in p.primaryKey && InBase(p.primaryKey[k])
    ensures p.primaryKey[k].index < |b.keys| && RecordOf(b, p, k) == RowAt(p.columns, p.primaryKey[k].index)
  {
    hide Created, Placed;
  }

  lemma {:induction false} SortCellsStay(b: Base, columns: Columns, row: nat, cells: Record)
    requires |columns| == |cells| && forall c :: 0 <= c < |columns| ==> row < |columns[c]|
    requires !ChangesSortColumn(b, RowAt(columns, row), cells)
    ensures forall c :: 0 <= c < |columns| && c in b.sortColumns && cells[c].Valid? ==> cells[c] == columns[c][row]
  {
    assert forall c :: 0 <= c < |columns| ==> RowAt(columns, row)[c] == columns[c][row];
  }

  // ------------------------------------------------------ which records moved

  // The records still in the base batch are those no patch row has moved.
  ghost predicate Unmoved(b: Base, patch: seq<PatchRow>, index: map<Key, RecordID>)
    requires b.Valid() && AllWide(patch, |b.columns|)
  {
    forall k :: k in index ==> (InBase(index[k]) <==> k in b.keys && !Moves(b, patch, k))
  }

  lemma {:induction false} MovesSnoc(b: Base, patch: seq<PatchRow>, i: nat, k: Key)
    requires b.Valid() && i < |patch| && AllWide(patch, |b.columns|)
    requires AllWide(patch[..i], |b.columns|) && AllWide(patch[..i + 1], |b.columns|)
    ensures var m := FoldUpserts(b.Fresh(), BaseTable(b), patch[..i]);
            Moves(b, patch[..i + 1], k) <==>
            Moves(b, patch[..i], k) || (patch[i].key == k && k in m && ChangesSortColumn(b, m[k], patch[i].cells))
  {
    hide FoldUpserts, BaseTable, ChangesSortColumn;
    WideInit(patch, i, |b.columns|);
  }

  lemma {:induction false} UnmovedNext(b: Base, patch: seq<PatchRow>, i: nat, p: Progress, q: Progress)
    requires Inv(b, p) && i < |patch| && AllWide(patch, |b.columns|) && b.Fits(patch[i])
    requires AllWide(patch[..i], |b.columns|) && AllWide(patch[..i + 1], |b.columns|)
    requires Result(b, p) == FoldUpserts(b.Fresh(), BaseTable(b), patch[..i])
    requires Unmoved(b, patch[..i], p.primaryKey) && !InBase(p.next)
    requires q == StoreAfter(b, p, patch[i]).(columns := q.columns, deleted := q.deleted)
    ensures Unmoved(b, patch[..i + 1], q.primaryKey)
  {
    hide Located, Created, Shaped, FoldUpserts, BaseTable, ChangesSortColumn, StoreAfter, RecordOf, Mask, Moves, Result;
    BaseIndexed(b, p);
    BackfillStore.IndexAfter(b, p, patch[i]);
    forall k | k in q.primaryKey ensures InBase(q.primaryKey[k]) <==> k in b.keys && !Moves(b, patch[..i + 1], k) {
      MovesSnoc(b, patch, i, k);
      if k in p.primaryKey {
        ResultAt(b, p, k);
      }
    }
  }

  lemma {:induction false} ResultAt(b: Base, p: Progress, k: Key)
    requires Inv(b, p) && k in p.primaryKey
    ensures k in Result(b, p) && Result(b, p)[k] == Mask(RecordOf(b, p, k), b.dropped)
  {
    hide Located, Created, Shaped, RecordOf, Mask;
  }

  // ------------------------------------------------------- what is published

  ghost predicate PublishesFold(b: Base, patch: seq<PatchRow>, p: Progress)
    requires Inv(b, p) && AllWide(patch, |b.columns|)
  {
    var fold := FoldUpserts(b.Fresh(), BaseTable(b), patch);
    && Published(b, p).Keys == fold.Keys
    && forall k, c :: k in fold && 0 <= c < |b.columns| ==>
         var lost, shown := UpdateLost(b, fold[k], Moves(b, patch, k), k, c), Published(b, p)[k][c];
         && (shown == fold[k][c] <==> !lost && !SortCellNull(b, p, k, c))
         && (lost ==> shown == b.defaults[c]) && (SortCellNull(b, p, k, c) ==> shown == Null)
  }

  lemma {:induction false} PublishedIsFold(b: Base, patch: seq<PatchRow>, p: Progress)
    requires Inv(b, p) && AllWide(patch, |b.columns|)
    requires Result(b, p) == FoldUpserts(b.Fresh(), BaseTable(b), patch) && Unmoved(b, patch, p.primaryKey)
    ensures PublishesFold(b, patch, Pruned(b, p))
  {
    hide Located, Created, Shaped, Result, FoldUpserts, BaseTable, Moves, Published, SomeSets, Pruned;
    PrunedSame(b, p);
    var fold := FoldUpserts(b.Fresh(), BaseTable(b), patch);
    assert fold.Keys == p.primaryKey.Keys;
    forall k, c | k in fold && 0 <= c < |b.columns|
      ensures var lost := UpdateLost(b, fold[k], Moves(b, patch, k), k, c);
              var shown := Published(b, Pruned(b, p))[k][c];
              && (shown == fold[k][c] <==> !lost && !SortCellNull(b, Pruned(b, p), k, c))
              && (lost ==> shown == b.defaults[c]) && (SortCellNull(b, Pruned(b, p), k, c) ==> shown == Null)
    {
      PublishedExact(b, p, k, c);
      SameSets(p, Pruned(b, p), p.primaryKey[k].batchID, c);
    }
  }

  lemma {:induction false} PrunedSame(b: Base, p: Progress)
    requires Inv(b, p)
    ensures Pruned(b, p).primaryKey == p.primaryKey && Pruned(b, p).temp == p.temp
  {
    hide Inv;
  }

  lemma {:induction false} SameSets(p: Progress, q: Progress, batchID: int, c: nat)
    requires q.temp == p.temp
    ensures SomeSets(q, batchID, c) <==> SomeSets(p, batchID, c)
  {
  }

  // Pruning does not touch the temporary store.
  lemma {:induction false} PrunedStore(b: Base, patch: seq<PatchRow>, p: Progress)
    requires Inv(b, p) && AllWide(patch, |b.columns|) && Numbered(b, patch, p) && SetsThose(b, patch, p)
    ensures Numbered(b, patch, Pruned(b, p)) && SetsThose(b, patch, Pruned(b, p))
  {
    hide Located, Created, Shaped, Entered, SetsCell;
    var q := Pruned(b, p);
    assert q.next == p.next && q.primaryKey == p.primaryKey && q.temp == p.temp;
    forall k, c | k in q.primaryKey && !InBase(q.primaryKey[k]) && 0 <= c < |b.columns|
      ensures RowOf(b, q, k)[c].Some? <==> SetsCell(b, patch, k, c)
    {
      assert RowOf(b, q, k) == RowOf(b, p, k);
    }
  }

  // The columns after pruning the first n.
  ghost function PrunedUpTo(b: Base, p: Progress, n: nat): (r: Columns)
    requires Inv(b, p) && n <= |p.columns|
    ensures |r| == |p.columns|
  {
    PrunedColumns(b, p.columns)[..n] + p.columns[n..]
  }

  lemma {:induction false} PruneNone(b: Base, p: Progress)
    requires Inv(b, p)
    ensures PrunedUpTo(b, p, 0) == p.columns
  {
  }

  lemma {:induction false} PruneNext(b: Base, p: Progress, n: nat)
    requires Inv(b, p) && n < |p.columns|
    ensures Shaped(b, p) && b.Valid() && PrunedUpTo(b, p, n)[n] == p.columns[n]
    ensures PrunedUpTo(b, p, n + 1) ==
            if n in b.counted then PrunedUpTo(b, p, n) else PrunedUpTo(b, p, n)[n := seq(|b.keys|, _ => b.defaults[n])]
  {
    hide Located, Created, PrunedColumns;
    var pruned := PrunedColumns(b, p.columns);
    OneMore(pruned, p.columns, n);
    assert pruned[n] == if n in b.counted then p.columns[n] else seq(|b.keys|, _ => b.defaults[n]);
  }

  // Taking one more element from the first of two sequences.
  lemma {:induction false} OneMore<T>(s: seq<T>, t: seq<T>, n: nat)
    requires |s| == |t| && n < |s|
    ensures (s[..n] + t[n..])[n] == t[n] && s[..n + 1] + t[n + 1..] == (s[..n] + t[n..])[n := s[n]]
    ensures s[n] == t[n] ==> s[..n + 1] + t[n + 1..] == s[..n] + t[n..]
  {
    var a, z := s[..n + 1] + t[n + 1..], s[..n] + t[n..];
    assert a == z[n := s[n]];
  }

  lemma {:induction false} PruneAll(b: Base, p: Progress)
    requires Inv(b, p)
    ensures PrunedUpTo(b, p, |p.columns|) == Pruned(b, p).columns
  {
  }

  lemma {:induction false} FoldSnoc(start: Record, m: Table, patch: seq<PatchRow>, i: nat)
    requires WideTable(m, |start|) && i < |patch| && AllWide(patch, |start|)
    ensures AllWide(patch[..i], |start|) && AllWide(patch[..i + 1], |start|) && |patch[i].cells| == |start|
    ensures FoldUpserts(start, m, patch[..i + 1]) == Upsert(start, FoldUpserts(start, m, patch[..i]), patch[i])
  {
    assert patch[..i + 1][..i] == patch[..i];
  }

  ghost predicate FirstRow(b: Base, n: nat, k: Key, id: RecordID)
    requires n <= |b.keys|
  {
    id.batchID == b.batchID && id.index < n && b.keys[id.index] == k && forall j :: 0 <= j < id.index ==> b.keys[j] != k
  }

  lemma {:induction false} BaseIndexKeys(b: Base, n: nat, k: Key)
    requires n <= |b.keys|
    ensures k in BaseIndex(b, n) <==> k in b.keys[..n]
    decreases n
  {
    if n > 0 {
      BaseIndexKeys(b, n - 1, k);
    }
  }

  lemma {:induction false} BaseIndexHas(b: Base, n: nat, k: Key)
    requires n <= |b.keys| && k in BaseIndex(b, n)
    ensures FirstRow(b, n, k, BaseIndex(b, n)[k])
    decreases n
  {
    if k in BaseIndex(b, n - 1) {
      BaseIndexHas(b, n - 1, k);
    } else {
      BaseIndexKeys(b, n - 1, k);
      forall j | 0 <= j < n - 1 ensures b.keys[j] != k {
        assert b.keys[j] in b.keys[..n - 1];
      }
    }
  }

  lemma {:induction false} BaseIndexAt(b: Base, n: nat, i: nat)
    requires b.Valid() && i < n <= |b.keys|
    ensures b.keys[i] in BaseIndex(b, n) && BaseIndex(b, n)[b.keys[i]] == RecordID(b.batchID, i)
  {
    BaseIndexKeys(b, n, b.keys[i]);
    assert b.keys[i] in b.keys[..n];
    BaseIndexHas(b, n, b.keys[i]);
  }

  lemma {:induction false} LocatedAtBase(b: Base)
    requires b.Valid()
    ensures Inv(b, Progress(b.columns, [], BaseIndex(b, |b.keys|), map[], {}, RecordID(BASE_BATCH_ID, 0)))
  {
    forall i | 0 <= i < |b.keys|
      ensures b.keys[i] in BaseIndex(b, |b.keys|) && BaseIndex(b, |b.keys|)[b.keys[i]] == RecordID(b.batchID, i)
    {
      BaseIndexAt(b, |b.keys|, i);
    }
    forall k | k in BaseIndex(b, |b.keys|)
      ensures var id := BaseIndex(b, |b.keys|)[k];
              id.batchID == b.batchID && id.index < |b.keys| && b.keys[id.index] == k
    {
      BaseIndexHas(b, |b.keys|, k);
    }
    hide BaseIndex;
  }

  lemma {:induction false} BaseTableAt(b: Base, i: nat)
    requires b.Valid() && i < |b.keys|
    ensures b.keys[i] in BaseTable(b) && BaseTable(b)[b.keys[i]] == Mask(RowAt(b.columns, i), b.dropped)
  {
    hide Mask;
  }

  lemma {:induction false} BaseTableHas(b: Base, k: Key) returns (i: nat)
    requires b.Valid() && k in BaseTable(b)
    ensures i < |b.keys| && b.keys[i] == k
  {
    hide Mask;
    i :| 0 <= i < |b.keys| && b.keys[i] == k;
  }

  lemma {:induction false} StartsAtBase(b: Base)
    requires b.Valid()
    ensures var p := Progress(b.columns, [], BaseIndex(b, |b.keys|), map[], {}, RecordID(BASE_BATCH_ID, 0));
            Inv(b, p) && Result(b, p) == BaseTable(b)
    ensures AllWide([], |b.columns|) && FoldUpserts(b.Fresh(), BaseTable(b), []) == BaseTable(b)
    ensures var p := Progress(b.columns, [], BaseIndex(b, |b.keys|), map[], {}, RecordID(BASE_BATCH_ID, 0));
            Unmoved(b, [], p.primaryKey) && Numbered(b, [], p) && SetsThose(b, [], p)
  {
    hide Located, BaseIndex, Shaped, Mask, BaseTable;
    LocatedAtBase(b);
    var p := Progress(b.columns, [], BaseIndex(b, |b.keys|), map[], {}, RecordID(BASE_BATCH_ID, 0));
    var m := BaseTable(b);
    forall k | k in m ensures k in p.primaryKey {
      var i := BaseTableHas(b, k);
      BaseIndexAt(b, |b.keys|, i);
    }
    forall k | k in p.primaryKey ensures k in m && Result(b, p)[k] == m[k] {
      BaseIndexHas(b, |b.keys|, k);
      BaseTableAt(b, p.primaryKey[k].index);
    }
    forall k | k in p.primaryKey ensures InBase(p.primaryKey[k]) && k in b.keys {
      BaseIndexHas(b, |b.keys|, k);
    }
  }

  ghost function BaseIndex(b: Base, n: nat): map<Key, RecordID>
    requires n <= |b.keys|
  {
    if n == 0 then map[]
    else
      var m := BaseIndex(b, n - 1);
      if b.keys[n - 1] in m then m else m[b.keys[n - 1] := RecordID(b.batchID, n - 1)]
  }
}
