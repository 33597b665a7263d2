/** Backfilling one day: what each patch row does, on values. */
module BackfillSpec {
  import opened Common
  import opened DataValues
  import CuckooTable

  type Key = CuckooTable.Key
  type Record = seq<DataValue>
  type Columns = seq<seq<DataValue>>
  type Table = map<Key, Record>

  // One row of a backfill patch: a cell for every column, null where the upsert
  // batch has none or the column is deleted.
  datatype PatchRow = PatchRow(key: Key, cells: Record)

  // The archive batch of the day before backfill and the schema. `counted` are
  // the columns whose non-default count is not zero.
  datatype Base = Base(batchID: nat, keys: seq<Key>, columns: Columns, counted: set<nat>, defaults: Record,
      sortColumns: set<nat>, dropped: set<nat>, storeBatchSize: nat) {
    ghost predicate Valid() {
      && |defaults| == |columns|
      && (forall c :: 0 <= c < |columns| ==> |columns[c]| == |keys|)
      && (forall c, i :: 0 <= c < |columns| && c !in counted && 0 <= i < |keys| ==> columns[c][i] == defaults[c])
      && (forall i, j :: 0 <= i < j < |keys| ==> keys[i] != keys[j])
    }

    ghost predicate Fits(p: PatchRow) {
      |p.cells| == |columns| && forall c :: 0 <= c < |columns| && c in dropped ==> p.cells[c].Null?
    }

    // A record no row has written to.
    ghost function Fresh(): (r: Record)
      ensures |r| == |defaults|
    {
      Mask(defaults, dropped)
    }
  }

  ghost function RowAt(columns: Columns, i: nat): (r: Record)
    requires forall c :: 0 <= c < |columns| ==> i < |columns[c]|
    ensures |r| == |columns| && forall c :: 0 <= c < |r| ==> r[c] == columns[c][i]
  {
    seq(|columns|, c requires 0 <= c < |columns| => columns[c][i])
  }

  // Non-null cells overwrite.
  function Overlay(row: Record, cells: Record): (r: Record)
    requires |row| == |cells|
    ensures |r| == |row| && forall c :: 0 <= c < |r| ==> r[c] == if cells[c].Valid? then cells[c] else row[c]
  {
    seq(|row|, c requires 0 <= c < |row| => if cells[c].Valid? then cells[c] else row[c])
  }

  // Deleted columns read as null.
  function Mask(row: Record, dropped: set<nat>): (r: Record)
    ensures |r| == |row| && forall c :: 0 <= c < |r| ==> r[c] == if c in dropped then Null else row[c]
  {
    seq(|row|, c requires 0 <= c < |row| => if c in dropped then Null else row[c])
  }

  // ------------------------------------------------ the reference: upserts

  ghost predicate WideTable(m: Table, n: nat) {
    forall k :: k in m ==> |m[k]| == n
  }

  // A new key starts from the defaults.
  ghost function Upsert(start: Record, m: Table, p: PatchRow): (r: Table)
    requires WideTable(m, |p.cells|) && |start| == |p.cells|
    ensures WideTable(r, |p.cells|)
  {
    m[p.key := Overlay(if p.key in m then m[p.key] else start, p.cells)]
  }

  ghost predicate AllWide(patch: seq<PatchRow>, width: nat) {
    forall i :: 0 <= i < |patch| ==> |patch[i].cells| == width
  }

  ghost function FoldUpserts(start: Record, m: Table, patch: seq<PatchRow>): (r: Table)
    requires WideTable(m, |start|) && AllWide(patch, |start|)
    ensures WideTable(r, |start|)
    decreases |patch|
  {
    if patch == [] then m else Upsert(start, FoldUpserts(start, m, patch[..|patch| - 1]), patch[|patch| - 1])
  }

  ghost function BaseTable(b: Base): (m: Table)
    requires b.Valid()
    ensures WideTable(m, |b.columns|)
  {
    map i | 0 <= i < |b.keys| :: b.keys[i] := Mask(RowAt(b.columns, i), b.dropped)
  }

  // ------------------------------------------------------ backfill progress

  // The cells a changed row sets.
  type Change = seq<Option<DataValue>>

  // A patch row sets its non-null cells.
  function PatchChange(cells: Record): (r: Change)
    ensures |r| == |cells|
    ensures forall c :: 0 <= c < |r| ==> r[c] == if cells[c].Valid? then Some(cells[c]) else None
  {
    seq(|cells|, c requires 0 <= c < |cells| => if cells[c].Valid? then Some(cells[c]) else None)
  }

  // A base row to be moved sets every column that is not deleted, nulls included.
  function BaseChange(row: Record, cells: Record, dropped: set<nat>): (r: Change)
    requires |row| == |cells|
    ensures |r| == |cells|
    ensures forall c :: 0 <= c < |r| ==>
              r[c] == if c in dropped then None else Some(if cells[c].Valid? then cells[c] else row[c])
  {
    seq(|row|, c requires 0 <= c < |row| =>
      if c in dropped then None else Some(if cells[c].Valid? then cells[c] else row[c]))
  }

  function Unwritten(n: nat): (r: Change)
    ensures |r| == n && forall c :: 0 <= c < n ==> r[c].None?
  {
    seq(n, _ => None)
  }

  function SetAll(row: Change, change: Change): (r: Change)
    requires |row| == |change|
    ensures |r| == |row| && forall c :: 0 <= c < |r| ==> r[c] == if change[c].Some? then change[c] else row[c]
  {
    seq(|row|, c requires 0 <= c < |row| => if change[c].Some? then change[c] else row[c])
  }

  // A record of the temporary store, and a column of one of its batches.
  datatype Stored = Stored(key: Key, row: Change)

  datatype Place = Place(batchID: int, column: nat)

  // The columns a change makes its store batch create.
  ghost function Touched(batchID: int, change: Change): (s: set<Place>) {
    set c | 0 <= c < |change| && change[c].Some? :: Place(batchID, c)
  }

  // The new columns, the base rows deleted so far, where each key's record is,
  // and the records and columns of the temporary store.
  datatype Progress = Progress(columns: Columns, deleted: seq<nat>, primaryKey: map<Key, RecordID>,
      temp: map<RecordID, Stored>, created: set<Place>, next: RecordID)

  // Records of the base batch have its (non-negative) batch id.
  predicate InBase(id: RecordID) {
    id.batchID >= 0
  }

  ghost predicate Shaped(b: Base, p: Progress) {
    && |p.columns| == |b.columns|
    && (forall c :: 0 <= c < |p.columns| ==> |p.columns[c]| == |b.keys|)
    && (forall id :: id in p.temp ==> !InBase(id) && |p.temp[id].row| == |b.columns| && Precedes(id, p.next))
  }

  // The index leads every key to its one record: a base row that is not
  // deleted, or a record of the temporary store.
  ghost predicate Indexed(b: Base, p: Progress) {
    && (forall k :: k in p.primaryKey ==>
          var id := p.primaryKey[k];
          if InBase(id) then id.index < |b.keys| && b.keys[id.index] == k && id.index !in p.deleted
          else id in p.temp && p.temp[id].key == k)
    && (forall i :: 0 <= i < |b.keys| ==> b.keys[i] in p.primaryKey)
  }

  // Rows not deleted and stored records are indexed; no row is deleted twice.
  ghost predicate Placed(b: Base, p: Progress)
    requires Indexed(b, p)
  {
    && (forall i :: 0 <= i < |b.keys| && i !in p.deleted ==> p.primaryKey[b.keys[i]] == RecordID(b.batchID, i))
    && (forall id :: id in p.temp ==> p.temp[id].key in p.primaryKey && p.primaryKey[p.temp[id].key] == id)
    && (forall i, j :: 0 <= i < j < |p.deleted| ==> p.deleted[i] != p.deleted[j])
    && (forall i :: 0 <= i < |p.deleted| ==> p.deleted[i] < |b.keys|)
  }

  ghost predicate Located(b: Base, p: Progress) {
    Indexed(b, p) && Placed(b, p)
  }

  // A store batch has exactly the columns some record of it has set.
  ghost predicate Created(p: Progress) {
    forall batchID, c :: Place(batchID, c) in p.created <==> SomeSets(p, batchID, c)
  }

  ghost predicate SomeSets(p: Progress, batchID: int, c: nat) {
    exists id :: id in p.temp && id.batchID == batchID && c < |p.temp[id].row| && p.temp[id].row[c].Some?
  }

  ghost predicate Inv(b: Base, p: Progress) {
    b.Valid() && Shaped(b, p) && Located(b, p) && Created(p)
  }

  // A column of a store batch is created filled with its default.
  ghost function StoreRead(b: Base, row: Change): (r: Record)
    requires |row| == |b.defaults|
    ensures |r| == |row| && forall c :: 0 <= c < |r| ==> r[c] == if row[c].Some? then row[c].value else b.defaults[c]
  {
    seq(|row|, c requires 0 <= c < |row| => if row[c].Some? then row[c].value else b.defaults[c])
  }

  ghost function RecordOf(b: Base, p: Progress, k: Key): (r: Record)
    requires Inv(b, p) && k in p.primaryKey
    ensures |r| == |b.columns|
  {
    var id := p.primaryKey[k];
    if InBase(id) then RowAt(p.columns, id.index) else StoreRead(b, p.temp[id].row)
  }

  // The day as a map from primary keys to records.
  ghost function Result(b: Base, p: Progress): (m: Table)
    requires Inv(b, p)
    ensures WideTable(m, |b.columns|) && m.Keys == p.primaryKey.Keys
  {
    map k | k in p.primaryKey :: Mask(RecordOf(b, p, k), b.dropped)
  }

  // ------------------------------------------------------------- four cases

  ghost function AddRecord(b: Base, p: Progress, s: Stored): Progress {
    p.(primaryKey := p.primaryKey[s.key := p.next], temp := p.temp[p.next := s],
       created := p.created + Touched(p.next.batchID, s.row), next := Advance(p.next, b.storeBatchSize))
  }

  ghost function SetRecord(p: Progress, id: RecordID, change: Change): Progress
    requires id in p.temp && |p.temp[id].row| == |change|
  {
    p.(temp := p.temp[id := p.temp[id].(row := SetAll(p.temp[id].row, change))],
       created := p.created + Touched(id.batchID, change))
  }

  // The record an upsert finds, as it is shown.
  ghost function Found(b: Base, p: Progress, k: Key): (r: Record)
    requires Inv(b, p)
    ensures |r| == |b.columns|
  {
    if k in p.primaryKey then Mask(RecordOf(b, p, k), b.dropped) else b.Fresh()
  }

  lemma {:induction false} MaskOverlay(row: Record, cells: Record, dropped: set<nat>)
    requires |row| == |cells| && forall c :: 0 <= c < |cells| && c in dropped ==> cells[c].Null?
    ensures Mask(Overlay(row, cells), dropped) == Overlay(Mask(row, dropped), cells)
  {
  }

  // What the three changes read as.
  lemma {:induction false} ChangeReads(b: Base, row: Record, stored: Change, r: PatchRow)
    requires b.Valid() && b.Fits(r) && |row| == |stored| == |b.columns|
    ensures Mask(StoreRead(b, PatchChange(r.cells)), b.dropped) == Overlay(b.Fresh(), r.cells)
    ensures Mask(StoreRead(b, BaseChange(row, r.cells, b.dropped)), b.dropped) == Overlay(Mask(row, b.dropped), r.cells)
    ensures Mask(StoreRead(b, SetAll(stored, PatchChange(r.cells))), b.dropped) ==
            Overlay(Mask(StoreRead(b, stored), b.dropped), r.cells)
  {
  }

  // The base row a stored record replaces, if it was in the base.
  ghost function DeletedBy(p: Progress, k: Key): seq<nat> {
    if k in p.primaryKey && InBase(p.primaryKey[k]) then [p.primaryKey[k].index] else []
  }

  lemma {:induction false} AddKeepsInv(b: Base, p: Progress, s: Stored)
    requires Inv(b, p) && |s.row| == |b.columns| && !InBase(p.next)
    requires s.key in p.primaryKey ==> InBase(p.primaryKey[s.key])
    ensures Inv(b, AddRecord(b, p, s).(deleted := p.deleted + DeletedBy(p, s.key)))
  {
    AddKeepsIndexed(b, p, s);
    AddKeepsPlaced(b, p, s);
    AddKeepsCreated(b, p, s);
    hide Indexed, Placed, Created;
  }

  lemma {:induction false} AddKeepsCreated(b: Base, p: Progress, s: Stored)
    requires Shaped(b, p) && Created(p)
    ensures Created(AddRecord(b, p, s).(deleted := p.deleted + DeletedBy(p, s.key)))
  {
    var q := AddRecord(b, p, s).(deleted := p.deleted + DeletedBy(p, s.key));
    forall batchID, c: nat ensures Place(batchID, c) in q.created <==> SomeSets(q, batchID, c) {
      assert Place(batchID, c) in p.created <==> SomeSets(p, batchID, c);
      assert p.next !in p.temp;
      if Place(batchID, c) in Touched(p.next.batchID, s.row) {
        assert q.temp[p.next].row[c].Some?;
      } else if SomeSets(p, batchID, c) {
        var id :| id in p.temp && id.batchID == batchID && c < |p.temp[id].row| && p.temp[id].row[c].Some?;
        assert q.temp[id] == p.temp[id];
      }
    }
  }

  lemma {:induction false} SetKeepsCreated(p: Progress, id: RecordID, change: Change)
    requires id in p.temp && |p.temp[id].row| == |change| && Created(p)
    ensures Created(SetRecord(p, id, change))
  {
    var q := SetRecord(p, id, change);
    forall batchID, c: nat ensures Place(batchID, c) in q.created <==> SomeSets(q, batchID, c) {
      assert Place(batchID, c) in p.created <==> SomeSets(p, batchID, c);
      if Place(batchID, c) in Touched(id.batchID, change) {
        assert q.temp[id].row[c].Some?;
      } else if SomeSets(p, batchID, c) {
        var i :| i in p.temp && i.batchID == batchID && c < |p.temp[i].row| && p.temp[i].row[c].Some?;
        assert q.temp[i].row[c].Some?;
      }
    }
  }

  lemma {:induction false} AddKeepsIndexed(b: Base, p: Progress, s: Stored)
    requires Inv(b, p) && !InBase(p.next)
    requires s.key in p.primaryKey ==> InBase(p.primaryKey[s.key])
    ensures Indexed(b, AddRecord(b, p, s).(deleted := p.deleted + DeletedBy(p, s.key)))
  {
  }

  lemma {:induction false} AddKeepsPlaced(b: Base, p: Progress, s: Stored)
    requires Inv(b, p) && !InBase(p.next)
    requires s.key in p.primaryKey ==> InBase(p.primaryKey[s.key])
    requires Indexed(b, AddRecord(b, p, s).(deleted := p.deleted + DeletedBy(p, s.key)))
    ensures Placed(b, AddRecord(b, p, s).(deleted := p.deleted + DeletedBy(p, s.key)))
  {
  }

  // Storing a record leaves the others where they were.
  lemma {:induction false} AddKeepsOthers(b: Base, p: Progress, s: Stored, k: Key)
    requires Inv(b, p) && |s.row| == |b.columns| && !InBase(p.next) && k in p.primaryKey && k != s.key
    requires Inv(b, AddRecord(b, p, s).(deleted := p.deleted + DeletedBy(p, s.key)))
    ensures RecordOf(b, AddRecord(b, p, s).(deleted := p.deleted + DeletedBy(p, s.key)), k) == RecordOf(b, p, k)
  {
    assert !InBase(p.primaryKey[k]) ==> p.primaryKey[k] != p.next;
  }

  // A record goes to the temporary store: a new key, or a base record whose
  // sort columns change, which is deleted from the base.
  lemma {:induction false} StoreRecord(b: Base, p: Progress, r: PatchRow, change: Change)
    requires Inv(b, p) && b.Fits(r) && !InBase(p.next) && |change| == |b.columns|
    requires r.key in p.primaryKey ==> InBase(p.primaryKey[r.key])
    requires change == if r.key in p.primaryKey then BaseChange(RecordOf(b, p, r.key), r.cells, b.dropped)
                       else PatchChange(r.cells)
    ensures var q := AddRecord(b, p, Stored(r.key, change)).(deleted := p.deleted + DeletedBy(p, r.key));
            Inv(b, q) && Result(b, q) == Upsert(b.Fresh(), Result(b, p), r)
  {
    var s := Stored(r.key, change);
    var q := AddRecord(b, p, s).(deleted := p.deleted + DeletedBy(p, r.key));
    AddKeepsInv(b, p, s);
    forall k | k in p.primaryKey && k != r.key ensures RecordOf(b, q, k) == RecordOf(b, p, k) {
      AddKeepsOthers(b, p, s, k);
    }
    hide Located, Created, Mask, Overlay, StoreRead, PatchChange, BaseChange;
    ChangeReads(b, if r.key in p.primaryKey then RecordOf(b, p, r.key) else b.defaults, change, r);
    SameResult(b, p, q, r);
  }

  // A record already in the temporary store.
  lemma {:induction false} UpdateTemp(b: Base, p: Progress, r: PatchRow)
    requires Inv(b, p) && b.Fits(r) && r.key in p.primaryKey && !InBase(p.primaryKey[r.key])
    ensures var q := SetRecord(p, p.primaryKey[r.key], PatchChange(r.cells));
            Inv(b, q) && Result(b, q) == Upsert(b.Fresh(), Result(b, p), r)
  {
    hide Located, Created, Mask, Overlay, StoreRead, PatchChange, SetAll;
    StoredAt(b, p, r.key);
    var id := p.primaryKey[r.key];
    var q := SetRecord(p, id, PatchChange(r.cells));
    SetKeepsInv(b, p, id, PatchChange(r.cells));
    ChangeReads(b, b.defaults, p.temp[id].row, r);
    forall k | k in p.primaryKey && k != r.key ensures RecordOf(b, q, k) == RecordOf(b, p, k) {
      StoredAt(b, p, k);
    }
    SameResult(b, p, q, r);
  }

  lemma {:induction false} SetKeepsInv(b: Base, p: Progress, id: RecordID, change: Change)
    requires Inv(b, p) && id in p.temp && |change| == |b.columns|
    ensures Inv(b, SetRecord(p, id, change))
  {
    SetKeepsCreated(p, id, change);
    hide Created;
  }

  lemma {:induction false} StoredAt(b: Base, p: Progress, k: Key)
    requires Inv(b, p) && k in p.primaryKey
    ensures var id := p.primaryKey[k];
            if InBase(id) then id.index < |b.keys| && b.keys[id.index] == k
            else id in p.temp && p.temp[id].key == k && |p.temp[id].row| == |b.columns|
  {
  }

  // A base record whose sort columns stay is updated in place.
  lemma {:induction false} UpdateBase(b: Base, p: Progress, r: PatchRow, columns: Columns)
    requires Inv(b, p) && b.Fits(r) && r.key in p.primaryKey && InBase(p.primaryKey[r.key])
    requires Shaped(b, p.(columns := columns))
    requires RowAt(columns, p.primaryKey[r.key].index) == Overlay(RowAt(p.columns, p.primaryKey[r.key].index), r.cells)
    requires forall i :: 0 <= i < |b.keys| && i != p.primaryKey[r.key].index ==>
               RowAt(columns, i) == RowAt(p.columns, i)
    ensures var q := p.(columns := columns);
            Inv(b, q) && Result(b, q) == Upsert(b.Fresh(), Result(b, p), r)
  {
    var q := p.(columns := columns);
    MaskOverlay(RowAt(p.columns, p.primaryKey[r.key].index), r.cells, b.dropped);
    SameResult(b, p, q, r);
  }

  // Two progresses that differ in one record, which is the upserted one.
  lemma {:induction false} SameResult(b: Base, p: Progress, q: Progress, r: PatchRow)
    requires Inv(b, p) && Inv(b, q) && b.Fits(r) && q.primaryKey.Keys == p.primaryKey.Keys + {r.key}
    requires Mask(RecordOf(b, q, r.key), b.dropped) == Overlay(Found(b, p, r.key), r.cells)
    requires forall k :: k in p.primaryKey && k != r.key ==> RecordOf(b, q, k) == RecordOf(b, p, k)
    ensures Result(b, q) == Upsert(b.Fresh(), Result(b, p), r)
  {
    hide Located, Created, Mask;
    var m := Upsert(b.Fresh(), Result(b, p), r);
    assert Result(b, q).Keys == m.Keys;
    forall k | k in q.primaryKey ensures Result(b, q)[k] == m[k] {
    }
  }

  // --------------------------------------------------------- in-place writes

  // The unsorted columns after writing the non-null cells of one row.
  ghost function SetCells(columns: Columns, sortColumns: set<nat>, i: nat, cells: Record, n: nat): (r: Columns)
    requires |cells| == |columns| && n <= |columns| && forall c :: 0 <= c < |columns| ==> i < |columns[c]|
    ensures |r| == |columns|
    ensures forall c :: 0 <= c < |columns| ==>
              r[c] == if c < n && c !in sortColumns && cells[c].Valid? then columns[c][i := cells[c]] else columns[c]
  {
    seq(|columns|, c requires 0 <= c < |columns| =>
      if c < n && c !in sortColumns && cells[c].Valid? then columns[c][i := cells[c]] else columns[c])
  }

  lemma {:induction false} SetNoCells(columns: Columns, sortColumns: set<nat>, i: nat, cells: Record)
    requires |cells| == |columns| && forall c :: 0 <= c < |columns| ==> i < |columns[c]|
    ensures SetCells(columns, sortColumns, i, cells, 0) == columns
  {
  }

  lemma {:induction false} SetNextCell(columns: Columns, sortColumns: set<nat>, i: nat, cells: Record, n: nat)
    requires |cells| == |columns| && n < |columns| && forall c :: 0 <= c < |columns| ==> i < |columns[c]|
    ensures var now := SetCells(columns, sortColumns, i, cells, n);
            && |now[n]| == |columns[n]|
            && SetCells(columns, sortColumns, i, cells, n + 1) ==
               if n !in sortColumns && cells[n].Valid? then now[n := now[n][i := cells[n]]] else now
  {
  }

  lemma {:induction false} SetCellsRow(b: Base, columns: Columns, i: nat, cells: Record)
    requires |columns| == |b.columns| == |cells| && i < |b.keys|
             && forall c :: 0 <= c < |columns| ==> |columns[c]| == |b.keys|
    requires forall c :: 0 <= c < |columns| && c in b.sortColumns && cells[c].Valid? ==> cells[c] == columns[c][i]
    ensures var r := SetCells(columns, b.sortColumns, i, cells, |columns|);
            && RowAt(r, i) == Overlay(RowAt(columns, i), cells)
            && forall j :: 0 <= j < |b.keys| && j != i ==> RowAt(r, j) == RowAt(columns, j)
  {
  }

  // ---------------------------------------------------------- moved records

  ghost predicate ChangesSortColumn(b: Base, row: Record, cells: Record)
    requires |row| == |cells|
  {
    exists c :: 0 <= c < |cells| && c in b.sortColumns && cells[c].Valid? && cells[c] != row[c]
  }

  // Some patch row of the key changes a sort column of the record it finds.
  ghost predicate Moves(b: Base, patch: seq<PatchRow>, k: Key)
    requires b.Valid() && AllWide(patch, |b.columns|)
    decreases |patch|
  {
    patch != [] &&
    var init, last := patch[..|patch| - 1], patch[|patch| - 1];
    var m := FoldUpserts(b.Fresh(), BaseTable(b), init);
    Moves(b, init, k) || (last.key == k && k in m && ChangesSortColumn(b, m[k], last.cells))
  }

  // A deleted column has no cells, so reading it as null changes nothing here.
  lemma {:induction false} ChangeSeen(b: Base, row: Record, r: PatchRow)
    requires b.Fits(r) && |row| == |b.columns|
    ensures ChangesSortColumn(b, Mask(row, b.dropped), r.cells) <==> ChangesSortColumn(b, row, r.cells)
  {
    if ChangesSortColumn(b, Mask(row, b.dropped), r.cells) {
      var c :| 0 <= c < |r.cells| && c in b.sortColumns && r.cells[c].Valid? && r.cells[c] != Mask(row, b.dropped)[c];
      assert r.cells[c] != row[c];
    }
    if ChangesSortColumn(b, row, r.cells) {
      var c :| 0 <= c < |r.cells| && c in b.sortColumns && r.cells[c].Valid? && r.cells[c] != row[c];
      assert r.cells[c] != Mask(row, b.dropped)[c];
    }
  }

  // ----------------------------------------------------------- the new batch

  // Pruning makes every column default whose non-default count is zero; writes
  // in place have not changed that count.
  ghost function PrunedColumns(b: Base, columns: Columns): (r: Columns)
    requires |columns| == |b.columns| == |b.defaults|
    ensures |r| == |columns|
    ensures forall c :: 0 <= c < |r| ==>
              r[c] == if c in b.counted then columns[c] else seq(|columns[c]|, _ => b.defaults[c])
  {
    seq(|columns|, c requires 0 <= c < |columns| =>
      if c in b.counted then columns[c] else seq(|columns[c]|, _ => b.defaults[c]))
  }

  ghost function Pruned(b: Base, p: Progress): (q: Progress)
    requires Inv(b, p)
    ensures Inv(b, q)
  {
    var q := p.(columns := PrunedColumns(b, p.columns));
    assert Created(q) by {
      assert forall batchID, c :: SomeSets(q, batchID, c) <==> SomeSets(p, batchID, c);
    }
    q
  }

  // What the merge reads of a stored record: a cell that was never set is the
  // default of its column, but null in a sort column its store batch lacks.
  ghost function MergeRead(b: Base, p: Progress, id: RecordID): (r: Record)
    requires id in p.temp && |p.temp[id].row| == |b.defaults|
    ensures |r| == |b.defaults|
    ensures forall c :: 0 <= c < |r| ==>
              r[c] == var v := p.temp[id].row[c];
                      if v.Some? then v.value
                      else if c in b.sortColumns && Place(id.batchID, c) !in p.created then Null else b.defaults[c]
  {
    seq(|b.defaults|, c requires 0 <= c < |b.defaults| =>
      var v := p.temp[id].row[c];
      if v.Some? then v.value
      else if c in b.sortColumns && Place(id.batchID, c) !in p.created then Null else b.defaults[c])
  }

  ghost function MergeRow(b: Base, p: Progress, k: Key): (r: Record)
    requires Inv(b, p) && k in p.primaryKey
    ensures |r| == |b.columns|
  {
    var id := p.primaryKey[k];
    if InBase(id) then RowAt(p.columns, id.index) else MergeRead(b, p, id)
  }

  // The day as the new batch shows it.
  ghost function Published(b: Base, p: Progress): (m: Table)
    requires Inv(b, p)
    ensures WideTable(m, |b.columns|) && m.Keys == p.primaryKey.Keys
  {
    map k | k in p.primaryKey :: Mask(MergeRow(b, p, k), b.dropped)
  }

  // An update in place of a column that held only defaults.
  ghost predicate UpdateLost(b: Base, fold: Record, moved: bool, k: Key, c: nat)
    requires c < |fold| && |fold| == |b.defaults|
  {
    k in b.keys && !moved && c !in b.dropped && c !in b.counted && fold[c] != b.defaults[c]
  }

  // A sort cell that neither this record nor any other of its store batch sets.
  ghost predicate SortCellNull(b: Base, p: Progress, k: Key, c: nat)
    requires Inv(b, p) && k in p.primaryKey && c < |b.columns|
  {
    var id := p.primaryKey[k];
    !InBase(id) && c in b.sortColumns && c !in b.dropped && !SomeSets(p, id.batchID, c) && b.defaults[c].Valid?
  }

  lemma {:induction false} ResultCell(b: Base, p: Progress, k: Key, c: nat)
    requires Inv(b, p) && k in p.primaryKey && c < |b.columns|
    ensures var id := p.primaryKey[k];
            && (if InBase(id) then id.index < |b.keys| else id in p.temp && |p.temp[id].row| == |b.columns|)
            && |p.columns| == |b.columns| && |p.columns[c]| == |b.keys|
            && Result(b, p)[k][c] ==
               if c in b.dropped then Null
               else if InBase(id) then p.columns[c][id.index]
               else if p.temp[id].row[c].Some? then p.temp[id].row[c].value else b.defaults[c]
  {
    hide Created, Placed;
  }

  lemma {:induction false} PublishedCell(b: Base, p: Progress, k: Key, c: nat)
    requires Inv(b, p) && k in p.primaryKey && c < |b.columns|
    ensures var id := p.primaryKey[k];
            && (if InBase(id) then id.index < |b.keys| else id in p.temp && |p.temp[id].row| == |b.columns|)
            && |p.columns| == |b.columns| && |p.columns[c]| == |b.keys|
            && Published(b, Pruned(b, p))[k][c] ==
               if c in b.dropped then Null
               else if InBase(id) then if c in b.counted then p.columns[c][id.index] else b.defaults[c]
               else if p.temp[id].row[c].Some? then p.temp[id].row[c].value
               else if c in b.sortColumns && Place(id.batchID, c) !in p.created then Null else b.defaults[c]
  {
    hide Created, Placed;
    StoredAt(b, p, k);
    hide Located;
    var q := Pruned(b, p);
    assert q.primaryKey == p.primaryKey && q.temp == p.temp && q.created == p.created;
    assert Published(b, q)[k] == Mask(MergeRow(b, q, k), b.dropped);
  }

  // Exactly these two differ from the upserted record.
  lemma {:induction false} PublishedExact(b: Base, p: Progress, k: Key, c: nat)
    requires Inv(b, p) && k in p.primaryKey && c < |b.columns|
    ensures var lost := UpdateLost(b, Result(b, p)[k], !InBase(p.primaryKey[k]), k, c);
            var shown := Published(b, Pruned(b, p))[k][c];
            && (shown == Result(b, p)[k][c] <==> !lost && !SortCellNull(b, p, k, c))
            && (lost ==> shown == b.defaults[c]) && (SortCellNull(b, p, k, c) ==> shown == Null)
  {
    hide Located, Created, SomeSets, Published, Result, Pruned, Shaped;
    ResultCell(b, p, k, c);
    PublishedCell(b, p, k, c);
    StoredAt(b, p, k);
    if !InBase(p.primaryKey[k]) {
      ColumnCreated(b, p, p.primaryKey[k], c);
    }
  }

  lemma {:induction false} ColumnCreated(b: Base, p: Progress, id: RecordID, c: nat)
    requires Inv(b, p) && id in p.temp && c < |p.temp[id].row|
    ensures Place(id.batchID, c) in p.created <==> SomeSets(p, id.batchID, c)
    ensures p.temp[id].row[c].Some? ==> SomeSets(p, id.batchID, c)
  {
    hide Located, Shaped;
  }

  // Two new keys in a store batch, of a table with an unsorted and a sort
  // column: the first sets the unsorted one to 1.
  ghost function TwoNewKeys(k: Key, l: Key): Progress {
    Progress([[], []], [], map[k := RecordID(-1, 0), l := RecordID(-1, 1)],
             map[RecordID(-1, 0) := Stored(k, [Some(Valid(1)), None]), RecordID(-1, 1) := Stored(l, [None, None])],
             {Place(-1, 0)}, RecordID(-1, 2))
  }

  ghost function EmptyDay(): Base {
    Base(0, [], [[], []], {}, [Valid(7), Valid(9)], {1}, {}, 8)
  }

  lemma {:induction false} TwoNewKeysInv(k: Key, l: Key)
    requires k != l
    ensures Inv(EmptyDay(), TwoNewKeys(k, l))
  {
    var p := TwoNewKeys(k, l);
    forall batchID, c: nat ensures Place(batchID, c) in p.created <==> SomeSets(p, batchID, c) {
      if batchID == -1 && c == 0 {
        assert p.temp[RecordID(-1, 0)].row[c].Some?;
      }
    }
  }

  // The second shows the default of the column that the first sets, and null
  // in the sort column that neither sets.
  lemma {:induction false} DefaultsShown(k: Key, l: Key, c: nat)
    requires k != l && c < 2
    ensures var b, p := EmptyDay(), TwoNewKeys(k, l);
            && Inv(b, p) && l in p.primaryKey && Result(b, p)[l][c] == b.defaults[c]
            && Published(b, Pruned(b, p))[l][c] == if c == 1 then Null else b.defaults[c]
  {
    TwoNewKeysInv(k, l);
    hide Inv, Published, Result, Pruned;
    var b, p := EmptyDay(), TwoNewKeys(k, l);
    assert p.primaryKey[l] == RecordID(-1, 1) && p.temp[RecordID(-1, 1)].row == [None, None];
    ResultCell(b, p, l, c);
    PublishedCell(b, p, l, c);
  }
}
