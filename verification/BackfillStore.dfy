/** In which order records reach the temporary store, and which cells they set. */
module BackfillStore {
  import opened Common
  import opened DataValues
  import opened BackfillSpec

  // The keys whose records go to the temporary store, in the order they do.
  ghost function Entered(b: Base, patch: seq<PatchRow>): seq<Key>
    requires b.Valid() && AllWide(patch, |b.columns|)
    decreases |patch|
  {
    if patch == [] then []
    else
      var init, last := patch[..|patch| - 1], patch[|patch| - 1];
      var ks, m := Entered(b, init), FoldUpserts(b.Fresh(), BaseTable(b), init);
      if last.key !in ks && (last.key !in b.keys || (last.key in m && ChangesSortColumn(b, m[last.key], last.cells)))
      then ks + [last.key] else ks
  }

  // A stored record has the cell set: a moved one has them all.
  ghost predicate SetsCell(b: Base, patch: seq<PatchRow>, k: Key, c: nat)
    requires AllWide(patch, |b.columns|) && c < |b.columns|
  {
    c !in b.dropped && (k in b.keys || exists i :: 0 <= i < |patch| && patch[i].key == k && patch[i].cells[c].Valid?)
  }

  // What one row does to the index and the temporary store.
  ghost function StoreAfter(b: Base, p: Progress, r: PatchRow): Progress
    requires Inv(b, p) && b.Fits(r)
  {
    if r.key !in p.primaryKey then AddRecord(b, p, Stored(r.key, PatchChange(r.cells)))
    else if !InBase(p.primaryKey[r.key]) then SetRecord(p, p.primaryKey[r.key], PatchChange(r.cells))
    else if ChangesSortColumn(b, Mask(RecordOf(b, p, r.key), b.dropped), r.cells) then
      AddRecord(b, p, Stored(r.key, BaseChange(RecordOf(b, p, r.key), r.cells, b.dropped)))
    else p
  }

  // The row makes its key's record go to the temporary store.
  ghost predicate Enters(b: Base, p: Progress, r: PatchRow)
    requires Inv(b, p) && b.Fits(r)
  {
    || r.key !in p.primaryKey
    || (InBase(p.primaryKey[r.key]) && ChangesSortColumn(b, Mask(RecordOf(b, p, r.key), b.dropped), r.cells))
  }

  // The records are numbered in that order, and none is elsewhere.
  ghost predicate Numbered(b: Base, patch: seq<PatchRow>, p: Progress)
    requires b.Valid() && AllWide(patch, |b.columns|)
  {
    var ks := Entered(b, patch);
    && p.next == NthRecord(|ks|, b.storeBatchSize)
    && (forall i :: 0 <= i < |ks| ==> ks[i] in p.primaryKey && p.primaryKey[ks[i]] == NthRecord(i, b.storeBatchSize))
    && (forall k :: k in p.primaryKey && !InBase(p.primaryKey[k]) ==> k in ks)
    && (forall i :: 0 <= i < |ks| ==> !InBase(NthRecord(i, b.storeBatchSize)))
  }

  // And have exactly those cells set.
  ghost predicate SetsThose(b: Base, patch: seq<PatchRow>, p: Progress)
    requires Inv(b, p) && AllWide(patch, |b.columns|)
  {
    forall k, c :: k in p.primaryKey && !InBase(p.primaryKey[k]) && 0 <= c < |b.columns| ==>
      (RowOf(b, p, k)[c].Some? <==> SetsCell(b, patch, k, c))
  }

  ghost function RowOf(b: Base, p: Progress, k: Key): (r: Change)
    requires Inv(b, p) && k in p.primaryKey && !InBase(p.primaryKey[k])
    ensures |r| == |b.columns|
  {
    p.temp[p.primaryKey[k]].row
  }

  lemma {:induction false} WideInit(patch: seq<PatchRow>, i: nat, n: nat)
    requires i < |patch| && AllWide(patch, n)
    ensures AllWide(patch[..i], n) && AllWide(patch[..i + 1], n) && patch[..i + 1][..i] == patch[..i]
            && patch[..i + 1][i] == patch[i]
  {
  }

  // The fold has every key of the base and of the rows.
  lemma {:induction false} FoldHas(b: Base, patch: seq<PatchRow>, k: Key)
    requires b.Valid() && AllWide(patch, |b.columns|)
    requires k in BaseTable(b) || exists i :: 0 <= i < |patch| && patch[i].key == k
    ensures k in FoldUpserts(b.Fresh(), BaseTable(b), patch)
    decreases |patch|
  {
    hide BaseTable;
    if patch != [] && patch[|patch| - 1].key != k {
      var init := patch[..|patch| - 1];
      if k !in BaseTable(b) {
        var i :| 0 <= i < |patch| && patch[i].key == k;
        assert init[i].key == k;
      }
      FoldHas(b, init, k);
    }
  }

  lemma {:induction false} EnteredSnoc(b: Base, patch: seq<PatchRow>, i: nat)
    requires b.Valid() && i < |patch| && AllWide(patch, |b.columns|)
    requires AllWide(patch[..i], |b.columns|) && AllWide(patch[..i + 1], |b.columns|)
    ensures var r, ks, m := patch[i], Entered(b, patch[..i]), FoldUpserts(b.Fresh(), BaseTable(b), patch[..i]);
            Entered(b, patch[..i + 1]) ==
            if r.key !in ks && (r.key !in b.keys || (r.key in m && ChangesSortColumn(b, m[r.key], r.cells)))
            then ks + [r.key] else ks
  {
    hide FoldUpserts, BaseTable, ChangesSortColumn;
    WideInit(patch, i, |b.columns|);
  }

  // Where a key's record is, if it has one.
  lemma {:induction false} KeyPlaced(b: Base, patch: seq<PatchRow>, p: Progress, k: Key)
    requires Inv(b, p) && AllWide(patch, |b.columns|) && Numbered(b, patch, p)
    ensures k !in p.primaryKey ==> k !in b.keys && k !in Entered(b, patch)
    ensures k in p.primaryKey ==> (k in Entered(b, patch) <==> !InBase(p.primaryKey[k]))
    ensures k in p.primaryKey && InBase(p.primaryKey[k]) ==> k in b.keys
  {
    BaseIndexed(b, p);
    if k in p.primaryKey {
      StoredAt(b, p, k);
    }
    hide Inv, Entered;
  }

  lemma {:induction false} EnteredNext(b: Base, patch: seq<PatchRow>, i: nat, p: Progress)
    requires Inv(b, p) && i < |patch| && AllWide(patch, |b.columns|) && b.Fits(patch[i])
    requires AllWide(patch[..i], |b.columns|) && AllWide(patch[..i + 1], |b.columns|)
    requires Result(b, p) == FoldUpserts(b.Fresh(), BaseTable(b), patch[..i]) && Numbered(b, patch[..i], p)
    ensures Entered(b, patch[..i + 1]) ==
            Entered(b, patch[..i]) + (if Enters(b, p, patch[i]) then [patch[i].key] else [])
  {
    hide Located, Created, Shaped, Numbered, Entered, FoldUpserts, BaseTable, ChangesSortColumn, RecordOf, Mask;
    EnteredSnoc(b, patch, i);
    KeyPlaced(b, patch[..i], p, patch[i].key);
    assert patch[i].key in p.primaryKey <==> patch[i].key in Result(b, p);
  }

  lemma {:induction false} BaseIndexed(b: Base, p: Progress)
    requires Inv(b, p)
    ensures forall k :: k in b.keys ==> k in p.primaryKey
  {
    hide Created;
  }

  lemma {:induction false} NumberedNext(b: Base, patch: seq<PatchRow>, i: nat, p: Progress, q: Progress)
    requires Inv(b, p) && i < |patch| && AllWide(patch, |b.columns|) && b.Fits(patch[i]) && !InBase(p.next)
    requires AllWide(patch[..i], |b.columns|) && AllWide(patch[..i + 1], |b.columns|)
    requires Result(b, p) == FoldUpserts(b.Fresh(), BaseTable(b), patch[..i]) && Numbered(b, patch[..i], p)
    requires q == StoreAfter(b, p, patch[i]).(columns := q.columns, deleted := q.deleted)
    ensures Numbered(b, patch[..i + 1], q)
  {
    hide Located, Created, Shaped, Entered, FoldUpserts, BaseTable, Enters, StoreAfter, Result;
    EnteredNext(b, patch, i, p);
    IndexAfter(b, p, patch[i]);
    NumberedEntry(b, patch[..i], p, patch[i]);
    var r, ks, size := patch[i], Entered(b, patch[..i]), b.storeBatchSize;
    var ks' := Entered(b, patch[..i + 1]);
    forall j | 0 <= j < |ks'|
      ensures ks'[j] in q.primaryKey && q.primaryKey[ks'[j]] == NthRecord(j, size) && !InBase(NthRecord(j, size))
    {
    }
  }

  // What the row does to the index.
  lemma {:induction false} IndexAfter(b: Base, p: Progress, r: PatchRow)
    requires Inv(b, p) && b.Fits(r)
    ensures var q := StoreAfter(b, p, r);
            && q.primaryKey == (if Enters(b, p, r) then p.primaryKey[r.key := p.next] else p.primaryKey)
            && q.next == if Enters(b, p, r) then Advance(p.next, b.storeBatchSize) else p.next
  {
    if r.key in p.primaryKey {
      StoredAt(b, p, r.key);
    }
    hide Inv, ChangesSortColumn, RecordOf, BaseChange, PatchChange, Touched;
  }

  // A record entering is not there yet.
  lemma {:induction false} NumberedEntry(b: Base, patch: seq<PatchRow>, p: Progress, r: PatchRow)
    requires Inv(b, p) && AllWide(patch, |b.columns|) && b.Fits(r) && Numbered(b, patch, p)
    ensures Enters(b, p, r) ==> r.key !in Entered(b, patch)
  {
    hide Located, Created, Shaped, Entered, ChangesSortColumn, RecordOf, Numbered;
    KeyPlaced(b, patch, p, r.key);
  }

  lemma {:induction false} SetsNext(b: Base, patch: seq<PatchRow>, i: nat, p: Progress, q: Progress)
    requires Inv(b, p) && Inv(b, q) && i < |patch| && AllWide(patch, |b.columns|) && b.Fits(patch[i]) && !InBase(p.next)
    requires AllWide(patch[..i], |b.columns|) && AllWide(patch[..i + 1], |b.columns|)
    requires Result(b, p) == FoldUpserts(b.Fresh(), BaseTable(b), patch[..i]) && SetsThose(b, patch[..i], p)
    requires q == StoreAfter(b, p, patch[i]).(columns := q.columns, deleted := q.deleted)
    ensures SetsThose(b, patch[..i + 1], q)
  {
    forall k, c | k in q.primaryKey && !InBase(q.primaryKey[k]) && 0 <= c < |b.columns|
      ensures RowOf(b, q, k)[c].Some? <==> SetsCell(b, patch[..i + 1], k, c)
    {
      if k == patch[i].key {
        SetsOwn(b, patch, i, p, q, c);
      } else {
        SetsOther(b, patch, i, p, q, k, c);
      }
    }
  }

  // The cells the rows up to and including row i set.
  lemma {:induction false} SetsCellNext(b: Base, patch: seq<PatchRow>, i: nat, k: Key, c: nat)
    requires i < |patch| && AllWide(patch, |b.columns|) && c < |b.columns| && b.Fits(patch[i])
    requires AllWide(patch[..i], |b.columns|) && AllWide(patch[..i + 1], |b.columns|)
    ensures SetsCell(b, patch[..i + 1], k, c) <==>
            SetsCell(b, patch[..i], k, c) || (patch[i].key == k && patch[i].cells[c].Valid?)
  {
    var init, next := patch[..i], patch[..i + 1];
    assert forall j :: 0 <= j < i ==> init[j] == next[j];
    assert next[i] == patch[i];
    if SetsCell(b, init, k, c) && k !in b.keys {
      var j :| 0 <= j < |init| && init[j].key == k && init[j].cells[c].Valid?;
      assert next[j].key == k && next[j].cells[c].Valid?;
    }
    if SetsCell(b, next, k, c) && k !in b.keys {
      var j :| 0 <= j < |next| && next[j].key == k && next[j].cells[c].Valid?;
      assert j < i ==> init[j].key == k && init[j].cells[c].Valid?;
    }
  }

  lemma {:induction false} SetsOther(b: Base, patch: seq<PatchRow>, i: nat, p: Progress, q: Progress, k: Key, c: nat)
    requires Inv(b, p) && Inv(b, q) && i < |patch| && AllWide(patch, |b.columns|) && b.Fits(patch[i])
    requires AllWide(patch[..i], |b.columns|) && AllWide(patch[..i + 1], |b.columns|) && SetsThose(b, patch[..i], p)
    requires q == StoreAfter(b, p, patch[i]).(columns := q.columns, deleted := q.deleted)
    requires k != patch[i].key && k in q.primaryKey && !InBase(q.primaryKey[k]) && c < |b.columns|
    ensures RowOf(b, q, k)[c].Some? <==> SetsCell(b, patch[..i + 1], k, c)
  {
    SetsCellNext(b, patch, i, k, c);
    OtherKept(b, p, q, patch[i], k);
    hide Inv, StoreAfter, SetsCell;
  }

  // The row touches at most two records of the store.
  lemma {:induction false} TempAfter(b: Base, p: Progress, r: PatchRow, id: RecordID)
    requires Inv(b, p) && b.Fits(r) && id in p.temp && id != p.next
             && (r.key in p.primaryKey ==> id != p.primaryKey[r.key])
    ensures var q := StoreAfter(b, p, r); id in q.temp && q.temp[id] == p.temp[id]
  {
    if r.key in p.primaryKey {
      StoredAt(b, p, r.key);
    }
    hide Inv, ChangesSortColumn, RecordOf, BaseChange, PatchChange, Touched;
  }

  // Another record stays where it is and as it is.
  lemma {:induction false} OtherKept(b: Base, p: Progress, q: Progress, r: PatchRow, k: Key)
    requires Inv(b, p) && Inv(b, q) && b.Fits(r)
    requires q == StoreAfter(b, p, r).(columns := q.columns, deleted := q.deleted)
    requires k != r.key && k in q.primaryKey && !InBase(q.primaryKey[k])
    ensures k in p.primaryKey && p.primaryKey[k] == q.primaryKey[k] && RowOf(b, q, k) == RowOf(b, p, k)
  {
    hide Located, Created, Shaped, StoreAfter, Enters;
    IndexAfter(b, p, r);
    StoredAt(b, p, k);
    StoreFree(b, p);
    if r.key in p.primaryKey {
      StoredAt(b, p, r.key);
    }
    TempAfter(b, p, r, p.primaryKey[k]);
  }

  lemma {:induction false} StoreFree(b: Base, p: Progress)
    requires Inv(b, p)
    ensures p.next !in p.temp
  {
    hide Located, Created;
  }

  lemma {:induction false} SetsOwn(b: Base, patch: seq<PatchRow>, i: nat, p: Progress, q: Progress, c: nat)
    requires Inv(b, p) && Inv(b, q) && i < |patch| && AllWide(patch, |b.columns|) && b.Fits(patch[i]) && !InBase(p.next)
    requires AllWide(patch[..i], |b.columns|) && AllWide(patch[..i + 1], |b.columns|) && SetsThose(b, patch[..i], p)
    requires Result(b, p) == FoldUpserts(b.Fresh(), BaseTable(b), patch[..i])
    requires q == StoreAfter(b, p, patch[i]).(columns := q.columns, deleted := q.deleted)
    requires patch[i].key in q.primaryKey && !InBase(q.primaryKey[patch[i].key]) && c < |b.columns|
    ensures RowOf(b, q, patch[i].key)[c].Some? <==> SetsCell(b, patch[..i + 1], patch[i].key, c)
  {
    hide Inv, SetsCell, FoldUpserts, BaseTable, Result, StoreAfter, RowOf;
    var r := patch[i];
    SetsCellNext(b, patch, i, r.key, c);
    OwnRow(b, p, q, r, c);
    if r.key !in p.primaryKey {
      NotSetBefore(b, patch[..i], p, r.key, c);
    } else if InBase(p.primaryKey[r.key]) {
      MovedSets(b, patch[..i], p, r.key, c);
    }
  }

  lemma {:induction false} MovedSets(b: Base, patch: seq<PatchRow>, p: Progress, k: Key, c: nat)
    requires Inv(b, p) && AllWide(patch, |b.columns|) && c < |b.columns| && k in p.primaryKey && InBase(p.primaryKey[k])
    ensures SetsCell(b, patch, k, c) <==> c !in b.dropped
  {
    StoredAt(b, p, k);
    hide Inv;
  }

  // The cells set in the row's own record.
  lemma {:induction false} OwnRow(b: Base, p: Progress, q: Progress, r: PatchRow, c: nat)
    requires Inv(b, p) && Inv(b, q) && b.Fits(r) && !InBase(p.next) && c < |b.columns|
    requires q == StoreAfter(b, p, r).(columns := q.columns, deleted := q.deleted)
    requires r.key in q.primaryKey && !InBase(q.primaryKey[r.key])
    ensures RowOf(b, q, r.key)[c].Some? <==>
            if r.key !in p.primaryKey then r.cells[c].Valid?
            else if InBase(p.primaryKey[r.key]) then c !in b.dropped
            else RowOf(b, p, r.key)[c].Some? || r.cells[c].Valid?
  {
    if r.key in p.primaryKey {
      StoredAt(b, p, r.key);
    }
    hide Inv, ChangesSortColumn, RecordOf, Touched;
  }

  lemma {:induction false} NotSetBefore(b: Base, patch: seq<PatchRow>, p: Progress, k: Key, c: nat)
    requires Inv(b, p) && AllWide(patch, |b.columns|) && c < |b.columns| && k !in p.primaryKey
    requires Result(b, p) == FoldUpserts(b.Fresh(), BaseTable(b), patch)
    ensures !SetsCell(b, patch, k, c)
  {
    BaseIndexed(b, p);
    forall j | 0 <= j < |patch| ensures patch[j].key != k {
      FoldHas(b, patch, patch[j].key);
      assert patch[j].key in Result(b, p);
    }
  }

  // A column of a store batch, in terms of the rows.
  lemma {:induction false} BatchSets(b: Base, patch: seq<PatchRow>, p: Progress, batchID: int, c: nat)
    requires Inv(b, p) && AllWide(patch, |b.columns|) && Numbered(b, patch, p) && SetsThose(b, patch, p)
             && c < |b.columns|
    ensures SomeSets(p, batchID, c) <==>
            exists j :: 0 <= j < |Entered(b, patch)| && NthRecord(j, b.storeBatchSize).batchID == batchID
                        && SetsCell(b, patch, Entered(b, patch)[j], c)
  {
    var ks := Entered(b, patch);
    if SomeSets(p, batchID, c) {
      var id :| id in p.temp && id.batchID == batchID && c < |p.temp[id].row| && p.temp[id].row[c].Some?;
      var k := StoredKey(b, p, id);
      hide Inv, Entered, SetsCell;
      assert RowOf(b, p, k)[c].Some?;
      var j :| 0 <= j < |ks| && ks[j] == k;
    }
    if j :| 0 <= j < |ks| && NthRecord(j, b.storeBatchSize).batchID == batchID && SetsCell(b, patch, ks[j], c) {
      StoredAt(b, p, ks[j]);
      hide Inv, Entered, SetsCell;
      var id := p.primaryKey[ks[j]];
      assert RowOf(b, p, ks[j])[c].Some?;
      assert id in p.temp && p.temp[id].row[c].Some?;
    }
  }

  lemma {:induction false} StoredKey(b: Base, p: Progress, id: RecordID) returns (k: Key)
    requires Inv(b, p) && id in p.temp
    ensures k in p.primaryKey && p.primaryKey[k] == id && !InBase(id) && p.temp[id].key == k
  {
    hide Created;
    k := p.temp[id].key;
  }

  // Some record of the key's store batch sets the column.
  ghost predicate BatchMateSets(b: Base, patch: seq<PatchRow>, k: Key, c: nat)
    requires b.Valid() && AllWide(patch, |b.columns|) && c < |b.columns|
  {
    var ks := Entered(b, patch);
    exists i, j :: 0 <= i < |ks| && 0 <= j < |ks| && ks[i] == k && SetsCell(b, patch, ks[j], c)
                   && NthRecord(i, b.storeBatchSize).batchID == NthRecord(j, b.storeBatchSize).batchID
  }

  lemma {:induction false} SomeMateSets(b: Base, patch: seq<PatchRow>, p: Progress, k: Key, c: nat)
    requires Inv(b, p) && AllWide(patch, |b.columns|) && Numbered(b, patch, p) && SetsThose(b, patch, p)
             && c < |b.columns|
    requires k in p.primaryKey && !InBase(p.primaryKey[k])
    ensures SomeSets(p, p.primaryKey[k].batchID, c) <==> BatchMateSets(b, patch, k, c)
  {
    hide Located, Created, Shaped, Entered, SomeSets, SetsCell, SetsThose;
    var ks, batchID := Entered(b, patch), p.primaryKey[k].batchID;
    BatchSets(b, patch, p, batchID, c);
    var i :| 0 <= i < |ks| && ks[i] == k;
    if SomeSets(p, batchID, c) {
      var j :| 0 <= j < |ks| && NthRecord(j, b.storeBatchSize).batchID == batchID && SetsCell(b, patch, ks[j], c);
      assert NthRecord(i, b.storeBatchSize).batchID == NthRecord(j, b.storeBatchSize).batchID;
    }
    if BatchMateSets(b, patch, k, c) {
      var h, j :| 0 <= h < |ks| && 0 <= j < |ks| && ks[h] == k && SetsCell(b, patch, ks[j], c)
                  && NthRecord(h, b.storeBatchSize).batchID == NthRecord(j, b.storeBatchSize).batchID;
      assert NthRecord(j, b.storeBatchSize).batchID == batchID;
    }
  }

  // The sort cells that the merge reads as null, in terms of the rows.
  lemma {:induction false} NullSortCells(b: Base, patch: seq<PatchRow>, p: Progress, k: Key, c: nat)
    requires Inv(b, p) && AllWide(patch, |b.columns|) && Numbered(b, patch, p) && SetsThose(b, patch, p)
    requires k in p.primaryKey && c < |b.columns|
    ensures SortCellNull(b, p, k, c) <==>
            && k in Entered(b, patch) && c in b.sortColumns && c !in b.dropped && b.defaults[c].Valid?
            && !BatchMateSets(b, patch, k, c)
  {
    hide Located, Created, Shaped, Entered, SomeSets, SetsThose, BatchMateSets, Numbered;
    KeyPlaced(b, patch, p, k);
    if !InBase(p.primaryKey[k]) {
      SomeMateSets(b, patch, p, k, c);
    }
  }
}
