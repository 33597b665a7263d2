/** The shard's backfill step is what backfilling a day's columns publishes. */
module BackfillRefinement {
  import opened Common
  import opened DataValues
  import opened CuckooTable
  import opened Upserts
  import B = BackfillSpec
  import BackfillStore
  import BackfillMerge
  import Backfill
  import S = ShardSteps
  import Pruning

  // The rows of the patch are the upserts, a null for every cell not written.
  ghost predicate SameRow(u: Upsert, r: B.PatchRow, n: nat) {
    && r.key == u.key && |r.cells| == n
    && (forall c :: 0 <= c < n ==> r.cells[c] == if c in u.cells then Valid(u.cells[c]) else Null)
    && (forall c :: c in u.cells ==> c < n)
  }

  ghost predicate SameRows(us: seq<Upsert>, patch: seq<B.PatchRow>, n: nat) {
    |us| == |patch| && forall i :: 0 <= i < |us| ==> SameRow(us[i], patch[i], n)
  }

  // What an archived day is to the shard.
  datatype Day = Day(schema: S.Schema, nulls: set<S.KeyColumn>, counted: set<S.DayColumn>, m: Records, day: nat) {
    // The batch holds the archived records of its day, and the schemas agree.
    ghost predicate Same(b: B.Base) {
      && b.Valid() && b.dropped == {} && b.storeBatchSize == schema.storeBatchSize && Pruning.SortOnly(schema, nulls)
      && (forall c :: 0 <= c < |b.columns| ==>
            && b.defaults[c] == schema.Default(c)
            && (c in b.sortColumns <==> c in schema.sortColumns)
            && (c !in b.sortColumns ==> (c in b.counted <==> S.DayColumn(day, c) in counted)))
      && (forall k :: k in b.keys <==> k in m && schema.DayOf(k) == day)
      && (forall z :: z in nulls ==> z.key in m)
      && SameTable(m, B.BaseTable(b), |b.columns|)
    }

    ghost predicate SameTable(now: Records, t: B.Table, n: nat) {
      && (forall k :: k in t <==> k in now && schema.DayOf(k) == day)
      && (forall k, c :: k in t && 0 <= c < n ==> |t[k]| == n && t[k][c] == S.ReadCell(schema, nulls, now, k, c))
    }

    ghost predicate Rows(us: seq<Upsert>, patch: seq<B.PatchRow>, n: nat) {
      SameRows(us, patch, n) && forall i :: 0 <= i < |us| ==> schema.DayOf(us[i].key) == day
    }
  }

  lemma {:induction false} DayFacts(d: Day, b: B.Base)
    requires d.Same(b)
    ensures b.Valid() && b.dropped == {} && |b.Fresh()| == |b.columns| && b.storeBatchSize == d.schema.storeBatchSize
    ensures Pruning.SortOnly(d.schema, d.nulls) && forall z :: z in d.nulls ==> z.key in d.m
    ensures forall c :: 0 <= c < |b.columns| ==>
              && b.defaults[c] == d.schema.Default(c) && b.Fresh()[c] == d.schema.Default(c)
              && (c in b.sortColumns <==> c in d.schema.sortColumns)
              && (c !in b.sortColumns ==> (c in b.counted <==> S.DayColumn(d.day, c) in d.counted))
    ensures forall k :: k in b.keys <==> k in d.m && d.schema.DayOf(k) == d.day
  {
    hide B.BaseTable, Day.SameTable;
  }

  lemma {:induction false} RowsInit(d: Day, us: seq<Upsert>, patch: seq<B.PatchRow>, n: nat)
    requires d.Rows(us, patch, n)
    ensures B.AllWide(patch, n)
    ensures us != [] ==> d.Rows(us[..|us| - 1], patch[..|patch| - 1], n) && SameRow(us[|us| - 1], patch[|patch| - 1], n)
    ensures us != [] ==> d.schema.DayOf(us[|us| - 1].key) == d.day && B.AllWide(patch[..|patch| - 1], n)
  {
  }

  // ------------------------------------------------------ the folds agree

  // A new key starts at the defaults on both sides.
  lemma {:induction false} UpsertMatches(d: Day, now: Records, t: B.Table, start: B.Record, u: Upsert, r: B.PatchRow)
    requires d.SameTable(now, t, |start|) && SameRow(u, r, |start|) && d.schema.DayOf(u.key) == d.day
    requires B.WideTable(t, |start|) && (forall c :: 0 <= c < |start| ==> start[c] == d.schema.Default(c))
    requires forall z :: z in d.nulls ==> z.key in now
    ensures d.SameTable(Put(now, u), B.Upsert(start, t, r), |start|)
  {
    var now', t' := Put(now, u), B.Upsert(start, t, r);
    forall k, c | k in t' && 0 <= c < |start| ensures t'[k][c] == S.ReadCell(d.schema, d.nulls, now', k, c) {
      if k in t {
        assert t[k][c] == S.ReadCell(d.schema, d.nulls, now, k, c);
      }
    }
  }

  lemma {:induction false} StillArchived(m: Records, us: seq<Upsert>, k: Key)
    requires k in m
    ensures k in Apply(m, us)
  {
    ApplyGet(m, us, k);
  }

  lemma {:induction false} FoldMatches(d: Day, b: B.Base, us: seq<Upsert>, patch: seq<B.PatchRow>)
    requires d.Same(b) && d.Rows(us, patch, |b.columns|) && B.AllWide(patch, |b.columns|)
    ensures |b.Fresh()| == |b.columns|
    ensures d.SameTable(Apply(d.m, us), B.FoldUpserts(b.Fresh(), B.BaseTable(b), patch), |b.columns|)
    decreases |us|
  {
    DayFacts(d, b);
    if us != [] {
      var init, rows := us[..|us| - 1], patch[..|patch| - 1];
      RowsInit(d, us, patch, |b.columns|);
      FoldMatches(d, b, init, rows);
      forall z | z in d.nulls ensures z.key in Apply(d.m, init) {
        StillArchived(d.m, init, z.key);
      }
      hide Day.SameTable, Day.Same, Day.Rows, B.BaseTable, B.Upsert, SameRow;
      UpsertMatches(d, Apply(d.m, init), B.FoldUpserts(b.Fresh(), B.BaseTable(b), rows), b.Fresh(), us[|us| - 1],
                    patch[|patch| - 1]);
    }
  }

  // A patch row changes a sort column when its upsert does.
  lemma {:induction false} ChangeMatches(d: Day, now: Records, t: B.Table, b: B.Base, u: Upsert, r: B.PatchRow)
    requires d.SameTable(now, t, |b.columns|) && SameRow(u, r, |b.columns|) && u.key in t
    requires forall c :: 0 <= c < |b.columns| ==> (c in b.sortColumns <==> c in d.schema.sortColumns)
    requires |t[u.key]| == |r.cells|
    ensures B.ChangesSortColumn(b, t[u.key], r.cells) <==> S.ChangesSortColumn(d.schema, d.nulls, now, u)
  {
    if B.ChangesSortColumn(b, t[u.key], r.cells) {
      var c :| 0 <= c < |r.cells| && c in b.sortColumns && r.cells[c].Valid? && r.cells[c] != t[u.key][c];
      assert c in u.cells && Valid(u.cells[c]) != S.ReadCell(d.schema, d.nulls, now, u.key, c);
    }
    if S.ChangesSortColumn(d.schema, d.nulls, now, u) {
      var c :| c in u.cells && c in d.schema.sortColumns
          && Valid(u.cells[c]) != S.ReadCell(d.schema, d.nulls, now, u.key, c);
      assert r.cells[c] != t[u.key][c];
    }
  }

  // The last row changes a sort column of an archived record on both sides, or on none.
  lemma {:induction false} LastChange(d: Day, b: B.Base, us: seq<Upsert>, patch: seq<B.PatchRow>)
    requires d.Same(b) && d.Rows(us, patch, |b.columns|) && us != [] && us[|us| - 1].key in b.keys
    requires B.AllWide(patch, |b.columns|) && B.AllWide(patch[..|patch| - 1], |b.columns|) && |b.Fresh()| == |b.columns|
    ensures var u, r, t := us[|us| - 1], patch[|patch| - 1],
              B.FoldUpserts(b.Fresh(), B.BaseTable(b), patch[..|patch| - 1]);
            && r.key == u.key && u.key in t
            && (B.ChangesSortColumn(b, t[u.key], r.cells) <==>
                  S.ChangesSortColumn(d.schema, d.nulls, Apply(d.m, us[..|us| - 1]), u))
  {
    var n := |us| - 1;
    RowsInit(d, us, patch, |b.columns|);
    DayFacts(d, b);
    FoldMatches(d, b, us[..n], patch[..n]);
    StillArchived(d.m, us[..n], us[n].key);
    var t := B.FoldUpserts(b.Fresh(), B.BaseTable(b), patch[..n]);
    assert us[n].key in t;
    hide B.FoldUpserts, B.BaseTable, Apply;
    ChangeMatches(d, Apply(d.m, us[..n]), t, b, us[n], patch[n]);
  }

  // The same archived records move.
  lemma {:induction false} MovesMatch(d: Day, b: B.Base, us: seq<Upsert>, patch: seq<B.PatchRow>, k: Key)
    requires d.Same(b) && d.Rows(us, patch, |b.columns|) && B.AllWide(patch, |b.columns|) && k in b.keys
    ensures B.Moves(b, patch, k) <==> S.Moved(d.schema, d.nulls, d.m, us, k)
    decreases |us|
  {
    if us != [] {
      DayFacts(d, b);
      RowsInit(d, us, patch, |b.columns|);
      MovesMatch(d, b, us[..|us| - 1], patch[..|patch| - 1], k);
      hide B.FoldUpserts, B.BaseTable, Apply, Day.Same, Day.Rows, B.ChangesSortColumn, S.ChangesSortColumn;
      if us[|us| - 1].key == k {
        LastChange(d, b, us, patch);
      }
    }
  }

  // ------------------------------------------------ the stores agree

  // Records reach the temporary store in the same order.
  lemma {:induction false} EnteredMatch(d: Day, b: B.Base, us: seq<Upsert>, patch: seq<B.PatchRow>)
    requires d.Same(b) && d.Rows(us, patch, |b.columns|) && B.AllWide(patch, |b.columns|)
    ensures b.Valid() && BackfillStore.Entered(b, patch) == S.Entered(d.schema, d.nulls, d.m, us)
    decreases |us|
  {
    DayFacts(d, b);
    if us != [] {
      RowsInit(d, us, patch, |b.columns|);
      EnteredMatch(d, b, us[..|us| - 1], patch[..|patch| - 1]);
      hide B.FoldUpserts, B.BaseTable, Apply, Day.Same, Day.Rows, B.ChangesSortColumn, S.ChangesSortColumn;
      if us[|us| - 1].key in b.keys {
        LastChange(d, b, us, patch);
      }
    }
  }

  lemma {:induction false} WritesRow(us: seq<Upsert>, k: Key, c: nat)
    ensures S.Writes(us, k, c) <==> exists i :: 0 <= i < |us| && us[i].key == k && c in us[i].cells
    ensures k in Fold(us) <==> exists i :: 0 <= i < |us| && us[i].key == k
    decreases |us|
  {
    if us != [] {
      var init, u := us[..|us| - 1], us[|us| - 1];
      WritesRow(init, k, c);
      FoldConcat(init, [u], k);
      OneGet(u, k);
      assert us == init + [u];
      hide Fold;
      assert forall i :: 0 <= i < |init| ==> init[i] == us[i];
      assert us[|us| - 1] == u;
    }
  }

  // A stored record has the same cells set.
  lemma {:induction false} SetsMatch(d: Day, b: B.Base, us: seq<Upsert>, patch: seq<B.PatchRow>, k: Key, c: nat)
    requires d.Same(b) && d.Rows(us, patch, |b.columns|) && B.AllWide(patch, |b.columns|) && c < |b.columns|
    requires d.schema.DayOf(k) == d.day
    ensures BackfillStore.SetsCell(b, patch, k, c) <==> k in d.m || S.Writes(us, k, c)
  {
    DayFacts(d, b);
    WritesRow(us, k, c);
    hide S.Writes, B.BaseTable, Day.Same;
    if i :| 0 <= i < |us| && us[i].key == k && c in us[i].cells {
      assert SameRow(us[i], patch[i], |b.columns|);
    }
    if i :| 0 <= i < |patch| && patch[i].key == k && patch[i].cells[c].Valid? {
      assert SameRow(us[i], patch[i], |b.columns|);
    }
  }

  lemma {:induction false} EnteredFrom(schema: S.Schema, nulls: set<S.KeyColumn>, m: Records, us: seq<Upsert>, i: nat)
    requires i < |S.Entered(schema, nulls, m, us)|
    ensures exists j :: 0 <= j < |us| && us[j].key == S.Entered(schema, nulls, m, us)[i]
    decreases |us|
  {
    var init := us[..|us| - 1];
    if i < |S.Entered(schema, nulls, m, init)| {
      EnteredFrom(schema, nulls, m, init, i);
      var j :| 0 <= j < |init| && init[j].key == S.Entered(schema, nulls, m, init)[i];
      assert us[j] == init[j];
    }
  }

  // A new key always enters.
  lemma {:induction false} NewEnters(schema: S.Schema, nulls: set<S.KeyColumn>, m: Records, us: seq<Upsert>, k: Key)
    requires k !in m
    ensures k in S.Entered(schema, nulls, m, us) <==> exists i :: 0 <= i < |us| && us[i].key == k
    decreases |us|
  {
    if us != [] {
      var init, u := us[..|us| - 1], us[|us| - 1];
      NewEnters(schema, nulls, m, init, k);
      hide Apply, S.ChangesSortColumn;
      if i :| 0 <= i < |us| && us[i].key == k {
        assert i < |init| ==> init[i].key == k;
      }
      if i :| 0 <= i < |init| && init[i].key == k {
        assert us[i].key == k;
      }
    }
  }

  lemma {:induction false} MateSets(d: Day, b: B.Base, us: seq<Upsert>, patch: seq<B.PatchRow>, j: nat, c: nat)
    requires d.Same(b) && d.Rows(us, patch, |b.columns|) && B.AllWide(patch, |b.columns|) && c < |b.columns|
    requires j < |S.Entered(d.schema, d.nulls, d.m, us)|
    ensures var k := S.Entered(d.schema, d.nulls, d.m, us)[j];
            BackfillStore.SetsCell(b, patch, k, c) <==> k in d.m || S.Writes(us, k, c)
  {
    hide Day.Same, S.Entered, S.Writes, BackfillStore.SetsCell, SameRows;
    EnteredFrom(d.schema, d.nulls, d.m, us, j);
    SetsMatch(d, b, us, patch, S.Entered(d.schema, d.nulls, d.m, us)[j], c);
  }

  lemma {:induction false} MatesMatch(d: Day, b: B.Base, us: seq<Upsert>, patch: seq<B.PatchRow>, k: Key, c: nat)
    requires d.Same(b) && d.Rows(us, patch, |b.columns|) && B.AllWide(patch, |b.columns|) && c < |b.columns|
             && b.Valid()
    ensures BackfillStore.BatchMateSets(b, patch, k, c) <==> S.StoreSets(d.schema, d.nulls, d.m, us, k, c)
  {
    hide Day.Same, Day.Rows, S.Entered, BackfillStore.Entered, S.Writes, BackfillStore.SetsCell, NthRecord, B.AllWide;
    DayFacts(d, b);
    EnteredMatch(d, b, us, patch);
    var ks := S.Entered(d.schema, d.nulls, d.m, us);
    forall j | 0 <= j < |ks| ensures BackfillStore.SetsCell(b, patch, ks[j], c) <==>
             ks[j] in d.m || S.Writes(us, ks[j], c) {
      MateSets(d, b, us, patch, j, c);
    }
    if BackfillStore.BatchMateSets(b, patch, k, c) {
      var i, j :| 0 <= i < |ks| && 0 <= j < |ks| && ks[i] == k && BackfillStore.SetsCell(b, patch, ks[j], c)
                  && NthRecord(i, b.storeBatchSize).batchID == NthRecord(j, b.storeBatchSize).batchID;
      assert S.SameBatch(d.schema, i, j);
    }
    if S.StoreSets(d.schema, d.nulls, d.m, us, k, c) {
      var i, j :| 0 <= i < |ks| && 0 <= j < |ks| && ks[i] == k && S.SameBatch(d.schema, i, j)
          && (ks[j] in d.m || S.Writes(us, ks[j], c));
      assert NthRecord(i, b.storeBatchSize).batchID == NthRecord(j, b.storeBatchSize).batchID;
    }
  }

  // A moved record sets every column, so its batch has them all.
  lemma {:induction false} MovedMates(b: B.Base, patch: seq<B.PatchRow>, k: Key, c: nat)
    requires b.Valid() && B.AllWide(patch, |b.columns|) && c < |b.columns| && c !in b.dropped
    requires k in BackfillStore.Entered(b, patch) && k in b.keys
    ensures BackfillStore.BatchMateSets(b, patch, k, c)
  {
    hide BackfillStore.Entered, NthRecord;
    var ks := BackfillStore.Entered(b, patch);
    var i :| 0 <= i < |ks| && ks[i] == k;
    assert BackfillStore.SetsCell(b, patch, ks[i], c);
  }

  // The merge reads a null exactly where the step stores one.
  lemma {:induction false} NullMatches(d: Day, b: B.Base, us: seq<Upsert>, patch: seq<B.PatchRow>, p: B.Progress,
      k: Key, c: nat)
    requires d.Same(b) && d.Rows(us, patch, |b.columns|) && B.Inv(b, p) && B.AllWide(patch, |b.columns|)
    requires BackfillStore.Numbered(b, patch, p) && BackfillStore.SetsThose(b, patch, p)
    requires d.schema.DayOf(k) == d.day && k in p.primaryKey && c < |b.columns|
    ensures B.SortCellNull(b, p, k, c) <==> S.StoresNull(d.schema, d.nulls, d.m, us, k, c)
  {
    hide B.Located, B.Created, B.Shaped, Day.Same, Day.Rows, BackfillStore.Numbered, BackfillStore.SetsThose,
         S.StoreSets, BackfillStore.BatchMateSets, B.SortCellNull, S.Entered, BackfillStore.Entered, S.Writes, Fold;
    DayFacts(d, b);
    BackfillStore.NullSortCells(b, patch, p, k, c);
    EnteredMatch(d, b, us, patch);
    MatesMatch(d, b, us, patch, k, c);
    WritesRow(us, k, c);
    if k in d.m {
      if k in BackfillStore.Entered(b, patch) {
        MovedMates(b, patch, k, c);
      }
    } else {
      NewEnters(d.schema, d.nulls, d.m, us, k);
      if k in S.Entered(d.schema, d.nulls, d.m, us) && S.Writes(us, k, c) {
        WriterSets(d.schema, d.nulls, d.m, us, k, c);
      }
    }
  }

  lemma {:induction false} WriterSets(schema: S.Schema, nulls: set<S.KeyColumn>, m: Records, us: seq<Upsert>, k: Key,
      c: nat)
    requires k in S.Entered(schema, nulls, m, us) && S.Writes(us, k, c)
    ensures S.StoreSets(schema, nulls, m, us, k, c)
  {
    hide S.Entered, NthRecord, S.Writes;
    var ks := S.Entered(schema, nulls, m, us);
    var i :| 0 <= i < |ks| && ks[i] == k;
    assert S.SameBatch(schema, i, i) && S.Writes(us, ks[i], c);
  }

  // ---------------------------------------------- the published cells agree

  // A record that does not move keeps its sort cells.
  lemma {:induction false} UnmovedSortCell(schema: S.Schema, nulls: set<S.KeyColumn>, m: Records, us: seq<Upsert>,
      k: Key, c: nat)
    requires k in m && !S.Moved(schema, nulls, m, us, k) && c in schema.sortColumns
    ensures S.ReadCell(schema, nulls, Apply(m, us), k, c) == S.ReadCell(schema, nulls, m, k, c)
    decreases |us|
  {
    if us != [] {
      UnmovedSortCell(schema, nulls, m, us[..|us| - 1], k, c);
    }
  }

  // A cell of a column that is not counted holds the default.
  lemma {:induction false} DroppedIsDefault(d: Day, b: B.Base, k: Key, c: nat)
    requires d.Same(b) && k in b.keys && c < |b.columns|
    ensures c !in b.counted ==> S.ReadCell(d.schema, d.nulls, d.m, k, c) == d.schema.Default(c)
  {
    var i :| 0 <= i < |b.keys| && b.keys[i] == k;
    Backfill.BaseTableAt(b, i);
    assert B.BaseTable(b)[k][c] == S.ReadCell(d.schema, d.nulls, d.m, k, c);
  }

  lemma {:induction false} PublishedKeys(b: B.Base, patch: seq<B.PatchRow>, p: B.Progress)
    requires B.Inv(b, p) && B.AllWide(patch, |b.columns|) && |b.Fresh()| == |b.columns|
             && Backfill.PublishesFold(b, patch, p)
    ensures B.Published(b, p).Keys == B.FoldUpserts(b.Fresh(), B.BaseTable(b), patch).Keys == p.primaryKey.Keys
  {
    hide B.Inv, B.FoldUpserts, B.BaseTable, B.Moves, B.SortCellNull, B.Published;
  }

  lemma {:induction false} PublishedAt(b: B.Base, patch: seq<B.PatchRow>, p: B.Progress, k: Key, c: nat)
    requires B.Inv(b, p) && B.AllWide(patch, |b.columns|) && |b.Fresh()| == |b.columns|
             && Backfill.PublishesFold(b, patch, p)
    requires k in B.FoldUpserts(b.Fresh(), B.BaseTable(b), patch) && c < |b.columns|
    ensures k in B.Published(b, p)
    ensures var fold, shown := B.FoldUpserts(b.Fresh(), B.BaseTable(b), patch)[k], B.Published(b, p)[k];
            && |fold| == |shown| == |b.columns|
            && var lost := B.UpdateLost(b, fold, B.Moves(b, patch, k), k, c);
               && (shown[c] == fold[c] <==> !lost && !B.SortCellNull(b, p, k, c))
               && (lost ==> shown[c] == b.defaults[c]) && (B.SortCellNull(b, p, k, c) ==> shown[c] == Null)
  {
    hide B.Inv, B.FoldUpserts, B.BaseTable, B.Moves, B.SortCellNull, B.Published;
  }

  // What backfilling the batch publishes reads, cell by cell, as the archive of
  // the shard's step.
  lemma {:induction false} PublishesStep(d: Day, b: B.Base, us: seq<Upsert>, patch: seq<B.PatchRow>, p: B.Progress,
      k: Key, c: nat)
    requires d.Same(b) && d.Rows(us, patch, |b.columns|)
    requires B.Inv(b, p) && B.AllWide(patch, |b.columns|) && Backfill.PublishesFold(b, patch, p)
    requires BackfillStore.Numbered(b, patch, p) && BackfillStore.SetsThose(b, patch, p)
    requires d.schema.DayOf(k) == d.day && c < |b.columns|
    ensures k in B.Published(b, p) <==> k in S.Publish(d.schema, d.nulls, d.counted, d.m, us)
    ensures k in B.Published(b, p) ==>
              B.Published(b, p)[k][c] ==
              S.ReadCell(d.schema, S.NullsAfter(d.schema, d.nulls, d.m, us),
                         S.Publish(d.schema, d.nulls, d.counted, d.m, us), k, c)
  {
    hide B.Located, B.Created, B.Shaped, B.Published, B.SortCellNull, B.FoldUpserts, B.BaseTable, B.Moves,
         Backfill.PublishesFold, Day.Same, Day.Rows, Apply, S.Publish, S.Moved, Fold, S.StoresNull, S.NullsAfter,
         BackfillStore.Numbered, BackfillStore.SetsThose, S.Writes;
    DayFacts(d, b);
    FoldMatches(d, b, us, patch);
    PublishedKeys(b, patch, p);
    var fold := B.FoldUpserts(b.Fresh(), B.BaseTable(b), patch);
    if k in fold {
      PublishedAt(b, patch, p, k, c);
      NullMatches(d, b, us, patch, p, k, c);
      Pruning.PublishCell(d.schema, d.nulls, d.counted, d.m, us, k, c);
      Pruning.ApplyCell(d.schema, d.nulls, d.m, us, k, c);
      if k in b.keys {
        MovesMatch(d, b, us, patch, k);
        DroppedIsDefault(d, b, k, c);
        NotStoredNull(d.schema, d.nulls, d.m, us, k, c);
        if c in d.schema.sortColumns && !S.Moved(d.schema, d.nulls, d.m, us, k) {
          UnmovedSortCell(d.schema, d.nulls, d.m, us, k, c);
        }
      } else {
        NewCell(d, us, k, c);
      }
    }
  }

  lemma {:induction false} NotStoredNull(schema: S.Schema, nulls: set<S.KeyColumn>, m: Records, us: seq<Upsert>, k: Key,
      c: nat)
    requires k in m
    ensures !S.StoresNull(schema, nulls, m, us, k, c)
  {
  }

  lemma {:induction false} NewCell(d: Day, us: seq<Upsert>, k: Key, c: nat)
    requires k !in d.m && (forall z :: z in d.nulls ==> z.key in d.m)
    ensures S.KeyColumn(k, c) in S.NullsAfter(d.schema, d.nulls, d.m, us) <==>
              S.StoresNull(d.schema, d.nulls, d.m, us, k, c)
    ensures S.StoresNull(d.schema, d.nulls, d.m, us, k, c) ==> !S.Writes(us, k, c)
    ensures S.ReadCell(d.schema, d.nulls, d.m, k, c) == d.schema.Default(c)
  {
    hide S.StoreSets, Fold;
    assert S.KeyColumn(k, c) !in d.nulls;
  }

  // ------------------------------------------------------ the counts agree

  // The merge runs exactly when some row is not written in place.
  lemma {:induction false} MergesMatch(schema: S.Schema, nulls: set<S.KeyColumn>, m: Records, us: seq<Upsert>)
    ensures S.Merges(schema, nulls, m, us) <==> S.Entered(schema, nulls, m, us) != []
  {
    var ks := S.Entered(schema, nulls, m, us);
    if ks != [] {
      EnteredFrom(schema, nulls, m, us, 0);
      var j :| 0 <= j < |us| && us[j].key == ks[0];
      EntersOrStays(schema, nulls, m, us, us[j].key);
      assert ks[0] in ks;
    }
    if i :| 0 <= i < |us| && !S.InPlace(schema, nulls, m, us, us[i].key) {
      EntersOrStays(schema, nulls, m, us, us[i].key);
    }
  }

  lemma {:induction false} EntersOrStays(schema: S.Schema, nulls: set<S.KeyColumn>, m: Records, us: seq<Upsert>, k: Key)
    requires exists i :: 0 <= i < |us| && us[i].key == k
    ensures k in S.Entered(schema, nulls, m, us) <==> !S.InPlace(schema, nulls, m, us, k)
  {
    if k in m {
      MovedEnters(schema, nulls, m, us, k);
    } else {
      NewEnters(schema, nulls, m, us, k);
    }
  }

  lemma {:induction false} MovedEnters(schema: S.Schema, nulls: set<S.KeyColumn>, m: Records, us: seq<Upsert>, k: Key)
    requires k in m
    ensures k in S.Entered(schema, nulls, m, us) <==> S.Moved(schema, nulls, m, us, k)
    decreases |us|
  {
    if us != [] {
      MovedEnters(schema, nulls, m, us[..|us| - 1], k);
      hide Apply, S.ChangesSortColumn;
    }
  }

  // An unsorted column of the published day holds another value than the default
  // exactly when the step counts it anew.
  lemma {:induction false} RecountMatches(d: Day, b: B.Base, us: seq<Upsert>, patch: seq<B.PatchRow>, p: B.Progress,
      c: nat)
    requires d.Same(b) && d.Rows(us, patch, |b.columns|)
    requires B.Inv(b, p) && B.AllWide(patch, |b.columns|) && Backfill.PublishesFold(b, patch, p)
    requires BackfillStore.Numbered(b, patch, p) && BackfillStore.SetsThose(b, patch, p)
    requires c < |b.columns| && c !in d.schema.sortColumns
    ensures BackfillMerge.HoldsOther(b, p, c, d.schema.Default(c)) <==>
            S.DayColumn(d.day, c) in S.Recount(d.schema, d.counted, S.Publish(d.schema, d.nulls, d.counted, d.m, us),
                                               {d.day})
  {
    hide B.Located, B.Created, B.Shaped, Backfill.PublishesFold, Day.Same, Day.Rows, S.Publish, S.NullsAfter,
         B.MergeRow,
         BackfillStore.Numbered, BackfillStore.SetsThose, B.FoldUpserts, B.BaseTable, B.Published, S.NonDefault;
    DayFacts(d, b);
    FoldMatches(d, b, us, patch);
    PublishedKeys(b, patch, p);
    var now := S.Publish(d.schema, d.nulls, d.counted, d.m, us);
    if BackfillMerge.HoldsOther(b, p, c, d.schema.Default(c)) {
      var k :| k in p.primaryKey && B.MergeRow(b, p, k)[c] != d.schema.Default(c);
      PublishedCell(b, p, k, c);
      PublishesStep(d, b, us, patch, p, k, c);
      UnsortedCell(d, us, now, k, c);
    }
    if S.DayColumn(d.day, c) in S.NonDefault(d.schema, now) {
      var k := Pruning.NonDefaultKey(d.schema, now, d.day, c);
      PublishesStep(d, b, us, patch, p, k, c);
      PublishedCell(b, p, k, c);
      UnsortedCell(d, us, now, k, c);
    }
  }

  lemma {:induction false} PublishedCell(b: B.Base, p: B.Progress, k: Key, c: nat)
    requires B.Inv(b, p) && b.dropped == {} && k in p.primaryKey && c < |b.columns|
    ensures k in B.Published(b, p) && B.Published(b, p)[k][c] == B.MergeRow(b, p, k)[c]
  {
    hide B.Located, B.Created, B.Shaped, B.MergeRow;
  }

  // Nulls are stored in sort columns only.
  lemma {:induction false} UnsortedCell(d: Day, us: seq<Upsert>, now: Records, k: Key, c: nat)
    requires Pruning.SortOnly(d.schema, d.nulls) && c !in d.schema.sortColumns && k in now
    ensures S.ReadCell(d.schema, S.NullsAfter(d.schema, d.nulls, d.m, us), now, k, c) ==
            if c in now[k] then Valid(now[k][c]) else d.schema.Default(c)
    ensures S.ReadCell(d.schema, S.NullsAfter(d.schema, d.nulls, d.m, us), now, k, c) != d.schema.Default(c) ==>
              S.DayColumn(d.schema.DayOf(k), c) in S.NonDefault(d.schema, now)
  {
    hide S.StoreSets, Fold;
    assert S.KeyColumn(k, c) !in S.NullsAfter(d.schema, d.nulls, d.m, us);
  }
}
