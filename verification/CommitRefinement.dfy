/** The shard's commit step is what merging the stable records into a day gives. */
module CommitRefinement {
  import opened Common
  import opened DataValues
  import opened CuckooTable
  import opened Upserts
  import opened Lifecycle
  import opened Rows
  import opened DefaultCounts
  import opened VectorParties
  import opened MergeSpec
  import opened MergeOutput
  import opened Merge
  import opened RowLayouts
  import opened ShardSteps
  import Pruning

  // An archived record, by column.
  ghost function ArchivedRecord(schema: Schema, x: Shard, k: Key, n: nat): (r: Record)
    ensures |r| == n && forall c :: 0 <= c < n ==> r[c] == ReadCell(schema, x.nulls, x.state.archive, k, c)
  {
    seq(n, c requires 0 <= c < n => ReadCell(schema, x.nulls, x.state.archive, k, c))
  }

  // A live record as the merge reads it: where its batch lacked the column when the
  // snapshot was taken, a null in a sort column and the default in another.
  ghost function PatchRecord(schema: Schema, x: Shard, k: Key, n: nat): (r: Record)
    requires k in x.state.live
    ensures |r| == n
    ensures forall c :: 0 <= c < n ==>
              r[c] == if c in x.state.live[k] then Valid(x.state.live[k][c])
                      else if Snapshot(x).Lacks(k, c) && c in schema.sortColumns then Null
                      else schema.Default(c)
  {
    seq(n, c requires 0 <= c < n =>
      if c in x.state.live[k] then Valid(x.state.live[k][c])
      else if Snapshot(x).Lacks(k, c) && c in schema.sortColumns then Null
      else schema.Default(c))
  }

  // A day's merge: its archived records, and the stable live ones.
  datatype DayMerge = DayMerge(day: nat, n: nat, layout: Layout, base: seq<Key>, patch: seq<Key>) {
    ghost predicate Lists(schema: Schema, s: State) {
      && layout.Fits(n) && Distinct(base) && Distinct(patch)
      && (forall u :: 0 <= u < |layout.rest| ==> layout.rest[u] !in schema.sortColumns)
      && (forall k :: k in base <==> k in s.archive && schema.DayOf(k) == day)
      && (forall k :: k in patch <==> Stable(schema, s, k) && schema.DayOf(k) == day)
    }

    ghost predicate Poses(schema: Schema, x: Shard, g: Problem) {
      && Lists(schema, x.state) && g.Ok() && g.deleted == []
      && |g.rows| == |base|
      && (forall i :: 0 <= i < |base| ==> g.rows[i] == layout.ToRow(ArchivedRecord(schema, x, base[i], n)))
      && |g.patch| == |patch|
      && (forall i :: 0 <= i < |patch| ==>
            patch[i] in x.state.live && g.patch[i] == layout.ToRow(PatchRecord(schema, x, patch[i], n)))
    }

    ghost function Keys(): seq<Key> {
      base + patch
    }
  }

  ghost function Records(schema: Schema, x: Shard, ks: seq<Key>, n: nat): (recs: seq<Record>)
    ensures |recs| == |ks| && AllOf(recs, n)
            && forall i :: 0 <= i < |ks| ==> recs[i] == ArchivedRecord(schema, x, ks[i], n)
  {
    seq(|ks|, i requires 0 <= i < |ks| => ArchivedRecord(schema, x, ks[i], n))
  }

  // A record after the commit.
  lemma {:induction false} CommittedRecord(schema: Schema, x: Shard, k: Key, n: nat)
    requires Pruning.ShardInv(schema, x) && x.state.job.Archiving?
    ensures ArchivedRecord(schema, StepCommit(schema, x), k, n) ==
            if Stable(schema, x.state, k) then PatchRecord(schema, x, k, n) else ArchivedRecord(schema, x, k, n)
  {
    hide Pruning.ShardInv, StepCommit, Stable;
    StableLive(schema, x.state, k);
    forall c | 0 <= c < n
      ensures ArchivedRecord(schema, StepCommit(schema, x), k, n)[c] ==
              (if Stable(schema, x.state, k) then PatchRecord(schema, x, k, n) else ArchivedRecord(schema, x, k, n))[c]
    {
      Pruning.CommitStores(schema, x, k, c);
    }
  }

  lemma {:induction false} StableLive(schema: Schema, s: State, k: Key)
    ensures Stable(schema, s, k) ==> k in s.live
  {
  }

  lemma {:induction false} LiveAll(g: Problem, n: nat)
    requires n <= |g.rows| && g.deleted == []
    ensures g.Live(0, n) == g.rows[..n]
  {
    if n > 0 {
      LiveAll(g, n - 1);
    }
  }

  // The keys of the day after the commit.
  lemma {:induction false} DayKeys(schema: Schema, x: Shard, d: DayMerge)
    requires Pruning.ShardInv(schema, x) && x.state.job.Archiving? && d.Lists(schema, x.state)
    ensures Distinct(d.Keys())
    ensures forall k :: k in d.Keys() <==> k in StepCommit(schema, x).state.archive && schema.DayOf(k) == d.day
    ensures forall k :: k in d.base ==> !Stable(schema, x.state, k)
  {
    Pruning.CommitAdds(schema, x);
    Pruning.ArchivedOrLive(schema, x);
    hide Pruning.ShardInv, StepCommit;
    forall k | k in d.base ensures !Stable(schema, x.state, k) {
      assert k in x.full;
      assert Stable(schema, x.state, k) ==> k in Pruning.MovedRecords(schema, x.state);
    }
    assert forall i, j :: 0 <= i < |d.base| && 0 <= j < |d.patch| ==> d.base[i] in d.base && d.patch[j] in d.patch;
  }

  // The merged rows of a day are those of the records that the step archives.
  lemma {:induction false} CommittedRows(schema: Schema, x: Shard, g: Problem, d: DayMerge)
    requires Pruning.ShardInv(schema, x) && x.state.job.Archiving? && d.Poses(schema, x, g)
    ensures g.Ok() && d.layout.Fits(d.n)
    ensures multiset(g.Total()) == multiset(ToRows(d.layout, Records(schema, StepCommit(schema, x), d.Keys(), d.n),
                                                   d.n))
  {
    hide Pruning.ShardInv, StepCommit, Stable, Layout.Fits, Layout.ToRow;
    DayKeys(schema, x, d);
    var y := StepCommit(schema, x);
    var recs := Records(schema, y, d.Keys(), d.n);
    var rows := ToRows(d.layout, recs, d.n);
    forall i | 0 <= i < |rows| ensures rows[i] == (g.rows + g.patch)[i] {
      CommittedRecord(schema, x, d.Keys()[i], d.n);
      if i < |d.base| {
        assert d.base[i] in d.base;
      } else {
        assert d.patch[i - |d.base|] in d.patch;
      }
    }
    assert rows == g.rows + g.patch;
    LiveAll(g, |g.rows|);
    assert g.rows[..|g.rows|] == g.rows;
    hide Problem.Ok, Problem.Total, Problem.Live;
    g.TotalIsStableMerge();
  }

  // The unsorted columns of the day that count a value after the merge are those
  // the step counts anew.
  lemma {:induction false} CommittedCounts(schema: Schema, x: Shard, d: DayMerge, u: nat)
    requires Pruning.ShardInv(schema, x) && x.state.job.Archiving? && d.Lists(schema, x.state) && d.patch != []
    requires u < |d.layout.rest|
    ensures var y, c := StepCommit(schema, x), d.layout.rest[u];
            (exists i :: 0 <= i < |d.Keys()| && Records(schema, y, d.Keys(), d.n)[i][c] != schema.Default(c)) <==>
            DayColumn(d.day, c) in y.counted
  {
    hide Pruning.ShardInv, Pruning.NullsOk, StepCommit, Stable, NonDefault, MovedDays, DayMerge.Keys, ReadCell;
    var y, c, ks := StepCommit(schema, x), d.layout.rest[u], d.Keys();
    DayKeys(schema, x, d);
    DayCounted(schema, x, d);
    Pruning.CommitNulls(schema, x);
    Recounted(schema, x, d.day, c);
    if i :| 0 <= i < |ks| && Records(schema, y, ks, d.n)[i][c] != schema.Default(c) {
      assert ks[i] in ks;
      NonDefaultCell(schema, y, ks[i], c);
    }
    if DayColumn(d.day, c) in y.counted {
      var k := Pruning.NonDefaultKey(schema, y.state.archive, d.day, c);
      assert k in ks;
      var i :| 0 <= i < |ks| && ks[i] == k;
      WrittenReads(schema, y, k, c);
      assert Records(schema, y, ks, d.n)[i][c] != schema.Default(c);
    }
  }

  lemma {:induction false} DayCounted(schema: Schema, x: Shard, d: DayMerge)
    requires d.Lists(schema, x.state) && d.patch != []
    ensures d.day in MovedDays(schema, x.state)
  {
    var k := d.patch[0];
    assert k in d.patch;
  }

  lemma {:induction false} Recounted(schema: Schema, x: Shard, day: nat, c: nat)
    requires day in MovedDays(schema, x.state)
    ensures var y := StepCommit(schema, x); DayColumn(day, c) in y.counted <==>
              DayColumn(day, c) in NonDefault(schema, y.state.archive)
  {
    hide NonDefault, NullsMoved;
  }

  lemma {:induction false} WrittenReads(schema: Schema, y: Shard, k: Key, c: nat)
    requires k in y.state.archive && c in y.state.archive[k]
    ensures ReadCell(schema, y.nulls, y.state.archive, k, c) == Valid(y.state.archive[k][c])
  {
  }

  lemma {:induction false} NonDefaultCell(schema: Schema, y: Shard, k: Key, c: nat)
    requires Pruning.NullsOk(schema, y) && k in y.state.archive && c !in schema.sortColumns
    requires ReadCell(schema, y.nulls, y.state.archive, k, c) != schema.Default(c)
    ensures DayColumn(schema.DayOf(k), c) in NonDefault(schema, y.state.archive)
  {
    assert KeyColumn(k, c) !in y.nulls;
    assert c in y.state.archive[k];
  }

  // Merging a day's patch: the batch stands for the records the step archives, and
  // its counts are those the step has.
  method CommitDay(ctx: MergeContext, ghost schema: Schema, ghost x: Shard, ghost d: DayMerge) returns (merged: Batch)
    requires Pruning.ShardInv(schema, x) && x.state.job.Archiving?
    requires ctx.Inputs() && d.Poses(schema, x, ctx.G()) && d.patch != []
    requires |ctx.restDefaults| == |d.layout.rest| && forall u :: 0 <= u < |ctx.restDefaults| ==>
               ctx.restDefaults[u] == schema.Default(d.layout.rest[u])
    modifies ctx
    ensures var rows, y := ctx.G().Total(), StepCommit(schema, x);
            && d.layout.Fits(d.n) && multiset(rows) ==
                 multiset(ToRows(d.layout, Records(schema, y, d.Keys(), d.n), d.n))
            && Wide(rows, |ctx.restDefaults|) && Represents(merged, Masked(rows, ctx.columnDeletions, ctx.restDefaults))
            && |merged.unsorted| == |ctx.columnDeletions| == |ctx.restDefaults|
            && forall u :: 0 <= u < |ctx.restDefaults| && !ctx.columnDeletions[u] ==>
                 (merged.unsorted[u].nonDefaultValueCount != 0 <==> DayColumn(d.day, d.layout.rest[u]) in y.counted)
  {
    hide Pruning.ShardInv, StepCommit, Represents, Masked, Problem.Total, Layout.Fits, Layout.ToRow;
    CommittedRows(schema, x, ctx.G(), d);
    ghost var y := StepCommit(schema, x);
    ghost var recs := Records(schema, y, d.Keys(), d.n);
    var lengths;
    merged, lengths := ctx.MergeBatches();
    forall u | 0 <= u < |ctx.restDefaults| && !ctx.columnDeletions[u]
      ensures merged.unsorted[u].nonDefaultValueCount != 0 <==> DayColumn(d.day, d.layout.rest[u]) in y.counted
    {
      ColumnCount(d.layout, recs, d.n, ctx.G().Total(), u, ctx.restDefaults[u]);
      CommittedCounts(schema, x, d, u);
    }
  }
}
