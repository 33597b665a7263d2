/** Merging the records of a backfilled day: the new batch has one row per key. */
module BackfillMerge {
  import opened Common
  import opened DataValues
  import opened DefaultCounts
  import opened Rows
  import opened MergeSpec
  import opened VectorParties
  import opened MergeOutput
  import opened Merge
  import opened RowLayouts
  import opened BackfillSpec

  // The merge is given the base rows, the deleted positions in increasing order
  // and the stored records in some order, `ids`.
  ghost predicate MergesDay(b: Base, p: Progress, g: Problem, layout: Layout, ids: seq<RecordID>)
    requires Inv(b, p)
  {
    && g.Ok() && layout.Fits(|b.columns|)
    && |g.rows| == |b.keys| && (forall i :: 0 <= i < |b.keys| ==> g.rows[i] == layout.ToRow(RowAt(p.columns, i)))
    && (forall i :: i in g.deleted <==> i in p.deleted)
    && |g.patch| == |ids| && (forall i :: 0 <= i < |ids| ==>
                                ids[i] in p.temp && g.patch[i] == layout.ToRow(MergeRead(b, p, ids[i])))
    && (forall i, j :: 0 <= i < j < |ids| ==> ids[i] != ids[j])
    && (forall id :: id in p.temp ==> id in ids)
  }

  // The rows of the given keys.
  ghost function RowsOf(b: Base, p: Progress, layout: Layout, ks: seq<Key>): (rows: seq<Row>)
    requires Inv(b, p) && layout.Fits(|b.columns|) && forall i :: 0 <= i < |ks| ==> ks[i] in p.primaryKey
    ensures |rows| == |ks| && forall i :: 0 <= i < |ks| ==> rows[i] == layout.ToRow(MergeRow(b, p, ks[i]))
  {
    seq(|ks|, i requires 0 <= i < |ks| => layout.ToRow(MergeRow(b, p, ks[i])))
  }

  ghost function LiveKeys(b: Base, p: Progress, n: nat): seq<Key>
    requires n <= |b.keys|
  {
    if n == 0 then [] else LiveKeys(b, p, n - 1) + (if n - 1 in p.deleted then [] else [b.keys[n - 1]])
  }

  ghost function StoredKeys(p: Progress, ids: seq<RecordID>): (ks: seq<Key>)
    requires forall i :: 0 <= i < |ids| ==> ids[i] in p.temp
    ensures |ks| == |ids| && forall i :: 0 <= i < |ids| ==> ks[i] == p.temp[ids[i]].key
  {
    seq(|ids|, i requires 0 <= i < |ids| => p.temp[ids[i]].key)
  }

  // An undeleted base row is its key's record.
  lemma {:induction false} BaseRowIs(b: Base, p: Progress, i: nat)
    requires Inv(b, p) && i < |b.keys| && i !in p.deleted
    ensures b.keys[i] in p.primaryKey && InBase(p.primaryKey[b.keys[i]]) && p.primaryKey[b.keys[i]].index == i
    ensures MergeRow(b, p, b.keys[i]) == RowAt(p.columns, i)
  {
    hide Created;
  }

  lemma {:induction false} StoredRowIs(b: Base, p: Progress, id: RecordID)
    requires Inv(b, p) && id in p.temp
    ensures var k := p.temp[id].key;
            k in p.primaryKey && p.primaryKey[k] == id && MergeRow(b, p, k) == MergeRead(b, p, id)
    ensures !InBase(id)
  {
    hide Created;
  }

  lemma {:induction false} LiveKeysFrom(b: Base, p: Progress, n: nat, m: nat) returns (i: nat)
    requires n <= |b.keys| && m < |LiveKeys(b, p, n)|
    ensures i < n && i !in p.deleted && LiveKeys(b, p, n)[m] == b.keys[i]
    decreases n
  {
    if m < |LiveKeys(b, p, n - 1)| {
      i := LiveKeysFrom(b, p, n - 1, m);
    } else {
      i := n - 1;
    }
  }

  lemma {:induction false} LiveKeysHave(b: Base, p: Progress, n: nat, i: nat)
    requires i < n <= |b.keys| && i !in p.deleted
    ensures b.keys[i] in LiveKeys(b, p, n)
    decreases n
  {
    if i < n - 1 {
      LiveKeysHave(b, p, n - 1, i);
    }
  }

  lemma {:induction false} LiveKeysDistinct(b: Base, p: Progress, n: nat)
    requires b.Valid() && n <= |b.keys|
    ensures Distinct(LiveKeys(b, p, n))
    decreases n
  {
    if n > 0 {
      LiveKeysDistinct(b, p, n - 1);
      var ks := LiveKeys(b, p, n - 1);
      forall m | 0 <= m < |ks| ensures ks[m] != b.keys[n - 1] {
        var i := LiveKeysFrom(b, p, n - 1, m);
      }
    }
  }

  // The undeleted base rows, key by key.
  lemma {:induction false} LiveRows(b: Base, p: Progress, g: Problem, layout: Layout, ids: seq<RecordID>, n: nat)
    requires Inv(b, p) && MergesDay(b, p, g, layout, ids) && n <= |b.keys|
    ensures forall m :: 0 <= m < |LiveKeys(b, p, n)| ==> LiveKeys(b, p, n)[m] in p.primaryKey
    ensures g.Live(0, n) == RowsOf(b, p, layout, LiveKeys(b, p, n))
    decreases n
  {
    hide Inv;
    if n > 0 {
      LiveRows(b, p, g, layout, ids, n - 1);
      if n - 1 !in p.deleted {
        BaseRowIs(b, p, n - 1);
      }
    }
  }

  // The keys of the day, each once: undeleted base rows, then stored records.
  ghost function DayKeys(b: Base, p: Progress, ids: seq<RecordID>): seq<Key>
    requires forall i :: 0 <= i < |ids| ==> ids[i] in p.temp
  {
    LiveKeys(b, p, |b.keys|) + StoredKeys(p, ids)
  }

  lemma {:induction false} DayKeysIndexed(b: Base, p: Progress, ids: seq<RecordID>, m: nat)
    requires Inv(b, p) && (forall i :: 0 <= i < |ids| ==> ids[i] in p.temp) && m < |DayKeys(b, p, ids)|
    ensures var k, live := DayKeys(b, p, ids)[m], LiveKeys(b, p, |b.keys|);
            k in p.primaryKey && if m < |live| then InBase(p.primaryKey[k])
            else p.primaryKey[k] == ids[m - |live|] && !InBase(p.primaryKey[k])
  {
    hide Inv;
    var live := LiveKeys(b, p, |b.keys|);
    if m < |live| {
      var i := LiveKeysFrom(b, p, |b.keys|, m);
      BaseRowIs(b, p, i);
    } else {
      StoredRowIs(b, p, ids[m - |live|]);
    }
  }

  lemma {:induction false} DayKeysComplete(b: Base, p: Progress, g: Problem, layout: Layout, ids: seq<RecordID>, k: Key)
    requires Inv(b, p) && MergesDay(b, p, g, layout, ids) && k in p.primaryKey
    ensures k in DayKeys(b, p, ids)
  {
    StoredAt(b, p, k);
    var id := p.primaryKey[k];
    if InBase(id) {
      BaseNotDeleted(b, p, k);
      hide Inv, MergesDay;
      LiveKeysHave(b, p, |b.keys|, id.index);
    } else {
      assert id in ids;
      var i :| 0 <= i < |ids| && ids[i] == id;
      assert StoredKeys(p, ids)[i] == k;
    }
  }

  lemma {:induction false} BaseNotDeleted(b: Base, p: Progress, k: Key)
    requires Inv(b, p) && k in p.primaryKey && InBase(p.primaryKey[k])
    ensures p.primaryKey[k].index < |b.keys| && p.primaryKey[k].index !in p.deleted
            && b.keys[p.primaryKey[k].index] == k
  {
    hide Created;
  }

  lemma {:induction false} DayKeysDistinct(b: Base, p: Progress, g: Problem, layout: Layout, ids: seq<RecordID>)
    requires Inv(b, p) && MergesDay(b, p, g, layout, ids)
    ensures Distinct(DayKeys(b, p, ids))
  {
    var live, ks := LiveKeys(b, p, |b.keys|), DayKeys(b, p, ids);
    LiveKeysDistinct(b, p, |b.keys|);
    hide Inv, LiveKeys;
    forall i, j | 0 <= i < j < |ks| ensures ks[i] != ks[j] {
      DayKeysIndexed(b, p, ids, i);
      DayKeysIndexed(b, p, ids, j);
      if j < |live| {
        assert live[i] != live[j];
      }
    }
  }

  lemma {:induction false} MergesWhat(b: Base, p: Progress, g: Problem, layout: Layout, ids: seq<RecordID>)
    requires Inv(b, p) && MergesDay(b, p, g, layout, ids)
    ensures g.Ok() && layout.Fits(|b.columns|) && |g.rows| == |b.keys| && |g.patch| == |ids|
    ensures forall i :: 0 <= i < |ids| ==> ids[i] in p.temp && |p.temp[ids[i]].row| == |b.defaults|
    ensures forall i :: 0 <= i < |ids| ==> g.patch[i] == layout.ToRow(MergeRead(b, p, ids[i]))
  {
    hide Located, Created, Layout.ToRow;
  }

  lemma {:induction false} DayKeysAre(b: Base, p: Progress, g: Problem, layout: Layout, ids: seq<RecordID>, k: Key)
    requires Inv(b, p) && MergesDay(b, p, g, layout, ids)
    ensures k in DayKeys(b, p, ids) <==> k in p.primaryKey
  {
    hide Inv, LiveKeys, StoredKeys, DayKeys;
    var ks := DayKeys(b, p, ids);
    if k in ks {
      var i :| 0 <= i < |ks| && ks[i] == k;
      DayKeysIndexed(b, p, ids, i);
    }
    if k in p.primaryKey {
      DayKeysComplete(b, p, g, layout, ids, k);
    }
  }

  // Key by key, the rows that go into the merge.
  lemma {:induction false} MergeInput(b: Base, p: Progress, g: Problem, layout: Layout, ids: seq<RecordID>)
    requires Inv(b, p) && MergesDay(b, p, g, layout, ids)
    requires forall m :: 0 <= m < |DayKeys(b, p, ids)| ==> DayKeys(b, p, ids)[m] in p.primaryKey
    ensures RowsOf(b, p, layout, DayKeys(b, p, ids)) == g.Live(0, |g.rows|) + g.patch
  {
    hide Inv, MergesDay, LiveKeys, Problem.Live, Problem.Ok, Problem.Total, Layout.ToRow, Layout.Fits, MergeRow,
         MergeRead;
    MergesWhat(b, p, g, layout, ids);
    LiveRows(b, p, g, layout, ids, |b.keys|);
    var ks, live := DayKeys(b, p, ids), LiveKeys(b, p, |b.keys|);
    var rows, goal := RowsOf(b, p, layout, ks), g.Live(0, |g.rows|) + g.patch;
    forall m | 0 <= m < |ks| ensures rows[m] == goal[m] {
      if m < |live| {
        assert ks[m] == live[m];
      } else {
        StoredRowIs(b, p, ids[m - |live|]);
      }
    }
  }

  // The merged rows are the rows of the day's records, one for every key.
  lemma {:induction false} MergedDay(b: Base, p: Progress, g: Problem, layout: Layout, ids: seq<RecordID>)
    returns (ks: seq<Key>)
    requires Inv(b, p) && MergesDay(b, p, g, layout, ids)
    ensures Distinct(ks) && (forall k :: k in ks <==> k in p.primaryKey)
    ensures g.Ok() && layout.Fits(|b.columns|) && multiset(g.Total()) == multiset(RowsOf(b, p, layout, ks))
  {
    hide Inv, MergesDay, LiveKeys, Distinct, DayKeys, Problem.Live, Problem.Total, Problem.Ok, Layout.Fits, RowsOf,
         Sorted, Rows.WithKey;
    MergesWhat(b, p, g, layout, ids);
    ks := DayKeys(b, p, ids);
    DayKeysDistinct(b, p, g, layout, ids);
    g.TotalIsStableMerge();
    forall k ensures k in ks <==> k in p.primaryKey {
      DayKeysAre(b, p, g, layout, ids, k);
    }
    MergeInput(b, p, g, layout, ids);
  }

  // Some record of the day holds another value in the column.
  ghost predicate HoldsOther(b: Base, p: Progress, c: nat, d: DataValue)
    requires Inv(b, p)
  {
    c < |b.columns| && exists k :: k in p.primaryKey && MergeRow(b, p, k)[c] != d
  }

  ghost function RecordsOf(b: Base, p: Progress, ks: seq<Key>): (recs: seq<Record>)
    requires Inv(b, p) && forall i :: 0 <= i < |ks| ==> ks[i] in p.primaryKey
    ensures |recs| == |ks| && AllOf(recs, |b.columns|) && forall i :: 0 <= i < |ks| ==> recs[i] == MergeRow(b, p, ks[i])
  {
    seq(|ks|, i requires 0 <= i < |ks| => MergeRow(b, p, ks[i]))
  }

  // The merged batch counts a value exactly then.
  lemma {:induction false} DayCount(b: Base, p: Progress, layout: Layout, ks: seq<Key>, rows: seq<Row>, u: nat,
      d: DataValue)
    requires Inv(b, p) && layout.Fits(|b.columns|) && (forall k :: k in ks <==> k in p.primaryKey) && u < |layout.rest|
    requires multiset(rows) == multiset(RowsOf(b, p, layout, ks))
    ensures Wide(rows, |layout.rest|)
    ensures CountNot(RestColumn(rows, |layout.rest|, u), d) != 0 <==> HoldsOther(b, p, layout.rest[u], d)
  {
    hide Located, Created, Shaped, MergeRow, Layout.ToRow, CountNot;
    var recs, c := RecordsOf(b, p, ks), layout.rest[u];
    assert RowsOf(b, p, layout, ks) == ToRows(layout, recs, |b.columns|);
    ColumnCount(layout, recs, |b.columns|, rows, u, d);
    if HoldsOther(b, p, c, d) {
      var k :| k in p.primaryKey && MergeRow(b, p, k)[c] != d;
      assert k in ks;
      var i :| 0 <= i < |ks| && ks[i] == k;
      assert recs[i][c] != d;
    }
    if i :| 0 <= i < |recs| && recs[i][c] != d {
      assert ks[i] in ks;
    }
  }

  // Merging the temporary store into the new batch: it then holds one row for
  // every key of the day.
  method MergeStore(ctx: MergeContext, ghost b: Base, ghost p: Progress, ghost layout: Layout, ghost ids: seq<RecordID>)
    returns (merged: Batch, ghost ks: seq<Key>)
    requires ctx.Inputs() && Inv(b, p) && MergesDay(b, p, ctx.G(), layout, ids) && |layout.rest| == |ctx.restDefaults|
    modifies ctx
    ensures Distinct(ks) && (forall k :: k in ks <==> k in p.primaryKey) && layout.Fits(|b.columns|)
    ensures var rows := ctx.G().Total();
            && multiset(rows) == multiset(RowsOf(b, p, layout, ks)) && Wide(rows, |ctx.restDefaults|)
            && Represents(merged, Masked(rows, ctx.columnDeletions, ctx.restDefaults))
            && |merged.unsorted| == |ctx.columnDeletions| == |ctx.restDefaults|
            && forall u :: 0 <= u < |ctx.restDefaults| && !ctx.columnDeletions[u] ==>
                 (merged.unsorted[u].nonDefaultValueCount != 0 <==>
                    HoldsOther(b, p, layout.rest[u], ctx.restDefaults[u]))
  {
    hide Inv, MergesDay, Represents, Masked, RowsOf, Layout.Fits, Distinct, Wide, Problem.Total;
    ks := MergedDay(b, p, ctx.G(), layout, ids);
    var lengths;
    merged, lengths := ctx.MergeBatches();
    forall u | 0 <= u < |ctx.restDefaults| && !ctx.columnDeletions[u]
      ensures merged.unsorted[u].nonDefaultValueCount != 0 <==> HoldsOther(b, p, layout.rest[u], ctx.restDefaults[u])
    {
      DayCount(b, p, layout, ks, ctx.G().Total(), u, ctx.restDefaults[u]);
    }
  }
}
