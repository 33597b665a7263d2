/** The partly written columns of a merge and the rows they stand for. */
module MergeOutput {
  import opened DataValues
  import opened Rows
  import opened RunLength
  import opened NestedRuns
  import opened DefaultCounts
  import opened VectorParties

  ghost predicate Wide(rows: seq<Row>, n: nat) {
    forall r :: 0 <= r < |rows| ==> |rows[r].rest| == n
  }

  ghost function RestColumn(rows: seq<Row>, n: nat, u: nat): (vals: seq<DataValue>)
    requires Wide(rows, n) && u < n
    ensures |vals| == |rows| && forall r :: 0 <= r < |rows| ==> vals[r] == rows[r].rest[u]
  {
    seq(|rows|, r requires 0 <= r < |rows| => rows[r].rest[u])
  }

  // The entries written so far are these runs.
  ghost predicate HoldsRuns(vp: VectorParty, vals: seq<DataValue>, ends: seq<nat>) {
    && vp.Allocated() && vp.columnMode == HasCountVector && vp.nulls.Some? && vp.NullsZeroed()
    && |vals| == |ends| <= vp.length
    && vp.counts.value[..|ends| + 1] == [0] + ends
    && (forall n :: 0 <= n < |vals| ==> vp.GetDataValue(n) == vals[n])
  }

  lemma {:induction false} HoldsRunsStep(vp: VectorParty, vals: seq<DataValue>, ends: seq<nat>, v: DataValue,
      n: nat, end: nat)
    requires HoldsRuns(vp, vals, ends) && |vals| < vp.length
    ensures var w := vp.SetDataValue(|vals|, v, IncrementCount, n).SetCount(|vals|, end);
            && HoldsRuns(w, vals + [v], ends + [end])
            && w.length == vp.length && w.defaultValue == vp.defaultValue
            && w.nonDefaultValueCount == vp.nonDefaultValueCount + (if v != vp.defaultValue then n else 0)
  {
    var b := |vals|;
    SetThenGet(vp, b, v, IncrementCount, n);
    var w1 := vp.SetDataValue(b, v, IncrementCount, n);
    var w := w1.SetCount(b, end);
    assert w.counts.value[..b + 2] == vp.counts.value[..b + 1] + [end];
    assert forall n :: 0 <= n < vp.length ==> w.GetDataValue(n) == w1.GetDataValue(n);
  }

  // The first `begin` entries of sort column j encode `rows`, which number `count`.
  ghost predicate SortWritten(vp: VectorParty, begin: nat, count: nat, rows: seq<Row>, d: DataValue, k: nat, j: nat)
    requires Keyed(rows, k) && j < k
  {
    && HoldsRuns(vp, Vals(rows, k, j), Ends(Prefixes(rows, k, j))) && vp.defaultValue == d
    && begin == |Vals(rows, k, j)|
    && count == |rows|
    && vp.nonDefaultValueCount == CountNot(KeyColumn(rows, k, j), d)
  }

  lemma {:induction false} KeyCountStep(rows: seq<Row>, d: DataValue, k: nat, j: nat, block: seq<Row>,
      x: seq<DataValue>)
    requires Keyed(rows, k) && Keyed(block, k) && j < k
    requires AllAre(Prefixes(block, k, j), x)
    ensures Keyed(rows + block, k)
    ensures CountNot(KeyColumn(rows + block, k, j), d)
         == CountNot(KeyColumn(rows, k, j), d) + (if Last(x) != d then |block| else 0)
  {
    assert KeyColumn(rows + block, k, j) == KeyColumn(rows, k, j) + KeyColumn(block, k, j);
    forall r | 0 <= r < |block| ensures KeyColumn(block, k, j)[r] == Last(x) {
      assert Prefixes(block, k, j)[r] == x;
    }
    CountNotRun(KeyColumn(rows, k, j), KeyColumn(block, k, j), Last(x), d);
  }

  lemma {:induction false} SortWrittenBegin(vp: VectorParty, begin: nat, count: nat, rows: seq<Row>, d: DataValue,
      k: nat, j: nat)
    requires Keyed(rows, k) && j < k && SortWritten(vp, begin, count, rows, d, k, j)
    ensures begin == |Ends(Prefixes(rows, k, j))| && count == |rows|
    ensures vp.Allocated() && vp.columnMode == HasCountVector && vp.nulls.Some? && begin <= vp.length
  {
  }

  // Writing one more run.
  lemma {:induction false} SortWrittenStep(vp: VectorParty, begin: nat, count: nat, rows: seq<Row>, d: DataValue,
      k: nat, j: nat, block: seq<Row>, x: seq<DataValue>)
    requires Keyed(rows, k) && Keyed(block, k) && j < k && block != []
    requires SortWritten(vp, begin, count, rows, d, k, j)
    requires begin < vp.length
    requires AllAre(Prefixes(block, k, j), x)
    requires rows != [] ==> Prefixes(rows, k, j)[|rows| - 1] != x
    ensures Keyed(rows + block, k)
    ensures var w := vp.SetDataValue(begin, Last(x), IncrementCount, |block|).SetCount(begin, count + |block|);
            && SortWritten(w, begin + 1, count + |block|, rows + block, d, k, j)
            && w.length == vp.length
  {
    hide Ends, Heads, Prefixes, Vals, CountNot, KeyColumn, HoldsRuns;
    AppendRun(rows, block, k, j, x);
    HoldsRunsStep(vp, Vals(rows, k, j), Ends(Prefixes(rows, k, j)), Last(x), |block|, count + |block|);
    KeyCountStep(rows, d, k, j, block, x);
  }

  // A freshly allocated sort column encodes no rows.
  lemma {:induction false} SortWrittenInit(length: nat, d: DataValue, k: nat, j: nat)
    requires j < k
    ensures SortWritten(NewVectorParty(length, d).Allocate(true), 0, 0, [], d, k, j)
  {
    var vp := NewVectorParty(length, d).Allocate(true);
    assert vp.counts.value[..1] == [0] + Ends(Prefixes([], k, j));
  }

  // A fully written sort column holds the rows.
  lemma {:induction false} SortWrittenDone(vp: VectorParty, begin: nat, count: nat, rows: seq<Row>, d: DataValue,
      k: nat, j: nat)
    requires Keyed(rows, k) && j < k
    requires SortWritten(vp, begin, count, rows, d, k, j) && begin == vp.length
    ensures SortColumnHolds(vp.Prune(), rows, k, j)
  {
    assert vp.counts.value[..begin + 1] == vp.counts.value;
    PruneKeepsSortColumn(vp, rows, k, j);
  }

  // The first `begin` entries of unsorted column u are those of `rows`.
  ghost predicate RestWritten(vp: VectorParty, begin: nat, rows: seq<Row>, d: DataValue, n: nat, u: nat)
    requires Wide(rows, n) && u < n
  {
    && vp.Allocated() && vp.columnMode == HasNullVector && vp.nulls.Some? && vp.counts.None? && vp.defaultValue == d
    && begin == |rows| <= vp.length
    && (forall r :: 0 <= r < begin ==> vp.GetDataValue(r) == rows[r].rest[u])
    && vp.nonDefaultValueCount == CountNot(RestColumn(rows, n, u), d)
  }

  lemma {:induction false} RestWrittenStep(vp: VectorParty, begin: nat, rows: seq<Row>, d: DataValue, n: nat,
      u: nat, row: Row)
    requires Wide(rows, n) && u < n && |row.rest| == n
    requires RestWritten(vp, begin, rows, d, n, u) && begin < vp.length
    ensures Wide(rows + [row], n)
    ensures var w := vp.SetDataValue(begin, row.rest[u], IncrementCount, 1);
            RestWritten(w, begin + 1, rows + [row], d, n, u) && w.length == vp.length
  {
    SetThenGet(vp, begin, row.rest[u], IncrementCount, 1);
    assert RestColumn(rows + [row], n, u) == RestColumn(rows, n, u) + [row.rest[u]];
    CountNotRun(RestColumn(rows, n, u), [row.rest[u]], row.rest[u], d);
  }

  lemma {:induction false} RestWrittenDone(vp: VectorParty, begin: nat, rows: seq<Row>, d: DataValue, n: nat, u: nat)
    requires Wide(rows, n) && u < n
    requires RestWritten(vp, begin, rows, d, n, u) && begin == vp.length
    ensures UnsortedColumnHolds(vp.Prune(), rows, u)
  {
    assert Reads(vp, vp.length) == RestColumn(rows, n, u);
    PruneKeepsReads(vp);
    assert forall r :: 0 <= r < |rows| ==> Reads(vp.Prune(), vp.length)[r] == rows[r].rest[u];
  }

  // The non-default counts of the live unsorted columns are those of the rows.
  ghost predicate CountsRows(b: Batch, rows: seq<Row>, deletions: seq<bool>, defaults: seq<DataValue>) {
    && |b.unsorted| == |deletions| == |defaults| && Wide(rows, |defaults|)
    && forall u :: 0 <= u < |defaults| && !deletions[u] ==>
         b.unsorted[u].nonDefaultValueCount == CountNot(RestColumn(rows, |defaults|, u), defaults[u])
  }

  // Prefixes never have more runs than the whole.
  lemma {:induction false} EndsMonotone<T>(s: seq<T>, t: seq<T>)
    requires s <= t
    ensures |Ends(s)| <= |Ends(t)|
    decreases |t|
  {
    if |s| < |t| {
      EndsMonotone(s, t[..|t| - 1]);
    } else {
      assert s == t;
    }
  }

  // Room for the next run: the output stays a prefix of the total.
  lemma {:induction false} RoomForRun(rows: seq<Row>, block: seq<Row>, total: seq<Row>, k: nat, j: nat,
      x: seq<DataValue>)
    requires Keyed(rows, k) && Keyed(block, k) && Keyed(total, k) && j < k && block != []
    requires AllAre(Prefixes(block, k, j), x)
    requires rows != [] ==> Prefixes(rows, k, j)[|rows| - 1] != x
    requires rows + block <= total
    ensures |Ends(Prefixes(rows, k, j))| + 1 <= |Ends(Prefixes(total, k, j))|
  {
    hide Ends, Heads;
    AppendRun(rows, block, k, j, x);
    assert Prefixes(rows + block, k, j) <= Prefixes(total, k, j);
    EndsMonotone(Prefixes(rows + block, k, j), Prefixes(total, k, j));
  }

  // ----------------------------------------------------- dropped columns

  // The rows as a merged batch shows them: dropped columns read as their default.
  ghost function Masked(rows: seq<Row>, deletions: seq<bool>, defaults: seq<DataValue>): (m: seq<Row>)
    requires |deletions| == |defaults| && Wide(rows, |defaults|)
    ensures |m| == |rows| && Wide(m, |defaults|)
    ensures forall r :: 0 <= r < |rows| ==> m[r].key == rows[r].key
    ensures forall r, u :: 0 <= r < |rows| && 0 <= u < |defaults| ==>
              m[r].rest[u] == if deletions[u] then defaults[u] else rows[r].rest[u]
  {
    seq(|rows|, r requires 0 <= r < |rows| =>
      Row(rows[r].key, seq(|defaults|, u requires 0 <= u < |defaults| =>
        if deletions[u] then defaults[u] else rows[r].rest[u])))
  }

  ghost predicate SameKeys(a: seq<Row>, b: seq<Row>) {
    |a| == |b| && forall r :: 0 <= r < |a| ==> a[r].key == b[r].key
  }

  lemma {:induction false} SortColumnByKeys(vp: VectorParty, a: seq<Row>, b: seq<Row>, k: nat, j: nat)
    requires Keyed(a, k) && j < k && SameKeys(a, b) && SortColumnHolds(vp, a, k, j)
    ensures Keyed(b, k) && SortColumnHolds(vp, b, k, j)
  {
    hide Ends, Heads;
    assert Keyed(b, k);
    assert Prefixes(a, k, j) == Prefixes(b, k, j);
    assert Vals(a, k, j) == Vals(b, k, j);
  }

  lemma {:induction false} UnsortedMasked(vp: VectorParty, rows: seq<Row>, deletions: seq<bool>,
      defaults: seq<DataValue>, u: nat)
    requires |deletions| == |defaults| && Wide(rows, |defaults|) && u < |defaults|
    requires if deletions[u] then vp == NewVectorParty(|rows|, defaults[u]).Prune()
             else UnsortedColumnHolds(vp, rows, u)
    ensures UnsortedColumnHolds(vp, Masked(rows, deletions, defaults), u)
  {
  }
}
