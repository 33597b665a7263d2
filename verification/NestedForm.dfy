/** The run-length form of sort columns, stated on counts and values alone. */
module NestedForm {
  import opened DataValues
  import opened Rows
  import opened RunLength
  import opened NestedRuns
  import opened VectorParties

  // Cumulative counts: 0 first, then strictly increasing.
  ghost predicate Cumulative(counts: seq<nat>) {
    && |counts| > 0 && counts[0] == 0
    && forall a, b :: 0 <= a < b < |counts| ==> counts[a] < counts[b]
  }

  // Entry n of sort column j stands for rows [counts[n], counts[n + 1]), which
  // hold one value; the counts are exactly where the first j + 1 columns change.
  ghost predicate RunForm(rows: seq<Row>, k: nat, j: nat, counts: seq<nat>, vals: seq<DataValue>)
    requires Keyed(rows, k) && j < k
  {
    && Cumulative(counts)
    && |counts| == |vals| + 1
    && counts[|vals|] == |rows|
    && (forall n, r :: 0 <= n < |vals| && counts[n] <= r < counts[n + 1] ==> rows[r].key[j] == vals[n])
    && (forall n :: 0 <= n < |counts| ==> IsBoundary(Prefixes(rows, k, j), counts[n]))
    && (forall c :: 0 <= c <= |rows| && IsBoundary(Prefixes(rows, k, j), c) ==> c in counts)
  }

  lemma {:induction false} EndsCumulative<T>(s: seq<T>)
    ensures Cumulative([0] + Ends(s)) && ([0] + Ends(s))[|Ends(s)|] == |s|
  {
    EndsIncrease(s);
    hide Ends;
  }

  lemma {:induction false} EntryRows(rows: seq<Row>, k: nat, j: nat, counts: seq<nat>, n: nat)
    requires Keyed(rows, k) && j < k && n < |Vals(rows, k, j)|
    requires counts == [0] + Ends(Prefixes(rows, k, j))
    ensures counts[n] < counts[n + 1] <= |rows|
    ensures forall r :: counts[n] <= r < counts[n + 1] ==> rows[r].key[j] == Vals(rows, k, j)[n]
    ensures IsBoundary(Prefixes(rows, k, j), counts[n + 1])
  {
    var s := Prefixes(rows, k, j);
    RunNumber(rows, k, j, n);
    RunValue(rows, k, j, if n == 0 then 0 else Ends(s)[n - 1], n, Ends(s)[n]);
  }

  lemma {:induction false} BoundaryCounted(rows: seq<Row>, k: nat, j: nat, c: nat)
    requires Keyed(rows, k) && j < k && c <= |rows| && IsBoundary(Prefixes(rows, k, j), c)
    ensures c in [0] + Ends(Prefixes(rows, k, j))
  {
    var s := Prefixes(rows, k, j);
    if c > 0 {
      EndIndex(s, c);
      var n := |Ends(s[..c])|;
      assert ([0] + Ends(s))[n] == Ends(s)[n - 1];
    }
  }

  // A count-vector sort column of a represented batch is in run form.
  lemma {:induction false} ColumnRunForm(vp: VectorParty, rows: seq<Row>, k: nat, j: nat)
    requires Keyed(rows, k) && j < k && SortColumnHolds(vp, rows, k, j) && vp.columnMode == HasCountVector
    ensures RunForm(rows, k, j, vp.counts.value, Reads(vp, vp.length))
  {
    var counts, vals := vp.counts.value, Reads(vp, vp.length);
    assert vals == Vals(rows, k, j);
    EndsCumulative(Prefixes(rows, k, j));
    forall n, r | 0 <= n < |vals| && counts[n] <= r < counts[n + 1] ensures rows[r].key[j] == vals[n] {
      EntryRows(rows, k, j, counts, n);
    }
    forall n | 0 <= n < |counts| ensures IsBoundary(Prefixes(rows, k, j), counts[n]) {
      if n > 0 {
        EntryRows(rows, k, j, counts, n - 1);
      }
    }
    forall c | 0 <= c <= |rows| && IsBoundary(Prefixes(rows, k, j), c) ensures c in counts {
      BoundaryCounted(rows, k, j, c);
    }
  }

  // Two neighbouring entries that agree on the columns before theirs are in
  // strictly increasing order.
  lemma {:induction false} NeighboursIncrease(rows: seq<Row>, k: nat, j: nat, counts: seq<nat>,
      vals: seq<DataValue>, n: nat)
    requires Sorted(rows, k) && j < k && RunForm(rows, k, j, counts, vals) && n + 1 < |vals|
    requires 0 < counts[n + 1] < |rows| && rows[counts[n + 1] - 1].key[..j] == rows[counts[n + 1]].key[..j]
    ensures Compare(vals[n], vals[n + 1]) < 0
  {
    var c := counts[n + 1];
    assert counts[n] <= c - 1 < c < counts[n + 2];
    assert Prefixes(rows, k, j)[c - 1] != Prefixes(rows, k, j)[c];
    ColumnIncreases(rows, k, j, c - 1, c, c);
  }

  // ------------------------------------------------------- the nested form

  ghost predicate Counted(vp: VectorParty) {
    vp.Allocated() && vp.columnMode == HasCountVector
  }

  // Row c starts a new entry in none of the sort columns before column j.
  ghost predicate InsideParents(b: Batch, j: nat, c: nat)
    requires j <= |b.sorted|
  {
    forall i :: 0 <= i < j && Counted(b.sorted[i]) ==> c !in b.sorted[i].counts.value
  }

  // The run-length form of a batch, with no reference to its rows: counts run
  // strictly from 0 to the size, every boundary of a sort column is one of each
  // later column, and entries strictly increase inside each parent entry.
  ghost predicate NestedRunForm(b: Batch) {
    && (forall j :: 0 <= j < |b.sorted| && Counted(b.sorted[j]) ==>
          var vp := b.sorted[j];
          Cumulative(vp.counts.value) && |vp.counts.value| == vp.length + 1 && vp.counts.value[vp.length] == b.size)
    && (forall i, j, c :: 0 <= i < j < |b.sorted| && Counted(b.sorted[i]) && Counted(b.sorted[j])
          && c in b.sorted[i].counts.value
          ==> c in b.sorted[j].counts.value)
    && (forall j, n :: 0 <= j < |b.sorted| && Counted(b.sorted[j]) && 0 <= n && n + 1 < b.sorted[j].length
                       && InsideParents(b, j, b.sorted[j].counts.value[n + 1])
          ==> Compare(b.sorted[j].GetDataValue(n), b.sorted[j].GetDataValue(n + 1)) < 0)
  }

  lemma {:induction false} ColumnCounts(b: Batch, rows: seq<Row>, j: nat)
    requires Represents(b, rows) && j < |b.sorted| && Counted(b.sorted[j])
    ensures Keyed(rows, |b.sorted|) && Sorted(rows, |b.sorted|) && |rows| == b.size
    ensures RunForm(rows, |b.sorted|, j, b.sorted[j].counts.value, Reads(b.sorted[j], b.sorted[j].length))
  {
    hide Less, LessFrom, Ends, Vals, Prefixes;
    assert SortColumnHolds(b.sorted[j], rows, |b.sorted|, j);
    ColumnRunForm(b.sorted[j], rows, |b.sorted|, j);
  }

  lemma {:induction false} SameColumnValue(b: Batch, rows: seq<Row>, i: nat, c: nat)
    requires Represents(b, rows) && i < |b.sorted| && 0 < c < |rows|
    requires Counted(b.sorted[i]) ==> c !in b.sorted[i].counts.value
    ensures rows[c - 1].key[i] == rows[c].key[i]
  {
    if Counted(b.sorted[i]) {
      ColumnCounts(b, rows, i);
      hide Represents, Sorted;
      var s := Prefixes(rows, |b.sorted|, i);
      assert !IsBoundary(s, c);
      assert rows[c - 1].key[i] == s[c - 1][i] && rows[c].key[i] == s[c][i];
    } else {
      assert SortColumnHolds(b.sorted[i], rows, |b.sorted|, i);
    }
  }

  lemma {:induction false} SamePrefix(b: Batch, rows: seq<Row>, j: nat, c: nat)
    requires Represents(b, rows) && Keyed(rows, |b.sorted|) && j <= |b.sorted| && 0 < c < |rows|
             && InsideParents(b, j, c)
    ensures rows[c - 1].key[..j] == rows[c].key[..j]
  {
    hide Represents;
    forall i | 0 <= i < j ensures rows[c - 1].key[i] == rows[c].key[i] {
      SameColumnValue(b, rows, i, c);
    }
  }

  // Every batch that represents rows is in nested run-length form.
  lemma {:induction false} RepresentsIsNested(b: Batch, rows: seq<Row>)
    requires Represents(b, rows)
    ensures NestedRunForm(b)
  {
    hide Represents;
    var k := |b.sorted|;
    forall j | 0 <= j < k && Counted(b.sorted[j])
      ensures Cumulative(b.sorted[j].counts.value) && b.sorted[j].counts.value[b.sorted[j].length] == b.size
    {
      ColumnCounts(b, rows, j);
    }
    forall i, j, c | 0 <= i < j < k && Counted(b.sorted[i]) && Counted(b.sorted[j]) && c in b.sorted[i].counts.value
      ensures c in b.sorted[j].counts.value
    {
      BoundariesNest(b, rows, i, j, c);
    }
    forall j, n | 0 <= j < k && Counted(b.sorted[j]) && 0 <= n && n + 1 < b.sorted[j].length
                  && InsideParents(b, j, b.sorted[j].counts.value[n + 1])
      ensures Compare(b.sorted[j].GetDataValue(n), b.sorted[j].GetDataValue(n + 1)) < 0
    {
      EntriesNest(b, rows, j, n);
    }
  }

  lemma {:induction false} BoundariesNest(b: Batch, rows: seq<Row>, i: nat, j: nat, c: nat)
    requires Represents(b, rows) && i < j < |b.sorted| && Counted(b.sorted[i]) && Counted(b.sorted[j])
             && c in b.sorted[i].counts.value
    ensures c in b.sorted[j].counts.value
  {
    hide Represents, Sorted;
    ColumnCounts(b, rows, i);
    ColumnCounts(b, rows, j);
    var counts := b.sorted[i].counts.value;
    var n :| 0 <= n < |counts| && counts[n] == c;
    assert counts[n] <= counts[|counts| - 1] == |rows|;
    BoundaryNests(rows, |b.sorted|, i, j, c);
  }

  lemma {:induction false} EntriesNest(b: Batch, rows: seq<Row>, j: nat, n: nat)
    requires Represents(b, rows) && j < |b.sorted| && Counted(b.sorted[j]) && n + 1 < b.sorted[j].length
    requires InsideParents(b, j, b.sorted[j].counts.value[n + 1])
    ensures Compare(b.sorted[j].GetDataValue(n), b.sorted[j].GetDataValue(n + 1)) < 0
  {
    hide Represents, Sorted, InsideParents, IsBoundary;
    ColumnCounts(b, rows, j);
    var counts, vals := b.sorted[j].counts.value, Reads(b.sorted[j], b.sorted[j].length);
    assert 0 < counts[n + 1] < counts[|vals|];
    SamePrefix(b, rows, j, counts[n + 1]);
    NeighboursIncrease(rows, |b.sorted|, j, counts, vals, n);
  }

  // Every row between two counts lies in one entry between them.
  lemma {:induction false} EntryOfRow(counts: seq<nat>, s: nat, e: nat, r: nat) returns (n: nat)
    requires Cumulative(counts) && s < e < |counts| && counts[s] <= r < counts[e]
    ensures s <= n < e && counts[n] <= r < counts[n + 1]
    decreases e - s
  {
    if r < counts[s + 1] {
      n := s;
    } else {
      n := EntryOfRow(counts, s + 1, e, r);
    }
  }
}
