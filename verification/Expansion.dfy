/** Every batch in nested run-length form stands for rows: its expansion. */
module Expansion {
  import opened DataValues
  import opened Rows
  import opened RunLength
  import opened NestedRuns
  import opened VectorParties
  import opened NestedForm

  // Modes and lengths as an archive batch has them: sort columns are counted or
  // all default, with at least an entry for each entry of the columns before.
  ghost predicate Formed(b: Batch) {
    && (forall j :: 0 <= j < |b.sorted| ==>
          b.sorted[j].Allocated() && (b.sorted[j].columnMode == HasCountVector
                                      || b.sorted[j].columnMode == AllValuesDefault))
    && (forall j :: 0 <= j < |b.sorted| && Counted(b.sorted[j]) ==> b.sorted[j].NullsZeroed())
    && (forall j :: 0 <= j < |b.sorted| && !Counted(b.sorted[j]) && b.size > 0 ==> b.sorted[j].length > 0)
    && (forall i, j :: 0 <= i < j < |b.sorted| && Counted(b.sorted[i]) && !Counted(b.sorted[j]) ==>
          b.sorted[i].length <= b.sorted[j].length)
    && (forall u :: 0 <= u < |b.unsorted| ==>
          b.unsorted[u].Allocated() && b.unsorted[u].columnMode != HasCountVector && b.unsorted[u].counts.None?
          && b.unsorted[u].length == b.size)
  }

  ghost predicate CountsOk(b: Batch, j: nat)
    requires j < |b.sorted| && Counted(b.sorted[j])
  {
    var vp := b.sorted[j];
    Cumulative(vp.counts.value) && |vp.counts.value| == vp.length + 1 && vp.counts.value[vp.length] == b.size
  }

  lemma {:induction false} CountsAreOk(b: Batch, j: nat)
    requires NestedRunForm(b) && j < |b.sorted| && Counted(b.sorted[j])
    ensures CountsOk(b, j)
  {
  }

  // The entry that stands for a row.
  ghost function EntryAt(counts: seq<nat>, r: nat): (n: nat)
    requires Cumulative(counts) && r < counts[|counts| - 1]
    ensures n + 1 < |counts| && counts[n] <= r < counts[n + 1]
  {
    HasEntry(counts, r);
    var n :| 0 <= n < |counts| - 1 && counts[n] <= r < counts[n + 1];
    n
  }

  lemma {:induction false} HasEntry(counts: seq<nat>, r: nat)
    requires Cumulative(counts) && r < counts[|counts| - 1]
    ensures exists n :: 0 <= n < |counts| - 1 && counts[n] <= r < counts[n + 1]
  {
    var n := EntryOfRow(counts, 0, |counts| - 1, r);
  }

  lemma {:induction false} EntryIs(counts: seq<nat>, r: nat, n: nat)
    requires Cumulative(counts) && n + 1 < |counts| && counts[n] <= r < counts[n + 1] && r < counts[|counts| - 1]
    ensures EntryAt(counts, r) == n
  {
  }

  // The value a sort column gives a row.
  ghost function SortValue(vp: VectorParty, r: nat): DataValue
    requires vp.Allocated() && (Counted(vp) ==> Cumulative(vp.counts.value) && r < vp.counts.value[vp.length])
  {
    if Counted(vp) then vp.GetDataValue(EntryAt(vp.counts.value, r)) else vp.defaultValue
  }

  ghost function RowOf(b: Batch, r: nat): (row: Row)
    requires NestedRunForm(b) && Formed(b) && r < b.size
    ensures |row.key| == |b.sorted| && |row.rest| == |b.unsorted|
    ensures forall j :: 0 <= j < |b.sorted| ==> row.key[j] == SortValue(b.sorted[j], r)
    ensures forall u :: 0 <= u < |b.unsorted| ==> row.rest[u] == b.unsorted[u].GetDataValue(r)
  {
    Row(seq(|b.sorted|, j requires 0 <= j < |b.sorted| => SortValue(b.sorted[j], r)),
        seq(|b.unsorted|, u requires 0 <= u < |b.unsorted| => b.unsorted[u].GetDataValue(r)))
  }

  ghost function Expand(b: Batch): (rows: seq<Row>)
    requires NestedRunForm(b) && Formed(b)
    ensures |rows| == b.size && Keyed(rows, |b.sorted|)
    ensures forall r :: 0 <= r < b.size ==> rows[r] == RowOf(b, r)
  {
    seq(b.size, r requires 0 <= r < b.size => RowOf(b, r))
  }

  // ---------------------------------------------------- neighbouring rows

  lemma {:induction false} SameEntry(counts: seq<nat>, c: nat)
    requires Cumulative(counts) && 0 < c < counts[|counts| - 1] && c !in counts
    ensures EntryAt(counts, c - 1) == EntryAt(counts, c)
  {
    var n := EntryAt(counts, c);
    assert counts[n] != c;
    EntryIs(counts, c - 1, n);
  }

  lemma {:induction false} NextEntry(counts: seq<nat>, c: nat) returns (n: nat)
    requires Cumulative(counts) && 0 < c < counts[|counts| - 1] && c in counts
    ensures n + 2 < |counts| && counts[n + 1] == c && EntryAt(counts, c - 1) == n && EntryAt(counts, c) == n + 1
  {
    var m :| 0 <= m < |counts| && counts[m] == c;
    n := m - 1;
    EntryIs(counts, c, m);
    EntryIs(counts, c - 1, n);
  }

  // A column that starts no entry at c gives both rows around it one value.
  lemma {:induction false} SameValue(b: Batch, j: nat, c: nat)
    requires NestedRunForm(b) && Formed(b) && j < |b.sorted| && 0 < c < b.size
    requires Counted(b.sorted[j]) ==> c !in b.sorted[j].counts.value
    ensures RowOf(b, c - 1).key[j] == RowOf(b, c).key[j]
  {
    if Counted(b.sorted[j]) {
      CountsAreOk(b, j);
      hide NestedRunForm;
      SameEntry(b.sorted[j].counts.value, c);
    }
  }

  // One that does, with no column before it doing so, gives increasing values.
  lemma {:induction false} GreaterValue(b: Batch, j: nat, c: nat)
    requires NestedRunForm(b) && Formed(b) && j < |b.sorted| && 0 < c < b.size
    requires Counted(b.sorted[j]) && c in b.sorted[j].counts.value && InsideParents(b, j, c)
    ensures Compare(RowOf(b, c - 1).key[j], RowOf(b, c).key[j]) < 0
  {
    CountsAreOk(b, j);
    var n := NextEntry(b.sorted[j].counts.value, c);
    assert Compare(b.sorted[j].GetDataValue(n), b.sorted[j].GetDataValue(n + 1)) < 0;
  }

  // ------------------------------------------------------------ boundaries

  // Where the first j + 1 sort columns change: the counts of the last counted one.
  ghost function Bounds(b: Batch, j: nat): seq<nat>
    requires j < |b.sorted|
  {
    if Counted(b.sorted[j]) then b.sorted[j].counts.value
    else if j > 0 then Bounds(b, j - 1)
    else if b.size == 0 then [0] else [0, b.size]
  }

  lemma {:induction false} BoundsCumulative(b: Batch, j: nat)
    requires NestedRunForm(b) && j < |b.sorted|
    ensures Cumulative(Bounds(b, j)) && Bounds(b, j)[|Bounds(b, j)| - 1] == b.size
  {
    if Counted(b.sorted[j]) {
      CountsAreOk(b, j);
    } else if j > 0 {
      BoundsCumulative(b, j - 1);
    }
  }

  // Bounds of a column are bounds of the next.
  lemma {:induction false} BoundsNest(b: Batch, j: nat, c: nat)
    requires NestedRunForm(b) && 0 < j < |b.sorted| && c in Bounds(b, j - 1)
    ensures c in Bounds(b, j)
  {
    if Counted(b.sorted[j]) {
      CountsAreOk(b, j);
      BoundsFrom(b, j - 1, c);
      var counts := b.sorted[j].counts.value;
      assert counts[0] == 0 && counts[b.sorted[j].length] == b.size;
    }
  }

  lemma {:induction false} BoundsFrom(b: Batch, j: nat, c: nat)
    requires NestedRunForm(b) && j < |b.sorted| && c in Bounds(b, j)
    ensures c == 0 || c == b.size || exists i :: 0 <= i <= j && Counted(b.sorted[i]) && c in b.sorted[i].counts.value
  {
    if !Counted(b.sorted[j]) && j > 0 {
      BoundsFrom(b, j - 1, c);
    }
  }

  lemma {:induction false} CountsInBounds(b: Batch, i: nat, j: nat, c: nat)
    requires NestedRunForm(b) && i <= j < |b.sorted| && Counted(b.sorted[i]) && c in b.sorted[i].counts.value
    ensures c in Bounds(b, j)
    decreases j
  {
    if !Counted(b.sorted[j]) {
      CountsInBounds(b, i, j - 1, c);
    }
  }

  lemma {:induction false} OutsideBounds(b: Batch, j: nat, c: nat)
    requires NestedRunForm(b) && j < |b.sorted| && (j > 0 ==> c !in Bounds(b, j - 1))
    ensures InsideParents(b, j, c)
  {
    forall i | 0 <= i < j && Counted(b.sorted[i]) ensures c !in b.sorted[i].counts.value {
      if c in b.sorted[i].counts.value {
        CountsInBounds(b, i, j - 1, c);
      }
    }
  }

  lemma {:induction false} PrefixStep(p: seq<DataValue>, q: seq<DataValue>, j: nat)
    requires j < |p| == |q|
    ensures p[..j + 1] == q[..j + 1] <==> p[..j] == q[..j] && p[j] == q[j]
    ensures p[..0] == q[..0]
  {
    assert p[..j + 1] == p[..j] + [p[j]] && q[..j + 1] == q[..j] + [q[j]];
  }

  // Off the bounds of the columns before it, a column changes at its counts only.
  lemma {:induction false} ChangesAtCounts(b: Batch, j: nat, c: nat)
    requires NestedRunForm(b) && Formed(b) && j < |b.sorted| && 0 < c < b.size && (j > 0 ==> c !in Bounds(b, j - 1))
    ensures c in Bounds(b, j) ==> Compare(RowOf(b, c - 1).key[j], RowOf(b, c).key[j]) < 0
    ensures c !in Bounds(b, j) ==> RowOf(b, c - 1).key[j] == RowOf(b, c).key[j]
  {
    OutsideBounds(b, j, c);
    BoundHere(b, j, c);
    hide NestedRunForm, Formed, RowOf, Bounds;
    if Counted(b.sorted[j]) && c in b.sorted[j].counts.value {
      GreaterValue(b, j, c);
    } else {
      SameValue(b, j, c);
    }
  }

  lemma {:induction false} BoundHere(b: Batch, j: nat, c: nat)
    requires NestedRunForm(b) && j < |b.sorted| && 0 < c < b.size && (j > 0 ==> c !in Bounds(b, j - 1))
    ensures c in Bounds(b, j) <==> Counted(b.sorted[j]) && c in b.sorted[j].counts.value
  {
  }

  // Between two rows, the first j + 1 columns agree exactly off the bounds.
  lemma {:induction false} AgreeOffBounds(b: Batch, j: nat, c: nat)
    requires NestedRunForm(b) && Formed(b) && j < |b.sorted| && 0 < c < b.size
    ensures RowOf(b, c - 1).key[..j + 1] == RowOf(b, c).key[..j + 1] <==> c !in Bounds(b, j)
    decreases j
  {
    hide NestedRunForm, Formed, RowOf, Bounds;
    PrefixStep(RowOf(b, c - 1).key, RowOf(b, c).key, j);
    if j > 0 {
      AgreeOffBounds(b, j - 1, c);
    }
    if j > 0 && c in Bounds(b, j - 1) {
      BoundsNest(b, j, c);
    } else {
      ChangesAtCounts(b, j, c);
    }
  }

  lemma {:induction false} BoundsAreBoundaries(b: Batch, j: nat, c: nat)
    requires NestedRunForm(b) && Formed(b) && j < |b.sorted| && c <= b.size
    ensures IsBoundary(Prefixes(Expand(b), |b.sorted|, j), c) <==> c in Bounds(b, j)
  {
    BoundsCumulative(b, j);
    var bounds := Bounds(b, j);
    hide NestedRunForm, Formed, Bounds;
    assert bounds[0] == 0 && bounds[|bounds| - 1] == b.size;
    if 0 < c < b.size {
      AgreeOffBounds(b, j, c);
    }
  }

  // ---------------------------------------------------------------- order

  // Neighbouring rows are in order.
  lemma {:induction false} NeighboursInOrder(b: Batch, j: nat, c: nat)
    requires NestedRunForm(b) && Formed(b) && j <= |b.sorted| && 0 < c < b.size
    requires RowOf(b, c - 1).key[..j] == RowOf(b, c).key[..j]
    ensures !Less(RowOf(b, c).key, RowOf(b, c - 1).key)
    decreases |b.sorted| - j
  {
    hide NestedRunForm, Formed, RowOf, Bounds, Less;
    var p, q := RowOf(b, c - 1).key, RowOf(b, c).key;
    if j == |b.sorted| {
      assert p[..j] == p && q[..j] == q;
      LessTotal(p, p);
    } else {
      if j > 0 {
        AgreeOffBounds(b, j - 1, c);
      }
      ChangesAtCounts(b, j, c);
      if c in Bounds(b, j) {
        LessAt(p, q, j);
      } else {
        PrefixStep(p, q, j);
        NeighboursInOrder(b, j + 1, c);
      }
    }
  }

  lemma {:induction false} RowsInOrder(b: Batch, p: nat, q: nat)
    requires NestedRunForm(b) && Formed(b) && p <= q < b.size
    ensures !Less(RowOf(b, q).key, RowOf(b, p).key)
    decreases q - p
  {
    hide NestedRunForm, Formed;
    if p == q {
      LessTotal(RowOf(b, p).key, RowOf(b, p).key);
    } else {
      RowsInOrder(b, p, q - 1);
      NeighboursInOrder(b, 0, q);
      LessFromTrans(RowOf(b, p).key, RowOf(b, q - 1).key, RowOf(b, q).key, 0);
    }
  }

  lemma {:induction false} ExpandSorted(b: Batch)
    requires NestedRunForm(b) && Formed(b)
    ensures Sorted(Expand(b), |b.sorted|)
  {
    hide NestedRunForm, Formed, Less;
    var rows := Expand(b);
    forall p, q | 0 <= p < q < |rows| ensures !Less(rows[q].key, rows[p].key) {
      RowsInOrder(b, p, q);
    }
  }

  // ---------------------------------------------------------- the encoding

  ghost predicate StrictlyUp(s: seq<nat>) {
    forall i, j :: 0 <= i < j < |s| ==> s[i] < s[j]
  }

  // Increasing sequences with the same elements are equal.
  lemma {:induction false} SameElements(a: seq<nat>, b: seq<nat>)
    requires StrictlyUp(a) && StrictlyUp(b) && forall x :: x in a <==> x in b
    ensures a == b
    decreases |a| + |b|
  {
    if a != [] {
      assert a[0] in a;
    }
    if b != [] {
      assert b[0] in b;
    }
    if a != [] {
      assert a[|a| - 1] in b;
      var m, n := |a| - 1, |b| - 1;
      assert b[n] in a;
      assert a[m] == b[n];
      forall x ensures x in a[..m] <==> x in b[..n] {
        InInit(a, x);
        InInit(b, x);
      }
      SameElements(a[..m], b[..n]);
      assert a == a[..m] + [a[m]] && b == b[..n] + [b[n]];
    }
  }

  lemma {:induction false} InInit(s: seq<nat>, x: nat)
    requires StrictlyUp(s) && s != []
    ensures x in s[..|s| - 1] <==> x in s && x != s[|s| - 1]
  {
    assert s == s[..|s| - 1] + [s[|s| - 1]];
  }

  lemma {:induction false} EndsAreBounds(b: Batch, j: nat)
    requires NestedRunForm(b) && Formed(b) && j < |b.sorted|
    ensures [0] + Ends(Prefixes(Expand(b), |b.sorted|, j)) == Bounds(b, j)
  {
    var s := Prefixes(Expand(b), |b.sorted|, j);
    EndsCumulative(s);
    BoundsCumulative(b, j);
    hide *;
    var e, bounds := [0] + Ends(s), Bounds(b, j);
    forall c: nat ensures c in e <==> c in bounds {
      EndMatches(b, j, c);
    }
    CumulativeUp(e);
    CumulativeUp(bounds);
    SameElements(e, bounds);
  }

  lemma {:induction false} CumulativeUp(counts: seq<nat>)
    requires Cumulative(counts)
    ensures StrictlyUp(counts)
  {
  }

  lemma {:induction false} EndMatches(b: Batch, j: nat, c: nat)
    requires NestedRunForm(b) && Formed(b) && j < |b.sorted|
    ensures c in [0] + Ends(Prefixes(Expand(b), |b.sorted|, j)) <==> c in Bounds(b, j)
  {
    hide *;
    var s := Prefixes(Expand(b), |b.sorted|, j);
    var e, bounds := [0] + Ends(s), Bounds(b, j);
    if c <= b.size {
      BoundsAreBoundaries(b, j, c);
      BoundaryInEnds(s, c);
    } else {
      EndsCumulative(s);
      BoundsCumulative(b, j);
      Within(e, c);
      Within(bounds, c);
    }
  }

  lemma {:induction false} Within(counts: seq<nat>, c: nat)
    requires Cumulative(counts)
    ensures c in counts ==> c <= counts[|counts| - 1]
  {
  }

  lemma {:induction false} BoundaryInEnds<T>(s: seq<T>, c: nat)
    requires c <= |s|
    ensures IsBoundary(s, c) <==> c in [0] + Ends(s)
  {
    hide Ends;
    if c > 0 {
      if IsBoundary(s, c) {
        BoundaryIsEnd(s, c);
      }
      if c in Ends(s) {
        EndIsBoundary(s, c);
      }
      assert c in [0] + Ends(s) <==> c in Ends(s);
    }
  }

  lemma {:induction false} BoundaryIsEnd<T>(s: seq<T>, c: nat)
    requires 0 < c <= |s| && IsBoundary(s, c)
    ensures c in Ends(s)
  {
    EndIndex(s, c);
    hide Ends;
    assert Ends(s)[|Ends(s[..c])| - 1] == c;
  }

  lemma {:induction false} EndIsBoundary<T>(s: seq<T>, c: nat)
    requires c in Ends(s)
    ensures IsBoundary(s, c)
  {
    hide Ends;
    var n :| 0 <= n < |Ends(s)| && Ends(s)[n] == c;
    EndsAreBoundaries(s, n);
  }

  lemma {:induction false} CountedColumnHolds(b: Batch, j: nat)
    requires NestedRunForm(b) && Formed(b) && j < |b.sorted| && Counted(b.sorted[j])
    ensures SortColumnHolds(b.sorted[j], Expand(b), |b.sorted|, j)
  {
    var rows, k, vp := Expand(b), |b.sorted|, b.sorted[j];
    EndsAreBounds(b, j);
    CountsAreOk(b, j);
    hide NestedRunForm, Formed, Ends, Expand;
    var counts := vp.counts.value;
    assert Ends(Prefixes(rows, k, j)) == counts[1..];
    forall n | 0 <= n < vp.length ensures vp.GetDataValue(n) == Vals(rows, k, j)[n] {
      EntryRows(rows, k, j, counts, n);
      EntryIs(counts, counts[n], n);
      assert rows[counts[n]].key[j] == SortValue(vp, counts[n]);
    }
  }

  lemma {:induction false} BoundsShort(b: Batch, j: nat, n: nat)
    requires NestedRunForm(b) && j < |b.sorted|
    requires b.size > 0 ==> n > 0
    requires forall i :: 0 <= i <= j && Counted(b.sorted[i]) ==> b.sorted[i].length <= n
    ensures |Bounds(b, j)| - 1 <= n
  {
    if Counted(b.sorted[j]) {
      CountsAreOk(b, j);
    } else if j > 0 {
      BoundsShort(b, j - 1, n);
    }
  }

  lemma {:induction false} DefaultColumnHolds(b: Batch, j: nat)
    requires NestedRunForm(b) && Formed(b) && j < |b.sorted| && !Counted(b.sorted[j])
    ensures SortColumnHolds(b.sorted[j], Expand(b), |b.sorted|, j)
  {
    EndsAreBounds(b, j);
    BoundsShort(b, j, b.sorted[j].length);
    hide NestedRunForm, Ends, Bounds;
  }

  // A batch in nested run-length form represents its expansion, so the form is
  // exactly what a merge needs of its base and gives back.
  lemma {:induction false} NestedIsRepresented(b: Batch)
    requires NestedRunForm(b) && Formed(b)
    ensures Represents(b, Expand(b))
  {
    ExpandSorted(b);
    forall j | 0 <= j < |b.sorted| ensures SortColumnHolds(b.sorted[j], Expand(b), |b.sorted|, j) {
      if Counted(b.sorted[j]) {
        CountedColumnHolds(b, j);
      } else {
        DefaultColumnHolds(b, j);
      }
    }
    hide NestedRunForm, Sorted, SortColumnHolds;
  }

  // ------------------------------------------------------- and nothing else

  lemma {:induction false} SubsetLength(a: seq<nat>, b: seq<nat>)
    requires StrictlyUp(a) && StrictlyUp(b) && forall x :: x in a ==> x in b
    ensures |a| <= |b|
    decreases |a|
  {
    if a != [] {
      var m := |a| - 1;
      assert a[m] in a;
      var n :| 0 <= n < |b| && b[n] == a[m];
      forall x | x in a[..m] ensures x in b[..n] {
        var i :| 0 <= i < m && a[i] == x;
        assert a[i] in a;
        var t :| 0 <= t < |b| && b[t] == x;
        assert t < n;
        assert b[..n][t] == x;
      }
      SubsetLength(a[..m], b[..n]);
    }
  }

  lemma {:induction false} MoreRuns(rows: seq<Row>, k: nat, i: nat, j: nat)
    requires Keyed(rows, k) && i <= j < k
    ensures |Ends(Prefixes(rows, k, i))| <= |Ends(Prefixes(rows, k, j))|
  {
    var s, t := Prefixes(rows, k, i), Prefixes(rows, k, j);
    EndsCumulative(s);
    EndsCumulative(t);
    hide Ends;
    var a, b := [0] + Ends(s), [0] + Ends(t);
    forall c | c in a ensures c in b {
      Within(a, c);
      BoundaryInEnds(s, c);
      BoundaryNests(rows, k, i, j, c);
      BoundaryInEnds(t, c);
    }
    SubsetLength(a, b);
  }

  lemma {:induction false} RepresentsIsFormed(b: Batch, rows: seq<Row>)
    requires Represents(b, rows)
    ensures Formed(b)
  {
    hide Less, LessFrom, Ends, Vals;
    var k := |b.sorted|;
    forall j | 0 <= j < k ensures SortColumnHolds(b.sorted[j], rows, k, j) {
    }
    forall i, j | 0 <= i < j < k && Counted(b.sorted[i])
           && !Counted(b.sorted[j]) ensures b.sorted[i].length <= b.sorted[j].length {
      MoreRuns(rows, k, i, j);
    }
  }

  // A batch stands for some rows if and only if it is in nested run-length form.
  lemma {:induction false} NestedIffRepresents(b: Batch)
    ensures NestedRunForm(b) && Formed(b) <==> exists rows :: Represents(b, rows)
  {
    hide NestedRunForm, Formed, Represents;
    if NestedRunForm(b) && Formed(b) {
      NestedIsRepresented(b);
    }
    if exists rows :: Represents(b, rows) {
      var rows :| Represents(b, rows);
      RepresentsIsNested(b, rows);
      RepresentsIsFormed(b, rows);
    }
  }
}
