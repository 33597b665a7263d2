/** Binary-search slicing of sort columns by a prefilter value. */
module Slicing {
  import opened Common
  import opened DataValues
  import opened Rows
  import opened RunLength
  import opened NestedRuns
  import opened VectorParties
  import opened NestedForm

  ghost predicate SortedRange(v: seq<int>, first: nat, last: nat)
    requires last <= |v|
  {
    forall a, b :: first <= a < b < last ==> v[a] <= v[b]
  }

  // First index in [first, last) whose element is not less than value. When
  // only the first element may be out of order, the others are still split and
  // the first is looked at only if none of them is less than value.
  method LowerBound(v: seq<int>, first: nat, last: nat, value: int) returns (i: nat)
    requires first <= last <= |v|
    ensures first <= i <= last
    ensures SortedRange(v, first, last) ==>
              (forall m :: first <= m < i ==> v[m] < value) && (forall m :: i <= m < last ==> v[m] >= value)
    ensures SortedRange(v, first + 1, last) ==>
              (forall m :: first < m < i ==> v[m] < value) && (forall m :: first < m < last && i <= m ==> v[m] >= value)
    ensures first < last ==> (i == first ==> v[first] >= value) && (i == first + 1 ==> v[first] < value)
  {
    var lo, hi := first, last;
    while lo < hi
      invariant first <= lo <= hi <= last
      invariant SortedRange(v, first, last) ==>
                  (forall m :: first <= m < lo ==> v[m] < value) && (forall m :: hi <= m < last ==> v[m] >= value)
      invariant SortedRange(v, first + 1, last) ==>
                  (forall m :: first < m < lo ==> v[m] < value)
                  && (forall m :: first < m < last && hi <= m ==> v[m] >= value)
      invariant hi == first < last ==> v[first] >= value
      invariant lo == first + 1 ==> hi == lo && v[first] < value
    {
      var mid := (hi + lo) / 2;
      if v[mid] >= value {
        hi := mid;
      } else {
        lo := mid + 1;
      }
    }
    i := lo;
  }

  // First index in [first, last) whose element is greater than value, with the
  // same provision for the first element.
  method UpperBound(v: seq<int>, first: nat, last: nat, value: int) returns (i: nat)
    requires first <= last <= |v|
    ensures first <= i <= last
    ensures SortedRange(v, first, last) ==>
              (forall m :: first <= m < i ==> v[m] <= value) && (forall m :: i <= m < last ==> v[m] > value)
    ensures SortedRange(v, first + 1, last) ==>
              (forall m :: first < m < i ==> v[m] <= value) && (forall m :: first < m < last && i <= m ==> v[m] > value)
    ensures first < last ==> (i == first ==> v[first] > value) && (i == first + 1 ==> v[first] <= value)
  {
    var lo, hi := first, last;
    while lo < hi
      invariant first <= lo <= hi <= last
      invariant SortedRange(v, first, last) ==>
                  (forall m :: first <= m < lo ==> v[m] <= value) && (forall m :: hi <= m < last ==> v[m] > value)
      invariant SortedRange(v, first + 1, last) ==>
                  (forall m :: first < m < lo ==> v[m] <= value)
                  && (forall m :: first < m < last && hi <= m ==> v[m] > value)
      invariant hi == first < last ==> v[first] > value
      invariant lo == first + 1 ==> hi == lo && v[first] <= value
    {
      var mid := (hi + lo) / 2;
      if v[mid] > value {
        hi := mid;
      } else {
        lo := mid + 1;
      }
    }
    i := lo;
  }

  // [si, ei) is what the two searches select from the entries [s, e), of which
  // only the first may be out of order: the others by their value, the first
  // when none of the others is below the value and it, or the one behind it,
  // holds it.
  ghost predicate Selected(v: seq<int>, s: nat, e: nat, value: int, si: nat, ei: nat)
    requires e <= |v|
  {
    && s <= si <= ei <= e
    && (forall n :: s < n < e ==> (si <= n < ei <==> v[n] == value))
    && (s < e ==> (si <= s < ei <==>
          && v[s] >= value && (s + 1 < e ==> v[s + 1] >= value)
          && (v[s] == value || (s + 1 < e && v[s + 1] == value))))
  }

  // The entries [si, ei) selected from [s, e) by the value.
  method SelectValue(v: seq<int>, s: nat, e: nat, value: int) returns (si: nat, ei: nat)
    requires s <= e <= |v|
    ensures s <= si <= ei <= e
    ensures SortedRange(v, s + 1, e) ==> Selected(v, s, e, value, si, ei)
  {
    si := LowerBound(v, s, e, value);
    ei := UpperBound(v, si, e, value);
  }

  // What the entries [s, e) of a column with counts are to the rows [lo, hi).
  ghost predicate Covers(counts: seq<nat>, lo: nat, hi: nat, s: nat, e: nat) {
    && s <= e < |counts|
    && counts[s] <= lo && (s + 1 < |counts| ==> lo < counts[s + 1])
    && (hi <= counts[e] || e + 1 == |counts|) && (s < e ==> counts[e - 1] < hi)
  }

  // The entries [s, e) that rows [lo, hi) fall into; without counts, the rows.
  method SliceIndex(vp: VectorParty, lo: nat, hi: nat) returns (s: nat, e: nat)
    requires vp.Allocated() && lo <= hi
    requires vp.columnMode == HasCountVector ==> Cumulative(vp.counts.value)
    ensures vp.columnMode == HasCountVector ==> Covers(vp.counts.value, lo, hi, s, e)
    ensures vp.columnMode != HasCountVector ==> s == lo && e == hi
  {
    if vp.columnMode != HasCountVector {
      return lo, hi;
    }
    var counts: seq<int> := vp.counts.value;
    s := UpperBound(counts, 0, |counts|, lo);
    assert counts[0] <= lo;
    s := s - 1;
    e := LowerBound(counts, s, |counts|, hi);
    if e == |counts| {
      e := e - 1;
    }
  }

  // The entries [s, e) that SliceByValue looks at, and those it returns.
  ghost predicate SlicedTo(vp: VectorParty, lo: nat, hi: nat, value: int, s: nat, e: nat, si: nat, ei: nat) {
    && vp.Allocated() && vp.columnMode == HasCountVector
    && Covers(vp.counts.value, lo, hi, s, e)
    && s <= si <= ei <= e
    && (SortedRange(vp.values.value, s + 1, e) ==> Selected(vp.values.value, s, e, value, si, ei))
  }

  // The subrange of rows [lo, hi) holding the value, as rows and as entries.
  method SliceByValue(vp: VectorParty, lo: nat, hi: nat, value: int)
    returns (startRow: nat, endRow: nat, startIndex: nat, endIndex: nat, ghost s: nat, ghost e: nat)
    requires vp.Allocated() && lo <= hi
    requires vp.columnMode == HasCountVector ==> Cumulative(vp.counts.value)
    requires vp.columnMode == AllValuesPresent || vp.columnMode == HasNullVector ==> hi <= vp.length
    ensures vp.columnMode == AllValuesDefault ==>
              startIndex == startRow && endIndex == endRow == hi
              && startRow == if vp.defaultValue == Valid(value) then lo else hi
    ensures vp.columnMode == HasCountVector ==>
              && SlicedTo(vp, lo, hi, value, s, e, startIndex, endIndex)
              && startRow == vp.counts.value[startIndex] && endRow == vp.counts.value[endIndex]
    ensures vp.columnMode == AllValuesPresent || vp.columnMode == HasNullVector ==>
              && startIndex == startRow && endIndex == endRow && lo <= startRow <= hi && lo <= endRow <= hi
              && (SortedRange(vp.values.value, lo, hi) ==>
                    forall r :: lo <= r < hi ==> (startRow <= r < endRow <==> vp.values.value[r] == value))
  {
    s, e := 0, 0;
    if vp.columnMode == AllValuesDefault {
      if vp.defaultValue == Valid(value) {
        return lo, hi, lo, hi, s, e;
      }
      return hi, hi, hi, hi, s, e;
    } else if vp.columnMode == HasCountVector {
      startIndex, endIndex := SliceIndex(vp, lo, hi);
      s, e := startIndex, endIndex;
      startIndex, endIndex := SelectValue(vp.values.value, startIndex, endIndex, value);
      startRow, endRow := vp.counts.value[startIndex], vp.counts.value[endIndex];
    } else {
      startRow := LowerBound(vp.values.value, lo, hi, value);
      endRow := UpperBound(vp.values.value, lo, hi, value);
      startIndex, endIndex := startRow, endRow;
    }
  }

  // The value of one row of a sort column, whatever its mode.
  method GetDataValueByRow(vp: VectorParty, row: nat, ghost rows: seq<Row>, ghost k: nat, ghost j: nat)
    returns (v: DataValue)
    requires Keyed(rows, k) && j < k && SortColumnHolds(vp, rows, k, j) && row < |rows|
    ensures v == rows[row].key[j]
  {
    var offset := row;
    if vp.columnMode == HasCountVector {
      ColumnRunForm(vp, rows, k, j);
      hide SortColumnHolds, IsBoundary, Prefixes;
      var counts: seq<int> := vp.counts.value;
      offset := UpperBound(counts, 0, |counts|, row);
      assert counts[0] <= row && counts[|counts| - 1] > row;
      offset := offset - 1;
      assert vp.counts.value[offset] <= row < vp.counts.value[offset + 1];
    }
    v := vp.GetDataValue(offset);
  }

  // ------------------------------------------------------- chained slicing

  // The row holds the given values in the first j sort columns.
  ghost predicate Matches(row: Row, vals: seq<int>, j: nat) {
    j <= |vals| && j <= |row.key| && forall i :: 0 <= i < j ==> row.key[i] == Valid(vals[i])
  }

  // [lo, hi) is what a linear scan for the first j values selects.
  ghost predicate SelectsExactly(rows: seq<Row>, vals: seq<int>, j: nat, lo: nat, hi: nat) {
    && lo <= hi <= |rows|
    && forall r :: 0 <= r < |rows| ==> (lo <= r < hi <==> Matches(rows[r], vals, j))
  }

  // lo and hi are run boundaries of the columns already sliced.
  ghost predicate Aligned(rows: seq<Row>, k: nat, j: nat, lo: nat, hi: nat)
    requires Keyed(rows, k) && j <= k
  {
    if j == 0 then lo == 0 && hi == |rows|
    else hi <= |rows| && lo <= hi && IsBoundary(Prefixes(rows, k, j - 1), lo)
         && IsBoundary(Prefixes(rows, k, j - 1), hi)
  }

  lemma {:induction false} SharedPrefix(rows: seq<Row>, k: nat, vals: seq<int>, j: nat, lo: nat, hi: nat, p: nat,
      q: nat)
    requires Keyed(rows, k) && j <= k && SelectsExactly(rows, vals, j, lo, hi)
    requires lo <= p < hi && lo <= q < hi
    ensures rows[p].key[..j] == rows[q].key[..j]
  {
    assert Matches(rows[p], vals, j) && Matches(rows[q], vals, j);
  }

  lemma {:induction false} AlignedNext(rows: seq<Row>, k: nat, j: nat, lo: nat, hi: nat)
    requires Keyed(rows, k) && j < k && Aligned(rows, k, j, lo, hi)
    ensures IsBoundary(Prefixes(rows, k, j), lo) && IsBoundary(Prefixes(rows, k, j), hi)
  {
    if j > 0 {
      BoundaryNests(rows, k, j - 1, j, lo);
      BoundaryNests(rows, k, j - 1, j, hi);
    }
  }

  // The entries between two aligned boundaries cover the rows between them.
  lemma {:induction false} AlignedEntries(counts: seq<nat>, lo: nat, hi: nat, s: nat, e: nat)
    requires Cumulative(counts) && lo in counts && hi in counts && lo <= hi
    requires Covers(counts, lo, hi, s, e)
    ensures counts[s] == lo && counts[e] == hi
  {
    var a :| 0 <= a < |counts| && counts[a] == lo;
    var b :| 0 <= b < |counts| && counts[b] == hi;
    assert a == s;
    assert b == e;
  }

  // Inside a selected range the entries have strictly increasing values.
  lemma {:induction false} EntriesIncrease(rows: seq<Row>, k: nat, counts: seq<nat>, dvs: seq<DataValue>,
      vals: seq<int>, j: nat, lo: nat, hi: nat, s: nat, e: nat, a: nat, b: nat)
    requires Keyed(rows, k) && Sorted(rows, k) && j < k && RunForm(rows, k, j, counts, dvs)
    requires SelectsExactly(rows, vals, j, lo, hi)
    requires s <= a < b < e < |counts| && counts[s] == lo && counts[e] == hi
    ensures Compare(dvs[a], dvs[b]) < 0
    decreases b - a
  {
    hide Sorted, SelectsExactly, IsBoundary, Prefixes;
    var c := counts[b];
    assert counts[s] < c < counts[e] <= |rows|;
    SharedPrefix(rows, k, vals, j, lo, hi, c - 1, c);
    NeighboursIncrease(rows, k, j, counts, dvs, b - 1);
    if a < b - 1 {
      EntriesIncrease(rows, k, counts, dvs, vals, j, lo, hi, s, e, a, b - 1);
    }
  }

  // Narrowing a selected range to the entries holding the next value selects
  // exactly the rows that also match that value.
  lemma {:induction false} NarrowExact(rows: seq<Row>, k: nat, counts: seq<nat>, dvs: seq<DataValue>,
      vals: seq<int>, j: nat, lo: nat, hi: nat, s: nat, e: nat, si: nat, ei: nat)
    requires Keyed(rows, k) && j < k && j < |vals| && RunForm(rows, k, j, counts, dvs)
    requires SelectsExactly(rows, vals, j, lo, hi)
    requires s <= si <= ei <= e < |counts| && counts[s] == lo && counts[e] == hi
    requires forall n :: s <= n < e ==> (si <= n < ei <==> dvs[n] == Valid(vals[j]))
    ensures SelectsExactly(rows, vals, j + 1, counts[si], counts[ei])
  {
    hide IsBoundary, Prefixes;
    forall r | 0 <= r < |rows|
      ensures counts[si] <= r < counts[ei] <==> Matches(rows[r], vals, j + 1)
    {
      assert Matches(rows[r], vals, j + 1) <==> Matches(rows[r], vals, j) && rows[r].key[j] == Valid(vals[j]);
      if lo <= r < hi {
        var n := EntryOfRow(counts, s, e, r);
        assert rows[r].key[j] == dvs[n];
      }
    }
  }

  lemma {:induction false} AlignedRange(rows: seq<Row>, k: nat, j: nat, counts: seq<nat>, dvs: seq<DataValue>,
      lo: nat, hi: nat, s: nat, e: nat)
    requires Keyed(rows, k) && j < k && RunForm(rows, k, j, counts, dvs) && Aligned(rows, k, j, lo, hi)
    requires Covers(counts, lo, hi, s, e)
    ensures counts[s] == lo && counts[e] == hi
  {
    AlignedNext(rows, k, j, lo, hi);
    assert lo in counts && hi in counts;
    AlignedEntries(counts, lo, hi, s, e);
  }

  lemma {:induction false} CountsAligned(rows: seq<Row>, k: nat, j: nat, counts: seq<nat>, dvs: seq<DataValue>,
      si: nat, ei: nat)
    requires Keyed(rows, k) && j < k && RunForm(rows, k, j, counts, dvs) && si <= ei < |counts|
    ensures Aligned(rows, k, j + 1, counts[si], counts[ei])
  {
    assert counts[si] <= counts[ei] <= counts[|dvs|];
  }

  // ------------------------------------------------------------ null runs

  // Some row of those matching the first j values has a null next, no other
  // next value is below the one asked for, and that is zero, or negative and
  // the next value of one of those rows.
  ghost predicate NullCaught(rows: seq<Row>, k: nat, vals: seq<int>, j: nat)
    requires Keyed(rows, k) && j < k && j < |vals|
  {
    && vals[j] <= 0
    && (exists r :: 0 <= r < |rows| && Matches(rows[r], vals, j) && rows[r].key[j].Null?)
    && (forall r :: 0 <= r < |rows| && Matches(rows[r], vals, j) && rows[r].key[j].Valid? ==>
          rows[r].key[j].v >= vals[j])
    && (vals[j] == 0 || exists r :: 0 <= r < |rows| && Matches(rows[r], vals, j) && rows[r].key[j] == Valid(vals[j]))
  }

  // The same of the entries [s, e) of the matching rows.
  ghost predicate EntryCaught(dvs: seq<DataValue>, s: nat, e: nat, value: int)
    requires s <= e <= |dvs|
  {
    && s < e && dvs[s].Null? && value <= 0
    && (s + 1 < e ==> dvs[s + 1].Valid? && dvs[s + 1].v >= value)
    && (value == 0 || (s + 1 < e && dvs[s + 1] == Valid(value)))
  }

  lemma {:induction false} CaughtIsNull(dvs: seq<DataValue>, s: nat, e: nat, value: int)
    requires s <= e <= |dvs| && EntryCaught(dvs, s, e, value)
    ensures s < e && dvs[s].Null?
  {
  }

  // Only the first entry of a selected range can be null.
  lemma {:induction false} NullFirst(rows: seq<Row>, k: nat, counts: seq<nat>, dvs: seq<DataValue>, vals: seq<int>,
      j: nat, lo: nat, hi: nat, s: nat, e: nat)
    requires Keyed(rows, k) && Sorted(rows, k) && j < k && RunForm(rows, k, j, counts, dvs)
    requires SelectsExactly(rows, vals, j, lo, hi)
    requires s <= e < |counts| && counts[s] == lo && counts[e] == hi
    ensures forall n :: s < n < e ==> dvs[n].Valid?
    ensures forall a, b :: s < a < b < e ==> dvs[a].v < dvs[b].v
  {
    forall n | s < n < e ensures dvs[n].Valid? {
      EntriesIncrease(rows, k, counts, dvs, vals, j, lo, hi, s, e, s, n);
    }
    forall a, b | s < a < b < e ensures dvs[a].v < dvs[b].v {
      EntriesIncrease(rows, k, counts, dvs, vals, j, lo, hi, s, e, a, b);
    }
  }

  // The rows of one entry of a selected range match and hold its value.
  lemma {:induction false} EntryMatches(rows: seq<Row>, k: nat, counts: seq<nat>, dvs: seq<DataValue>, vals: seq<int>,
      j: nat, lo: nat, hi: nat, s: nat, e: nat, n: nat)
    requires Keyed(rows, k) && j < k && RunForm(rows, k, j, counts, dvs) && SelectsExactly(rows, vals, j, lo, hi)
    requires s <= n < e < |counts| && counts[s] == lo && counts[e] == hi
    ensures lo <= counts[n] < hi <= |rows| && Matches(rows[counts[n]], vals, j) && rows[counts[n]].key[j] == dvs[n]
  {
    hide IsBoundary, Prefixes;
    assert counts[s] <= counts[n] < counts[n + 1] <= counts[e];
  }

  // Every matching row is in an entry of the range.
  lemma {:induction false} RowEntry(rows: seq<Row>, k: nat, counts: seq<nat>, dvs: seq<DataValue>, vals: seq<int>,
      j: nat, lo: nat, hi: nat, s: nat, e: nat, r: nat) returns (n: nat)
    requires Keyed(rows, k) && j < k && RunForm(rows, k, j, counts, dvs) && SelectsExactly(rows, vals, j, lo, hi)
    requires s <= e < |counts| && counts[s] == lo && counts[e] == hi && r < |rows| && Matches(rows[r], vals, j)
    ensures s <= n < e && rows[r].key[j] == dvs[n] && counts[n] <= r < counts[n + 1]
  {
    hide IsBoundary, Prefixes;
    n := EntryOfRow(counts, s, e, r);
  }

  // The null is caught exactly when its entry is.
  lemma {:induction false} CaughtEntry(rows: seq<Row>, k: nat, counts: seq<nat>, dvs: seq<DataValue>, vals: seq<int>,
      j: nat, lo: nat, hi: nat, s: nat, e: nat)
    requires Keyed(rows, k) && Sorted(rows, k) && j < k && j < |vals| && RunForm(rows, k, j, counts, dvs)
    requires SelectsExactly(rows, vals, j, lo, hi)
    requires s <= e < |counts| && counts[s] == lo && counts[e] == hi
    ensures NullCaught(rows, k, vals, j) <==> EntryCaught(dvs, s, e, vals[j])
  {
    hide RunForm, Sorted, SelectsExactly, IsBoundary, Prefixes, Matches, NullCaught, EntryCaught;
    RunFormSize(rows, k, j, counts, dvs);
    if NullCaught(rows, k, vals, j) {
      CaughtHasEntry(rows, k, counts, dvs, vals, j, lo, hi, s, e);
    }
    if EntryCaught(dvs, s, e, vals[j]) {
      EntryIsCaught(rows, k, counts, dvs, vals, j, lo, hi, s, e);
    }
  }

  lemma {:induction false} RunFormSize(rows: seq<Row>, k: nat, j: nat, counts: seq<nat>, dvs: seq<DataValue>)
    requires Keyed(rows, k) && j < k && RunForm(rows, k, j, counts, dvs)
    ensures |counts| == |dvs| + 1
  {
  }

  lemma {:induction false} CaughtHasEntry(rows: seq<Row>, k: nat, counts: seq<nat>, dvs: seq<DataValue>, vals: seq<int>,
      j: nat, lo: nat, hi: nat, s: nat, e: nat)
    requires Keyed(rows, k) && Sorted(rows, k) && j < k && j < |vals| && RunForm(rows, k, j, counts, dvs)
    requires SelectsExactly(rows, vals, j, lo, hi)
    requires s <= e < |counts| && counts[s] == lo && counts[e] == hi
    requires NullCaught(rows, k, vals, j)
    ensures EntryCaught(dvs, s, e, vals[j])
  {
    hide RunForm, Sorted, SelectsExactly, IsBoundary, Prefixes, Matches;
    RunFormSize(rows, k, j, counts, dvs);
    NullFirst(rows, k, counts, dvs, vals, j, lo, hi, s, e);
    var r :| 0 <= r < |rows| && Matches(rows[r], vals, j) && rows[r].key[j].Null?;
    var n := RowEntry(rows, k, counts, dvs, vals, j, lo, hi, s, e, r);
    if s + 1 < e {
      EntryMatches(rows, k, counts, dvs, vals, j, lo, hi, s, e, s + 1);
    }
    if vals[j] != 0 {
      var q :| 0 <= q < |rows| && Matches(rows[q], vals, j) && rows[q].key[j] == Valid(vals[j]);
      var m := RowEntry(rows, k, counts, dvs, vals, j, lo, hi, s, e, q);
    }
  }

  lemma {:induction false} EntryIsCaught(rows: seq<Row>, k: nat, counts: seq<nat>, dvs: seq<DataValue>, vals: seq<int>,
      j: nat, lo: nat, hi: nat, s: nat, e: nat)
    requires Keyed(rows, k) && Sorted(rows, k) && j < k && j < |vals| && RunForm(rows, k, j, counts, dvs)
    requires SelectsExactly(rows, vals, j, lo, hi)
    requires s <= e < |counts| && counts[s] == lo && counts[e] == hi
    requires |counts| == |dvs| + 1 && EntryCaught(dvs, s, e, vals[j])
    ensures NullCaught(rows, k, vals, j)
  {
    hide RunForm, Sorted, SelectsExactly, IsBoundary, Prefixes, Matches;
    NullFirst(rows, k, counts, dvs, vals, j, lo, hi, s, e);
    EntryMatches(rows, k, counts, dvs, vals, j, lo, hi, s, e, s);
    if vals[j] != 0 {
      EntryMatches(rows, k, counts, dvs, vals, j, lo, hi, s, e, s + 1);
    }
    forall r | 0 <= r < |rows| && Matches(rows[r], vals, j)
           && rows[r].key[j].Valid? ensures rows[r].key[j].v >= vals[j] {
      var n := RowEntry(rows, k, counts, dvs, vals, j, lo, hi, s, e, r);
    }
  }

  lemma {:induction false} NullBreaksSlice(rows: seq<Row>, k: nat, vals: seq<int>, j: nat, counts: seq<nat>,
      dvs: seq<DataValue>, si: nat, ei: nat, n: nat)
    requires Keyed(rows, k) && j < k && j < |vals| && RunForm(rows, k, j, counts, dvs)
    requires si <= n < ei < |counts| && dvs[n].Null?
    ensures !SelectsExactly(rows, vals, j + 1, counts[si], counts[ei])
  {
    assert counts[si] <= counts[n] < counts[n + 1] <= counts[ei] <= counts[|dvs|];
    assert !Matches(rows[counts[n]], vals, j + 1);
  }

  // On a column that may hold nulls, one call keeps the range exact if and only
  // if the searches do not catch a null.
  lemma {:induction false} SliceWithNulls(vp: VectorParty, rows: seq<Row>, k: nat, vals: seq<int>, j: nat, lo: nat,
      hi: nat, s: nat, e: nat, si: nat, ei: nat)
    requires Keyed(rows, k) && Sorted(rows, k) && j < k && j < |vals| && SortColumnHolds(vp, rows, k, j)
    requires SelectsExactly(rows, vals, j, lo, hi) && Aligned(rows, k, j, lo, hi)
    requires SlicedTo(vp, lo, hi, vals[j], s, e, si, ei)
    ensures SelectsExactly(rows, vals, j + 1, vp.counts.value[si], vp.counts.value[ei])
            <==> !NullCaught(rows, k, vals, j)
    ensures Aligned(rows, k, j + 1, vp.counts.value[si], vp.counts.value[ei])
  {
    hide Sorted, SelectsExactly, IsBoundary, Prefixes, Ends, Vals, RunForm, Aligned, SortColumnHolds, Cumulative,
         NullCaught, Covers, Matches;
    var counts, dvs := vp.counts.value, Reads(vp, vp.length);
    ColumnRunForm(vp, rows, k, j);
    ColumnZeroed(vp, rows, k, j);
    CoversRange(counts, lo, hi, s, e);
    AlignedRange(rows, k, j, counts, dvs, lo, hi, s, e);
    NullFirst(rows, k, counts, dvs, vals, j, lo, hi, s, e);
    CaughtEntry(rows, k, counts, dvs, vals, j, lo, hi, s, e);
    CountsAligned(rows, k, j, counts, dvs, si, ei);
    if s + 1 < e {
      EntriesIncrease(rows, k, counts, dvs, vals, j, lo, hi, s, e, s, s + 1);
    }
    EntriesSelected(vp, vals[j], s, e, si, ei);
    hide EntryCaught, Selected, SortedRange;
    if NullCaught(rows, k, vals, j) {
      CaughtIsNull(dvs, s, e, vals[j]);
      NullBreaksSlice(rows, k, vals, j, counts, dvs, si, ei, s);
    } else {
      NarrowExact(rows, k, counts, dvs, vals, j, lo, hi, s, e, si, ei);
    }
  }

  lemma {:induction false} ColumnZeroed(vp: VectorParty, rows: seq<Row>, k: nat, j: nat)
    requires Keyed(rows, k) && j < k && SortColumnHolds(vp, rows, k, j) && vp.columnMode == HasCountVector
    ensures vp.Allocated() && vp.NullsZeroed()
  {
  }

  lemma {:induction false} CoversRange(counts: seq<nat>, lo: nat, hi: nat, s: nat, e: nat)
    requires Covers(counts, lo, hi, s, e)
    ensures s <= e < |counts|
  {
  }

  // What the searches select, in terms of the values read.
  lemma {:induction false} EntriesSelected(vp: VectorParty, value: int, s: nat, e: nat, si: nat, ei: nat)
    requires vp.Allocated() && vp.columnMode == HasCountVector && s <= e <= vp.length && vp.NullsZeroed()
    requires SortedRange(vp.values.value, s + 1, e) ==> Selected(vp.values.value, s, e, value, si, ei)
    requires forall n :: s < n < e ==> Reads(vp, vp.length)[n].Valid?
    requires forall a, b :: s < a < b < e ==> Reads(vp, vp.length)[a].v < Reads(vp, vp.length)[b].v
    requires s + 1 < e ==> Compare(Reads(vp, vp.length)[s], Reads(vp, vp.length)[s + 1]) < 0
    ensures var dvs := Reads(vp, vp.length);
            if EntryCaught(dvs, s, e, value) then si <= s < ei
            else forall n :: s <= n < e ==> (si <= n < ei <==> dvs[n] == Valid(value))
  {
    var dvs, v := Reads(vp, vp.length), vp.values.value;
    assert forall n :: s < n < e ==> dvs[n] == Valid(v[n]);
    assert SortedRange(v, s + 1, e);
    if s < e {
      assert dvs[s] == vp.GetDataValue(s);
    }
  }

  // A slice by -5 of the rows null and -5 returns both.
  lemma {:induction false} NegativeSliceCatchesNull(si: nat, ei: nat)
    requires SlicedTo(NullAndNegative(), 0, 2, -5, 0, 2, si, ei)
    ensures SortColumnHolds(NullAndNegative(), NullAndNegativeRows(), 1, 0)
    ensures NullCaught(NullAndNegativeRows(), 1, [-5], 0) && si == 0 && ei == 2
  {
    var rows := NullAndNegativeRows();
    assert rows[0].key[..1] == [Null] && rows[1].key[..1] == [Valid(-5)];
    assert Prefixes(rows, 1, 0) == [[Null], [Valid(-5)]];
    TwoRuns<seq<DataValue>>([Null], [Valid(-5)]);
    assert Matches(rows[0], [-5], 0) && Matches(rows[1], [-5], 0);
  }

  lemma {:induction false} TwoRuns<T>(a: T, b: T)
    requires a != b
    ensures Ends([a, b]) == [1, 2]
  {
  }

  ghost function NullAndNegative(): VectorParty {
    VectorParty(HasCountVector, 2, 1, Null, Some([0, -5]), Some([false, true]), Some([0, 1, 2]))
  }

  ghost function NullAndNegativeRows(): seq<Row> {
    [Row([Null], []), Row([Valid(-5)], [])]
  }

  // ------------------------------------------------------------- the chain

  // The column can be sliced exactly inside the rows matching the values before.
  ghost predicate Sliceable(vp: VectorParty, rows: seq<Row>, k: nat, vals: seq<int>, j: nat)
    requires Keyed(rows, k) && j < k && j < |vals| && vp.Allocated()
  {
    vp.columnMode == HasCountVector ==> !NullCaught(rows, k, vals, j)
  }

  // Every row of an all-default column holds the default.
  lemma {:induction false} SliceDefault(vp: VectorParty, rows: seq<Row>, k: nat, vals: seq<int>, j: nat, lo: nat,
      hi: nat)
    requires Keyed(rows, k) && j < k && j < |vals| && SortColumnHolds(vp, rows, k, j)
             && vp.columnMode == AllValuesDefault
    requires SelectsExactly(rows, vals, j, lo, hi) && Aligned(rows, k, j, lo, hi)
    ensures var start := if vp.defaultValue == Valid(vals[j]) then lo else hi;
            SelectsExactly(rows, vals, j + 1, start, hi) && Aligned(rows, k, j + 1, start, hi)
  {
    AlignedNext(rows, k, j, lo, hi);
    hide IsBoundary, Prefixes, Ends;
    forall r | 0 <= r < |rows|
      ensures Matches(rows[r], vals, j + 1) <==> Matches(rows[r], vals, j) && vp.defaultValue == Valid(vals[j])
    {
    }
  }

  lemma {:induction false} RangeOrdered(rows: seq<Row>, vals: seq<int>, j: nat, lo: nat, hi: nat)
    requires SelectsExactly(rows, vals, j, lo, hi)
    ensures lo <= hi <= |rows|
  {
  }

  lemma {:induction false} WholeRange(rows: seq<Row>, k: nat, vals: seq<int>)
    requires Keyed(rows, k)
    ensures SelectsExactly(rows, vals, 0, 0, |rows|) && Aligned(rows, k, 0, 0, |rows|)
  {
  }

  lemma {:induction false} SortedIsKeyed(rows: seq<Row>, k: nat)
    requires Sorted(rows, k)
    ensures Keyed(rows, k)
  {
  }

  lemma {:induction false} ColumnMode(vp: VectorParty, rows: seq<Row>, k: nat, j: nat)
    requires Keyed(rows, k) && j < k && SortColumnHolds(vp, rows, k, j)
    ensures vp.Allocated() && (vp.columnMode == HasCountVector || vp.columnMode == AllValuesDefault)
    ensures vp.columnMode == HasCountVector ==> Cumulative(vp.counts.value)
  {
    EndsCumulative(Prefixes(rows, k, j));
  }

  // One link of the chain: slicing sort column j inside a selected range.
  method SliceColumn(vp: VectorParty, vals: seq<int>, j: nat, lo: nat, hi: nat, ghost rows: seq<Row>, ghost k: nat)
    returns (startRow: nat, endRow: nat)
    requires Keyed(rows, k) && Sorted(rows, k) && j < k && j < |vals|
    requires SortColumnHolds(vp, rows, k, j) && vp.Allocated() && Sliceable(vp, rows, k, vals, j)
    requires SelectsExactly(rows, vals, j, lo, hi) && Aligned(rows, k, j, lo, hi)
    ensures SelectsExactly(rows, vals, j + 1, startRow, endRow) && Aligned(rows, k, j + 1, startRow, endRow)
  {
    hide Sorted, SelectsExactly, Aligned, SortColumnHolds, Cumulative, SortedRange, NullCaught, SlicedTo;
    RangeOrdered(rows, vals, j, lo, hi);
    ColumnMode(vp, rows, k, j);
    var si, ei;
    ghost var s, e;
    startRow, endRow, si, ei, s, e := SliceByValue(vp, lo, hi, vals[j]);
    if vp.columnMode == HasCountVector {
      SliceWithNulls(vp, rows, k, vals, j, lo, hi, s, e, si, ei);
    } else {
      SliceDefault(vp, rows, k, vals, j, lo, hi);
    }
  }

  ghost predicate PrefixSliceable(batch: Batch, rows: seq<Row>, vals: seq<int>) {
    && Represents(batch, rows) && |vals| <= |batch.sorted|
    && forall j :: 0 <= j < |vals| ==> Sliceable(batch.sorted[j], rows, |batch.sorted|, vals, j)
  }

  // Slicing by one value per leading sort column, each call narrowing the
  // range the previous one returned, finds what a linear scan finds.
  method SliceByPrefix(batch: Batch, vals: seq<int>, ghost rows: seq<Row>) returns (lo: nat, hi: nat)
    requires PrefixSliceable(batch, rows, vals)
    ensures SelectsExactly(rows, vals, |vals|, lo, hi)
  {
    hide Sorted, SortColumnHolds, UnsortedColumnHolds, Sliceable, SelectsExactly, Aligned;
    ghost var k := |batch.sorted|;
    SortedIsKeyed(rows, k);
    WholeRange(rows, k, vals);
    lo, hi := 0, batch.size;
    var j := 0;
    while j < |vals|
      invariant j <= |vals|
      invariant SelectsExactly(rows, vals, j, lo, hi)
      invariant Aligned(rows, k, j, lo, hi)
    {
      ColumnMode(batch.sorted[j], rows, k, j);
      lo, hi := SliceColumn(batch.sorted[j], vals, j, lo, hi, rows, k);
      j := j + 1;
    }
  }
}
