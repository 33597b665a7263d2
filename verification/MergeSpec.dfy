/** What an archive merge has to produce, and the states its column iterators go
    through. `rows` are the rows the base batch represents. */
module MergeSpec {
  import opened DataValues
  import opened Rows
  import opened RunLength
  import opened NestedRuns
  import opened VectorParties

  // The base rows, the deleted base rows, and the sorted patch rows.
  datatype Problem = Problem(k: nat, rows: seq<Row>, deleted: seq<nat>, patch: seq<Row>)
  {
    ghost predicate Ok() {
      && Sorted(rows, k) && Sorted(patch, k)
      && (forall m :: 0 <= m < |deleted| ==> deleted[m] < |rows|)
      && (forall m, n :: 0 <= m < n < |deleted| ==> deleted[m] < deleted[n])
    }

    // The undeleted base rows at positions [lo, hi).
    ghost function Live(lo: nat, hi: nat): (live: seq<Row>)
      requires hi <= |rows|
    {
      if lo >= hi then []
      else Live(lo, hi - 1) + (if hi - 1 in deleted then [] else [rows[hi - 1]])
    }

    ghost function Patch(lo: nat, hi: nat): seq<Row>
      requires hi <= |patch|
    {
      if lo >= hi then [] else patch[lo..hi]
    }

    // The required result: undeleted base rows and patch rows, stably merged.
    ghost function Total(): (m: seq<Row>)
      requires Ok()
    {
      LiveKeyed(0, |rows|);
      MergeRows(Live(0, |rows|), patch, k)
    }

    lemma {:induction false} LiveKeyed(lo: nat, hi: nat)
      requires Keyed(rows, k) && hi <= |rows|
      ensures Keyed(Live(lo, hi), k)
      decreases hi
    {
      if lo < hi {
        LiveKeyed(lo, hi - 1);
      }
    }

    lemma {:induction false} LiveCut(lo: nat, mid: nat, hi: nat)
      requires lo <= mid <= hi <= |rows|
      ensures Live(lo, hi) == Live(lo, mid) + Live(mid, hi)
      decreases hi
    {
      if mid < hi {
        LiveCut(lo, mid, hi - 1);
      }
    }

    // Every undeleted row comes from a position in the range.
    lemma {:induction false} LiveFrom(lo: nat, hi: nat, m: nat)
      requires hi <= |rows| && m < |Live(lo, hi)|
      ensures exists r :: lo <= r < hi && r !in deleted && Live(lo, hi)[m] == rows[r]
      decreases hi
    {
      if hi - 1 !in deleted && m == |Live(lo, hi)| - 1 {
      } else {
        LiveFrom(lo, hi - 1, m);
        assert Live(lo, hi)[m] == Live(lo, hi - 1)[m];
      }
    }

    lemma {:induction false} LiveSorted(lo: nat, hi: nat)
      requires Sorted(rows, k) && hi <= |rows|
      ensures Sorted(Live(lo, hi), k)
      decreases hi
    {
      if lo < hi {
        LiveSorted(lo, hi - 1);
        LiveKeyed(lo, hi);
        if hi - 1 !in deleted {
          var live := Live(lo, hi - 1);
          forall p | 0 <= p < |live| ensures !Less(rows[hi - 1].key, live[p].key) {
            LiveFrom(lo, hi - 1, p);
          }
        }
      }
    }

    // The total is sorted, keeps every undeleted base row and every patch row
    // exactly once, and keeps base rows before patch rows among equal keys.
    lemma {:induction false} TotalIsStableMerge()
      requires Ok()
      ensures Sorted(Total(), k)
      ensures multiset(Total()) == multiset(Live(0, |rows|)) + multiset(patch)
      ensures forall x :: |x| == k ==> WithKey(Total(), x) == WithKey(Live(0, |rows|), x) + WithKey(patch, x)
      ensures |Total()| == |rows| - |deleted| + |patch|
    {
      var live := Live(0, |rows|);
      LiveSorted(0, |rows|);
      LiveCount(0, |rows|, 0, |deleted|);
      MergeSorts(live, patch, k);
      MergePermutes(live, patch, k);
      forall x | |x| == k ensures WithKey(Total(), x) == WithKey(live, x) + WithKey(patch, x) {
        MergeStable(live, patch, k, x);
      }
    }

    // n is the number of deleted positions below c.
    ghost predicate Below(n: nat, c: nat) {
      && n <= |deleted|
      && (forall m :: 0 <= m < n ==> deleted[m] < c)
      && (forall m :: n <= m < |deleted| ==> c <= deleted[m])
    }

    // Deleted-row cursors count the undeleted rows of a range.
    lemma {:induction false} LiveCount(lo: nat, hi: nat, nLo: nat, nHi: nat)
      requires Ok() && lo <= hi <= |rows|
      requires Below(nLo, lo) && Below(nHi, hi)
      ensures nLo <= nHi && |Live(lo, hi)| == hi - lo - (nHi - nLo)
      decreases hi
    {
      assert nLo > 0 ==> deleted[nLo - 1] < hi;
      if lo == hi {
        assert nHi > 0 ==> deleted[nHi - 1] < lo;
      } else if hi - 1 in deleted {
        assert deleted[nHi - 1] == hi - 1 by {
          var m :| 0 <= m < |deleted| && deleted[m] == hi - 1;
          assert m < nHi;
        }
        LiveCount(lo, hi - 1, nLo, nHi - 1);
      } else {
        assert forall m :: 0 <= m < nHi ==> deleted[m] < hi - 1;
        LiveCount(lo, hi - 1, nLo, nHi);
      }
    }

    ghost function Prefix(j: nat): seq<seq<DataValue>>
      requires Keyed(rows, k) && j < k
    {
      Prefixes(rows, k, j)
    }
  }

  // ------------------------------------------------------- base iterators

  datatype BaseIterator = BaseIterator(
    vp: VectorParty, idx: nat, currentCount: nat, nextCount: nat, endCount: nat, val: DataValue,
    rowsDeletedStart: nat, rowsDeletedEnd: nat)
  {
    predicate Done() {
      idx >= vp.length || currentCount >= endCount
    }

    function Count(): int {
      nextCount - currentCount - (rowsDeletedEnd - rowsDeletedStart)
    }

    // Between two runs: the cursors agree with the rows consumed so far.
    ghost predicate Rest(g: Problem, j: nat)
      requires g.Ok() && j < g.k
    {
      && SortColumnHolds(vp, g.rows, g.k, j)
      && currentCount <= |g.rows| && IsBoundary(g.Prefix(j), currentCount)
      && idx <= |Ends(g.Prefix(j)[..currentCount])|
      && (vp.columnMode == HasCountVector ==> idx == |Ends(g.Prefix(j)[..currentCount])|)
      && g.Below(rowsDeletedEnd, currentCount)
    }

    // A run has been read: rows [currentCount, nextCount) hold `val`.
    ghost predicate Loaded(g: Problem, j: nat)
      requires g.Ok() && j < g.k
    {
      && SortColumnHolds(vp, g.rows, g.k, j)
      && currentCount < nextCount <= endCount <= |g.rows|
      && idx < vp.length
      && IsBoundary(g.Prefix(j), currentCount) && IsBoundary(g.Prefix(j), nextCount)
      && idx + 1 <= |Ends(g.Prefix(j)[..nextCount])|
      && (vp.columnMode == HasCountVector ==> idx + 1 == |Ends(g.Prefix(j)[..nextCount])|)
      && g.Below(rowsDeletedStart, currentCount) && g.Below(rowsDeletedEnd, nextCount)
      && (forall r :: currentCount <= r < nextCount ==> g.rows[r].key[j] == val)
    }
  }

  // The run that starts at a boundary c ends by every later boundary.
  lemma {:induction false} RunFrom(g: Problem, j: nat, c: nat, end: nat) returns (n: nat, e: nat)
    requires g.Ok() && j < g.k
    requires c < end <= |g.rows| && IsBoundary(g.Prefix(j), c) && IsBoundary(g.Prefix(j), end)
    ensures n == |Ends(g.Prefix(j)[..c])| < |Ends(g.Prefix(j))| && e == Ends(g.Prefix(j))[n]
    ensures c < e <= end && IsBoundary(g.Prefix(j), e) && |Ends(g.Prefix(j)[..e])| == n + 1
    ensures forall r :: c <= r < e ==> g.rows[r].key[j] == Vals(g.rows, g.k, j)[n]
  {
    var s := g.Prefix(j);
    RunAt(s, c);
    n := |Ends(s[..c])|;
    e := Ends(s)[n];
    RunWithin(s, c, n, e, end);
    RunValue(g.rows, g.k, j, c, n, e);
    EndsAreBoundaries(s, n);
  }

  // The count an iterator at rest takes next, if it is to stop at `end`.
  function NextCount(it: BaseIterator, end: nat): nat
    requires it.vp.Allocated() && it.idx < it.vp.length
  {
    if it.vp.columnMode == HasCountVector then it.vp.counts.value[it.idx + 1] else end
  }

  // At rest before the end position, the iterator still has an entry to read, and
  // the next count it takes ends a run of rows holding that entry's value.
  lemma {:induction false} RestHasEntry(it: BaseIterator, g: Problem, j: nat, end: nat)
    requires g.Ok() && j < g.k && it.Rest(g, j)
    requires it.currentCount < end <= |g.rows| && IsBoundary(g.Prefix(j), end)
    ensures it.idx < it.vp.length
    ensures var e := NextCount(it, end);
            && it.currentCount < e <= end && IsBoundary(g.Prefix(j), e)
            && it.idx + 1 <= |Ends(g.Prefix(j)[..e])|
            && (it.vp.columnMode == HasCountVector ==> it.idx + 1 == |Ends(g.Prefix(j)[..e])|)
            && forall r :: it.currentCount <= r < e ==> g.rows[r].key[j] == it.vp.GetDataValue(it.idx)
  {
    var n, e := RunFrom(g, j, it.currentCount, end);
    if it.vp.columnMode == HasCountVector {
      CountVectorEntry(it.vp, g, j, n);
      assert NextCount(it, end) == e;
    } else {
      RestReachesFurther(g.Prefix(j), it.currentCount, end);
    }
  }

  lemma {:induction false} CountVectorEntry(vp: VectorParty, g: Problem, j: nat, n: nat)
    requires g.Ok() && j < g.k && SortColumnHolds(vp, g.rows, g.k, j)
    requires vp.columnMode == HasCountVector && n < |Ends(g.Prefix(j))|
    ensures n < vp.length && vp.counts.value[n + 1] == Ends(g.Prefix(j))[n]
    ensures vp.GetDataValue(n) == Vals(g.rows, g.k, j)[n]
  {
  }

  lemma {:induction false} RestReachesFurther<T>(s: seq<T>, c: nat, end: nat)
    requires c < end <= |s| && IsBoundary(s, c) && IsBoundary(s, end)
    ensures |Ends(s[..c])| < |Ends(s[..end])|
  {
    var t := s[..end];
    assert t[..c] == s[..c];
    EncodingPrefix(t, c);
  }

  // Undeleted rows of a run hold the run's value, and later undeleted rows that
  // share the first j columns hold strictly larger ones.
  lemma {:induction false} RunSeparates(g: Problem, j: nat, c: nat, e: nat, hi: nat, x: seq<DataValue>)
    requires g.Ok() && j < g.k
    requires c < e <= hi <= |g.rows| && IsBoundary(g.Prefix(j), e)
    requires Keyed(g.Live(c, hi), g.k)
    requires forall m :: 0 <= m < |g.Live(c, hi)| ==> g.Live(c, hi)[m].key[..j] == x
    ensures Keyed(g.Live(c, e), g.k) && Keyed(g.Live(e, hi), g.k)
    ensures forall m, n :: 0 <= m < |g.Live(c, e)| && 0 <= n < |g.Live(e, hi)| ==>
              Compare(g.Live(c, e)[m].key[j], g.Live(e, hi)[n].key[j]) < 0
  {
    g.LiveKeyed(c, e);
    g.LiveKeyed(e, hi);
    g.LiveCut(c, e, hi);
    forall m, n | 0 <= m < |g.Live(c, e)| && 0 <= n < |g.Live(e, hi)|
      ensures Compare(g.Live(c, e)[m].key[j], g.Live(e, hi)[n].key[j]) < 0
    {
      g.LiveFrom(c, e, m);
      g.LiveFrom(e, hi, n);
      var p :| c <= p < e && p !in g.deleted && g.Live(c, e)[m] == g.rows[p];
      var q :| e <= q < hi && q !in g.deleted && g.Live(e, hi)[n] == g.rows[q];
      assert g.Live(c, hi)[m] == g.rows[p];
      assert g.Live(c, hi)[|g.Live(c, e)| + n] == g.rows[q];
      assert g.Prefix(j)[e - 1] != g.Prefix(j)[e];
      ColumnIncreases(g.rows, g.k, j, p, e, q);
    }
  }

  // ------------------------------------------------------ patch iterators

  datatype PatchIterator = PatchIterator(idx: nat, nextIdx: nat, endIdx: nat, val: DataValue)
  {
    predicate Done() {
      idx >= endIdx
    }

    function Count(): int {
      nextIdx - idx
    }

    ghost predicate Rest(g: Problem) {
      idx == nextIdx <= |g.patch|
    }

    ghost predicate Loaded(g: Problem, j: nat)
      requires g.Ok() && j < g.k
    {
      && idx < nextIdx <= endIdx <= |g.patch|
      && (forall r :: idx <= r < nextIdx ==> g.patch[r].key[j] == val)
      && (nextIdx < endIdx ==> g.patch[nextIdx].key[j] != val)
    }
  }

  // Later patch rows that share the first j columns hold strictly larger values.
  lemma {:induction false} PatchSeparates(it: PatchIterator, g: Problem, j: nat, x: seq<DataValue>)
    requires g.Ok() && j < g.k && it.Loaded(g, j)
    requires forall r :: it.idx <= r < it.endIdx ==> g.patch[r].key[..j] == x
    ensures forall p, q :: it.idx <= p < it.nextIdx <= q < it.endIdx ==>
              Compare(g.patch[p].key[j], g.patch[q].key[j]) < 0
  {
    forall p, q | it.idx <= p < it.nextIdx <= q < it.endIdx
      ensures Compare(g.patch[p].key[j], g.patch[q].key[j]) < 0
    {
      var a, b := g.patch[it.nextIdx - 1].key, g.patch[it.nextIdx].key;
      assert a[..j + 1][j] == a[j] && b[..j + 1][j] == b[j];
      ColumnIncreases(g.patch, g.k, j, p, it.nextIdx, q);
    }
  }
}
