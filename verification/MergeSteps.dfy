/** One level of the recursive merge: what is left to merge, and why taking one
    run from the base, the patch or both is a step of the stable merge. */
module MergeSteps {
  import opened DataValues
  import opened Rows
  import opened RunLength
  import opened NestedRuns
  import opened VectorParties
  import opened MergeSpec

  ghost predicate AllPrefixed(rows: seq<Row>, n: nat, x: seq<DataValue>) {
    forall r :: 0 <= r < |rows| ==> n <= |rows[r].key| && rows[r].key[..n] == x
  }

  // Every row of a holds a smaller value in column i than every row of b.
  ghost predicate Under(a: seq<Row>, b: seq<Row>, i: nat) {
    forall m, n :: 0 <= m < |a| && 0 <= n < |b| ==>
      i < |a[m].key| && i < |b[n].key| && Compare(a[m].key[i], b[n].key[i]) < 0
  }

  // None of these rows continues the last run of o in column n - 1.
  ghost predicate Differs(o: seq<Row>, rest: seq<Row>, n: nat) {
    o != [] ==>
      && n <= |o[|o| - 1].key|
      && forall r :: 0 <= r < |rest| ==> n <= |rest[r].key| && rest[r].key[..n] != o[|o| - 1].key[..n]
  }

  lemma {:induction false} MergeAllPrefixed(bs: seq<Row>, ps: seq<Row>, k: nat, n: nat, x: seq<DataValue>)
    requires Keyed(bs, k) && Keyed(ps, k) && n <= k
    requires AllPrefixed(bs, n, x) && AllPrefixed(ps, n, x)
    ensures AllPrefixed(MergeRows(bs, ps, k), n, x)
    decreases |bs| + |ps|
  {
    if bs == [] || ps == [] {
    } else if Less(ps[0].key, bs[0].key) {
      MergeAllPrefixed(bs, ps[1..], k, n, x);
    } else {
      MergeAllPrefixed(bs[1..], ps, k, n, x);
    }
  }

  // A cut by the values of column i, inside rows sharing the first i columns.
  lemma {:induction false} StepCut(b1: seq<Row>, b2: seq<Row>, p1: seq<Row>, p2: seq<Row>, k: nat, i: nat,
      x: seq<DataValue>)
    requires Keyed(b1, k) && Keyed(b2, k) && Keyed(p1, k) && Keyed(p2, k) && i < k
    requires AllPrefixed(b1, i, x) && AllPrefixed(b2, i, x) && AllPrefixed(p1, i, x) && AllPrefixed(p2, i, x)
    requires Under(p1, b2, i) && Under(b1, p2, i)
    ensures MergeRows(b1 + b2, p1 + p2, k) == MergeRows(b1, p1, k) + MergeRows(b2, p2, k)
  {
    forall p, b | 0 <= p < |p1| && 0 <= b < |b2| ensures Less(p1[p].key, b2[b].key) {
      LessAt(p1[p].key, b2[b].key, i);
    }
    forall p, b | 0 <= p < |p2| && 0 <= b < |b1| ensures !Less(p2[p].key, b1[b].key) {
      LessAt(b1[b].key, p2[p].key, i);
    }
    MergeCut(b1, b2, p1, p2, k);
  }

  // ------------------------------------------------------------ one level

  // The invariant of the loops on level i, with bs and ps left to merge: the rows
  // written so far and the rows left give the target; all rows left share the
  // first i columns, and none continues the last run written.
  ghost predicate Level(k: nat, i: nat, x: seq<DataValue>, total: seq<Row>, target: seq<Row>,
                        bs: seq<Row>, ps: seq<Row>, o: seq<Row>) {
    && i < k && Keyed(bs, k) && Keyed(ps, k) && Keyed(o, k)
    && o + MergeRows(bs, ps, k) == target && target <= total
    && AllPrefixed(bs, i, x) && AllPrefixed(ps, i, x)
    && Differs(o, bs, i + 1) && Differs(o, ps, i + 1)
  }

  // Entering level i: nothing left there continues the previous group.
  lemma {:induction false} LevelEnter(k: nat, i: nat, x: seq<DataValue>, total: seq<Row>, bs: seq<Row>,
      ps: seq<Row>, o: seq<Row>)
    requires i < k && Keyed(bs, k) && Keyed(ps, k) && Keyed(o, k)
    requires o + MergeRows(bs, ps, k) <= total
    requires AllPrefixed(bs, i, x) && AllPrefixed(ps, i, x)
    requires o != [] ==> o[|o| - 1].key[..i] != x
    ensures Level(k, i, x, total, o + MergeRows(bs, ps, k), bs, ps, o)
  {
    if o != [] {
      var l := o[|o| - 1].key;
      assert l[..i + 1][..i] == l[..i];
      forall r | 0 <= r < |bs| ensures bs[r].key[..i + 1] != l[..i + 1] {
        assert bs[r].key[..i + 1][..i] == x;
      }
      forall r | 0 <= r < |ps| ensures ps[r].key[..i + 1] != l[..i + 1] {
        assert ps[r].key[..i + 1][..i] == x;
      }
    }
  }

  // The values of column i of every row in `rows` satisfy the comparison with v.
  ghost predicate AllHold(rows: seq<Row>, i: nat, v: DataValue) {
    forall r :: 0 <= r < |rows| ==> i < |rows[r].key| && rows[r].key[i] == v
  }

  ghost predicate AllAbove(rows: seq<Row>, i: nat, v: DataValue) {
    forall r :: 0 <= r < |rows| ==> i < |rows[r].key| && Compare(v, rows[r].key[i]) < 0
  }

  // The two inputs split at value v of column i.
  ghost predicate SplitsAt(k: nat, i: nat, v: DataValue,
                           b1: seq<Row>, b2: seq<Row>, p1: seq<Row>, p2: seq<Row>) {
    && Keyed(b1, k) && Keyed(b2, k) && Keyed(p1, k) && Keyed(p2, k)
    && AllHold(b1, i, v) && AllHold(p1, i, v) && AllAbove(b2, i, v) && AllAbove(p2, i, v)
  }

  lemma {:induction false} HoldPrefixed(rows: seq<Row>, i: nat, x: seq<DataValue>, v: DataValue)
    requires AllPrefixed(rows, i, x) && AllHold(rows, i, v)
    ensures AllPrefixed(rows, i + 1, x + [v])
  {
    forall r | 0 <= r < |rows| ensures rows[r].key[..i + 1] == x + [v] {
      assert rows[r].key[..i + 1] == rows[r].key[..i] + [rows[r].key[i]];
    }
  }

  lemma {:induction false} AboveDiffers(o: seq<Row>, rows: seq<Row>, i: nat, x: seq<DataValue>, v: DataValue)
    requires AllAbove(rows, i, v) && |x| == i
    requires o != [] && i + 1 <= |o[|o| - 1].key| && o[|o| - 1].key[..i + 1] == x + [v]
    ensures Differs(o, rows, i + 1)
  {
    forall r | 0 <= r < |rows| ensures rows[r].key[..i + 1] != o[|o| - 1].key[..i + 1] {
      assert rows[r].key[..i + 1][i] == rows[r].key[i];
      assert (x + [v])[i] == v;
    }
  }

  // The block of rows with value v is one run, and it is next in the output.
  lemma {:induction false} LevelBlock(k: nat, i: nat, x: seq<DataValue>, total: seq<Row>, target: seq<Row>, o: seq<Row>,
                   v: DataValue, b1: seq<Row>, b2: seq<Row>, p1: seq<Row>, p2: seq<Row>)
    requires Level(k, i, x, total, target, b1 + b2, p1 + p2, o)
    requires SplitsAt(k, i, v, b1, b2, p1, p2) && b1 + p1 != []
    ensures AllPrefixed(b1, i + 1, x + [v]) && AllPrefixed(p1, i + 1, x + [v])
    ensures AllPrefixed(MergeRows(b1, p1, k), i + 1, x + [v])
    ensures o != [] ==> o[|o| - 1].key[..i + 1] != x + [v]
    ensures o + MergeRows(b1, p1, k) + MergeRows(b2, p2, k) == target
  {
    assert AllPrefixed(b1, i, x) by {
      assert forall r :: 0 <= r < |b1| ==> (b1 + b2)[r] == b1[r];
    }
    assert AllPrefixed(p1, i, x) by {
      assert forall r :: 0 <= r < |p1| ==> (p1 + p2)[r] == p1[r];
    }
    HoldPrefixed(b1, i, x, v);
    HoldPrefixed(p1, i, x, v);
    MergeAllPrefixed(b1, p1, k, i + 1, x + [v]);
    LevelCut(k, i, x, v, b1, b2, p1, p2);
    assert o + (MergeRows(b1, p1, k) + MergeRows(b2, p2, k)) == o + MergeRows(b1, p1, k) + MergeRows(b2, p2, k);
    if b1 != [] {
      assert (b1 + b2)[0] == b1[0];
    } else {
      assert (p1 + p2)[0] == p1[0];
    }
  }

  lemma {:induction false} LevelCut(k: nat, i: nat, x: seq<DataValue>, v: DataValue,
                 b1: seq<Row>, b2: seq<Row>, p1: seq<Row>, p2: seq<Row>)
    requires i < k && SplitsAt(k, i, v, b1, b2, p1, p2)
    requires AllPrefixed(b1 + b2, i, x) && AllPrefixed(p1 + p2, i, x)
    ensures Keyed(b1 + b2, k) && Keyed(p1 + p2, k)
    ensures AllPrefixed(b2, i, x) && AllPrefixed(p2, i, x)
    ensures MergeRows(b1 + b2, p1 + p2, k) == MergeRows(b1, p1, k) + MergeRows(b2, p2, k)
  {
    assert forall r :: 0 <= r < |b1| ==> (b1 + b2)[r] == b1[r];
    assert forall r :: 0 <= r < |b2| ==> (b1 + b2)[|b1| + r] == b2[r];
    assert forall r :: 0 <= r < |p1| ==> (p1 + p2)[r] == p1[r];
    assert forall r :: 0 <= r < |p2| ==> (p1 + p2)[|p1| + r] == p2[r];
    StepCut(b1, b2, p1, p2, k, i, x);
  }

  // After the block is written, the level goes on with what is left.
  lemma {:induction false} LevelNext(k: nat, i: nat, x: seq<DataValue>, total: seq<Row>, target: seq<Row>, o: seq<Row>,
                  v: DataValue, b1: seq<Row>, b2: seq<Row>, p1: seq<Row>, p2: seq<Row>)
    requires Level(k, i, x, total, target, b1 + b2, p1 + p2, o)
    requires SplitsAt(k, i, v, b1, b2, p1, p2) && b1 + p1 != []
    ensures Level(k, i, x, total, target, b2, p2, o + MergeRows(b1, p1, k))
  {
    LevelBlock(k, i, x, total, target, o, v, b1, b2, p1, p2);
    LevelCut(k, i, x, v, b1, b2, p1, p2);
    var block := MergeRows(b1, p1, k);
    var o' := o + block;
    assert o'[|o'| - 1] == block[|block| - 1];
    assert |x| == i by {
      var r := if b1 != [] then b1[0] else p1[0];
      assert b1 != [] ==> (b1 + b2)[0] == r;
      assert b1 == [] ==> (p1 + p2)[0] == r;
    }
    AboveDiffers(o', b2, i, x, v);
    AboveDiffers(o', p2, i, x, v);
  }

  // ------------------------------------------------------- iterator states

  ghost predicate BaseReady(b: BaseIterator, g: Problem, i: nat)
    requires g.Ok() && i < g.k
  {
    && b.endCount <= |g.rows| && IsBoundary(g.Prefix(i), b.endCount)
    && (b.Loaded(g, i) || (b.Rest(g, i) && b.currentCount >= b.endCount))
  }

  ghost predicate PatchReady(p: PatchIterator, g: Problem, i: nat)
    requires g.Ok() && i < g.k
  {
    && p.endIdx <= |g.patch|
    && (p.Loaded(g, i) || (p.Rest(g) && p.idx >= p.endIdx))
  }

  // Reading at rest loads the run, given the deleted-row cursor of its end.
  lemma {:induction false} BaseLoads(b: BaseIterator, g: Problem, i: nat)
    requires g.Ok() && i < g.k && b.Rest(g, i) && !b.Done()
    requires b.endCount <= |g.rows| && IsBoundary(g.Prefix(i), b.endCount)
    ensures b.currentCount < NextCount(b, b.endCount)
    ensures forall m :: 0 <= m < b.rowsDeletedEnd ==> g.deleted[m] < NextCount(b, b.endCount)
    ensures forall end: nat :: g.Below(end, NextCount(b, b.endCount)) ==>
              b.(nextCount := NextCount(b, b.endCount), rowsDeletedStart := b.rowsDeletedEnd,
                 rowsDeletedEnd := end, val := b.vp.GetDataValue(b.idx)).Loaded(g, i)
  {
    RestHasEntry(b, g, i, b.endCount);
  }

  // Undeleted rows [c, e) of one run, followed by those up to hi on this level.
  lemma {:induction false} LiveRun(g: Problem, i: nat, c: nat, e: nat, hi: nat, x: seq<DataValue>, v: DataValue)
    requires g.Ok() && i < g.k && c < e <= hi <= |g.rows|
    requires IsBoundary(g.Prefix(i), e)
    requires AllPrefixed(g.Live(c, hi), i, x)
    requires forall r :: c <= r < e ==> g.rows[r].key[i] == v
    ensures g.Live(c, hi) == g.Live(c, e) + g.Live(e, hi)
    ensures Keyed(g.Live(c, e), g.k) && Keyed(g.Live(e, hi), g.k)
    ensures AllHold(g.Live(c, e), i, v)
    ensures g.Live(c, e) != [] ==> AllAbove(g.Live(e, hi), i, v)
  {
    g.LiveKeyed(c, hi);
    g.LiveCut(c, e, hi);
    RunSeparates(g, i, c, e, hi, x);
    forall m | 0 <= m < |g.Live(c, e)| ensures g.Live(c, e)[m].key[i] == v {
      g.LiveFrom(c, e, m);
    }
    if g.Live(c, e) != [] {
      assert g.Live(c, e)[0].key[i] == v;
    }
  }

  // The run a loaded base iterator is at, and the rows after it on this level.
  lemma {:induction false} BaseRun(b: BaseIterator, g: Problem, i: nat, x: seq<DataValue>)
    requires g.Ok() && i < g.k && b.Loaded(g, i)
    requires AllPrefixed(g.Live(b.currentCount, b.endCount), i, x)
    ensures b.Count() == |g.Live(b.currentCount, b.nextCount)|
    ensures g.Live(b.currentCount, b.endCount) == g.Live(b.currentCount, b.nextCount) + g.Live(b.nextCount, b.endCount)
    ensures Keyed(g.Live(b.currentCount, b.nextCount), g.k) && Keyed(g.Live(b.nextCount, b.endCount), g.k)
    ensures AllHold(g.Live(b.currentCount, b.nextCount), i, b.val)
    ensures b.Count() > 0 ==> AllAbove(g.Live(b.nextCount, b.endCount), i, b.val)
  {
    g.LiveCount(b.currentCount, b.nextCount, b.rowsDeletedStart, b.rowsDeletedEnd);
    LiveRun(g, i, b.currentCount, b.nextCount, b.endCount, x, b.val);
  }

  // The same for a loaded patch iterator.
  lemma {:induction false} PatchRun(p: PatchIterator, g: Problem, i: nat, x: seq<DataValue>)
    requires g.Ok() && i < g.k && p.Loaded(g, i)
    requires AllPrefixed(g.Patch(p.idx, p.endIdx), i, x)
    ensures p.Count() == |g.Patch(p.idx, p.nextIdx)| > 0
    ensures g.Patch(p.idx, p.endIdx) == g.Patch(p.idx, p.nextIdx) + g.Patch(p.nextIdx, p.endIdx)
    ensures Keyed(g.Patch(p.idx, p.nextIdx), g.k) && Keyed(g.Patch(p.nextIdx, p.endIdx), g.k)
    ensures AllHold(g.Patch(p.idx, p.nextIdx), i, p.val)
    ensures AllAbove(g.Patch(p.nextIdx, p.endIdx), i, p.val)
  {
    assert forall r :: p.idx <= r < p.endIdx ==> g.patch[r] == g.Patch(p.idx, p.endIdx)[r - p.idx];
    PatchSeparates(p, g, i, x);
    assert g.patch[p.idx].key[i] == p.val;
  }

  // What the merge action covers for comparison result res: the base run if
  // res >= 0, the patch run if res <= 0.
  ghost predicate Outcome(g: Problem, i: nat, b: BaseIterator, p: PatchIterator, res: int)
    requires g.Ok() && i < g.k
  {
    && (b.Loaded(g, i) ==> b.Count() > 0)
    && (res >= 0 ==> b.Loaded(g, i)) && (res <= 0 ==> p.Loaded(g, i))
    && (b.Loaded(g, i) && p.Loaded(g, i) ==>
          (res < 0 <==> Compare(p.val, b.val) < 0) && (res == 0 <==> p.val == b.val))
  }

  function RunValueOf(b: BaseIterator, p: PatchIterator, res: int): DataValue {
    if res < 0 then p.val else b.val
  }

  ghost function TakenBase(g: Problem, b: BaseIterator, res: int): seq<Row>
    requires res >= 0 ==> b.nextCount <= |g.rows|
  {
    if res >= 0 then g.Live(b.currentCount, b.nextCount) else []
  }

  ghost function LeftBase(g: Problem, b: BaseIterator, res: int): seq<Row>
    requires b.endCount <= |g.rows|
  {
    g.Live(if res >= 0 then b.nextCount else b.currentCount, b.endCount)
  }

  ghost function TakenPatch(g: Problem, p: PatchIterator, res: int): seq<Row>
    requires res <= 0 ==> p.nextIdx <= |g.patch|
  {
    if res <= 0 then g.Patch(p.idx, p.nextIdx) else []
  }

  ghost function LeftPatch(g: Problem, p: PatchIterator, res: int): seq<Row>
    requires p.endIdx <= |g.patch|
  {
    g.Patch(if res <= 0 then p.nextIdx else p.idx, p.endIdx)
  }

  lemma {:induction false} AboveLower(a: seq<Row>, rows: seq<Row>, i: nat, v: DataValue, w: DataValue)
    requires AllHold(a, i, v) && AllAbove(rows, i, v) && Compare(w, v) < 0
    ensures AllAbove(a + rows, i, w)
  {
  }

  // The taken runs hold one value, everything left on the level is above it.
  lemma {:induction false} TakenSplits(g: Problem, i: nat, x: seq<DataValue>, b: BaseIterator, p: PatchIterator,
      res: int)
    requires g.Ok() && i < g.k && BaseReady(b, g, i) && PatchReady(p, g, i) && Outcome(g, i, b, p, res)
    requires AllPrefixed(g.Live(b.currentCount, b.endCount), i, x)
    requires AllPrefixed(g.Patch(p.idx, p.endIdx), i, x)
    ensures g.Live(b.currentCount, b.endCount) == TakenBase(g, b, res) + LeftBase(g, b, res)
    ensures g.Patch(p.idx, p.endIdx) == TakenPatch(g, p, res) + LeftPatch(g, p, res)
    ensures TakenBase(g, b, res) + TakenPatch(g, p, res) != []
    ensures |TakenBase(g, b, res)| == if res >= 0 then b.Count() else 0
    ensures |TakenPatch(g, p, res)| == if res <= 0 then p.Count() else 0
    ensures SplitsAt(g.k, i, RunValueOf(b, p, res), TakenBase(g, b, res), LeftBase(g, b, res),
                     TakenPatch(g, p, res), LeftPatch(g, p, res))
  {
    hide Sorted, SortColumnHolds, Ends;
    BaseSide(g, i, x, b, RunValueOf(b, p, res), res >= 0);
    PatchSide(g, i, x, p, RunValueOf(b, p, res), res <= 0);
    if res >= 0 {
      BaseRun(b, g, i, x);
    } else {
      PatchRun(p, g, i, x);
    }
  }

  lemma {:induction false} BaseSide(g: Problem, i: nat, x: seq<DataValue>, b: BaseIterator, v: DataValue, take: bool)
    requires g.Ok() && i < g.k && BaseReady(b, g, i)
    requires AllPrefixed(g.Live(b.currentCount, b.endCount), i, x)
    requires b.Loaded(g, i) ==> b.Count() > 0 && (if take then v == b.val else Compare(v, b.val) < 0)
    requires take ==> b.Loaded(g, i)
    ensures var b1 := if take then g.Live(b.currentCount, b.nextCount) else [];
            var b2 := g.Live(if take then b.nextCount else b.currentCount, b.endCount);
            && g.Live(b.currentCount, b.endCount) == b1 + b2 && |b1| == (if take then b.Count() else 0)
            && Keyed(b1, g.k) && Keyed(b2, g.k) && AllHold(b1, i, v) && AllAbove(b2, i, v)
  {
    g.LiveKeyed(b.currentCount, b.endCount);
    if b.Loaded(g, i) {
      BaseRun(b, g, i, x);
      if !take {
        AboveLower(g.Live(b.currentCount, b.nextCount), g.Live(b.nextCount, b.endCount), i, b.val, v);
      }
    }
  }

  lemma {:induction false} PatchSide(g: Problem, i: nat, x: seq<DataValue>, p: PatchIterator, v: DataValue, take: bool)
    requires g.Ok() && i < g.k && PatchReady(p, g, i)
    requires AllPrefixed(g.Patch(p.idx, p.endIdx), i, x)
    requires p.Loaded(g, i) ==> (if take then v == p.val else Compare(v, p.val) < 0)
    requires take ==> p.Loaded(g, i)
    ensures var p1 := if take then g.Patch(p.idx, p.nextIdx) else [];
            var p2 := g.Patch(if take then p.nextIdx else p.idx, p.endIdx);
            && g.Patch(p.idx, p.endIdx) == p1 + p2 && |p1| == (if take then p.Count() else 0)
            && Keyed(p1, g.k) && Keyed(p2, g.k) && AllHold(p1, i, v) && AllAbove(p2, i, v)
  {
    if p.Loaded(g, i) {
      PatchRun(p, g, i, x);
      if !take {
        AboveLower(g.Patch(p.idx, p.nextIdx), g.Patch(p.nextIdx, p.endIdx), i, p.val, v);
      }
    }
  }

  // The rows bs and ps merge into one run of column i, next after o in the output.
  ghost predicate NextRun(k: nat, i: nat, x: seq<DataValue>, bs: seq<Row>, ps: seq<Row>,
                          o: seq<Row>, total: seq<Row>) {
    && i < k && Keyed(bs, k) && Keyed(ps, k) && Keyed(o, k) && Keyed(total, k)
    && bs + ps != [] && AllPrefixed(bs, i + 1, x) && AllPrefixed(ps, i + 1, x)
    && AllPrefixed(MergeRows(bs, ps, k), i + 1, x)
    && (o != [] ==> o[|o| - 1].key[..i + 1] != x)
    && o + MergeRows(bs, ps, k) <= total
  }

  lemma {:induction false} NextRunPrefixes(k: nat, i: nat, x: seq<DataValue>, bs: seq<Row>, ps: seq<Row>,
      o: seq<Row>, total: seq<Row>)
    requires NextRun(k, i, x, bs, ps, o, total)
    ensures AllAre(Prefixes(MergeRows(bs, ps, k), k, i), x) && MergeRows(bs, ps, k) != []
    ensures o != [] ==> Prefixes(o, k, i)[|o| - 1] != x
  {
  }

  lemma {:induction false} TakenNextRun(g: Problem, i: nat, x: seq<DataValue>, target: seq<Row>,
                     b: BaseIterator, p: PatchIterator, o: seq<Row>, res: int)
    requires g.Ok() && i < g.k && BaseReady(b, g, i) && PatchReady(p, g, i) && Outcome(g, i, b, p, res)
    requires Keyed(g.Total(), g.k)
    requires Level(g.k, i, x, g.Total(), target, g.Live(b.currentCount, b.endCount), g.Patch(p.idx, p.endIdx), o)
    ensures NextRun(g.k, i, x + [RunValueOf(b, p, res)], TakenBase(g, b, res), TakenPatch(g, p, res), o, g.Total())
    ensures |TakenBase(g, b, res)| == if res >= 0 then b.Count() else 0
    ensures |TakenPatch(g, p, res)| == if res <= 0 then p.Count() else 0
  {
    TakenSplits(g, i, x, b, p, res);
    var b1, b2, p1, p2 := TakenBase(g, b, res), LeftBase(g, b, res), TakenPatch(g, p, res), LeftPatch(g, p, res);
    LevelBlock(g.k, i, x, g.Total(), target, o, RunValueOf(b, p, res), b1, b2, p1, p2);
    RunFits(o, MergeRows(b1, p1, g.k), MergeRows(b2, p2, g.k), target, g.Total());
  }

  lemma {:induction false} RunFits(o: seq<Row>, block: seq<Row>, left: seq<Row>, target: seq<Row>, total: seq<Row>)
    requires o + block + left == target && target <= total
    ensures o + block <= total
  {
  }

  // With all columns equal, base rows come before patch rows.
  lemma {:induction false} LastRun(k: nat, i: nat, x: seq<DataValue>, bs: seq<Row>, ps: seq<Row>, o: seq<Row>,
      total: seq<Row>)
    requires NextRun(k, i, x, bs, ps, o, total) && i + 1 == k
    ensures MergeRows(bs, ps, k) == bs + ps
  {
    assert forall r :: 0 <= r < |bs| ==> bs[r].key[..k] == bs[r].key;
    assert forall r :: 0 <= r < |ps| ==> ps[r].key[..k] == ps[r].key;
    MergeEqualKeys(bs, ps, k);
  }
}
