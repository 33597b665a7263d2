/** The archive merge: two passes of one recursion over the sort columns. The first
    pass counts the runs each merged sort column needs, the second writes them. */
module Merge {
  import opened DataValues
  import opened Rows
  import opened RunLength
  import opened NestedRuns
  import opened DefaultCounts
  import opened VectorParties
  import opened MergeSpec
  import opened MergeOutput
  import opened MergeSteps
  import NestedForm

  // The merge action in force: count runs, or write them.
  datatype Pass = PreAllocate | Write

  datatype Reader = BaseReader | PatchReader

  ghost predicate LevelsRest(bi: seq<BaseIterator>, pi: seq<PatchIterator>, g: Problem, i: nat)
    requires g.Ok()
  {
    && |bi| == g.k && |pi| == g.k
    && forall j :: i <= j < g.k ==> bi[j].Rest(g, j) && pi[j].Rest(g)
  }

  // Deeper iterators may lag behind, but only over deleted rows.
  ghost predicate Chain(bi: seq<BaseIterator>, pi: seq<PatchIterator>, g: Problem, i: nat) {
    && |bi| == g.k && |pi| == g.k
    && forall j, l :: i <= j < l < g.k ==>
         && bi[l].currentCount <= bi[j].currentCount <= |g.rows|
         && g.Live(bi[l].currentCount, bi[j].currentCount) == []
         && pi[l].idx == pi[j].idx
  }

  ghost predicate OutsEqual(out: seq<seq<Row>>, k: nat, i: nat) {
    |out| == k + 1 && forall j :: i <= j <= k ==> out[j] == out[i]
  }

  // First pass: the lengths counted so far.
  ghost predicate Counted(lengths: seq<nat>, out: seq<seq<Row>>, k: nat) {
    && |lengths| == k && |out| == k + 1
    && forall j :: 0 <= j < k ==> Keyed(out[j], k) && lengths[j] == |Ends(Prefixes(out[j], k, j))|
  }

  // Second pass: the sort columns written so far.
  ghost predicate SortsWritten(cols: seq<VectorParty>, begins: seq<nat>, counts: seq<nat>, out: seq<seq<Row>>,
                               defaults: seq<DataValue>, total: seq<Row>, k: nat)
    requires Keyed(total, k)
  {
    && |cols| == k && |begins| == k && |counts| == k && |defaults| == k && |out| == k + 1
    && forall j :: 0 <= j < k ==>
         && Keyed(out[j], k)
         && SortWritten(cols[j], begins[j], counts[j], out[j], defaults[j], k, j)
         && cols[j].length == |Ends(Prefixes(total, k, j))|
  }

  // Second pass: the unsorted columns written so far; deleted ones stay unallocated.
  ghost predicate RestsWritten(cols: seq<VectorParty>, begins: seq<nat>, rows: seq<Row>,
                               defaults: seq<DataValue>, deletions: seq<bool>, size: nat) {
    && |cols| == |begins| == |defaults| == |deletions| && Wide(rows, |cols|)
    && forall u :: 0 <= u < |cols| ==>
         if deletions[u] then cols[u] == NewVectorParty(size, defaults[u])
         else RestWritten(cols[u], begins[u], rows, defaults[u], |cols|, u) && cols[u].length == size
  }

  // One more run in column i; the last sort column carries the unsorted ones.
  ghost function Extended(out: seq<seq<Row>>, k: nat, i: nat, block: seq<Row>): (r: seq<seq<Row>>)
    requires i < k && |out| == k + 1
  {
    if i + 1 == k then out[i := out[i] + block][k := out[k] + block]
    else out[i := out[i] + block]
  }

  lemma {:induction false} CountedStep(lengths: seq<nat>, out: seq<seq<Row>>, k: nat,
                                       i: nat, x: seq<DataValue>, bs: seq<Row>, ps: seq<Row>, total: seq<Row>)
    requires Counted(lengths, out, k) && i < k && Keyed(out[k], k) && NextRun(k, i, x, bs, ps, out[i], total)
    ensures Counted(lengths[i := lengths[i] + 1], Extended(out, k, i, MergeRows(bs, ps, k)), k)
    ensures Keyed(Extended(out, k, i, MergeRows(bs, ps, k))[k], k)
  {
    hide Ends, MergeRows;
    NextRunPrefixes(k, i, x, bs, ps, out[i], total);
    AppendRun(out[i], MergeRows(bs, ps, k), k, i, x);
  }

  lemma {:induction false} SortsWrittenStep(cols: seq<VectorParty>, begins: seq<nat>, counts: seq<nat>,
      out: seq<seq<Row>>, defaults: seq<DataValue>, total: seq<Row>, k: nat, i: nat, x: seq<DataValue>,
      bs: seq<Row>, ps: seq<Row>)
    requires i < k && Keyed(total, k) && SortsWritten(cols, begins, counts, out, defaults, total, k)
    requires NextRun(k, i, x, bs, ps, out[i], total)
    ensures |cols| == |begins| == |counts| == k && begins[i] < cols[i].length && cols[i].Allocated()
    ensures cols[i].columnMode == HasCountVector && cols[i].nulls.Some? && cols[i].counts.Some?
    ensures var n := |bs| + |ps|;
            var vp := cols[i].SetDataValue(begins[i], Last(x), IncrementCount, n).SetCount(begins[i], counts[i] + n);
            SortsWritten(cols[i := vp], begins[i := begins[i] + 1], counts[i := counts[i] + n],
                         Extended(out, k, i, MergeRows(bs, ps, k)), defaults, total, k)
  {
    hide SortWritten, Ends, Prefixes, Vals;
    var block := MergeRows(bs, ps, k);
    NextRunPrefixes(k, i, x, bs, ps, out[i], total);
    RoomForRun(out[i], block, total, k, i, x);
    SortWrittenBegin(cols[i], begins[i], counts[i], out[i], defaults[i], k, i);
    SortWrittenStep(cols[i], begins[i], counts[i], out[i], defaults[i], k, i, block, x);
  }

  // The rows of the run the comparison result selects.
  ghost function RunRows(g: Problem, b: BaseIterator, p: PatchIterator, res: int): seq<Row> {
    if (res >= 0 ==> b.nextCount <= |g.rows|) && (res <= 0 ==> p.nextIdx <= |g.patch|) then
      var bs, ps := TakenBase(g, b, res), TakenPatch(g, p, res);
      if Keyed(bs, g.k) && Keyed(ps, g.k) then MergeRows(bs, ps, g.k) else []
    else []
  }

  // Levels below i are untouched, levels from i on have all added the same rows.
  ghost predicate Added(out0: seq<seq<Row>>, out: seq<seq<Row>>, k: nat, i: nat, target: seq<Row>) {
    && |out0| == |out| == k + 1 && i <= k
    && out[..i] == out0[..i] && OutsEqual(out, k, i) && out[i] == target
  }

  // Iterator states after one run was handled on level i.
  ghost predicate Emitted(bi0: seq<BaseIterator>, pi0: seq<PatchIterator>, bi: seq<BaseIterator>,
      pi: seq<PatchIterator>, g: Problem, i: nat, res: int) {
    && g.Ok() && i < g.k && |bi0| == |pi0| == |bi| == |pi| == g.k
    && bi[..i + 1] == bi0[..i + 1] && pi[..i + 1] == pi0[..i + 1]
    && LevelsRest(bi, pi, g, i + 1) && Chain(bi, pi, g, i + 1)
    && (i + 1 < g.k ==>
          && bi[i + 1].currentCount == (if res >= 0 then bi0[i].nextCount else bi0[i + 1].currentCount)
          && pi[i + 1].idx == (if res <= 0 then pi0[i].nextIdx else pi0[i + 1].idx))
  }

  // The next level's iterators have not yet passed the selected runs.
  ghost predicate Ahead(bi: seq<BaseIterator>, pi: seq<PatchIterator>, g: Problem, i: nat, res: int) {
    && i < g.k && |bi| == |pi| == g.k
    && (i + 1 < g.k && res >= 0 ==> bi[i + 1].currentCount < bi[i].nextCount)
    && (i + 1 < g.k && res <= 0 ==> pi[i + 1].idx < pi[i].nextIdx)
  }

  // The end positions handed to the next level: 0 for an input not taking part.
  function BaseEnd(b: BaseIterator, res: int): nat {
    if res >= 0 then b.nextCount else 0
  }

  function PatchEnd(p: PatchIterator, res: int): nat {
    if res <= 0 then p.nextIdx else 0
  }

  // What one run on level i and the levels after it have added up to.
  lemma {:induction false} EmitDone(bi0: seq<BaseIterator>, pi0: seq<PatchIterator>, bi: seq<BaseIterator>,
      pi: seq<PatchIterator>, out0: seq<seq<Row>>, out1: seq<seq<Row>>, out: seq<seq<Row>>, g: Problem, i: nat,
      res: int, block: seq<Row>)
    requires g.Ok() && i < g.k && |bi0| == |pi0| == g.k && |out0| == g.k + 1
    requires OutsEqual(out0, g.k, i) && out1 == Extended(out0, g.k, i, block) && Ahead(bi0, pi0, g, i, res)
    requires LevelsRest(bi0, pi0, g, i + 1)
    requires i + 1 == g.k ==> bi == bi0 && pi == pi0 && out == out1
    requires i + 1 < g.k ==> Consumed(bi0, pi0, bi, pi, g, i + 1, BaseEnd(bi0[i], res), PatchEnd(pi0[i], res))
    requires i + 1 < g.k ==> Added(out1, out, g.k, i + 1, out0[i] + block)
    ensures Emitted(bi0, pi0, bi, pi, g, i, res) && Added(out0, out, g.k, i, out0[i] + block)
  {
    hide Sorted, SortColumnHolds;
    if i + 1 < g.k {
      assert out[..i] == out[..i + 1][..i] == out1[..i + 1][..i] == out0[..i];
      assert out[i] == out[..i + 1][i] == out1[..i + 1][i];
    }
  }

  // Iterator states after level i was merged up to the given end positions.
  ghost predicate Consumed(bi0: seq<BaseIterator>, pi0: seq<PatchIterator>, bi: seq<BaseIterator>,
      pi: seq<PatchIterator>, g: Problem, i: nat, bEnd: nat, pEnd: nat) {
    && g.Ok() && i < g.k && |bi0| == |pi0| == |bi| == |pi| == g.k
    && bi[..i] == bi0[..i] && pi[..i] == pi0[..i]
    && LevelsRest(bi, pi, g, i) && Chain(bi, pi, g, i)
    && bi[i].currentCount == (if bEnd > bi0[i].currentCount then bEnd else bi0[i].currentCount)
    && pi[i].idx == (if pEnd > pi0[i].idx then pEnd else pi0[i].idx)
  }

  // Level i has moved past the selected runs; lower levels have not moved.
  ghost predicate Stepped(bi0: seq<BaseIterator>, pi0: seq<PatchIterator>, bi: seq<BaseIterator>,
      pi: seq<PatchIterator>, i: nat, res: int) {
    && i < |bi0| == |pi0| == |bi| == |pi|
    && bi[..i] == bi0[..i] && pi[..i] == pi0[..i]
    && bi[i].currentCount == (if res >= 0 then bi0[i].nextCount else bi0[i].currentCount)
    && pi[i].idx == (if res <= 0 then pi0[i].nextIdx else pi0[i].idx)
  }

  // Writing the selected run leaves the level's invariant for the rows left.
  lemma {:induction false} StepLevel(g: Problem, i: nat, x: seq<DataValue>, target: seq<Row>,
                                     b: BaseIterator, p: PatchIterator, o: seq<Row>, res: int)
    requires g.Ok() && i < g.k && BaseReady(b, g, i) && PatchReady(p, g, i) && Outcome(g, i, b, p, res)
    requires Level(g.k, i, x, g.Total(), target, g.Live(b.currentCount, b.endCount), g.Patch(p.idx, p.endIdx), o)
    ensures Level(g.k, i, x, g.Total(), target, LeftBase(g, b, res), LeftPatch(g, p, res), o + RunRows(g, b, p, res))
  {
    hide Sorted, SortColumnHolds, MergeRows, IsBoundary, Differs;
    TakenSplits(g, i, x, b, p, res);
    LevelNext(g.k, i, x, g.Total(), target, o, RunValueOf(b, p, res),
              TakenBase(g, b, res), LeftBase(g, b, res), TakenPatch(g, p, res), LeftPatch(g, p, res));
  }

  lemma {:induction false} SameUpTo<T>(s: seq<T>, t: seq<T>, i: nat)
    requires i < |s| && i < |t| && s[..i + 1] == t[..i + 1]
    ensures s[i] == t[i]
  {
    assert s[i] == s[..i + 1][i] && t[i] == t[..i + 1][i];
  }

  // A chain from level i + 1 extends to level i through level i + 1.
  lemma {:induction false} ChainUp(bi: seq<BaseIterator>, pi: seq<PatchIterator>, g: Problem, i: nat)
    requires i < g.k && Chain(bi, pi, g, i + 1)
    requires i + 1 < g.k ==>
               && bi[i + 1].currentCount <= bi[i].currentCount <= |g.rows|
               && g.Live(bi[i + 1].currentCount, bi[i].currentCount) == [] && pi[i + 1].idx == pi[i].idx
    ensures Chain(bi, pi, g, i)
  {
    forall l | i < l < g.k
      ensures bi[l].currentCount <= bi[i].currentCount && g.Live(bi[l].currentCount, bi[i].currentCount) == []
      ensures pi[l].idx == pi[i].idx
    {
      if l > i + 1 {
        g.LiveCut(bi[l].currentCount, bi[i + 1].currentCount, bi[i].currentCount);
      }
    }
  }

  // Advancing level i keeps the deeper levels behind it over deleted rows only.
  lemma {:induction false} ChainAfter(bi0: seq<BaseIterator>, pi0: seq<PatchIterator>, bi1: seq<BaseIterator>,
      pi1: seq<PatchIterator>, bi: seq<BaseIterator>, pi: seq<PatchIterator>, g: Problem, i: nat, res: int)
    requires g.Ok() && Emitted(bi0, pi0, bi1, pi1, g, i, res) && Chain(bi0, pi0, g, i)
    requires |bi| == |pi| == g.k && bi == bi1[i := bi[i]] && pi == pi1[i := pi[i]]
    requires bi[i].currentCount == (if res >= 0 then bi0[i].nextCount else bi0[i].currentCount) <= |g.rows|
    requires pi[i].idx == if res <= 0 then pi0[i].nextIdx else pi0[i].idx
    ensures Chain(bi, pi, g, i) && LevelsRest(bi, pi, g, i + 1)
    ensures bi[..i] == bi0[..i] && pi[..i] == pi0[..i]
  {
    hide Sorted, SortColumnHolds, IsBoundary;
    assert bi[..i] == bi1[..i + 1][..i] && pi[..i] == pi1[..i + 1][..i];
    assert Chain(bi, pi, g, i + 1);
    if i + 1 < g.k {
      assert res < 0 ==> g.Live(bi0[i + 1].currentCount, bi0[i].currentCount) == [];
    }
    ChainUp(bi, pi, g, i);
  }

  lemma {:induction false} SkipLive(b: BaseIterator, g: Problem, i: nat)
    requires g.Ok() && i < g.k && b.Loaded(g, i) && b.Count() == 0
    ensures g.Live(b.currentCount, b.nextCount) == []
    ensures g.Live(b.currentCount, b.endCount) == g.Live(b.nextCount, b.endCount)
  {
    g.LiveCount(b.currentCount, b.nextCount, b.rowsDeletedStart, b.rowsDeletedEnd);
    g.LiveCut(b.currentCount, b.nextCount, b.endCount);
  }

  lemma {:induction false} ChainSkip(bi0: seq<BaseIterator>, pi: seq<PatchIterator>, bi: seq<BaseIterator>,
      g: Problem, i: nat)
    requires g.Ok() && i < g.k && |bi0| == |pi| == |bi| == g.k && Chain(bi0, pi, g, i) && LevelsRest(bi0, pi, g, i + 1)
    requires bi == bi0[i := bi[i]] && bi0[i].currentCount <= bi[i].currentCount == bi0[i].nextCount <= |g.rows|
    requires g.Live(bi0[i].currentCount, bi0[i].nextCount) == []
    ensures Chain(bi, pi, g, i) && LevelsRest(bi, pi, g, i + 1)
  {
    hide Sorted, SortColumnHolds, IsBoundary;
    assert Chain(bi, pi, g, i + 1);
    if i + 1 < g.k {
      assert g.Live(bi0[i + 1].currentCount, bi0[i].currentCount) == [];
      g.LiveCut(bi0[i + 1].currentCount, bi0[i].currentCount, bi[i].currentCount);
    }
    ChainUp(bi, pi, g, i);
  }

  lemma {:induction false} ChainSame(bi0: seq<BaseIterator>, pi0: seq<PatchIterator>, bi: seq<BaseIterator>,
      pi: seq<PatchIterator>, g: Problem, i: nat)
    requires g.Ok() && i < g.k && Chain(bi0, pi0, g, i) && LevelsRest(bi0, pi0, g, i)
    requires |bi| == |pi| == g.k && bi == bi0[i := bi[i]] && pi == pi0[i := pi[i]]
    requires bi[i].currentCount == bi0[i].currentCount && pi[i].idx == pi0[i].idx
    ensures Chain(bi, pi, g, i) && LevelsRest(bi, pi, g, i + 1)
  {
    hide Sorted, SortColumnHolds, IsBoundary;
  }

  lemma {:induction false} LiveStep(g: Problem, start: nat, i: nat, end: nat)
    requires start <= i < end <= |g.rows| && i !in g.deleted
    ensures g.Live(start, i + 1) == g.Live(start, i) + [g.rows[i]]
    ensures |g.Live(start, i)| < |g.Live(start, end)|
  {
    g.LiveCut(start, i + 1, end);
  }

  // Undeleted rows are never fewer than none.
  lemma {:induction false} RunsAhead(b: BaseIterator, g: Problem, i: nat)
    requires g.Ok() && i < g.k && b.Loaded(g, i)
    ensures b.Count() >= 0
  {
    g.LiveCount(b.currentCount, b.nextCount, b.rowsDeletedStart, b.rowsDeletedEnd);
  }

  // What level i still has to read.
  ghost function Left(bi: seq<BaseIterator>, pi: seq<PatchIterator>, i: nat): (n: nat)
    requires i < |bi| == |pi|
  {
    (if bi[i].endCount > bi[i].currentCount then bi[i].endCount - bi[i].currentCount else 0)
    + (if pi[i].endIdx > pi[i].idx then pi[i].endIdx - pi[i].idx else 0)
  }

  // Level i has moved forward inside its range; lower levels have not moved.
  ghost predicate Advanced(bi0: seq<BaseIterator>, pi0: seq<PatchIterator>, bi: seq<BaseIterator>,
      pi: seq<PatchIterator>, i: nat, bEnd: nat, pEnd: nat) {
    && i < |bi0| == |pi0| == |bi| == |pi|
    && bi[..i] == bi0[..i] && pi[..i] == pi0[..i]
    && bi0[i].currentCount <= bi[i].currentCount
       && (bi[i].currentCount <= bEnd || bi[i].currentCount == bi0[i].currentCount)
    && pi0[i].idx <= pi[i].idx && (pi[i].idx <= pEnd || pi[i].idx == pi0[i].idx)
  }

  lemma {:induction false} AdvancedStep(bi0: seq<BaseIterator>, pi0: seq<PatchIterator>, bi1: seq<BaseIterator>,
      pi1: seq<PatchIterator>, bi: seq<BaseIterator>, pi: seq<PatchIterator>, g: Problem, i: nat, bEnd: nat,
      pEnd: nat, res: int)
    requires g.Ok() && i < g.k && Advanced(bi0, pi0, bi1, pi1, i, bEnd, pEnd) && Stepped(bi1, pi1, bi, pi, i, res)
    requires i < |bi1| == |pi1| == |bi| == |pi|
    requires res >= 0 ==> bi1[i].Loaded(g, i) && bi1[i].endCount == bEnd == bi[i].endCount
    requires res <= 0 ==> pi1[i].Loaded(g, i) && pi1[i].endIdx == pEnd == pi[i].endIdx
    requires res > 0 ==> pi[i].endIdx == pi1[i].endIdx
    requires res < 0 ==> bi[i].endCount == bi1[i].endCount
    ensures Advanced(bi0, pi0, bi, pi, i, bEnd, pEnd)
    ensures Left(bi, pi, i) < Left(bi1, pi1, i)
  {
    hide Sorted, SortColumnHolds, IsBoundary;
  }

  class MergeContext {
    const base: Batch
    const patch: seq<Row>
    const baseRowDeleted: seq<nat>
    // Per unsorted column: whether it was dropped from the schema.
    const columnDeletions: seq<bool>
    const keyDefaults: seq<DataValue>
    const restDefaults: seq<DataValue>
    const totalSize: int
    // The rows the base batch represents.
    ghost const rows: seq<Row>

    var baseIters: seq<BaseIterator>
    var patchIters: seq<PatchIterator>
    var mergedLengths: seq<nat>
    var sortBegins: seq<nat>
    var restBegins: seq<nat>
    var outputCounts: seq<nat>
    var mergedSorted: seq<VectorParty>
    var mergedUnsorted: seq<VectorParty>
    // Rows accounted for in each sort column, and last in the unsorted columns.
    ghost var out: seq<seq<Row>>

    constructor (base: Batch, patch: seq<Row>, baseRowDeleted: seq<nat>, columnDeletions: seq<bool>,
                 keyDefaults: seq<DataValue>, restDefaults: seq<DataValue>, ghost rows: seq<Row>)
      ensures this.base == base && this.patch == patch && this.baseRowDeleted == baseRowDeleted
      ensures this.columnDeletions == columnDeletions && this.keyDefaults == keyDefaults
      ensures this.restDefaults == restDefaults && this.rows == rows
      ensures totalSize == |patch| + base.size - |baseRowDeleted|
    {
      this.base, this.patch, this.baseRowDeleted := base, patch, baseRowDeleted;
      this.columnDeletions, this.keyDefaults, this.restDefaults := columnDeletions, keyDefaults, restDefaults;
      this.rows := rows;
      totalSize := |patch| + base.size - |baseRowDeleted|;
      baseIters, patchIters, mergedLengths, sortBegins, restBegins := [], [], [], [], [];
      outputCounts, mergedSorted, mergedUnsorted := [], [], [];
      out := [];
    }

    function K(): nat {
      |base.sorted|
    }

    ghost function G(): Problem {
      Problem(K(), rows, baseRowDeleted, patch)
    }

    // A batch in nested run-length form, a sorted patch of the same width, and
    // distinct sorted deleted positions.
    ghost predicate Inputs() {
      && G().Ok() && Represents(base, rows) && Wide(patch, |base.unsorted|)
      && |columnDeletions| == |base.unsorted| == |restDefaults| && |keyDefaults| == K()
      && 0 <= totalSize == |patch| + base.size - |baseRowDeleted|
    }

    ghost predicate OutputOk(pass: Pass)
      requires Inputs()
      reads this`out, this`mergedLengths, this`mergedSorted, this`mergedUnsorted
      reads this`sortBegins, this`restBegins, this`outputCounts
    {
      && |out| == K() + 1 && Keyed(out[K()], K())
      && match pass
         case PreAllocate => Counted(mergedLengths, out, K())
         case Write =>
           TotalKeyed();
           && SortsWritten(mergedSorted, sortBegins, outputCounts, out, keyDefaults, G().Total(), K())
           && RestsWritten(mergedUnsorted, restBegins, out[K()], restDefaults, columnDeletions, |G().Total()|)
           && |mergedUnsorted| == |base.unsorted|
    }

    lemma {:induction false} TotalKeyed()
      requires Inputs()
      ensures Keyed(G().Total(), K())
    {
      G().LiveKeyed(0, |rows|);
    }

    // ------------------------------------------------------------ iterators

    method InitIters()
      requires Inputs()
      modifies this`baseIters, this`patchIters
      ensures LevelsRest(baseIters, patchIters, G(), 0) && Chain(baseIters, patchIters, G(), 0)
      ensures forall j :: 0 <= j < K() ==> baseIters[j].currentCount == 0 && patchIters[j].idx == 0
    {
      hide Sorted, SortColumnHolds, LevelsRest, Chain;
      baseIters, patchIters := [], [];
      var i := 0;
      while i < K()
        invariant i <= K() && |baseIters| == |patchIters| == i
        invariant forall j :: 0 <= j < i ==> baseIters[j] == BaseIterator(base.sorted[j], 0, 0, 0, 0, Null, 0, 0)
        invariant forall j :: 0 <= j < i ==> patchIters[j] == PatchIterator(0, 0, 0, Null)
      {
        baseIters := baseIters + [BaseIterator(base.sorted[i], 0, 0, 0, 0, Null, 0, 0)];
        patchIters := patchIters + [PatchIterator(0, 0, 0, Null)];
        i := i + 1;
      }
      InitRest();
    }

    lemma {:induction false} InitRest()
      requires Inputs() && |baseIters| == |patchIters| == K()
      requires forall j :: 0 <= j < K() ==> baseIters[j] == BaseIterator(base.sorted[j], 0, 0, 0, 0, Null, 0, 0)
      requires forall j :: 0 <= j < K() ==> patchIters[j] == PatchIterator(0, 0, 0, Null)
      ensures LevelsRest(baseIters, patchIters, G(), 0) && Chain(baseIters, patchIters, G(), 0)
    {
      hide Ends, Sorted, SortColumnHolds;
    }

    // Reads the run at the current position, unless the end position is reached.
    method ReadBase(i: nat)
      requires Inputs() && i < K() && |baseIters| == K()
      requires baseIters[i].Rest(G(), i)
      requires baseIters[i].endCount <= |rows| && IsBoundary(G().Prefix(i), baseIters[i].endCount)
      modifies this`baseIters
      ensures |baseIters| == K() && baseIters == old(baseIters)[i := baseIters[i]]
      ensures BaseReady(baseIters[i], G(), i)
      ensures baseIters[i].currentCount == old(baseIters)[i].currentCount
      ensures baseIters[i].endCount == old(baseIters)[i].endCount
    {
      var it := baseIters[i];
      if it.Done() {
        if it.currentCount < it.endCount {
          RestHasEntry(it, G(), i, it.endCount);
        }
        return;
      }
      var next := if it.vp.columnMode == HasCountVector then it.vp.counts.value[it.idx + 1] else it.endCount;
      BaseLoads(it, G(), i);
      var end := SkipDeleted(it.rowsDeletedEnd, next);
      it := it.(nextCount := next, rowsDeletedStart := it.rowsDeletedEnd, rowsDeletedEnd := end,
                val := it.vp.GetDataValue(it.idx));
      baseIters := baseIters[i := it];
    }

    // Moves a cursor over the deleted positions below `next`.
    method SkipDeleted(start: nat, next: nat) returns (end: nat)
      requires Inputs() && start <= |baseRowDeleted|
      requires forall m :: 0 <= m < start ==> baseRowDeleted[m] < next
      ensures G().Below(end, next)
    {
      end := start;
      while end < |baseRowDeleted| && baseRowDeleted[end] < next
        invariant start <= end <= |baseRowDeleted|
        invariant forall m :: 0 <= m < end ==> baseRowDeleted[m] < next
      {
        end := end + 1;
      }
    }

    method NextBase(i: nat)
      requires Inputs() && i < K() && |baseIters| == K()
      requires baseIters[i].Loaded(G(), i) && IsBoundary(G().Prefix(i), baseIters[i].endCount)
      modifies this`baseIters
      ensures |baseIters| == K() && baseIters == old(baseIters)[i := baseIters[i]]
      ensures BaseReady(baseIters[i], G(), i)
      ensures baseIters[i].currentCount == old(baseIters)[i].nextCount
      ensures baseIters[i].endCount == old(baseIters)[i].endCount
    {
      hide Sorted, SortColumnHolds, Ends, IsBoundary, Represents;
      var it := baseIters[i];
      baseIters := baseIters[i := it.(idx := it.idx + 1, currentCount := it.nextCount)];
      ReadBase(i);
    }

    method SetBaseEnd(i: nat, pos: nat)
      requires Inputs() && i < K() && |baseIters| == K()
      requires baseIters[i].Rest(G(), i) && pos <= |rows| && IsBoundary(G().Prefix(i), pos)
      modifies this`baseIters
      ensures |baseIters| == K() && baseIters == old(baseIters)[i := baseIters[i]]
      ensures BaseReady(baseIters[i], G(), i) && baseIters[i].endCount == pos
      ensures baseIters[i].currentCount == old(baseIters)[i].currentCount
    {
      hide Sorted, SortColumnHolds, Ends, IsBoundary, Represents;
      baseIters := baseIters[i := baseIters[i].(endCount := pos)];
      ReadBase(i);
    }

    // Reads the value at the current position and finds the next different one.
    method ReadPatch(i: nat)
      requires Inputs() && i < K() && |patchIters| == K()
      requires patchIters[i].Rest(G()) && patchIters[i].endIdx <= |patch|
      modifies this`patchIters
      ensures |patchIters| == K() && patchIters == old(patchIters)[i := patchIters[i]]
      ensures PatchReady(patchIters[i], G(), i)
      ensures patchIters[i].idx == old(patchIters)[i].idx
      ensures patchIters[i].endIdx == old(patchIters)[i].endIdx
    {
      var it := patchIters[i];
      if it.Done() {
        return;
      }
      var val := patch[it.idx].key[i];
      var next := it.nextIdx + 1;
      while next < it.endIdx && Compare(val, patch[next].key[i]) == 0
        invariant it.idx < next <= it.endIdx
        invariant forall r :: it.idx <= r < next ==> patch[r].key[i] == val
      {
        next := next + 1;
      }
      patchIters := patchIters[i := it.(val := val, nextIdx := next)];
    }

    method NextPatch(i: nat)
      requires Inputs() && i < K() && |patchIters| == K()
      requires patchIters[i].Loaded(G(), i)
      modifies this`patchIters
      ensures |patchIters| == K() && patchIters == old(patchIters)[i := patchIters[i]]
      ensures PatchReady(patchIters[i], G(), i)
      ensures patchIters[i].idx == old(patchIters)[i].nextIdx
      ensures patchIters[i].endIdx == old(patchIters)[i].endIdx
    {
      patchIters := patchIters[i := patchIters[i].(idx := patchIters[i].nextIdx)];
      ReadPatch(i);
    }

    method SetPatchEnd(i: nat, pos: nat)
      requires Inputs() && i < K() && |patchIters| == K()
      requires patchIters[i].Rest(G()) && pos <= |patch|
      modifies this`patchIters
      ensures |patchIters| == K() && patchIters == old(patchIters)[i := patchIters[i]]
      ensures PatchReady(patchIters[i], G(), i) && patchIters[i].endIdx == pos
      ensures patchIters[i].idx == old(patchIters)[i].idx
    {
      patchIters := patchIters[i := patchIters[i].(endIdx := pos)];
      ReadPatch(i);
    }

    // -------------------------------------------------------------- output

    ghost function SourceRow(reader: Reader, row: nat): Row
      requires row < if reader == BaseReader then |rows| else |patch|
    {
      if reader == BaseReader then rows[row] else patch[row]
    }

    // The rows [start, end) a reader yields, leaving out deleted base rows.
    ghost function Source(reader: Reader, start: nat, end: nat): seq<Row>
      requires end <= if reader == BaseReader then |rows| else |patch|
    {
      if reader == BaseReader then G().Live(start, end) else G().Patch(start, end)
    }

    function ReadValue(reader: Reader, row: nat, u: nat): DataValue
      requires Inputs() && u < |base.unsorted|
      requires row < if reader == BaseReader then |rows| else |patch|
    {
      if reader == BaseReader then base.unsorted[u].GetDataValue(row) else patch[row].rest[u]
    }

    lemma {:induction false} ReadValueIs(reader: Reader, row: nat, u: nat)
      requires Inputs() && u < |base.unsorted|
      requires row < if reader == BaseReader then |rows| else |patch|
      ensures |SourceRow(reader, row).rest| == |base.unsorted|
      ensures ReadValue(reader, row, u) == SourceRow(reader, row).rest[u]
    {
      if reader == BaseReader {
        assert UnsortedColumnHolds(base.unsorted[u], rows, u);
      }
    }

    // Appends one row to every unsorted column that is not deleted.
    method WriteRow(reader: Reader, row: nat, size: nat, ghost done: seq<Row>)
      requires Inputs()
      requires row < if reader == BaseReader then |rows| else |patch|
      requires |mergedUnsorted| == |base.unsorted| && |done| < size
      requires RestsWritten(mergedUnsorted, restBegins, done, restDefaults, columnDeletions, size)
      modifies this`mergedUnsorted, this`restBegins
      ensures |mergedUnsorted| == |base.unsorted|
      ensures RestsWritten(mergedUnsorted, restBegins, done + [SourceRow(reader, row)],
                             restDefaults, columnDeletions, size)
    {
      ghost var r := SourceRow(reader, row);
      ghost var n := |base.unsorted|;
      assert Wide(done + [r], n) by {
        if n > 0 {
          ReadValueIs(reader, row, 0);
        }
      }
      var u := 0;
      while u < |base.unsorted|
        invariant u <= n && |mergedUnsorted| == |restBegins| == n
        invariant forall v :: 0 <= v < n && columnDeletions[v] ==>
                    mergedUnsorted[v] == NewVectorParty(size, restDefaults[v])
        invariant forall v :: 0 <= v < n && !columnDeletions[v] ==>
                    && mergedUnsorted[v].length == size
                    && RestWritten(mergedUnsorted[v], restBegins[v],
                                   if v < u then done + [r] else done, restDefaults[v], n, v)
      {
        if !columnDeletions[u] {
          ReadValueIs(reader, row, u);
          RestWrittenStep(mergedUnsorted[u], restBegins[u], done, restDefaults[u], n, u, r);
          var vp := mergedUnsorted[u].SetDataValue(restBegins[u], ReadValue(reader, row, u), IncrementCount, 1);
          mergedUnsorted := mergedUnsorted[u := vp];
          restBegins := restBegins[u := restBegins[u] + 1];
        }
        u := u + 1;
      }
    }

    // Copies rows [start, end) into the unsorted columns, passing over skipRows.
    method WriteUnsortedColumns(start: nat, end: nat, reader: Reader, skipRows: seq<nat>, size: nat,
                                ghost from: nat, ghost done: seq<Row>)
      requires Inputs() && start <= end
      requires end <= if reader == BaseReader then |rows| else |patch|
      requires reader == PatchReader ==> skipRows == []
      requires reader == BaseReader ==>
                 && G().Below(from, start) && G().Below(from + |skipRows|, end)
                 && skipRows == baseRowDeleted[from..from + |skipRows|]
      requires |mergedUnsorted| == |base.unsorted| && |done| + |Source(reader, start, end)| <= size
      requires RestsWritten(mergedUnsorted, restBegins, done, restDefaults, columnDeletions, size)
      modifies this`mergedUnsorted, this`restBegins
      ensures |mergedUnsorted| == |base.unsorted|
      ensures RestsWritten(mergedUnsorted, restBegins, done + Source(reader, start, end),
                             restDefaults, columnDeletions, size)
    {
      hide RestsWritten, Represents, Sorted, Problem.Live;
      var skip := skipRows;
      ghost var at := from;
      SourceEmpty(reader, start, done);
      for i := start to end
        invariant |mergedUnsorted| == |base.unsorted|
        invariant RestsWritten(mergedUnsorted, restBegins, done + Source(reader, start, i),
                             restDefaults, columnDeletions, size)
        invariant |skip| <= |skipRows| && at == from + |skipRows| - |skip|
        invariant reader == PatchReader ==> skip == []
        invariant reader == BaseReader ==> G().Below(at, i) && skip == baseRowDeleted[at..from + |skipRows|]
      {
        ghost var sofar := done + Source(reader, start, i);
        if |skip| > 0 && skip[0] == i {
          Skipped(at, start, i);
          skip := skip[1..];
          at := at + 1;
        } else {
          if reader == BaseReader {
            NotSkipped(at, from + |skipRows|, i, end);
          }
          SourceStep(reader, start, i, end);
          assert sofar + [SourceRow(reader, i)] == done + Source(reader, start, i + 1);
          WriteRow(reader, i, size, sofar);
        }
      }
    }

    lemma {:induction false} SourceStep(reader: Reader, start: nat, i: nat, end: nat)
      requires start <= i < end
      requires end <= if reader == BaseReader then |rows| else |patch|
      requires reader == BaseReader ==> i !in baseRowDeleted
      ensures Source(reader, start, i + 1) == Source(reader, start, i) + [SourceRow(reader, i)]
      ensures |Source(reader, start, i)| < |Source(reader, start, end)|
    {
      if reader == BaseReader {
        LiveStep(G(), start, i, end);
      }
    }

    lemma {:induction false} SourceEmpty(reader: Reader, start: nat, done: seq<Row>)
      requires start <= if reader == BaseReader then |rows| else |patch|
      ensures done + Source(reader, start, start) == done
    {
    }

    lemma {:induction false} Skipped(at: nat, start: nat, i: nat)
      requires Inputs() && start <= i < |rows| && at < |baseRowDeleted|
      requires G().Below(at, i) && baseRowDeleted[at] == i
      ensures G().Below(at + 1, i + 1) && G().Live(start, i + 1) == G().Live(start, i)
    {
      assert i in baseRowDeleted;
    }

    // The next deleted position is the only one i can be.
    lemma {:induction false} NotSkipped(at: nat, to: nat, i: nat, end: nat)
      requires Inputs() && i < end <= |rows| && at <= to
      requires G().Below(at, i) && G().Below(to, end)
      requires at < to ==> baseRowDeleted[at] != i
      ensures i !in baseRowDeleted && G().Below(at, i + 1)
    {
      assert at < |baseRowDeleted| ==> baseRowDeleted[at] > i;
      assert forall m :: at < m < |baseRowDeleted| ==> baseRowDeleted[m] > baseRowDeleted[at];
    }

    // ------------------------------------------------------- merge actions

    lemma {:induction false} TotalSize()
      requires Inputs()
      ensures |G().Total()| == totalSize
    {
      TotalKeyed();
      G().LiveCount(0, |rows|, 0, |baseRowDeleted|);
    }

    // First pass: one more entry in column i.
    method CountRun(i: nat, ghost x: seq<DataValue>, ghost bs: seq<Row>, ghost ps: seq<Row>)
      requires Inputs() && i < K() && OutputOk(PreAllocate)
      requires NextRun(K(), i, x, bs, ps, out[i], G().Total())
      modifies this`mergedLengths, this`out
      ensures out == Extended(old(out), K(), i, MergeRows(bs, ps, K()))
      ensures OutputOk(PreAllocate)
    {
      hide Represents, Sorted, MergeRows;
      ghost var block := MergeRows(bs, ps, K());
      CountedStep(mergedLengths, out, K(), i, x, bs, ps, G().Total());
      mergedLengths := mergedLengths[i := mergedLengths[i] + 1];
      out := Extended(out, K(), i, block);
    }

    // Appends a run to merged sort column i.
    method WriteSortRun(i: nat, val: DataValue, count: nat,
                        ghost total: seq<Row>, ghost x: seq<DataValue>, ghost bs: seq<Row>, ghost ps: seq<Row>)
      requires i < K() && Keyed(total, K())
      requires SortsWritten(mergedSorted, sortBegins, outputCounts, out, keyDefaults, total, K())
      requires NextRun(K(), i, x, bs, ps, out[i], total) && Last(x) == val && |bs| + |ps| == count
      modifies this`mergedSorted, this`sortBegins, this`outputCounts
      ensures SortsWritten(mergedSorted, sortBegins, outputCounts, Extended(out, K(), i, MergeRows(bs, ps, K())),
                           keyDefaults, total, K())
    {
      hide SortsWritten, NextRun, MergeRows, Extended;
      SortsWrittenStep(mergedSorted, sortBegins, outputCounts, out, keyDefaults, total, K(), i, x, bs, ps);
      outputCounts := outputCounts[i := outputCounts[i] + count];
      var vp := mergedSorted[i].SetDataValue(sortBegins[i], val, IncrementCount, count);
      mergedSorted := mergedSorted[i := vp.SetCount(sortBegins[i], outputCounts[i])];
      sortBegins := sortBegins[i := sortBegins[i] + 1];
    }

    // Copies the rows of a run of the last sort column, base rows first.
    method WriteUnsortedRun(b: BaseIterator, p: PatchIterator, res: int, ghost i: nat, ghost done: seq<Row>)
      requires Inputs() && i < K()
      requires res >= 0 ==> b.Loaded(G(), i)
      requires res <= 0 ==> p.Loaded(G(), i)
      requires |mergedUnsorted| == |base.unsorted|
      requires RestsWritten(mergedUnsorted, restBegins, done, restDefaults, columnDeletions, totalSize)
      requires |done| + |TakenBase(G(), b, res)| + |TakenPatch(G(), p, res)| <= totalSize
      modifies this`mergedUnsorted, this`restBegins
      ensures |mergedUnsorted| == |base.unsorted|
      ensures RestsWritten(mergedUnsorted, restBegins, done + TakenBase(G(), b, res) + TakenPatch(G(), p, res),
                           restDefaults, columnDeletions, totalSize)
    {
      hide RestsWritten, Represents, Sorted, SortColumnHolds;
      ghost var bs, ps := TakenBase(G(), b, res), TakenPatch(G(), p, res);
      if res >= 0 {
        DeletedInRun(b, i);
        WriteUnsortedColumns(b.currentCount, b.nextCount, BaseReader,
                             baseRowDeleted[b.rowsDeletedStart..b.rowsDeletedEnd], totalSize,
                             b.rowsDeletedStart, done);
      }
      assert RestsWritten(mergedUnsorted, restBegins, done + bs, restDefaults, columnDeletions, totalSize) by {
        assert done + [] == done;
      }
      if res <= 0 {
        WriteUnsortedColumns(p.idx, p.nextIdx, PatchReader, [], totalSize, 0, done + bs);
      } else {
        assert done + bs + [] == done + bs;
      }
    }

    lemma {:induction false} DeletedInRun(b: BaseIterator, i: nat)
      requires Inputs() && i < K() && b.Loaded(G(), i)
      ensures b.rowsDeletedStart <= b.rowsDeletedEnd <= |baseRowDeleted|
    {
      G().LiveCount(b.currentCount, b.nextCount, b.rowsDeletedStart, b.rowsDeletedEnd);
    }

    // The iterators of level i stand at runs whose rows are bs and ps, as far as
    // the comparison result selects them.
    ghost predicate RunSelected(b: BaseIterator, p: PatchIterator, i: nat, res: int,
                                x: seq<DataValue>, bs: seq<Row>, ps: seq<Row>)
      requires Inputs() && i < K()
    {
      && (res >= 0 ==> b.Loaded(G(), i) && b.Count() == |bs|)
      && (res <= 0 ==> p.Loaded(G(), i) && p.Count() == |ps|)
      && bs == TakenBase(G(), b, res) && ps == TakenPatch(G(), p, res)
      && Last(x) == RunValueOf(b, p, res)
    }

    // Second pass: writes the run that the comparison result selects.
    method WriteOutput(i: nat, res: int, ghost x: seq<DataValue>, ghost bs: seq<Row>, ghost ps: seq<Row>)
      requires Inputs() && OutputOk(Write) && i < K() && |baseIters| == |patchIters| == K()
      requires RunSelected(baseIters[i], patchIters[i], i, res, x, bs, ps)
      requires NextRun(K(), i, x, bs, ps, out[i], G().Total())
      requires i + 1 == K() ==> out[K()] == out[i]
      modifies this`mergedSorted, this`sortBegins, this`outputCounts, this`mergedUnsorted, this`restBegins, this`out
      ensures out == Extended(old(out), K(), i, MergeRows(bs, ps, K()))
      ensures OutputOk(Write)
    {
      hide RestsWritten, SortsWritten, Represents, Sorted, SortColumnHolds, MergeRows;
      var b, p := baseIters[i], patchIters[i];
      TotalKeyed();
      TotalSize();
      var val, count;
      if res < 0 {
        val, count := p.val, p.Count();
      } else if res == 0 {
        val, count := b.val, p.Count() + b.Count();
      } else {
        val, count := b.val, b.Count();
      }
      if i + 1 == K() {
        LastRun(K(), i, x, bs, ps, out[i], G().Total());
        WriteUnsortedRun(b, p, res, i, out[K()]);
        assert out[K()] + bs + ps == out[K()] + (bs + ps);
      }
      WriteSortRun(i, val, count, G().Total(), x, bs, ps);
      out := Extended(out, K(), i, MergeRows(bs, ps, K()));
    }

    // ------------------------------------------------------------ recursion

    // Level i may be entered to merge base rows up to bEnd and patch rows up to pEnd.
    ghost predicate Entry(i: nat, bEnd: nat, pEnd: nat, x: seq<DataValue>)
      requires Inputs() && i < K()
      reads this
    {
      && LevelsRest(baseIters, patchIters, G(), i) && Chain(baseIters, patchIters, G(), i)
      && OutsEqual(out, K(), i) && Keyed(out[i], K())
      && bEnd <= |rows| && pEnd <= |patch| && IsBoundary(G().Prefix(i), bEnd)
      && var bs, ps := G().Live(baseIters[i].currentCount, bEnd), G().Patch(patchIters[i].idx, pEnd);
         && Keyed(bs, K()) && Keyed(ps, K())
         && AllPrefixed(bs, i, x) && AllPrefixed(ps, i, x)
         && (out[i] != [] ==> out[i][|out[i]| - 1].key[..i] != x)
         && out[i] + MergeRows(bs, ps, K()) <= G().Total()
    }

    // The rows level i is to add.
    ghost function Goal(i: nat, bEnd: nat, pEnd: nat, x: seq<DataValue>): (m: seq<Row>)
      requires Inputs() && i < K() && Entry(i, bEnd, pEnd, x)
      reads this
    {
      out[i] + MergeRows(G().Live(baseIters[i].currentCount, bEnd), G().Patch(patchIters[i].idx, pEnd), K())
    }

    ghost predicate LoopState(i: nat, pass: Pass, x: seq<DataValue>, target: seq<Row>, bEnd: nat, pEnd: nat)
      requires Inputs() && i < K()
      reads this
    {
      && LevelsRest(baseIters, patchIters, G(), i + 1) && Chain(baseIters, patchIters, G(), i)
      && OutsEqual(out, K(), i) && OutputOk(pass)
      && BaseReady(baseIters[i], G(), i) && baseIters[i].endCount == bEnd
      && PatchReady(patchIters[i], G(), i) && patchIters[i].endIdx == pEnd
      && Level(K(), i, x, G().Total(), target, G().Live(baseIters[i].currentCount, bEnd),
               G().Patch(patchIters[i].idx, pEnd), out[i])
    }

    // Performs the merge action of the pass.
    method Act(i: nat, res: int, pass: Pass, ghost x: seq<DataValue>, ghost bs: seq<Row>, ghost ps: seq<Row>)
      requires Inputs() && OutputOk(pass) && i < K() && |baseIters| == |patchIters| == K()
      requires RunSelected(baseIters[i], patchIters[i], i, res, x, bs, ps)
      requires NextRun(K(), i, x, bs, ps, out[i], G().Total())
      requires i + 1 == K() ==> out[K()] == out[i]
      modifies this`mergedLengths, this`mergedSorted, this`sortBegins, this`outputCounts, this`mergedUnsorted,
                 this`restBegins, this`out
      ensures out == Extended(old(out), K(), i, MergeRows(bs, ps, K()))
      ensures OutputOk(pass)
    {
      hide *;
      match pass
      case PreAllocate =>
        CountRun(i, x, bs, ps);
      case Write =>
        WriteOutput(i, res, x, bs, ps);
    }

    // The next level finds exactly the rows of the selected run.
    lemma {:induction false} SubRows(i: nat, res: int)
      requires Inputs() && i + 1 < K()
      requires Chain(baseIters, patchIters, G(), i)
      requires res >= 0 ==> baseIters[i].currentCount < baseIters[i].nextCount <= |rows|
      requires res <= 0 ==> patchIters[i].nextIdx <= |patch|
      ensures G().Live(baseIters[i + 1].currentCount, BaseEnd(baseIters[i], res)) == TakenBase(G(), baseIters[i], res)
      ensures G().Patch(patchIters[i + 1].idx, PatchEnd(patchIters[i], res)) == TakenPatch(G(), patchIters[i], res)
    {
      hide Sorted, Represents;
      if res >= 0 {
        G().LiveCut(baseIters[i + 1].currentCount, baseIters[i].currentCount, baseIters[i].nextCount);
      }
    }

    lemma {:induction false} SubBoundary(b: BaseIterator, i: nat, res: int)
      requires Inputs() && i + 1 < K()
      requires res >= 0 ==> b.nextCount <= |rows| && IsBoundary(G().Prefix(i), b.nextCount)
      ensures BaseEnd(b, res) <= |rows| && IsBoundary(G().Prefix(i + 1), BaseEnd(b, res))
    {
      if res >= 0 {
        BoundaryNests(rows, K(), i, i + 1, b.nextCount);
      }
    }

    // After the merge action on level i, the next level may be entered.
    lemma {:induction false} SubEntry(i: nat, res: int, x: seq<DataValue>, bs: seq<Row>, ps: seq<Row>,
                                      o: seq<seq<Row>>)
      requires Inputs() && i + 1 < K() && |o| == K() + 1
      requires LevelsRest(baseIters, patchIters, G(), i + 1) && Chain(baseIters, patchIters, G(), i)
      requires OutsEqual(o, K(), i) && NextRun(K(), i, x, bs, ps, o[i], G().Total())
      requires RunSelected(baseIters[i], patchIters[i], i, res, x, bs, ps)
      requires out == Extended(o, K(), i, MergeRows(bs, ps, K()))
      ensures Entry(i + 1, BaseEnd(baseIters[i], res), PatchEnd(patchIters[i], res), x)
      ensures Goal(i + 1, BaseEnd(baseIters[i], res), PatchEnd(patchIters[i], res), x) == o[i] + MergeRows(bs, ps, K())
    {
      hide Represents, Sorted, SortColumnHolds, MergeRows, Keyed, IsBoundary, Ends;
      SubRows(i, res);
      SubBoundary(baseIters[i], i, res);
      assert out[i + 1] == o[i];
      assert Chain(baseIters, patchIters, G(), i + 1);
    }

    // Handles one run on level i: the merge action, then the later sort columns.
    method EmitRun(i: nat, res: int, pass: Pass, ghost x: seq<DataValue>, ghost target: seq<Row>,
                   ghost bEnd: nat, ghost pEnd: nat)
      requires Inputs() && i < K() && LoopState(i, pass, x, target, bEnd, pEnd)
      requires Outcome(G(), i, baseIters[i], patchIters[i], res)
      modifies this
      ensures OutputOk(pass)
      ensures Emitted(old(baseIters), old(patchIters), baseIters, patchIters, G(), i, res)
      ensures Added(old(out), out, K(), i, old(out[i] + RunRows(G(), baseIters[i], patchIters[i], res)))
      decreases K() - i, 0
    {
      hide Represents, Sorted, Keyed, MergeRows, NextRun, RunRows, Extended, OutsEqual, LevelsRest, Chain,
           Consumed, Added, Emitted, Outcome, Ahead, OutputOk, LoopState, RunSelected, Entry, Goal;
      ghost var x', bs, ps := EmitReady(i, res, pass, x, target, bEnd, pEnd);
      ghost var o, bi, pi := out, baseIters, patchIters;
      Act(i, res, pass, x', bs, ps);
      ghost var o1 := out;
      if i + 1 < K() {
        SubEntry(i, res, x', bs, ps, o);
      }
      MergeRecursive(i + 1, BaseEnd(baseIters[i], res), PatchEnd(patchIters[i], res), pass, x');
      EmitDone(bi, pi, baseIters, patchIters, o, o1, out, G(), i, res, MergeRows(bs, ps, K()));
    }

    lemma {:induction false} EmitReady(i: nat, res: int, pass: Pass, x: seq<DataValue>, target: seq<Row>,
        bEnd: nat, pEnd: nat)
      returns (x': seq<DataValue>, bs: seq<Row>, ps: seq<Row>)
      requires Inputs() && i < K() && LoopState(i, pass, x, target, bEnd, pEnd)
      requires Outcome(G(), i, baseIters[i], patchIters[i], res)
      ensures OutputOk(pass) && |baseIters| == |patchIters| == K() && |out| == K() + 1
      ensures RunSelected(baseIters[i], patchIters[i], i, res, x', bs, ps)
      ensures NextRun(K(), i, x', bs, ps, out[i], G().Total())
      ensures Keyed(bs, K()) && Keyed(ps, K())
      ensures RunRows(G(), baseIters[i], patchIters[i], res) == MergeRows(bs, ps, K())
      ensures OutsEqual(out, K(), i) && (i + 1 == K() ==> out[K()] == out[i])
      ensures LevelsRest(baseIters, patchIters, G(), i + 1) && Chain(baseIters, patchIters, G(), i)
      ensures Ahead(baseIters, patchIters, G(), i, res)
    {
      hide Represents, Sorted, SortColumnHolds, MergeRows, Keyed, OutputOk;
      x' := x + [RunValueOf(baseIters[i], patchIters[i], res)];
      bs, ps := TakenBase(G(), baseIters[i], res), TakenPatch(G(), patchIters[i], res);
      TotalKeyed();
      TakenNextRun(G(), i, x, target, baseIters[i], patchIters[i], out[i], res);
    }

    // Merges base rows up to bEnd and patch rows up to pEnd from sort column i on.
    method MergeRecursive(i: nat, bEnd: nat, pEnd: nat, pass: Pass, ghost x: seq<DataValue>)
      requires Inputs() && i <= K() && OutputOk(pass) && |baseIters| == |patchIters| == K()
      requires i < K() ==> Entry(i, bEnd, pEnd, x)
      modifies this
      ensures OutputOk(pass)
      ensures i == K() ==> baseIters == old(baseIters) && patchIters == old(patchIters) && out == old(out)
      ensures i < K() ==> Consumed(old(baseIters), old(patchIters), baseIters, patchIters, G(), i, bEnd, pEnd)
      ensures i < K() ==> Added(old(out), out, K(), i, old(Goal(i, bEnd, pEnd, x)))
      decreases K() - i, 3
    {
      if i < K() {
        hide Represents, Sorted, SortColumnHolds, IsBoundary, Keyed, MergeRows, Level, LevelsRest, Chain, OutputOk,
             Advanced, Consumed, Added, LoopState, BaseIterator.Loaded, PatchIterator.Loaded;
        ghost var target := Goal(i, bEnd, pEnd, x);
        ghost var bi, pi, o := baseIters, patchIters, out;
        Enter(i, bEnd, pEnd, pass, x);
        MergeBoth(i, pass, x, target, bEnd, pEnd, bi, pi);
        MergePatchOnly(i, pass, x, target, bEnd, pEnd, bi, pi);
        MergeBaseOnly(i, pass, x, target, bEnd, pEnd, bi, pi);
        Leave(i, bEnd, pEnd, pass, x, target, bi, pi, o);
      }
    }

    // While both inputs have runs, takes the smaller one, or both if they tie.
    method MergeBoth(i: nat, pass: Pass, ghost x: seq<DataValue>, ghost target: seq<Row>, bEnd: nat, pEnd: nat,
      ghost bi: seq<BaseIterator>, ghost pi: seq<PatchIterator>)
      requires Inputs() && i < K() && |baseIters| == |patchIters| == K() && |out| == K() + 1
      requires LoopState(i, pass, x, target, bEnd, pEnd)
      requires Advanced(bi, pi, baseIters, patchIters, i, bEnd, pEnd)
      modifies this
      ensures |baseIters| == |patchIters| == K() && |out| == K() + 1
      ensures LoopState(i, pass, x, target, bEnd, pEnd)
      ensures Advanced(bi, pi, baseIters, patchIters, i, bEnd, pEnd) && out[..i] == old(out)[..i]
      ensures baseIters[i].Done() || patchIters[i].Done()
      decreases K() - i, 2
    {
      hide Represents, Sorted, SortColumnHolds, IsBoundary, Keyed, MergeRows, Level, LevelsRest, Chain, OutputOk,
           Advanced, Consumed, Added, LoopState, Left, BaseIterator.Loaded, PatchIterator.Loaded;
      while !baseIters[i].Done() && !patchIters[i].Done()
        invariant |baseIters| == |patchIters| == K() && |out| == K() + 1
        invariant LoopState(i, pass, x, target, bEnd, pEnd)
        invariant Advanced(bi, pi, baseIters, patchIters, i, bEnd, pEnd) && out[..i] == old(out)[..i]
        decreases Left(baseIters, patchIters, i)
      {
        ghost var bi1, pi1 := baseIters, patchIters;
        AtLoop(i, pass, x, target, bEnd, pEnd);
        if baseIters[i].Count() == 0 {
          SkipRun(i, pass, x, target, bEnd, pEnd);
          AtLoop(i, pass, x, target, bEnd, pEnd);
          AdvancedStep(bi, pi, bi1, pi1, baseIters, patchIters, G(), i, bEnd, pEnd, 1);
        } else {
          // A patch run always has rows.
          var res := Compare(patchIters[i].val, baseIters[i].val);
          Step(i, res, pass, x, target, bEnd, pEnd);
          AtLoop(i, pass, x, target, bEnd, pEnd);
          AdvancedStep(bi, pi, bi1, pi1, baseIters, patchIters, G(), i, bEnd, pEnd, res);
        }
      }
    }

    // Takes the remaining patch runs.
    method MergePatchOnly(i: nat, pass: Pass, ghost x: seq<DataValue>, ghost target: seq<Row>, bEnd: nat, pEnd: nat,
      ghost bi: seq<BaseIterator>, ghost pi: seq<PatchIterator>)
      requires Inputs() && i < K() && |baseIters| == |patchIters| == K() && |out| == K() + 1
      requires LoopState(i, pass, x, target, bEnd, pEnd)
      requires Advanced(bi, pi, baseIters, patchIters, i, bEnd, pEnd)
      requires baseIters[i].Done() || patchIters[i].Done()
      modifies this
      ensures |baseIters| == |patchIters| == K() && |out| == K() + 1
      ensures LoopState(i, pass, x, target, bEnd, pEnd)
      ensures Advanced(bi, pi, baseIters, patchIters, i, bEnd, pEnd) && out[..i] == old(out)[..i]
      ensures patchIters[i].Done()
      decreases K() - i, 2
    {
      hide Represents, Sorted, SortColumnHolds, IsBoundary, Keyed, MergeRows, Level, LevelsRest, Chain, OutputOk,
           Advanced, Consumed, Added, LoopState, Left, BaseIterator.Loaded, PatchIterator.Loaded;
      while !patchIters[i].Done()
        invariant |baseIters| == |patchIters| == K() && |out| == K() + 1
        invariant LoopState(i, pass, x, target, bEnd, pEnd)
        invariant Advanced(bi, pi, baseIters, patchIters, i, bEnd, pEnd) && out[..i] == old(out)[..i]
        invariant baseIters[i].Done() || patchIters[i].Done()
        decreases Left(baseIters, patchIters, i)
      {
        ghost var bi1, pi1 := baseIters, patchIters;
        AtLoop(i, pass, x, target, bEnd, pEnd);
        Step(i, -1, pass, x, target, bEnd, pEnd);
        AtLoop(i, pass, x, target, bEnd, pEnd);
        AdvancedStep(bi, pi, bi1, pi1, baseIters, patchIters, G(), i, bEnd, pEnd, -1);
      }
    }

    // Takes the remaining base runs that still have rows.
    method MergeBaseOnly(i: nat, pass: Pass, ghost x: seq<DataValue>, ghost target: seq<Row>, bEnd: nat, pEnd: nat,
      ghost bi: seq<BaseIterator>, ghost pi: seq<PatchIterator>)
      requires Inputs() && i < K() && |baseIters| == |patchIters| == K() && |out| == K() + 1
      requires LoopState(i, pass, x, target, bEnd, pEnd)
      requires Advanced(bi, pi, baseIters, patchIters, i, bEnd, pEnd)
      requires patchIters[i].Done()
      modifies this
      ensures |baseIters| == |patchIters| == K() && |out| == K() + 1
      ensures LoopState(i, pass, x, target, bEnd, pEnd)
      ensures Advanced(bi, pi, baseIters, patchIters, i, bEnd, pEnd) && out[..i] == old(out)[..i]
      ensures patchIters[i].Done() && baseIters[i].Done()
      decreases K() - i, 2
    {
      hide Represents, Sorted, SortColumnHolds, IsBoundary, Keyed, MergeRows, Level, LevelsRest, Chain, OutputOk,
           Advanced, Consumed, Added, LoopState, Left, BaseIterator.Loaded, PatchIterator.Loaded;
      while !baseIters[i].Done()
        invariant |baseIters| == |patchIters| == K() && |out| == K() + 1
        invariant LoopState(i, pass, x, target, bEnd, pEnd)
        invariant Advanced(bi, pi, baseIters, patchIters, i, bEnd, pEnd) && out[..i] == old(out)[..i]
        invariant patchIters[i].Done()
        decreases Left(baseIters, patchIters, i)
      {
        ghost var bi1, pi1 := baseIters, patchIters;
        AtLoop(i, pass, x, target, bEnd, pEnd);
        if baseIters[i].Count() > 0 {
          Step(i, 1, pass, x, target, bEnd, pEnd);
        } else {
          SkipRun(i, pass, x, target, bEnd, pEnd);
        }
        AtLoop(i, pass, x, target, bEnd, pEnd);
        AdvancedStep(bi, pi, bi1, pi1, baseIters, patchIters, G(), i, bEnd, pEnd, 1);
      }
    }

    // An iterator of a running level is done or has a run loaded.
    lemma {:induction false} AtLoop(i: nat, pass: Pass, x: seq<DataValue>, target: seq<Row>, bEnd: nat, pEnd: nat)
      requires Inputs() && i < K() && LoopState(i, pass, x, target, bEnd, pEnd)
      ensures |baseIters| == |patchIters| == K() && |out| == K() + 1
      ensures !baseIters[i].Done() <==> baseIters[i].Loaded(G(), i)
      ensures baseIters[i].Done() <==> baseIters[i].currentCount >= baseIters[i].endCount
      ensures !patchIters[i].Done() <==> patchIters[i].Loaded(G(), i)
      ensures baseIters[i].endCount == bEnd && patchIters[i].endIdx == pEnd
      ensures baseIters[i].Loaded(G(), i) ==> baseIters[i].Count() >= 0
    {
      hide Represents, Sorted, SortColumnHolds, IsBoundary, Keyed, MergeRows, Level, OutputOk, Chain;
      if baseIters[i].Loaded(G(), i) {
        RunsAhead(baseIters[i], G(), i);
      }
    }

    // Positions the iterators of level i for the given range.
    method Enter(i: nat, bEnd: nat, pEnd: nat, pass: Pass, ghost x: seq<DataValue>)
      requires Inputs() && i < K() && OutputOk(pass) && Entry(i, bEnd, pEnd, x)
      modifies this`baseIters, this`patchIters
      ensures |baseIters| == |patchIters| == K() && |out| == K() + 1
      ensures LoopState(i, pass, x, old(Goal(i, bEnd, pEnd, x)), bEnd, pEnd)
      ensures Advanced(old(baseIters), old(patchIters), baseIters, patchIters, i, bEnd, pEnd)
    {
      hide Represents, Sorted, SortColumnHolds, IsBoundary, Keyed, MergeRows, OutputOk, AllPrefixed, Chain, Level;
      ghost var bs, ps := G().Live(baseIters[i].currentCount, bEnd), G().Patch(patchIters[i].idx, pEnd);
      LevelEnter(K(), i, x, G().Total(), bs, ps, out[i]);
      ghost var bi, pi := baseIters, patchIters;
      SetBaseEnd(i, bEnd);
      SetPatchEnd(i, pEnd);
      ChainSame(bi, pi, baseIters, patchIters, G(), i);
    }

    // Both inputs are used up: every level from i on has reached the target.
    lemma {:induction false} Leave(i: nat, bEnd: nat, pEnd: nat, pass: Pass, x: seq<DataValue>, target: seq<Row>,
                                   bi: seq<BaseIterator>, pi: seq<PatchIterator>, o: seq<seq<Row>>)
      requires Inputs() && i < K() && LoopState(i, pass, x, target, bEnd, pEnd)
      requires |baseIters| == |patchIters| == K() && baseIters[i].Done() && patchIters[i].Done()
      requires Advanced(bi, pi, baseIters, patchIters, i, bEnd, pEnd)
      requires |o| == |out| == K() + 1 && out[..i] == o[..i]
      ensures Consumed(bi, pi, baseIters, patchIters, G(), i, bEnd, pEnd)
      ensures Added(o, out, K(), i, target) && OutputOk(pass)
    {
      hide Represents, Sorted, SortColumnHolds, IsBoundary, OutputOk;
      assert out[i] + [] == out[i];
    }

    // Passes over a run whose rows were all deleted.
    method SkipRun(i: nat, pass: Pass, ghost x: seq<DataValue>, ghost target: seq<Row>, ghost bEnd: nat,
        ghost pEnd: nat)
      requires Inputs() && i < K() && LoopState(i, pass, x, target, bEnd, pEnd)
      requires |baseIters| == |patchIters| == K() && baseIters[i].Loaded(G(), i) && baseIters[i].Count() == 0
      modifies this`baseIters
      ensures |baseIters| == K() && LoopState(i, pass, x, target, bEnd, pEnd)
      ensures Stepped(old(baseIters), patchIters, baseIters, patchIters, i, 1)
    {
      hide Represents, Sorted, SortColumnHolds, IsBoundary, Keyed, MergeRows, Level, OutputOk;
      ghost var bi := baseIters;
      NextBase(i);
      SkipLive(bi[i], G(), i);
      ChainSkip(bi, patchIters, baseIters, G(), i);
    }

    // One run on level i, and on to the next run of the inputs it used.
    method Step(i: nat, res: int, pass: Pass, ghost x: seq<DataValue>, ghost target: seq<Row>, bEnd: nat, pEnd: nat)
      requires Inputs() && i < K() && LoopState(i, pass, x, target, bEnd, pEnd)
      requires Outcome(G(), i, baseIters[i], patchIters[i], res) && |baseIters| == |patchIters| == K()
      modifies this
      ensures LoopState(i, pass, x, target, bEnd, pEnd)
      ensures |baseIters| == |patchIters| == K()
      ensures Stepped(old(baseIters), old(patchIters), baseIters, patchIters, i, res)
      ensures out[..i] == old(out)[..i]
      decreases K() - i, 1
    {
      hide Represents, Sorted, SortColumnHolds, IsBoundary, Keyed, MergeRows, RunRows, Level, LevelsRest, Chain,
           OutputOk;
      ghost var bi, pi, o := baseIters, patchIters, out;
      StepLevel(G(), i, x, target, baseIters[i], patchIters[i], out[i], res);
      EmitRun(i, res, pass, x, target, bEnd, pEnd);
      ghost var bi1, pi1 := baseIters, patchIters;
      SameUpTo(bi, bi1, i);
      SameUpTo(pi, pi1, i);
      if res >= 0 {
        NextBase(i);
      }
      if res <= 0 {
        NextPatch(i);
      }
      ChainAfter(bi, pi, bi1, pi1, baseIters, patchIters, G(), i, res);
    }

    // ------------------------------------------------------- the two passes

    lemma {:induction false} TopEntry()
      requires Inputs() && 0 < K() && LevelsRest(baseIters, patchIters, G(), 0) && Chain(baseIters, patchIters, G(), 0)
      requires baseIters[0].currentCount == 0 && patchIters[0].idx == 0
      requires |out| == K() + 1 && forall j :: 0 <= j <= K() ==> out[j] == []
      ensures Entry(0, base.size, |patch|, []) && Goal(0, base.size, |patch|, []) == G().Total()
    {
      hide SortColumnHolds, LevelsRest, Chain;
      var bs := G().Live(0, base.size);
      G().LiveKeyed(0, base.size);
      assert G().Patch(0, |patch|) == patch;
      assert [] + MergeRows(bs, patch, K()) == G().Total();
    }

    // First pass: how many entries each merged sort column needs.
    method PreAllocateLengths()
      requires Inputs()
      modifies this
      ensures |mergedLengths| == K() && Keyed(G().Total(), K())
      ensures forall j :: 0 <= j < K() ==> mergedLengths[j] == |Ends(Prefixes(G().Total(), K(), j))|
    {
      hide Represents, Sorted, SortColumnHolds, Entry, Goal, MergeRows;
      TotalKeyed();
      mergedLengths := seq(K(), _ => 0);
      out := seq(K() + 1, _ => []);
      InitIters();
      if 0 < K() {
        TopEntry();
      }
      MergeRecursive(0, base.size, |patch|, PreAllocate, []);
    }

    // Allocates the merged columns; dropped unsorted columns get no vectors.
    method Allocate()
      requires Inputs() && |mergedLengths| == K() && Keyed(G().Total(), K())
      requires forall j :: 0 <= j < K() ==> mergedLengths[j] == |Ends(Prefixes(G().Total(), K(), j))|
      modifies this`mergedSorted, this`mergedUnsorted, this`sortBegins, this`restBegins, this`outputCounts, this`out
      ensures OutputOk(Write) && forall j :: 0 <= j <= K() ==> out[j] == []
    {
      hide Represents, Sorted, SortColumnHolds, SortWritten, Ends;
      TotalSize();
      mergedSorted := AllocateSorted();
      mergedUnsorted := AllocateUnsorted();
      sortBegins, outputCounts := seq(K(), _ => 0), seq(K(), _ => 0);
      restBegins := seq(|base.unsorted|, _ => 0);
      out := seq(K() + 1, _ => []);
    }

    method AllocateSorted() returns (cols: seq<VectorParty>)
      requires Inputs() && |mergedLengths| == K()
      ensures |cols| == K()
      ensures forall j :: 0 <= j < K() ==>
                cols[j].length == mergedLengths[j] && SortWritten(cols[j], 0, 0, [], keyDefaults[j], K(), j)
    {
      hide Represents, Sorted, SortWritten;
      cols := [];
      for j := 0 to K()
        invariant |cols| == j
        invariant forall i :: 0 <= i < j ==>
                    cols[i].length == mergedLengths[i] && SortWritten(cols[i], 0, 0, [], keyDefaults[i], K(), i)
      {
        SortWrittenInit(mergedLengths[j], keyDefaults[j], K(), j);
        cols := cols + [NewVectorParty(mergedLengths[j], keyDefaults[j]).Allocate(true)];
      }
    }

    method AllocateUnsorted() returns (cols: seq<VectorParty>)
      requires Inputs()
      ensures RestsWritten(cols, seq(|base.unsorted|, _ => 0), [], restDefaults, columnDeletions, totalSize)
      ensures |cols| == |base.unsorted|
    {
      hide Represents, Sorted;
      cols := [];
      for u := 0 to |base.unsorted|
        invariant |cols| == u
        invariant forall i :: 0 <= i < u ==>
                    cols[i] == (var vp := NewVectorParty(totalSize, restDefaults[i]);
                                if columnDeletions[i] then vp else vp.Allocate(false))
      {
        var vp := NewVectorParty(totalSize, restDefaults[u]);
        cols := cols + [if columnDeletions[u] then vp else vp.Allocate(false)];
      }
    }

    // Second pass: writes the merged columns.
    method WriteColumns()
      requires Inputs() && OutputOk(Write) && forall j :: 0 <= j <= K() ==> out[j] == []
      modifies this
      ensures OutputOk(Write) && forall j :: 0 <= j <= K() ==> out[j] == G().Total()
    {
      hide Represents, Sorted, SortColumnHolds, Entry, Goal, MergeRows, SortsWritten, RestsWritten;
      InitIters();
      if 0 < K() {
        TopEntry();
      }
      MergeRecursive(0, base.size, |patch|, Write, []);
      // Without sort columns the base rows are copied first, then the patch rows.
      if K() == 0 {
        WriteUnsortedOnly();
      }
    }

    method WriteUnsortedOnly()
      requires Inputs() && K() == 0 && OutputOk(Write) && out == [[]]
      modifies this`mergedUnsorted, this`restBegins, this`out
      ensures OutputOk(Write) && out == [G().Total()]
    {
      hide Represents, Sorted, MergeRows, RestsWritten;
      TotalSize();
      NoSortColumns();
      ghost var live := G().Live(0, |rows|);
      WriteUnsortedColumns(0, base.size, BaseReader, baseRowDeleted, totalSize, 0, []);
      WriteUnsortedColumns(0, |patch|, PatchReader, [], totalSize, 0, [] + live);
      out := [G().Total()];
      TotalKeyed();
    }

    lemma {:induction false} NoSortColumns()
      requires Inputs() && K() == 0
      ensures base.size == |rows| && G().Total() == [] + G().Live(0, |rows|) + G().Patch(0, |patch|)
      ensures G().Below(0, 0) && G().Below(|baseRowDeleted|, |rows|)
              && baseRowDeleted == baseRowDeleted[0..|baseRowDeleted|]
    {
      var live := G().Live(0, |rows|);
      G().LiveKeyed(0, |rows|);
      MergeEqualKeys(live, patch, 0);
      assert G().Patch(0, |patch|) == patch;
    }

    // Merges the base batch, without its deleted rows, with the patch. `lengths` are
    // the sort column lengths the first pass counted.
    method MergeBatches() returns (merged: Batch, lengths: seq<nat>)
      requires Inputs()
      modifies this
      ensures Wide(G().Total(), |restDefaults|)
      ensures Represents(merged, Masked(G().Total(), columnDeletions, restDefaults)) && NestedForm.NestedRunForm(merged)
      ensures |merged.sorted| == |lengths| == K()
      ensures forall j :: 0 <= j < K() ==> merged.sorted[j].length == lengths[j]
      ensures SlotsFilled(lengths) && CountsRows(merged, G().Total(), columnDeletions, restDefaults)
    {
      hide Represents, Sorted, SortColumnHolds, Masked, Wide, RestsWritten, SortWritten, NestedForm.NestedRunForm,
           CountsRows;
      PreAllocateLengths();
      lengths := mergedLengths;
      Allocate();
      WriteColumns();
      FillsSlots();
      merged := PruneColumns();
      NestedForm.RepresentsIsNested(merged, Masked(G().Total(), columnDeletions, restDefaults));
    }

    // The write positions ended exactly at the allocated lengths: every sort
    // column made as many actions as the first pass counted and reached the total
    // row count, and every live unsorted column received every row.
    ghost predicate SlotsFilled(lengths: seq<nat>)
      reads this`sortBegins, this`outputCounts, this`restBegins
    {
      && |sortBegins| == |outputCounts| == |lengths| == K() && |restBegins| == |columnDeletions|
      && (forall j :: 0 <= j < K() ==> sortBegins[j] == lengths[j] && outputCounts[j] == totalSize)
      && (forall u :: 0 <= u < |restBegins| && !columnDeletions[u] ==> restBegins[u] == totalSize)
    }

    lemma {:induction false} FillsSlots()
      requires Inputs() && OutputOk(Write) && (forall j :: 0 <= j <= K() ==> out[j] == G().Total())
      ensures SlotsFilled(seq(K(), j requires 0 <= j < K() => |Ends(Prefixes(G().Total(), K(), j))|))
    {
      TotalSize();
      hide Represents, Sorted, SortColumnHolds, MergeRows, Ends;
    }

    method PruneColumns() returns (merged: Batch)
      requires Inputs() && OutputOk(Write) && (forall j :: 0 <= j <= K() ==> out[j] == G().Total())
      ensures |merged.sorted| == K() && forall j :: 0 <= j < K() ==> merged.sorted[j] == mergedSorted[j].Prune()
      ensures Wide(G().Total(), |restDefaults|)
      ensures Represents(merged, Masked(G().Total(), columnDeletions, restDefaults))
      ensures CountsRows(merged, G().Total(), columnDeletions, restDefaults)
    {
      hide Represents, Sorted, SortColumnHolds, Masked, Wide, RestWritten, SortWritten, MergeRows;
      var sorted, unsorted := [], [];
      for j := 0 to K()
        invariant |sorted| == j && forall i :: 0 <= i < j ==> sorted[i] == mergedSorted[i].Prune()
      {
        sorted := sorted + [mergedSorted[j].Prune()];
      }
      for u := 0 to |base.unsorted|
        invariant |unsorted| == u && forall i :: 0 <= i < u ==> unsorted[i] == mergedUnsorted[i].Prune()
      {
        unsorted := unsorted + [mergedUnsorted[u].Prune()];
      }
      merged := Batch(totalSize, sorted, unsorted);
      PrunedRepresents(merged);
      PrunedCounts(merged);
    }

    lemma {:induction false} PrunedCounts(merged: Batch)
      requires Inputs() && OutputOk(Write) && (forall j :: 0 <= j <= K() ==> out[j] == G().Total())
      requires |merged.unsorted| == |base.unsorted| && Wide(G().Total(), |restDefaults|)
      requires forall u :: 0 <= u < |base.unsorted| ==> merged.unsorted[u] == mergedUnsorted[u].Prune()
      ensures CountsRows(merged, G().Total(), columnDeletions, restDefaults)
    {
      hide Represents, Sorted, SortColumnHolds, MergeRows, SortsWritten;
      forall u | 0 <= u < |restDefaults| && !columnDeletions[u]
        ensures merged.unsorted[u].nonDefaultValueCount ==
                  CountNot(RestColumn(G().Total(), |restDefaults|, u), restDefaults[u])
      {
        assert RestWritten(mergedUnsorted[u], restBegins[u], G().Total(), restDefaults[u], |restDefaults|, u);
      }
    }

    lemma {:induction false} PrunedRepresents(merged: Batch)
      requires Inputs() && OutputOk(Write) && (forall j :: 0 <= j <= K() ==> out[j] == G().Total())
      requires |merged.sorted| == K() && forall j :: 0 <= j < K() ==> merged.sorted[j] == mergedSorted[j].Prune()
      requires |merged.unsorted| == |base.unsorted|
      requires forall u :: 0 <= u < |base.unsorted| ==> merged.unsorted[u] == mergedUnsorted[u].Prune()
      requires merged.size == totalSize
      ensures Wide(G().Total(), |restDefaults|)
      ensures Represents(merged, Masked(G().Total(), columnDeletions, restDefaults))
    {
      var total := G().Total();
      var rows' := Masked(total, columnDeletions, restDefaults);
      TotalSize();
      G().TotalIsStableMerge();
      assert Sorted(rows', K());
      forall j | 0 <= j < K() ensures SortColumnHolds(merged.sorted[j], rows', K(), j) {
        SortWrittenDone(mergedSorted[j], sortBegins[j], outputCounts[j], total, keyDefaults[j], K(), j);
        SortColumnByKeys(merged.sorted[j], total, rows', K(), j);
      }
      forall u | 0 <= u < |base.unsorted| ensures UnsortedColumnHolds(merged.unsorted[u], rows', u) {
        if !columnDeletions[u] {
          RestWrittenDone(mergedUnsorted[u], restBegins[u], total, restDefaults[u], |restDefaults|, u);
        }
        UnsortedMasked(merged.unsorted[u], total, columnDeletions, restDefaults, u);
      }
    }
  }
}
