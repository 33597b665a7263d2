/** Vector parties: the value, null and count vectors of one column of a batch. */
module VectorParties {
  import opened Common
  import opened DataValues
  import opened DefaultCounts
  import opened Rows
  import opened RunLength
  import opened NestedRuns

  datatype ColumnMode = AllValuesDefault | AllValuesPresent | HasNullVector | HasCountVector

  datatype CountsUpdateMode = IgnoreCount | IncrementCount | CheckExistingCount

  datatype VectorParty = VectorParty(
    columnMode: ColumnMode,
    length: nat,
    nonDefaultValueCount: int,
    defaultValue: DataValue,
    values: Option<seq<int>>,
    nulls: Option<seq<bool>>,
    counts: Option<seq<nat>>)
  {
    // The vectors that are present have the party's length, and those the mode
    // reads are present.
    predicate Allocated() {
      && (values.Some? ==> |values.value| == length)
      && (nulls.Some? ==> |nulls.value| == length)
      && (counts.Some? ==> |counts.value| == length + 1)
      && (columnMode != AllValuesDefault ==> values.Some?)
      && (columnMode == HasCountVector ==> counts.Some?)
    }

    function GetDataValue(offset: nat): DataValue
      requires Allocated()
      requires columnMode != AllValuesDefault ==> offset < length
    {
      if columnMode == AllValuesDefault then defaultValue
      else if nulls.None? || nulls.value[offset] then Valid(values.value[offset])
      else Null
    }

    // A null entry stores the raw value zero.
    predicate NullsZeroed()
      requires Allocated() && columnMode != AllValuesDefault
    {
      forall n :: 0 <= n < length ==> GetDataValue(n).Valid? || values.value[n] == 0
    }

    // Values and nulls zeroed, plus zeroed cumulative counts for a sort column.
    function Allocate(hasCount: bool): VectorParty {
      this.(values := Some(seq(length, _ => 0)),
            nulls := Some(seq(length, _ => false)),
            counts := if hasCount then Some(seq(length + 1, _ => 0)) else counts,
            columnMode := if hasCount then HasCountVector else HasNullVector)
    }

    // Overwrites one entry, then maintains the non-default count. In
    // CheckExistingCount mode the "existing" value is read back after the write.
    function SetDataValue(offset: nat, value: DataValue, mode: CountsUpdateMode, count: nat): VectorParty
      requires Allocated() && columnMode != AllValuesDefault && nulls.Some? && offset < length
    {
      var vp := this.(nulls := Some(nulls.value[offset := value.Valid?]),
                      values := Some(values.value[offset := if value.Valid? then value.v else 0]));
      var isNonDefault := value != defaultValue;
      match mode
      case IgnoreCount => vp
      case IncrementCount =>
        if isNonDefault then vp.(nonDefaultValueCount := nonDefaultValueCount + count) else vp
      case CheckExistingCount =>
        var existing := vp.GetDataValue(offset) != defaultValue;
        if !existing && isNonDefault then vp.(nonDefaultValueCount := nonDefaultValueCount + count)
        else if existing && !isNonDefault then vp.(nonDefaultValueCount := nonDefaultValueCount - count)
        else vp
    }

    function SetCount(offset: nat, count: nat): VectorParty
      requires counts.Some? && offset + 1 < |counts.value|
    {
      this.(counts := Some(counts.value[offset + 1 := count]))
    }

    function JudgeMode(): ColumnMode {
      if nonDefaultValueCount == 0 then AllValuesDefault
      else if counts.Some? then HasCountVector
      else if nulls.None? || (forall i :: 0 <= i < |nulls.value| ==> nulls.value[i]) then AllValuesPresent
      else HasNullVector
    }

    // Drops the vectors the judged mode does not need.
    function Prune(): VectorParty {
      var mode := JudgeMode();
      match mode
      case AllValuesDefault => this.(values := None, counts := None, nulls := None, columnMode := mode)
      case AllValuesPresent => this.(nulls := None, columnMode := mode)
      case _ => this.(columnMode := mode)
    }

    // A private, fully allocated copy of an uncompressed column.
    function CopyOnWrite(batchSize: nat): VectorParty
      requires Allocated() && columnMode != HasCountVector
    {
      var copy := NewVectorParty(batchSize, defaultValue).Allocate(false)
                   .(nonDefaultValueCount := nonDefaultValueCount);
      if columnMode == AllValuesDefault then
        if defaultValue.Valid? then
          copy.(nulls := Some(seq(batchSize, _ => true)), values := Some(seq(batchSize, _ => defaultValue.v)))
        else copy
      else copy.(values := values, nulls := if nulls.Some? then nulls else Some(seq(batchSize, _ => true)))
    }
  }

  // No vectors yet: reads as all default.
  function NewVectorParty(length: nat, defaultValue: DataValue): VectorParty {
    VectorParty(AllValuesDefault, length, 0, defaultValue, None, None, None)
  }

  // Everything an uncompressed column of n rows reads as.
  ghost function Reads(vp: VectorParty, n: nat): (vals: seq<DataValue>)
    requires vp.Allocated() && (vp.columnMode != AllValuesDefault ==> n <= vp.length)
    ensures |vals| == n && forall r :: 0 <= r < n ==> vals[r] == vp.GetDataValue(r)
  {
    seq(n, r requires 0 <= r < n => vp.GetDataValue(r))
  }

  lemma {:induction false} SetThenGet(vp: VectorParty, offset: nat, value: DataValue, mode: CountsUpdateMode,
      count: nat)
    requires vp.Allocated() && vp.columnMode != AllValuesDefault && vp.nulls.Some? && offset < vp.length
    ensures var w := vp.SetDataValue(offset, value, mode, count);
            && w.Allocated() && w.nulls.Some? && w.columnMode == vp.columnMode && w.length == vp.length
            && w.defaultValue == vp.defaultValue && w.counts == vp.counts
            && (vp.NullsZeroed() ==> w.NullsZeroed())
            && (forall o :: 0 <= o < vp.length ==>
                  w.GetDataValue(o) == if o == offset then value else vp.GetDataValue(o))
  {
  }

  // ------------------------------------------------------------- batches

  // An archive batch; `sorted` lists the sort columns in archiving sort order.
  datatype Batch = Batch(size: nat, sorted: seq<VectorParty>, unsorted: seq<VectorParty>)

  ghost predicate SortColumnHolds(vp: VectorParty, rows: seq<Row>, k: nat, j: nat)
    requires Keyed(rows, k) && j < k
  {
    && vp.Allocated()
    && |Ends(Prefixes(rows, k, j))| <= vp.length
    && match vp.columnMode
       case HasCountVector =>
         && vp.length == |Vals(rows, k, j)|
         && vp.counts.value == [0] + Ends(Prefixes(rows, k, j)) && vp.NullsZeroed()
         && (forall n :: 0 <= n < vp.length ==> vp.GetDataValue(n) == Vals(rows, k, j)[n])
       case AllValuesDefault =>
         forall r :: 0 <= r < |rows| ==> rows[r].key[j] == vp.defaultValue
       case _ => false
  }

  ghost predicate UnsortedColumnHolds(vp: VectorParty, rows: seq<Row>, u: nat)
    requires forall r :: 0 <= r < |rows| ==> u < |rows[r].rest|
  {
    && vp.Allocated() && vp.columnMode != HasCountVector && vp.counts.None?
    && vp.length == |rows|
    && (forall r :: 0 <= r < |rows| ==> vp.GetDataValue(r) == rows[r].rest[u])
  }

  // The batch stores exactly these rows, in this order, in nested run-length form.
  ghost predicate Represents(b: Batch, rows: seq<Row>) {
    && b.size == |rows|
    && Sorted(rows, |b.sorted|)
    && (forall r :: 0 <= r < |rows| ==> |rows[r].rest| == |b.unsorted|)
    && (forall j :: 0 <= j < |b.sorted| ==> SortColumnHolds(b.sorted[j], rows, |b.sorted|, j))
    && (forall u :: 0 <= u < |b.unsorted| ==> UnsortedColumnHolds(b.unsorted[u], rows, u))
  }

  // ------------------------------------------------------------- pruning

  ghost predicate CountIsExact(vp: VectorParty)
    requires vp.Allocated()
  {
    vp.nonDefaultValueCount == CountNot(Reads(vp, vp.length), vp.defaultValue)
  }

  // With an exact non-default count, pruning an uncompressed column changes no read.
  lemma {:induction false} PruneKeepsReads(vp: VectorParty)
    requires vp.Allocated() && vp.columnMode == HasNullVector && vp.counts.None?
    requires CountIsExact(vp)
    ensures vp.Prune().Allocated() && vp.Prune().columnMode != HasCountVector && vp.Prune().counts.None?
    ensures Reads(vp.Prune(), vp.length) == Reads(vp, vp.length)
  {
    CountNotZero(Reads(vp, vp.length), vp.defaultValue);
  }

  // The same for a sort column, where the count weighs each run by its rows.
  lemma {:induction false} PruneKeepsSortColumn(vp: VectorParty, rows: seq<Row>, k: nat, j: nat)
    requires Keyed(rows, k) && j < k
    requires SortColumnHolds(vp, rows, k, j) && vp.columnMode == HasCountVector
    requires vp.nonDefaultValueCount == CountNot(KeyColumn(rows, k, j), vp.defaultValue)
    ensures SortColumnHolds(vp.Prune(), rows, k, j)
    ensures vp.Prune().columnMode == AllValuesDefault <==>
              forall r :: 0 <= r < |rows| ==> rows[r].key[j] == vp.defaultValue
  {
    CountNotZero(KeyColumn(rows, k, j), vp.defaultValue);
  }

  // Overwrites in CheckExistingCount mode compare the new value with itself, so
  // they never change the non-default count.
  lemma {:induction false} CheckExistingNeverCounts(vp: VectorParty, offset: nat, value: DataValue, count: nat)
    requires vp.Allocated() && vp.columnMode != AllValuesDefault && vp.nulls.Some? && offset < vp.length
    ensures vp.SetDataValue(offset, value, CheckExistingCount, count).nonDefaultValueCount == vp.nonDefaultValueCount
  {
    SetThenGet(vp, offset, value, CheckExistingCount, count);
  }

  // The overwrites of an in-place update: (row, value) pairs, in order.
  ghost function Overwrite(vp: VectorParty, writes: seq<(nat, DataValue)>): (w: VectorParty)
    requires vp.Allocated() && vp.columnMode == HasNullVector && vp.nulls.Some?
    requires forall i :: 0 <= i < |writes| ==> writes[i].0 < vp.length
    ensures w.Allocated() && w.columnMode == HasNullVector && w.nulls.Some?
    ensures w.length == vp.length && w.counts == vp.counts && w.defaultValue == vp.defaultValue
    ensures w.nonDefaultValueCount == vp.nonDefaultValueCount
  {
    if writes == [] then vp
    else
      var last := writes[|writes| - 1];
      var w := Overwrite(vp, writes[..|writes| - 1]);
      SetThenGet(w, last.0, last.1, CheckExistingCount, 1);
      w.SetDataValue(last.0, last.1, CheckExistingCount, 1)
  }

  // A fork reads like its source.
  lemma {:induction false} ForkReads(vp: VectorParty)
    requires vp.Allocated() && vp.columnMode != HasCountVector
    ensures var f := vp.CopyOnWrite(vp.length);
            && f.Allocated() && f.columnMode == HasNullVector && f.nulls.Some? && f.counts.None?
            && f.length == vp.length && f.defaultValue == vp.defaultValue
            && f.nonDefaultValueCount == vp.nonDefaultValueCount
            && Reads(f, vp.length) == Reads(vp, vp.length)
  {
    var f := vp.CopyOnWrite(vp.length);
    assert forall r :: 0 <= r < vp.length ==> f.GetDataValue(r) == vp.GetDataValue(r);
  }

  ghost predicate AllDefault(vp: VectorParty)
    requires vp.Allocated()
  {
    forall r :: 0 <= r < vp.length ==> vp.GetDataValue(r) == vp.defaultValue
  }

  // The value a row is left with: its last write, or what it had.
  ghost function LastWrite(writes: seq<(nat, DataValue)>, r: nat, was: DataValue): DataValue {
    if writes == [] then was
    else if writes[|writes| - 1].0 == r then writes[|writes| - 1].1
    else LastWrite(writes[..|writes| - 1], r, was)
  }

  lemma {:induction false} OverwriteReads(vp: VectorParty, writes: seq<(nat, DataValue)>, r: nat)
    requires vp.Allocated() && vp.columnMode == HasNullVector && vp.nulls.Some? && r < vp.length
    requires forall i :: 0 <= i < |writes| ==> writes[i].0 < vp.length
    ensures Overwrite(vp, writes).GetDataValue(r) == LastWrite(writes, r, vp.GetDataValue(r))
    decreases |writes|
  {
    if writes != [] {
      var last, init := writes[|writes| - 1], writes[..|writes| - 1];
      OverwriteReads(vp, init, r);
      SetThenGet(Overwrite(vp, init), last.0, last.1, CheckExistingCount, 1);
    }
  }

  // Pruning a fork after in-place updates keeps what was written exactly when the
  // source column held a non-default value, or the last write to every row is the
  // default.
  lemma {:induction false} ForkPruneExact(vp: VectorParty, writes: seq<(nat, DataValue)>)
    requires vp.Allocated() && vp.columnMode != HasCountVector && CountIsExact(vp)
    requires forall i :: 0 <= i < |writes| ==> writes[i].0 < vp.length
    ensures var f := vp.CopyOnWrite(vp.length);
            && f.Allocated() && f.columnMode == HasNullVector && f.nulls.Some? && f.length == vp.length
            && var w := Overwrite(f, writes);
               && w.Prune().Allocated() && w.Prune().length == w.length
               && (Reads(w.Prune(), w.length) == Reads(w, w.length) <==>
                     !AllDefault(vp) || LeavesDefault(writes, vp.length, vp.defaultValue))
  {
    ForkReads(vp);
    var f := vp.CopyOnWrite(vp.length);
    var w := Overwrite(f, writes);
    CountNotZero(Reads(vp, vp.length), vp.defaultValue);
    PruneExact(w);
    if AllDefault(vp) {
      LeavesAllDefault(f, writes);
    }
  }

  ghost predicate LeavesDefault(writes: seq<(nat, DataValue)>, n: nat, d: DataValue) {
    forall r :: 0 <= r < n ==> LastWrite(writes, r, d) == d
  }

  lemma {:induction false} LeavesAllDefault(f: VectorParty, writes: seq<(nat, DataValue)>)
    requires f.Allocated() && f.columnMode == HasNullVector && f.nulls.Some?
    requires forall i :: 0 <= i < |writes| ==> writes[i].0 < f.length
    requires forall r :: 0 <= r < f.length ==> Reads(f, f.length)[r] == f.defaultValue
    ensures AllDefault(Overwrite(f, writes)) <==> LeavesDefault(writes, f.length, f.defaultValue)
  {
    var w := Overwrite(f, writes);
    forall r | 0 <= r < f.length ensures w.GetDataValue(r) == LastWrite(writes, r, f.defaultValue) {
      OverwriteReads(f, writes, r);
      assert Reads(f, f.length)[r] == f.defaultValue;
    }
    hide LastWrite, Overwrite;
    if AllDefault(w) {
      forall r | 0 <= r < f.length ensures LastWrite(writes, r, f.defaultValue) == f.defaultValue {
        assert w.GetDataValue(r) == f.defaultValue;
      }
    }
    if LeavesDefault(writes, f.length, f.defaultValue) {
      forall r | 0 <= r < f.length ensures w.GetDataValue(r) == f.defaultValue {
        assert LastWrite(writes, r, f.defaultValue) == f.defaultValue;
      }
    }
  }

  // What pruning leaves to read, whatever the count says.
  lemma {:induction false} PrunedReads(w: VectorParty)
    requires w.Allocated() && w.columnMode == HasNullVector && w.nulls.Some? && w.counts.None?
    ensures w.Prune().Allocated() && w.Prune().length == w.length
    ensures forall r :: 0 <= r < w.length ==>
              w.Prune().GetDataValue(r) == if w.nonDefaultValueCount == 0 then w.defaultValue else w.GetDataValue(r)
  {
  }

  lemma {:induction false} PruneExact(w: VectorParty)
    requires w.Allocated() && w.columnMode == HasNullVector && w.nulls.Some? && w.counts.None?
    ensures w.Prune().Allocated() && w.Prune().length == w.length
    ensures Reads(w.Prune(), w.length) == Reads(w, w.length) <==> w.nonDefaultValueCount != 0 || AllDefault(w)
  {
    PrunedReads(w);
    assert forall r :: 0 <= r < w.length ==> Reads(w, w.length)[r] == w.GetDataValue(r);
    assert forall r :: 0 <= r < w.length ==> Reads(w.Prune(), w.length)[r] == w.Prune().GetDataValue(r);
  }

  // A concrete loss: writing 7 into the only row of an all-default column.
  lemma {:induction false} ForkPruneLosesUpdate()
    ensures var vp := NewVectorParty(1, Null);
            && vp.Allocated() && CountIsExact(vp)
            && var w := vp.CopyOnWrite(1).SetDataValue(0, Valid(7), CheckExistingCount, 1);
               && w.Allocated() && w.columnMode == HasNullVector
               && w.GetDataValue(0) == Valid(7) && w.Prune().GetDataValue(0) == Null
  {
    var vp := NewVectorParty(1, Null);
    CountNotZero(Reads(vp, 1), Null);
    var f := vp.CopyOnWrite(1);
    SetThenGet(f, 0, Valid(7), CheckExistingCount, 1);
    PrunedReads(f.SetDataValue(0, Valid(7), CheckExistingCount, 1));
  }
}
