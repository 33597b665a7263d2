/** Host memory accounting and the order in which archive columns are evicted. */
module Eviction {
  // A managed object: one column of one archive batch.
  datatype Object = Object(table: string, shardID: int, batchID: int, columnID: int)

  type Sizes = map<Object, int>

  ghost function Total(m: Sizes): int
    decreases |m|
  {
    if m == map[] then 0
    else
      var k :| k in m;
      m[k] + Total(m - {k})
  }

  lemma {:induction false} TotalWithout(m: Sizes, k: Object)
    requires k in m
    ensures Total(m) == m[k] + Total(m - {k})
    decreases |m|
  {
    var j :| j in m && Total(m) == m[j] + Total(m - {j});
    if j != k {
      TotalWithout(m - {j}, k);
      TotalWithout(m - {k}, j);
      assert m - {j} - {k} == m - {k} - {j};
    }
  }

  lemma {:induction false} TotalPut(m: Sizes, k: Object, size: int)
    ensures Total(m[k := size]) == size + Total(m - {k})
    ensures Total(m) == (if k in m then m[k] else 0) + Total(m - {k})
  {
    TotalWithout(m[k := size], k);
    assert m[k := size] - {k} == m - {k};
    if k in m {
      TotalWithout(m, k);
    } else {
      assert m - {k} == m;
    }
  }

  // ----------------------------------------------------------- priorities

  datatype BatchInfo = BatchInfo(shardID: int, batchID: int, size: int)

  // The batches of one column held in memory, oldest first.
  datatype ColumnInfo = ColumnInfo(table: string, columnID: int, priority: int, preloadingDays: int, deleted: bool,
      batches: seq<BatchInfo>) {
    ghost predicate Ordered() {
      forall i, j :: 0 <= i < j < |batches| ==> CompareShardBatchID(batches[i], batches[j]) < 0
    }
  }

  function CompareShardBatchID(a: BatchInfo, b: BatchInfo): int {
    if a.batchID == b.batchID then b.shardID - a.shardID else a.batchID - b.batchID
  }

  datatype Priority = Priority(isPreloading: bool, columnPriority: int, batchID: int, size: int)

  function ComparePriority(a: Priority, b: Priority): int {
    if a.isPreloading == b.isPreloading then
      if a.columnPriority == b.columnPriority then
        if a.batchID == b.batchID then b.size - a.size else a.batchID - b.batchID
      else a.columnPriority - b.columnPriority
    else if a.isPreloading then 1 else -1
  }

  predicate IsPreloading(today: int, batchID: int, preloadingDays: int) {
    today - batchID < preloadingDays
  }

  function PriorityOf(today: int, c: ColumnInfo, i: nat): Priority
    requires i < |c.batches|
  {
    Priority(IsPreloading(today, c.batches[i].batchID, c.preloadingDays), c.priority, c.batches[i].batchID,
             c.batches[i].size)
  }

  // No later in (preloading, column priority, batch) order.
  ghost predicate NotAfter(a: Priority, b: Priority) {
    if a.isPreloading != b.isPreloading then b.isPreloading
    else if a.columnPriority != b.columnPriority then a.columnPriority < b.columnPriority
    else a.batchID <= b.batchID
  }

  lemma {:induction false} CompareNotAfter(a: Priority, b: Priority)
    requires ComparePriority(a, b) <= 0
    ensures NotAfter(a, b)
  {
  }

  // Within a column the order is that of its batches.
  lemma {:induction false} NextInColumn(today: int, c: ColumnInfo, i: nat)
    requires c.Ordered() && i + 1 < |c.batches|
    ensures NotAfter(PriorityOf(today, c, i), PriorityOf(today, c, i + 1))
  {
    assert CompareShardBatchID(c.batches[i], c.batches[i + 1]) < 0;
  }

  // -------------------------------------------------------------- the queue

  // Position of every column's next candidate; past the end when it has none.
  type Heads = seq<nat>

  ghost predicate HeadsOk(columns: seq<ColumnInfo>, heads: Heads) {
    |heads| == |columns| && forall c :: 0 <= c < |columns| ==> heads[c] <= |columns[c].batches|
  }

  // The queue holds the next candidate of every column that has one.
  predicate Queued(columns: seq<ColumnInfo>, heads: Heads, c: nat)
    requires c < |columns| == |heads|
  {
    heads[c] < |columns[c].batches|
  }

  ghost function Left(columns: seq<ColumnInfo>, heads: Heads): nat
    requires HeadsOk(columns, heads)
  {
    if columns == [] then 0
    else
      var n := |columns| - 1;
      Left(columns[..n], heads[..n]) + (|columns[n].batches| - heads[n])
  }

  lemma {:induction false} LeftStep(columns: seq<ColumnInfo>, heads: Heads, c: nat)
    requires HeadsOk(columns, heads) && c < |columns| && Queued(columns, heads, c)
    ensures HeadsOk(columns, heads[c := heads[c] + 1])
    ensures Left(columns, heads[c := heads[c] + 1]) == Left(columns, heads) - 1
    decreases |columns|
  {
    var n := |columns| - 1;
    var next := heads[c := heads[c] + 1];
    if c < n {
      LeftStep(columns[..n], heads[..n], c);
      assert next[..n] == heads[..n][c := heads[..n][c] + 1];
    } else {
      assert next[..n] == heads[..n];
    }
  }

  // A candidate with the least priority, or -1 when the queue is empty.
  method Pop(today: int, columns: seq<ColumnInfo>, heads: Heads) returns (best: int)
    requires HeadsOk(columns, heads)
    ensures -1 <= best < |columns|
    ensures best < 0 ==> forall c :: 0 <= c < |columns| ==> !Queued(columns, heads, c)
    ensures best >= 0 ==> Queued(columns, heads, best)
    ensures best >= 0 ==> forall c :: 0 <= c < |columns| && Queued(columns, heads, c) ==>
              NotAfter(PriorityOf(today, columns[best], heads[best]), PriorityOf(today, columns[c], heads[c]))
  {
    best := -1;
    var c := 0;
    while c < |columns|
      invariant 0 <= c <= |columns| && -1 <= best < c
      invariant best < 0 ==> forall d :: 0 <= d < c ==> !Queued(columns, heads, d)
      invariant best >= 0 ==> Queued(columns, heads, best)
      invariant best >= 0 ==> forall d :: 0 <= d < c && Queued(columns, heads, d) ==>
                  ComparePriority(PriorityOf(today, columns[best], heads[best]),
                                  PriorityOf(today, columns[d], heads[d])) <= 0
      decreases |columns| - c
    {
      if Queued(columns, heads, c) {
        if best < 0 || ComparePriority(PriorityOf(today, columns[c], heads[c]),
                                       PriorityOf(today, columns[best], heads[best])) < 0 {
          best := c;
        }
      }
      c := c + 1;
    }
    forall d | best >= 0 && 0 <= d < |columns| && Queued(columns, heads, d)
      ensures NotAfter(PriorityOf(today, columns[best], heads[best]), PriorityOf(today, columns[d], heads[d]))
    {
      CompareNotAfter(PriorityOf(today, columns[best], heads[best]), PriorityOf(today, columns[d], heads[d]));
    }
  }

  ghost predicate InOrder(trace: seq<Priority>) {
    forall i, j :: 0 <= i < j < |trace| ==> NotAfter(trace[i], trace[j])
  }

  datatype Candidate = Candidate(column: nat, index: nat)

  // The visited candidates are those before the heads of columns not deleted.
  ghost predicate Visited(columns: seq<ColumnInfo>, heads: Heads, visited: seq<Candidate>)
    requires |heads| == |columns|
  {
    forall v: Candidate :: v in visited <==>
             v.column < |columns| && !columns[v.column].deleted && v.index < heads[v.column]
  }

  ghost predicate Traces(today: int, columns: seq<ColumnInfo>, visited: seq<Candidate>, trace: seq<Priority>) {
    |trace| == |visited| && forall i :: 0 <= i < |visited| ==>
      visited[i].column < |columns| && visited[i].index < |columns[visited[i].column].batches|
      && trace[i] == PriorityOf(today, columns[visited[i].column], visited[i].index)
  }

  function ObjectOf(columns: seq<ColumnInfo>, v: Candidate): Object
    requires v.column < |columns| && v.index < |columns[v.column].batches|
  {
    var c := columns[v.column];
    Object(c.table, c.batches[v.index].shardID, c.batches[v.index].batchID, c.columnID)
  }

  ghost predicate InRange(columns: seq<ColumnInfo>, visited: seq<Candidate>) {
    forall i :: 0 <= i < |visited| ==>
      visited[i].column < |columns| && visited[i].index < |columns[visited[i].column].batches|
  }

  // The visited objects that were not in use.
  ghost function Evicted(columns: seq<ColumnInfo>, visited: seq<Candidate>, inUse: set<Object>): set<Object>
    requires InRange(columns, visited)
  {
    if visited == [] then {}
    else
      var k := ObjectOf(columns, visited[|visited| - 1]);
      Evicted(columns, visited[..|visited| - 1], inUse) + (if k in inUse then {} else {k})
  }

  lemma {:induction false} EvictOne(columns: seq<ColumnInfo>, visited: seq<Candidate>, inUse: set<Object>, v: Candidate)
    requires InRange(columns, visited) && InRange(columns, visited + [v])
    requires v.column < |columns| && v.index < |columns[v.column].batches|
    ensures Evicted(columns, visited + [v], inUse) ==
            Evicted(columns, visited, inUse) + (if ObjectOf(columns, v) in inUse then {} else {ObjectOf(columns, v)})
  {
    assert (visited + [v])[..|visited + [v]| - 1] == visited;
  }

  // Every candidate of a column that is not deleted was tried.
  ghost predicate Listed(columns: seq<ColumnInfo>, k: Object, v: Candidate) {
    v.column < |columns| && v.index < |columns[v.column].batches| && ObjectOf(columns, v) == k
  }

  // The columns list the registered objects, and only them.
  ghost predicate Lists(columns: seq<ColumnInfo>, sizes: Sizes) {
    && (forall k :: k in sizes ==> exists v :: Listed(columns, k, v))
    && (forall k, v :: Listed(columns, k, v) ==> k in sizes && sizes[k] == columns[v.column].batches[v.index].size)
  }

  // A column of the schema that is marked deleted holds the object.
  ghost predicate OfDeletedColumn(columns: seq<ColumnInfo>, k: Object) {
    exists v :: Listed(columns, k, v) && columns[v.column].deleted
  }

  lemma {:induction false} EvictedHas(columns: seq<ColumnInfo>, visited: seq<Candidate>, inUse: set<Object>,
      v: Candidate)
    requires InRange(columns, visited) && v in visited && v.column < |columns| && v.index < |columns[v.column].batches|
    ensures ObjectOf(columns, v) in inUse || ObjectOf(columns, v) in Evicted(columns, visited, inUse)
    decreases |visited|
  {
    if v != visited[|visited| - 1] {
      EvictedHas(columns, visited[..|visited| - 1], inUse, v);
    }
  }

  // When every candidate was tried, what stays is in use or of a deleted column.
  lemma {:induction false} OnlyHeldStay(columns: seq<ColumnInfo>, heads: Heads, visited: seq<Candidate>,
      inUse: set<Object>, sizes: Sizes)
    requires |heads| == |columns| && InRange(columns, visited) && Lists(columns, sizes)
    requires Visited(columns, heads, visited) && AllTried(columns, heads)
    ensures forall k :: k in sizes - Evicted(columns, visited, inUse) ==> k in inUse || OfDeletedColumn(columns, k)
  {
    forall k | k in sizes - Evicted(columns, visited, inUse) ensures k in inUse || OfDeletedColumn(columns, k) {
      var v :| Listed(columns, k, v);
      if !columns[v.column].deleted {
        assert v in visited;
        EvictedHas(columns, visited, inUse, v);
      }
    }
  }

  ghost predicate AllTried(columns: seq<ColumnInfo>, heads: Heads)
    requires |heads| == |columns|
  {
    forall c :: 0 <= c < |columns| && !columns[c].deleted ==> heads[c] == |columns[c].batches|
  }

  // The visited candidate is not before any earlier one, nor after any that remains.
  lemma {:induction false} VisitInOrder(today: int, columns: seq<ColumnInfo>, heads: Heads, c: nat,
      trace: seq<Priority>)
    requires HeadsOk(columns, heads) && InOrder(trace) && c < |columns| && Queued(columns, heads, c)
             && columns[c].Ordered()
    requires forall d :: 0 <= d < |columns| && Queued(columns, heads, d) && trace != [] ==>
               NotAfter(trace[|trace| - 1], PriorityOf(today, columns[d], heads[d]))
    requires forall d :: 0 <= d < |columns| && Queued(columns, heads, d) ==>
               NotAfter(PriorityOf(today, columns[c], heads[c]), PriorityOf(today, columns[d], heads[d]))
    ensures var next := trace + [PriorityOf(today, columns[c], heads[c])]; InOrder(next)
    ensures var after := heads[c := heads[c] + 1];
            forall d :: 0 <= d < |columns| && Queued(columns, after, d) ==>
              NotAfter(PriorityOf(today, columns[c], heads[c]), PriorityOf(today, columns[d], after[d]))
  {
    var next := trace + [PriorityOf(today, columns[c], heads[c])];
    if heads[c] + 1 < |columns[c].batches| {
      NextInColumn(today, columns[c], heads[c]);
    }
    forall i | 0 <= i < |trace| ensures NotAfter(trace[i], next[|trace|]) {
      assert i < |trace| - 1 ==> NotAfter(trace[i], trace[|trace| - 1]);
      assert NotAfter(trace[|trace| - 1], next[|trace|]);
    }
  }

  lemma {:induction false} VisitOne(today: int, columns: seq<ColumnInfo>, heads: Heads, c: nat,
      visited: seq<Candidate>, trace: seq<Priority>)
    requires HeadsOk(columns, heads) && c < |columns| && Queued(columns, heads, c) && !columns[c].deleted
    requires Visited(columns, heads, visited) && Traces(today, columns, visited, trace)
    ensures Visited(columns, heads[c := heads[c] + 1], visited + [Candidate(c, heads[c])])
    ensures Traces(today, columns, visited + [Candidate(c, heads[c])],
                   trace + [PriorityOf(today, columns[c], heads[c])])
  {
  }

  function FirstHeads(columns: seq<ColumnInfo>): (heads: Heads)
    ensures HeadsOk(columns, heads) && Visited(columns, heads, [])
    ensures forall c :: 0 <= c < |columns| && columns[c].deleted ==> heads[c] == |columns[c].batches|
  {
    seq(|columns|, c requires 0 <= c < |columns| => if columns[c].deleted then |columns[c].batches| else 0)
  }

  // The state of an eviction round: the columns' heads, what was visited in which
  // order, and that nothing left comes before it.
  ghost predicate Round(today: int, columns: seq<ColumnInfo>, heads: Heads, visited: seq<Candidate>,
      trace: seq<Priority>) {
    && HeadsOk(columns, heads) && InRange(columns, visited)
    && Visited(columns, heads, visited) && Traces(today, columns, visited, trace) && InOrder(trace)
    && (forall c :: 0 <= c < |columns| && columns[c].deleted ==> heads[c] == |columns[c].batches|)
    && (forall c :: 0 <= c < |columns| && Queued(columns, heads, c) && trace != [] ==>
          NotAfter(trace[|trace| - 1], PriorityOf(today, columns[c], heads[c])))
  }

  lemma {:induction false} RoundBegins(today: int, columns: seq<ColumnInfo>)
    ensures Round(today, columns, FirstHeads(columns), [], [])
  {
  }

  lemma {:induction false} RoundHeads(today: int, columns: seq<ColumnInfo>, heads: Heads, visited: seq<Candidate>,
      trace: seq<Priority>)
    requires Round(today, columns, heads, visited, trace)
    ensures HeadsOk(columns, heads) && InRange(columns, visited)
    ensures Visited(columns, heads, visited) && Traces(today, columns, visited, trace) && InOrder(trace)
  {
  }

  lemma {:induction false} RoundStep(today: int, columns: seq<ColumnInfo>, heads: Heads, visited: seq<Candidate>,
      trace: seq<Priority>, c: nat)
    requires Round(today, columns, heads, visited, trace) && HeadsOk(columns, heads)
    requires c < |columns| && Queued(columns, heads, c) && columns[c].Ordered()
    requires forall d :: 0 <= d < |columns| && Queued(columns, heads, d) ==>
               NotAfter(PriorityOf(today, columns[c], heads[c]), PriorityOf(today, columns[d], heads[d]))
    ensures HeadsOk(columns, heads[c := heads[c] + 1]) && InRange(columns, visited + [Candidate(c, heads[c])])
    ensures Round(today, columns, heads[c := heads[c] + 1], visited + [Candidate(c, heads[c])],
                  trace + [PriorityOf(today, columns[c], heads[c])])
    ensures Left(columns, heads[c := heads[c] + 1]) < Left(columns, heads)
  {
    VisitInOrder(today, columns, heads, c, trace);
    VisitOne(today, columns, heads, c, visited, trace);
    LeftStep(columns, heads, c);
    hide Visited, Traces, InOrder, Left;
  }

  class HostMemoryManager {
    const totalMemorySize: int
    var managedMemorySize: int
    var unManagedMemorySize: int
    var sizes: Sizes

    // The recorded size is the sum of the registered ones, all positive.
    ghost predicate Valid()
      reads this
    {
      managedMemorySize == Total(sizes) && forall k :: k in sizes ==> sizes[k] > 0
    }

    constructor (total: int)
      ensures Valid() && sizes == map[] && unManagedMemorySize == 0 && totalMemorySize == total
    {
      totalMemorySize := total;
      managedMemorySize, unManagedMemorySize, sizes := 0, 0, map[];
    }

    predicate Fits()
      reads this
    {
      totalMemorySize - managedMemorySize - unManagedMemorySize >= 0
    }

    method ReportUnmanagedSpaceUsageChange(bytes: int)
      requires Valid()
      modifies this`unManagedMemorySize
      ensures Valid() && unManagedMemorySize == old(unManagedMemorySize) + bytes
    {
      unManagedMemorySize := unManagedMemorySize + bytes;
    }

    // Registers a new size, or forgets the object when there is none.
    method ReportManagedObject(k: Object, bytes: int)
      requires Valid()
      modifies this`managedMemorySize, this`sizes
      ensures Valid() && sizes == if bytes <= 0 then old(sizes) - {k} else old(sizes)[k := bytes]
    {
      TotalPut(sizes, k, bytes);
      if bytes <= 0 {
        if k in sizes {
          managedMemorySize := managedMemorySize - sizes[k];
        }
        sizes := sizes - {k};
      } else {
        var change := if k in sizes then bytes - sizes[k] else bytes;
        sizes := sizes[k := bytes];
        managedMemorySize := managedMemorySize + change;
      }
    }

    // A column in use is not evicted.
    method TryEvictBatchColumn(k: Object, inUse: set<Object>) returns (ok: bool)
      requires Valid()
      modifies this`managedMemorySize, this`sizes
      ensures Valid() && (ok <==> k !in inUse) && sizes == if ok then old(sizes) - {k} else old(sizes)
    {
      ok := k !in inUse;
      if ok {
        ReportManagedObject(k, 0);
      }
    }

    // One eviction round over the batches held at its start. What goes is what
    // was visited and not in use.
    method TryEviction(today: int, columns: seq<ColumnInfo>, inUse: set<Object>)
      returns (heads: Heads, ghost visited: seq<Candidate>, ghost trace: seq<Priority>)
      requires Valid() && Lists(columns, sizes) && forall c :: 0 <= c < |columns| ==> columns[c].Ordered()
      modifies this`managedMemorySize, this`sizes
      ensures Valid() && HeadsOk(columns, heads)
      ensures Visited(columns, heads, visited) && Traces(today, columns, visited, trace) && InOrder(trace)
      ensures Fits() || forall k :: k in sizes ==> k in inUse || OfDeletedColumn(columns, k)
      ensures sizes == old(sizes) - Evicted(columns, visited, inUse)
    {
      hide Round, FirstHeads, Total, Left, Visited, Traces, InOrder, Evicted, Lists, OfDeletedColumn;
      heads := FirstHeads(columns);
      visited, trace := [], [];
      RoundBegins(today, columns);
      NothingEvicted(columns, sizes, inUse);
      while !Fits()
        invariant Valid() && Round(today, columns, heads, visited, trace)
        invariant HeadsOk(columns, heads) && InRange(columns, visited)
        invariant sizes == old(sizes) - Evicted(columns, visited, inUse)
        decreases Left(columns, heads)
      {
        var c := Pop(today, columns, heads);
        if c < 0 {
          forall d | 0 <= d < |columns| ensures heads[d] == |columns[d].batches| {
            assert !Queued(columns, heads, d);
          }
          RoundHeads(today, columns, heads, visited, trace);
          OnlyHeldStay(columns, heads, visited, inUse, old(sizes));
          return;
        }
        RoundStep(today, columns, heads, visited, trace, c);
        EvictOne(columns, visited, inUse, Candidate(c, heads[c]));
        var k := ObjectOf(columns, Candidate(c, heads[c]));
        var ok := TryEvictBatchColumn(k, inUse);
        MinusBoth(old(sizes), Evicted(columns, visited, inUse), if ok then {k} else {});
        visited := visited + [Candidate(c, heads[c])];
        trace := trace + [PriorityOf(today, columns[c], heads[c])];
        heads := heads[c := heads[c] + 1];
      }
      RoundHeads(today, columns, heads, visited, trace);
    }
  }

  lemma {:induction false} NothingEvicted(columns: seq<ColumnInfo>, sizes: Sizes, inUse: set<Object>)
    ensures sizes - Evicted(columns, [], inUse) == sizes
  {
  }

  lemma {:induction false} MinusBoth(m: Sizes, a: set<Object>, b: set<Object>)
    ensures m - a - b == m - (a + b) && m - a - {} == m - a
  {
  }
}
