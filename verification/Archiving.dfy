/** Moving stable live records into archive batches, one patch per UTC day. */
module Archiving {
  import opened Common
  import opened DataValues
  import opened Rows

  // A live record; its event time may be null.
  datatype LiveRecord = LiveRecord(eventTime: DataValue, row: Row)

  // A batch of the live store. The event time bounds are never too narrow. The
  // batch may lack sort columns and other columns; what its records hold there
  // means nothing.
  datatype LiveBatch = LiveBatch(minTime: int, maxTime: int, lacksKey: set<nat>, lacksRest: set<nat>,
      records: seq<LiveRecord>) {
    predicate Bounded() {
      forall i :: 0 <= i < |records| && records[i].eventTime.Valid? ==> minTime <= records[i].eventTime.v <= maxTime
    }
  }

  // The live store as a job or query sees it: of the last batch, only the
  // records published so far.
  datatype Snapshot = Snapshot(batches: seq<LiveBatch>, numRecordsInLastBatch: nat, restDefaults: seq<DataValue>) {
    ghost predicate Valid() {
      && (forall b :: 0 <= b < |batches| ==> batches[b].Bounded())
      && (batches != [] ==> numRecordsInLastBatch <= |batches[|batches| - 1].records|)
    }

    function NumRecords(b: nat): (n: nat)
      requires b < |batches|
    {
      if b == |batches| - 1 then numRecordsInLastBatch else |batches[b].records|
    }

    function Get(id: RecordID): LiveRecord
      requires 0 <= id.batchID < |batches| && id.index < |batches[id.batchID].records|
    {
      batches[id.batchID].records[id.index]
    }

    // A query reads nulls in the columns a batch lacks.
    function QueryRow(id: RecordID): (r: Row)
      requires 0 <= id.batchID < |batches| && id.index < |batches[id.batchID].records|
      ensures |r.key| == |Get(id).row.key|
    {
      var b, row := batches[id.batchID], Get(id).row;
      Row(Filled(row.key, b.lacksKey, []), Filled(row.rest, b.lacksRest, []))
    }

    // The archive merge reads nulls in the sort columns and defaults in the others.
    function PatchRow(id: RecordID): (r: Row)
      requires 0 <= id.batchID < |batches| && id.index < |batches[id.batchID].records|
      ensures r.key == QueryRow(id).key && |r.rest| == |QueryRow(id).rest|
      ensures forall u :: 0 <= u < |r.rest| ==>
                r.rest[u] == if u in batches[id.batchID].lacksRest && u < |restDefaults| then restDefaults[u]
                             else QueryRow(id).rest[u]
    {
      var b, row := batches[id.batchID], Get(id).row;
      Row(Filled(row.key, b.lacksKey, []), Filled(row.rest, b.lacksRest, restDefaults))
    }
  }

  // The values, with those that are lacking replaced by a default or else by null.
  function Filled(values: seq<DataValue>, lacks: set<nat>, defaults: seq<DataValue>): (r: seq<DataValue>)
    ensures |r| == |values|
  {
    seq(|values|, i requires 0 <= i < |values| =>
      if i !in lacks then values[i] else if i < |defaults| then defaults[i] else Null)
  }

  // ------------------------------------------------- which records, which day

  // The record is stable and not archived yet.
  predicate Selected(r: LiveRecord, oldCutoff: nat, cutoff: nat) {
    r.eventTime.Valid? && oldCutoff <= r.eventTime.v < cutoff
  }

  function DayOf(t: int): int {
    t / 86400
  }

  // The selected records of one day in the first b batches and the first n
  // records of batch b, in scan order.
  ghost function DayPatch(s: Snapshot, b: nat, n: nat, oldCutoff: nat, cutoff: nat, day: int): (ids: seq<RecordID>)
    requires s.Valid() && b <= |s.batches| && n <= (if b < |s.batches| then s.NumRecords(b) else 0)
    decreases b, n
  {
    if n > 0 then
      var r := s.Get(RecordID(b, n - 1));
      DayPatch(s, b, n - 1, oldCutoff, cutoff, day)
      + (if Selected(r, oldCutoff, cutoff) && DayOf(r.eventTime.v) == day then [RecordID(b, n - 1)] else [])
    else if b > 0 then DayPatch(s, b - 1, s.NumRecords(b - 1), oldCutoff, cutoff, day)
    else []
  }

  function PatchOf(patchByDay: map<int, seq<RecordID>>, day: int): seq<RecordID> {
    if day in patchByDay then patchByDay[day] else []
  }

  // The patches hold exactly the selected records, each once, under its day.
  ghost predicate Patches(s: Snapshot, b: nat, n: nat, oldCutoff: nat, cutoff: nat, patchByDay: map<int, seq<RecordID>>)
    requires s.Valid() && b <= |s.batches| && n <= (if b < |s.batches| then s.NumRecords(b) else 0)
  {
    forall d :: PatchOf(patchByDay, d) == DayPatch(s, b, n, oldCutoff, cutoff, d)
  }

  lemma {:induction false} NothingInBatch(s: Snapshot, b: nat, n: nat, oldCutoff: nat, cutoff: nat, day: int)
    requires s.Valid() && b < |s.batches| && n <= s.NumRecords(b) && s.batches[b].minTime >= cutoff
    ensures DayPatch(s, b, n, oldCutoff, cutoff, day) == DayPatch(s, b, 0, oldCutoff, cutoff, day)
    decreases n
  {
    if n > 0 {
      NothingInBatch(s, b, n - 1, oldCutoff, cutoff, day);
    }
  }

  method CreateArchivingPatches(s: Snapshot, cutoff: nat, oldCutoff: nat) returns (patchByDay: map<int, seq<RecordID>>)
    requires s.Valid()
    ensures Patches(s, |s.batches|, 0, oldCutoff, cutoff, patchByDay)
    ensures forall d :: d in patchByDay ==> patchByDay[d] != []
  {
    hide DayPatch;
    patchByDay := map[];
    NoPatches(s, oldCutoff, cutoff);
    var b := 0;
    while b < |s.batches|
      invariant 0 <= b <= |s.batches| && Patches(s, b, 0, oldCutoff, cutoff, patchByDay)
      invariant forall d :: d in patchByDay ==> patchByDay[d] != []
    {
      hide Patches;
      var numRecords := s.NumRecords(b);
      if s.batches[b].minTime < cutoff {
        var i := 0;
        while i < numRecords
          invariant 0 <= i <= numRecords && Patches(s, b, i, oldCutoff, cutoff, patchByDay)
          invariant forall d :: d in patchByDay ==> patchByDay[d] != []
        {
          var r := s.batches[b].records[i];
          ghost var before := patchByDay;
          if r.eventTime.Valid? && r.eventTime.v < cutoff && r.eventTime.v >= oldCutoff {
            var day := DayOf(r.eventTime.v);
            patchByDay := patchByDay[day := PatchOf(patchByDay, day) + [RecordID(b, i)]];
          }
          PatchesStep(s, b, i, oldCutoff, cutoff, before, patchByDay);
          i := i + 1;
        }
      } else {
        SkipBatch(s, b, oldCutoff, cutoff, patchByDay);
      }
      NextBatch(s, b, oldCutoff, cutoff, patchByDay);
      b := b + 1;
    }
  }

  lemma {:induction false} NoPatches(s: Snapshot, oldCutoff: nat, cutoff: nat)
    requires s.Valid()
    ensures Patches(s, 0, 0, oldCutoff, cutoff, map[])
  {
  }

  lemma {:induction false} PatchesStep(s: Snapshot, b: nat, i: nat, oldCutoff: nat, cutoff: nat,
                                       before: map<int, seq<RecordID>>, after: map<int, seq<RecordID>>)
    requires s.Valid() && b < |s.batches| && i < s.NumRecords(b) && Patches(s, b, i, oldCutoff, cutoff, before)
    requires var r := s.Get(RecordID(b, i));
             after == if Selected(r, oldCutoff, cutoff)
                      then before[DayOf(r.eventTime.v) := PatchOf(before, DayOf(r.eventTime.v)) + [RecordID(b, i)]]
                      else before
    ensures Patches(s, b, i + 1, oldCutoff, cutoff, after)
  {
    forall d ensures PatchOf(after, d) == DayPatch(s, b, i + 1, oldCutoff, cutoff, d) {
      assert PatchOf(before, d) == DayPatch(s, b, i, oldCutoff, cutoff, d);
    }
  }

  lemma {:induction false} SkipBatch(s: Snapshot, b: nat, oldCutoff: nat, cutoff: nat, m: map<int, seq<RecordID>>)
    requires s.Valid() && b < |s.batches| && s.batches[b].minTime >= cutoff && Patches(s, b, 0, oldCutoff, cutoff, m)
    ensures Patches(s, b, s.NumRecords(b), oldCutoff, cutoff, m)
  {
    forall d ensures PatchOf(m, d) == DayPatch(s, b, s.NumRecords(b), oldCutoff, cutoff, d) {
      NothingInBatch(s, b, s.NumRecords(b), oldCutoff, cutoff, d);
    }
  }

  lemma {:induction false} NextBatch(s: Snapshot, b: nat, oldCutoff: nat, cutoff: nat, m: map<int, seq<RecordID>>)
    requires s.Valid() && b < |s.batches| && Patches(s, b, s.NumRecords(b), oldCutoff, cutoff, m)
    ensures Patches(s, b + 1, 0, oldCutoff, cutoff, m)
  {
    forall d ensures PatchOf(m, d) == DayPatch(s, b + 1, 0, oldCutoff, cutoff, d) {
      assert PatchOf(m, d) == DayPatch(s, b, s.NumRecords(b), oldCutoff, cutoff, d);
    }
  }

  // ------------------------------------------------------- committing a version

  ghost predicate HasRecord(s: Snapshot, id: RecordID) {
    0 <= id.batchID < |s.batches| && id.index < |s.batches[id.batchID].records|
  }

  ghost predicate Recorded(s: Snapshot, ids: seq<RecordID>) {
    forall i :: 0 <= i < |ids| ==> HasRecord(s, ids[i])
  }

  // The patch names published records of that day between the two cutoffs.
  lemma {:induction false} PatchSound(s: Snapshot, b: nat, n: nat, oldCutoff: nat, cutoff: nat, day: int)
    requires s.Valid() && b <= |s.batches| && n <= (if b < |s.batches| then s.NumRecords(b) else 0)
    ensures var ids := DayPatch(s, b, n, oldCutoff, cutoff, day);
            Recorded(s, ids) && forall i :: 0 <= i < |ids| ==>
              Selected(s.Get(ids[i]), oldCutoff, cutoff) && DayOf(s.Get(ids[i]).eventTime.v) == day
    decreases b, n
  {
    if n > 0 {
      PatchSound(s, b, n - 1, oldCutoff, cutoff, day);
    } else if b > 0 {
      PatchSound(s, b - 1, s.NumRecords(b - 1), oldCutoff, cutoff, day);
    }
  }

  function PatchRows(s: Snapshot, ids: seq<RecordID>): (rows: seq<Row>)
    requires Recorded(s, ids)
    ensures |rows| == |ids|
  {
    if ids == [] then [] else PatchRows(s, ids[..|ids| - 1]) + [s.PatchRow(ids[|ids| - 1])]
  }

  // The same records as queries read them.
  ghost function QueryRows(s: Snapshot, ids: seq<RecordID>): (rows: seq<Row>)
    requires Recorded(s, ids)
    ensures |rows| == |ids|
  {
    if ids == [] then [] else QueryRows(s, ids[..|ids| - 1]) + [s.QueryRow(ids[|ids| - 1])]
  }

  lemma {:induction false} QueryRowsConcat(s: Snapshot, a: seq<RecordID>, id: RecordID)
    requires HasRecord(s, id) && Recorded(s, a)
    ensures QueryRows(s, a + [id]) == QueryRows(s, a) + [s.QueryRow(id)]
  {
    assert (a + [id])[..|a + [id]| - 1] == a;
  }

  ghost predicate VisibleOnDay(r: LiveRecord, cutoff: nat, day: int) {
    r.eventTime.Valid? && r.eventTime.v >= cutoff && DayOf(r.eventTime.v) == day
  }

  // The rows of one day that queries with this cutoff read from the live store.
  ghost function VisibleRows(s: Snapshot, b: nat, n: nat, cutoff: nat, day: int): multiset<Row>
    requires s.Valid() && b <= |s.batches| && n <= (if b < |s.batches| then s.NumRecords(b) else 0)
    decreases b, n
  {
    if n > 0 then
      var id := RecordID(b, n - 1);
      VisibleRows(s, b, n - 1, cutoff, day)
      + (if VisibleOnDay(s.Get(id), cutoff, day) then multiset{s.QueryRow(id)} else multiset{})
    else if b > 0 then VisibleRows(s, b - 1, s.NumRecords(b - 1), cutoff, day)
    else multiset{}
  }

  lemma {:induction false} VisibleStep(s: Snapshot, b: nat, n: nat, cutoff: nat, day: int)
    requires s.Valid() && b < |s.batches| && 0 < n <= s.NumRecords(b)
    ensures var id := RecordID(b, n - 1);
            VisibleRows(s, b, n, cutoff, day) ==
            VisibleRows(s, b, n - 1, cutoff, day)
            + (if VisibleOnDay(s.Get(id), cutoff, day) then multiset{s.QueryRow(id)} else multiset{})
  {
  }

  lemma {:induction false} PatchStep(s: Snapshot, b: nat, n: nat, oldCutoff: nat, cutoff: nat, day: int)
    requires s.Valid() && b < |s.batches| && 0 < n <= s.NumRecords(b) && oldCutoff <= cutoff
    requires Recorded(s, DayPatch(s, b, n - 1, oldCutoff, cutoff, day))
             && Recorded(s, DayPatch(s, b, n, oldCutoff, cutoff, day))
    ensures var id := RecordID(b, n - 1);
            multiset(QueryRows(s, DayPatch(s, b, n, oldCutoff, cutoff, day))) ==
            multiset(QueryRows(s, DayPatch(s, b, n - 1, oldCutoff, cutoff, day)))
            + (if VisibleOnDay(s.Get(id), oldCutoff, day) && !VisibleOnDay(s.Get(id), cutoff, day)
               then multiset{s.QueryRow(id)}
               else multiset{})
  {
    var id := RecordID(b, n - 1);
    var r, init := s.Get(id), DayPatch(s, b, n - 1, oldCutoff, cutoff, day);
    if Selected(r, oldCutoff, cutoff) && DayOf(r.eventTime.v) == day {
      QueryRowsConcat(s, init, id);
    } else {
      assert init + [] == init;
    }
  }

  // Raising the cutoff hides exactly the rows of the day's patch, each once.
  lemma {:induction false} PatchLeavesLive(s: Snapshot, b: nat, n: nat, oldCutoff: nat, cutoff: nat, day: int)
    requires s.Valid() && b <= |s.batches| && n <= (if b < |s.batches| then s.NumRecords(b) else 0)
             && oldCutoff <= cutoff
    ensures Recorded(s, DayPatch(s, b, n, oldCutoff, cutoff, day))
    ensures VisibleRows(s, b, n, oldCutoff, day) ==
            multiset(QueryRows(s, DayPatch(s, b, n, oldCutoff, cutoff, day))) + VisibleRows(s, b, n, cutoff, day)
    decreases b, n
  {
    hide VisibleRows, DayPatch, QueryRows, Snapshot.QueryRow;
    PatchSound(s, b, n, oldCutoff, cutoff, day);
    if n > 0 {
      PatchLeavesLive(s, b, n - 1, oldCutoff, cutoff, day);
      VisibleStep(s, b, n, oldCutoff, day);
      VisibleStep(s, b, n, cutoff, day);
      PatchStep(s, b, n, oldCutoff, cutoff, day);
      var r := s.Get(RecordID(b, n - 1));
      assert VisibleOnDay(r, cutoff, day) ==> VisibleOnDay(r, oldCutoff, day);
    } else {
      BatchStart(s, b, oldCutoff, cutoff, day);
      if b > 0 {
        PatchLeavesLive(s, b - 1, s.NumRecords(b - 1), oldCutoff, cutoff, day);
      }
    }
  }

  lemma {:induction false} BatchStart(s: Snapshot, b: nat, oldCutoff: nat, cutoff: nat, day: int)
    requires s.Valid() && b <= |s.batches|
    ensures b == 0 ==> DayPatch(s, b, 0, oldCutoff, cutoff, day) == []
                       && VisibleRows(s, b, 0, oldCutoff, day) == VisibleRows(s, b, 0, cutoff, day) == multiset{}
    ensures b > 0 ==> var n := s.NumRecords(b - 1);
                      && DayPatch(s, b, 0, oldCutoff, cutoff, day) == DayPatch(s, b - 1, n, oldCutoff, cutoff, day)
                      && VisibleRows(s, b, 0, oldCutoff, day) == VisibleRows(s, b - 1, n, oldCutoff, day)
                      && VisibleRows(s, b, 0, cutoff, day) == VisibleRows(s, b - 1, n, cutoff, day)
  {
  }

  // Archive batches by day; a missing batch is empty.
  type Batches = map<int, seq<Row>>

  function RowsOf(batches: Batches, day: int): seq<Row> {
    if day in batches then batches[day] else []
  }

  // What queries read of one day: its archive batch and the visible live rows.
  ghost function DayView(batches: Batches, s: Snapshot, cutoff: nat, day: int): multiset<Row>
    requires s.Valid()
  {
    multiset(RowsOf(batches, day)) + VisibleRows(s, |s.batches|, 0, cutoff, day)
  }

  // All live rows have k sort columns.
  ghost predicate LiveKeyed(s: Snapshot, k: nat) {
    forall b, i :: 0 <= b < |s.batches| && 0 <= i < |s.batches[b].records| ==> |s.batches[b].records[i].row.key| == k
  }

  lemma {:induction false} PatchRowsKeyed(s: Snapshot, ids: seq<RecordID>, k: nat)
    requires LiveKeyed(s, k) && Recorded(s, ids)
    ensures Keyed(PatchRows(s, ids), k)
  {
    if ids != [] {
      PatchRowsKeyed(s, ids[..|ids| - 1], k);
    }
  }

  // Sorts a patch by the sort columns.
  method SortPatch(rows: seq<Row>, k: nat) returns (sorted: seq<Row>)
    requires Keyed(rows, k)
    ensures Sorted(sorted, k) && multiset(sorted) == multiset(rows)
  {
    sorted := [];
    var i := 0;
    while i < |rows|
      invariant 0 <= i <= |rows|
      invariant Sorted(sorted, k) && multiset(sorted) == multiset(rows[..i])
    {
      OneSorted(rows[i], k);
      MergeSorts(sorted, [rows[i]], k);
      MergePermutes(sorted, [rows[i]], k);
      sorted := MergeRows(sorted, [rows[i]], k);
      assert rows[..i + 1] == rows[..i] + [rows[i]];
      i := i + 1;
    }
    assert rows[..i] == rows;
  }

  lemma {:induction false} OneSorted(row: Row, k: nat)
    requires |row.key| == k
    ensures Sorted([row], k)
  {
    LessTotal(row.key, row.key);
  }

  // The new batch of a day holds the old rows and the day's patch, in order.
  ghost predicate DayMerged(current: Batches, s: Snapshot, cutoff: nat, oldCutoff: nat, k: nat, day: int,
      rows: seq<Row>)
    requires s.Valid()
  {
    && Recorded(s, DayPatch(s, |s.batches|, 0, oldCutoff, cutoff, day))
    && Sorted(rows, k)
    && multiset(rows) == multiset(RowsOf(current, day)) +
         multiset(PatchRows(s, DayPatch(s, |s.batches|, 0, oldCutoff, cutoff, day)))
  }

  // Merges every day's patch into its batch and shares the other batches.
  method CreateNewVersion(current: Batches, s: Snapshot, cutoff: nat, oldCutoff: nat, k: nat) returns (batches: Batches)
    requires s.Valid() && LiveKeyed(s, k) && oldCutoff < cutoff
    requires forall d :: d in current ==> Sorted(current[d], k)
    ensures forall d :: DayMerged(current, s, cutoff, oldCutoff, k, d, RowsOf(batches, d))
  {
    hide DayPatch, Sorted, LiveKeyed;
    var patchByDay := CreateArchivingPatches(s, cutoff, oldCutoff);
    batches := map[];
    var todo := patchByDay.Keys;
    while todo != {}
      invariant todo <= patchByDay.Keys && batches.Keys == patchByDay.Keys - todo
      invariant forall d :: d in batches ==> DayMerged(current, s, cutoff, oldCutoff, k, d, batches[d])
      decreases todo
    {
      var _ := SomeElement(todo);
      var day :| day in todo;
      var rows := MergeDay(current, s, cutoff, oldCutoff, k, day, patchByDay[day]);
      batches := batches[day := rows];
      todo := todo - {day};
    }
    ghost var merged := batches;
    batches := current + batches;
    hide DayMerged;
    forall d ensures DayMerged(current, s, cutoff, oldCutoff, k, d, RowsOf(batches, d)) {
      if d !in merged {
        NothingMerged(current, s, cutoff, oldCutoff, k, d, patchByDay);
      }
    }
  }

  lemma {:induction false} NothingMerged(current: Batches, s: Snapshot, cutoff: nat, oldCutoff: nat, k: nat,
      day: int, patchByDay: map<int, seq<RecordID>>)
    requires s.Valid() && Patches(s, |s.batches|, 0, oldCutoff, cutoff, patchByDay) && day !in patchByDay
    requires day in current ==> Sorted(current[day], k)
    ensures DayPatch(s, |s.batches|, 0, oldCutoff, cutoff, day) == []
    ensures DayMerged(current, s, cutoff, oldCutoff, k, day, RowsOf(current, day))
  {
    assert PatchOf(patchByDay, day) == [];
    EmptySorted(k);
  }

  lemma {:induction false} EmptySorted(k: nat)
    ensures Sorted([], k)
  {
  }

  method MergeDay(current: Batches, s: Snapshot, cutoff: nat, oldCutoff: nat, k: nat, day: int,
      ids: seq<RecordID>) returns (rows: seq<Row>)
    requires s.Valid() && LiveKeyed(s, k) && (day in current ==> Sorted(current[day], k))
    requires ids == DayPatch(s, |s.batches|, 0, oldCutoff, cutoff, day)
    ensures DayMerged(current, s, cutoff, oldCutoff, k, day, rows)
  {
    PatchSound(s, |s.batches|, 0, oldCutoff, cutoff, day);
    hide DayPatch, Sorted, LiveKeyed, Selected;
    PatchRowsKeyed(s, ids, k);
    var patch := SortPatch(PatchRows(s, ids), k);
    EmptySorted(k);
    SortedKeyed(RowsOf(current, day), k);
    SortedKeyed(patch, k);
    MergeSorts(RowsOf(current, day), patch, k);
    MergePermutes(RowsOf(current, day), patch, k);
    rows := MergeRows(RowsOf(current, day), patch, k);
  }

  lemma {:induction false} SortedKeyed(rows: seq<Row>, k: nat)
    requires Sorted(rows, k)
    ensures Keyed(rows, k)
  {
  }

  // Publishing the new version with its cutoff changes the day's view in the rows
  // of the patch only: queries then read them as the merge has.
  lemma {:induction false} CommitChangesDayView(current: Batches, batches: Batches, s: Snapshot, cutoff: nat,
      oldCutoff: nat, k: nat, day: int)
    requires s.Valid() && oldCutoff <= cutoff && DayMerged(current, s, cutoff, oldCutoff, k, day, RowsOf(batches, day))
    ensures var ids := DayPatch(s, |s.batches|, 0, oldCutoff, cutoff, day);
            && DayView(batches, s, cutoff, day) + multiset(QueryRows(s, ids)) ==
               DayView(current, s, oldCutoff, day) + multiset(PatchRows(s, ids))
            && (QueryRows(s, ids) == PatchRows(s, ids) ==>
                  DayView(batches, s, cutoff, day) == DayView(current, s, oldCutoff, day))
  {
    hide DayPatch, VisibleRows, PatchRows, QueryRows, Sorted, Recorded;
    PatchLeavesLive(s, |s.batches|, 0, oldCutoff, cutoff, day);
    var ids := DayPatch(s, |s.batches|, 0, oldCutoff, cutoff, day);
    SwapParts(multiset(RowsOf(current, day)), multiset(PatchRows(s, ids)), multiset(QueryRows(s, ids)),
              VisibleRows(s, |s.batches|, 0, cutoff, day));
  }

  lemma {:induction false} SwapParts<T>(a: multiset<T>, p: multiset<T>, q: multiset<T>, v: multiset<T>)
    ensures ((a + p) + v) + q == (a + (q + v)) + p
    ensures p == q ==> (a + p) + v == a + (q + v)
  {
  }

  // The two readings are the same if and only if no record is in a batch that
  // lacks an unsorted column with a default.
  lemma {:induction false} SameReading(s: Snapshot, ids: seq<RecordID>)
    requires Recorded(s, ids)
    ensures QueryRows(s, ids) == PatchRows(s, ids) <==> forall i :: 0 <= i < |ids| ==> !Unfilled(s, ids[i])
    decreases |ids|
  {
    if ids != [] {
      var n := |ids| - 1;
      SameReading(s, ids[..n]);
      OneReading(s, ids[n]);
      assert forall i :: 0 <= i < n ==> ids[i] == ids[..n][i];
      assert QueryRows(s, ids)[..n] == QueryRows(s, ids[..n]) && PatchRows(s, ids)[..n] == PatchRows(s, ids[..n]);
      assert QueryRows(s, ids)[n] == s.QueryRow(ids[n]) && PatchRows(s, ids)[n] == s.PatchRow(ids[n]);
    }
  }

  ghost predicate Unfilled(s: Snapshot, id: RecordID)
    requires HasRecord(s, id)
  {
    exists u :: 0 <= u < |s.restDefaults| && u < |s.Get(id).row.rest| && u in s.batches[id.batchID].lacksRest
           && s.restDefaults[u].Valid?
  }

  lemma {:induction false} OneReading(s: Snapshot, id: RecordID)
    requires HasRecord(s, id)
    ensures s.QueryRow(id) == s.PatchRow(id) <==> !Unfilled(s, id)
  {
    var q, p := s.QueryRow(id), s.PatchRow(id);
    assert |q.rest| == |p.rest| == |s.Get(id).row.rest|;
    if Unfilled(s, id) {
      var u :| 0 <= u < |s.restDefaults| && u < |q.rest| && u in s.batches[id.batchID].lacksRest
               && s.restDefaults[u].Valid?;
      assert q.rest[u] == Null != p.rest[u];
    } else {
      assert q.rest == p.rest;
    }
  }

  // ------------------------------------------------------------ purging live

  ghost predicate AllBelow(b: LiveBatch, cutoff: nat) {
    forall i :: 0 <= i < |b.records| && b.records[i].eventTime.Valid? ==> b.records[i].eventTime.v < cutoff
  }

  // Full batches whose newest record is older than the cutoff.
  method GetBatchIDsToPurge(batches: map<int, LiveBatch>, lastReadBatchID: int, cutoff: nat) returns (ids: set<int>)
    requires forall id :: id in batches ==> batches[id].Bounded()
    ensures forall id :: id in ids <==> id in batches && id < lastReadBatchID && batches[id].maxTime < cutoff
    ensures forall id :: id in ids ==> AllBelow(batches[id], cutoff)
  {
    ids := {};
    var todo := batches.Keys;
    while todo != {}
      invariant todo <= batches.Keys
      invariant forall id :: id in ids <==>
                  id in batches && id !in todo && id < lastReadBatchID && batches[id].maxTime < cutoff
      decreases todo
    {
      var _ := SomeElement(todo);
      var id :| id in todo;
      todo := todo - {id};
      if id < lastReadBatchID && batches[id].maxTime < cutoff {
        ids := ids + {id};
      }
    }
  }

  // Purging those batches leaves every record at or above the cutoff in place.
  method PurgeBatches(batches: map<int, LiveBatch>, ids: set<int>, cutoff: nat) returns (kept: map<int, LiveBatch>)
    requires forall id :: id in ids && id in batches ==> AllBelow(batches[id], cutoff)
    ensures forall id, i :: id in batches && 0 <= i < |batches[id].records| && batches[id].records[i].eventTime.Valid?
                            && batches[id].records[i].eventTime.v >= cutoff
              ==> id in kept && kept[id] == batches[id]
    ensures kept.Keys == batches.Keys - ids
  {
    kept := batches;
    var todo := ids;
    while todo != {}
      invariant todo <= ids && kept.Keys == batches.Keys - (ids - todo)
      invariant forall id :: id in kept ==> kept[id] == batches[id]
      decreases todo
    {
      var _ := SomeElement(todo);
      var id :| id in todo;
      kept := kept - {id};
      todo := todo - {id};
    }
  }
}
