/**
 * The life of fact-table records: ingestion into the live store or the backfill
 * queue, archiving, backfilling, crashing and replaying the redo log. Here every
 * backfilled row takes effect; `Pruning` has the steps as they are.
 */
module Lifecycle {
  import opened CuckooTable
  import opened Upserts

  // Archiving and backfill jobs run one at a time.
  datatype Job =
    | Idle
    // The high watermark is set; the new archive version is not yet committed.
    | Archiving
    // The queue was taken when the log had `upTo` entries; `todo` days remain.
    | Backfilling(captured: seq<Upsert>, upTo: nat, todo: set<nat>)

  datatype State = State(
    // On disk: the redo log (of which some entries may be purged), the archiving
    // cutoff, the number of log entries whose backfill is persisted, the archive.
    log: seq<seq<Upsert>>,
    purged: set<nat>,
    cutoff: nat,
    backfilled: nat,
    archive: Records,
    // In memory: the high watermark, the live store, the backfill queue, the
    // number of log entries applied, the running job.
    watermark: nat,
    live: Records,
    queue: seq<Upsert>,
    position: nat,
    job: Job)

  datatype Action =
    | Ingest(batch: seq<Upsert>)
    | SetWatermark(newCutoff: nat)
    // The job notes which columns the live batches have.
    | TakeSnapshot
    | CommitArchive
    | PurgeLive(keys: set<Key>)
    | StartBackfill
    | BackfillDay(day: nat)
    | FinishBackfill
    | PurgeLog(entry: nat)
    | Crash
    | Replay

  ghost function Init(): State {
    State([], {}, 0, 0, map[], 0, map[], [], 0, Idle)
  }

  // The redo log has been replayed.
  ghost predicate Serving(s: State) {
    s.position == |s.log|
  }

  ghost predicate Enabled(s: State, a: Action, time: Key -> nat) {
    match a
    case Ingest(batch) => Serving(s) && Timed(batch, time)
    case SetWatermark(c) => Serving(s) && s.job.Idle? && c > s.cutoff
    case TakeSnapshot => s.job.Archiving?
    case CommitArchive => s.job.Archiving?
    case PurgeLive(keys) => forall k :: k in keys ==> time(k) < s.cutoff
    case StartBackfill => Serving(s) && s.job.Idle?
    case BackfillDay(d) => s.job.Backfilling? && d in s.job.todo
    case FinishBackfill => s.job.Backfilling? && s.job.todo == {}
    case PurgeLog(e) => e < |s.log| && e < s.backfilled
         && forall i :: 0 <= i < |s.log[e]| ==> s.log[e][i].eventTime < s.cutoff
    case Crash => true
    case Replay => s.position < |s.log|
  }

  ghost function Days(us: seq<Upsert>): set<nat> {
    set i | 0 <= i < |us| :: us[i].eventTime / 86400
  }

  // Rows at or above the watermark go to the live store, older ones to the queue.
  ghost function DoIngest(s: State, batch: seq<Upsert>): State {
    s.(log := s.log + [batch], position := s.position + 1,
       live := Apply(s.live, Select(batch, AtLeast(s.watermark))),
       queue := s.queue + Select(batch, Below(s.watermark)))
  }

  // Live rows between the two cutoffs move to the archive; cutoff and version
  // are published together.
  ghost function DoCommit(s: State, time: Key -> nat): State {
    s.(archive := s.archive + (map k | k in s.live && s.cutoff <= time(k) < s.watermark :: s.live[k]),
       cutoff := s.watermark, job := Idle)
  }

  ghost function DoBackfillDay(s: State, day: nat): State
    requires s.job.Backfilling?
  {
    s.(archive := Apply(s.archive, Select(s.job.captured, OnDay(day))), job := s.job.(todo := s.job.todo - {day}))
  }

  // One log entry: purged ones are gone; rows below the cutoff of an entry whose
  // backfill is persisted are skipped.
  ghost function DoReplay(s: State): State
    requires s.position < |s.log|
  {
    if s.position in s.purged then s.(position := s.position + 1)
    else
      var batch := s.log[s.position];
      s.(position := s.position + 1,
         live := Apply(s.live, Select(batch, AtLeast(s.watermark))),
         queue := if s.position < s.backfilled then s.queue else s.queue + Select(batch, Below(s.watermark)))
  }

  ghost function Do(s: State, a: Action, time: Key -> nat): State
    requires Enabled(s, a, time)
  {
    match a
    case Ingest(batch) => DoIngest(s, batch)
    case SetWatermark(c) => s.(watermark := c, job := Archiving)
    case TakeSnapshot => s
    case CommitArchive => DoCommit(s, time)
    case PurgeLive(keys) => s.(live := s.live - keys)
    case StartBackfill => s.(job := Backfilling(s.queue, s.position, Days(s.queue)), queue := [])
    case BackfillDay(d) => DoBackfillDay(s, d)
    case FinishBackfill => s.(backfilled := if s.job.upTo > s.backfilled then s.job.upTo else s.backfilled, job := Idle)
    case PurgeLog(e) => s.(purged := s.purged + {e})
    case Crash => s.(watermark := s.cutoff, live := map[], queue := [], position := 0, job := Idle)
    case Replay => DoReplay(s)
  }

  ghost predicate Legal(run: seq<Action>, time: Key -> nat)
    decreases |run|, 0
  {
    run == [] || (Legal(run[..|run| - 1], time) && Enabled(After(run[..|run| - 1], time), run[|run| - 1], time))
  }

  ghost function After(run: seq<Action>, time: Key -> nat): State
    requires Legal(run, time)
    decreases |run|, 1
  {
    if run == [] then Init() else Do(After(run[..|run| - 1], time), run[|run| - 1], time)
  }

  // ------------------------------------------------------------------ queries

  ghost function VisibleLive(s: State, time: Key -> nat): Records {
    map k | k in s.live && time(k) >= s.cutoff :: s.live[k]
  }

  // What a query reads: the archive and the live rows not below its cutoff.
  ghost function View(s: State, time: Key -> nat): Records {
    s.archive + VisibleLive(s, time)
  }

  // ---------------------------------------------------------------- invariant

  ghost function Captured(s: State, time: Key -> nat, k: Key): Found {
    if s.job.Backfilling? && time(k) / 86400 in s.job.todo then Get(Fold(s.job.captured), k) else Missing
  }

  // What the whole log, and its part after the persisted backfill, write to k.
  ghost function All(s: State, k: Key): Found {
    At(s.log, k)
  }

  ghost function Unsaved(s: State, k: Key): Found
    requires s.backfilled <= |s.log|
  {
    At(s.log[s.backfilled..], k)
  }

  ghost function Queued(s: State, k: Key): Found {
    Get(Fold(s.queue), k)
  }

  ghost predicate Shape(s: State, time: Key -> nat) {
    && s.position <= |s.log| && s.backfilled <= |s.log|
    && (!s.job.Idle? ==> Serving(s))
    && (if s.job.Archiving? then s.watermark > s.cutoff else s.watermark == s.cutoff)
    && (s.job.Backfilling? ==> s.backfilled <= s.job.upTo <= |s.log| && Timed(s.job.captured, time))
    && Timed(s.queue, time)
    && (forall e :: 0 <= e < |s.log| ==> Timed(s.log[e], time))
    && (forall e :: e in s.purged ==> e < s.backfilled)
    && (forall e, i :: e in s.purged && 0 <= i < |s.log[e]| ==> s.log[e][i].eventTime < s.cutoff)
    && (forall k :: k in s.archive ==> time(k) < s.cutoff)
  }

  // While serving: the stored row of a key, with its pending upserts, is what
  // the log says; so it is with the log's unsaved part, which survives a crash.
  ghost predicate ServingKey(s: State, time: Key -> nat, k: Key)
    requires Shape(s, time)
  {
    var stored := if time(k) >= s.cutoff then Get(s.live, k) else Get(s.archive, k);
    && Over(stored, Over(Captured(s, time, k), Queued(s, k))) == All(s, k)
    && Over(stored, Unsaved(s, k)) == All(s, k)
    && Covered(Queued(s, k), Unsaved(s, k))
    && (time(k) >= s.watermark ==> Queued(s, k) == Missing)
    && (s.job.Backfilling? ==>
          && Covered(Get(Fold(s.job.captured), k), Unsaved(s, k))
          && (time(k) < s.cutoff ==> Queued(s, k) == At(s.log[s.job.upTo..], k))
          && (time(k) >= s.cutoff ==> Get(Fold(s.job.captured), k) == Missing))
  }

  // While replaying: the live rows and the queue are those of the replayed part.
  ghost predicate ReplayingKey(s: State, time: Key -> nat, k: Key)
    requires Shape(s, time)
  {
    if time(k) >= s.cutoff then Get(s.live, k) == At(s.log[..s.position], k) && Queued(s, k) == Missing
    else
      && Over(Get(s.archive, k), Unsaved(s, k)) == All(s, k)
      && Queued(s, k) == if s.position <= s.backfilled then Missing else At(s.log[s.backfilled..s.position], k)
  }

  ghost predicate KeyInv(s: State, time: Key -> nat, k: Key)
    requires Shape(s, time)
  {
    if Serving(s) then ServingKey(s, time, k) else ReplayingKey(s, time, k)
  }

  ghost predicate Inv(s: State, time: Key -> nat) {
    Shape(s, time) && forall k :: KeyInv(s, time, k)
  }

  // ------------------------------------------------------------ step by step

  lemma {:induction false} SplitLog(log: seq<seq<Upsert>>, i: nat, k: Key)
    requires i <= |log|
    ensures At(log, k) == Over(At(log[..i], k), At(log[i..], k))
    ensures Over(At(log, k), At(log[i..], k)) == At(log, k)
  {
    assert log == log[..i] + log[i..];
    AtConcat(log[..i], log[i..], k);
    Rewritten(At(log[..i], k), At(log[i..], k), At(log[i..], k));
  }

  lemma {:induction false} GrowLog(log: seq<seq<Upsert>>, i: nat, e: seq<Upsert>, k: Key)
    requires i <= |log|
    ensures At((log + [e])[i..], k) == Over(At(log[i..], k), Get(Fold(e), k))
    ensures At(log + [e], k) == Over(At(log, k), Get(Fold(e), k))
  {
    assert (log + [e])[i..] == log[i..] + [e];
    AtConcat(log[i..], [e], k);
    AtConcat(log, [e], k);
    AtOne(e, k);
  }

  // Appending the same later write to two equal sides.
  lemma {:induction false} OverBoth(a: Found, b: Found, all: Found, w: Found)
    requires Over(a, b) == all
    ensures Over(a, Over(b, w)) == Over(all, w)
    ensures Over(Over(a, w), Over(b, w)) == Over(all, w)
  {
    OverAssoc(a, b, w);
    CoveredOver(b, b, b, w);
    OverAssoc(a, w, Over(b, w));
    assert Over(w, Over(b, w)) == Over(b, w) by {
      if w.Has? && b.Has? {
        assert w.cells + (b.cells + w.cells) == b.cells + w.cells;
      }
    }
  }

  lemma {:induction false} IngestKey(s: State, batch: seq<Upsert>, time: Key -> nat, k: Key)
    requires Shape(s, time) && Enabled(s, Ingest(batch), time) && Shape(DoIngest(s, batch), time)
    requires ServingKey(s, time, k)
    ensures ServingKey(DoIngest(s, batch), time, k)
  {
    var w := Get(Fold(batch), k);
    var s' := DoIngest(s, batch);
    hide Fold, Apply, At, Select, Timed;
    SelectGet(batch, time, AtLeast(s.watermark), k);
    SelectGet(batch, time, Below(s.watermark), k);
    ApplyGet(s.live, Select(batch, AtLeast(s.watermark)), k);
    FoldConcat(s.queue, Select(batch, Below(s.watermark)), k);
    GrowLog(s.log, s.backfilled, batch, k);
    if s.job.Backfilling? {
      GrowLog(s.log, s.job.upTo, batch, k);
    }
    assert All(s', k) == Over(All(s, k), w) && Unsaved(s', k) == Over(Unsaved(s, k), w);
    CoveredOver(Queued(s, k), Unsaved(s, k), Unsaved(s, k), w);
    var stored := if time(k) >= s.cutoff then Get(s.live, k) else Get(s.archive, k);
    OverBoth(stored, Over(Captured(s, time, k), Queued(s, k)), All(s, k), w);
    OverBoth(stored, Unsaved(s, k), All(s, k), w);
    OverAssoc(Captured(s, time, k), Queued(s, k), w);
  }

  lemma {:induction false} CommitKey(s: State, time: Key -> nat, k: Key)
    requires Shape(s, time) && s.job.Archiving? && ServingKey(s, time, k) && Shape(DoCommit(s, time), time)
    ensures ServingKey(DoCommit(s, time), time, k)
  {
  }

  lemma {:induction false} StartKey(s: State, time: Key -> nat, k: Key)
    requires Shape(s, time) && Enabled(s, StartBackfill, time) && ServingKey(s, time, k)
    requires Shape(Do(s, StartBackfill, time), time)
    ensures ServingKey(Do(s, StartBackfill, time), time, k)
  {
    var s' := Do(s, StartBackfill, time);
    assert s.log[|s.log|..] == [];
    AtOne([], k);
    OneGet(Upsert(k, 0, map[], {}), k);
    if time(k) / 86400 !in s'.job.todo {
      forall i | 0 <= i < |s.queue| ensures s.queue[i].key != k {
        assert s.queue[i].eventTime / 86400 in s'.job.todo;
      }
      FoldNone(s.queue, k);
    }
  }

  lemma {:induction false} BackfillDayKey(s: State, d: nat, time: Key -> nat, k: Key)
    requires Shape(s, time) && Enabled(s, BackfillDay(d), time) && ServingKey(s, time, k)
    requires Shape(DoBackfillDay(s, d), time)
    ensures ServingKey(DoBackfillDay(s, d), time, k)
  {
    var day := Select(s.job.captured, OnDay(d));
    hide Fold, Apply, At, Select, Timed;
    SelectGet(s.job.captured, time, OnDay(d), k);
    ApplyGet(s.archive, day, k);
    if time(k) < s.cutoff && time(k) / 86400 == d {
      var a, c := Get(s.archive, k), Get(Fold(s.job.captured), k);
      OverAssoc(a, c, Queued(s, k));
      Rewritten(a, c, Unsaved(s, k));
    }
  }

  lemma {:induction false} FinishKey(s: State, time: Key -> nat, k: Key)
    requires Shape(s, time) && Enabled(s, FinishBackfill, time) && ServingKey(s, time, k)
    requires Shape(Do(s, FinishBackfill, time), time)
    ensures ServingKey(Do(s, FinishBackfill, time), time, k)
  {
    hide Fold, Apply, At, Select, Timed;
    var s' := Do(s, FinishBackfill, time);
    assert s'.backfilled == s.job.upTo;
    SplitLog(s.log, s.job.upTo, k);
  }

  // A crash keeps only what is on disk.
  lemma {:induction false} CrashKey(s: State, time: Key -> nat, k: Key)
    requires Shape(s, time) && KeyInv(s, time, k) && Shape(Do(s, Crash, time), time)
    ensures KeyInv(Do(s, Crash, time), time, k)
  {
    hide Fold, Apply, Timed, At;
    AtOne([], k);
    OneGet(Upsert(k, 0, map[], {}), k);
    var s' := Do(s, Crash, time);
    if Serving(s') {
      assert s.log[s.backfilled..] == [] && s.log == [];
    } else {
      assert s.log[..0] == [];
    }
  }

  lemma {:induction false} ExtendRange(log: seq<seq<Upsert>>, lo: nat, hi: nat, k: Key)
    requires lo <= hi < |log|
    ensures At(log[lo..hi + 1], k) == Over(At(log[lo..hi], k), Get(Fold(log[hi]), k))
    ensures lo == hi ==> At(log[lo..hi], k) == Missing
  {
    assert log[lo..hi + 1] == log[lo..hi] + [log[hi]];
    AtConcat(log[lo..hi], [log[hi]], k);
    AtOne(log[hi], k);
    assert lo == hi ==> log[lo..hi] == [];
  }

  lemma {:induction false} ReplayLive(s: State, time: Key -> nat, k: Key)
    requires Shape(s, time) && Enabled(s, Replay, time) && ReplayingKey(s, time, k) && Shape(DoReplay(s), time)
    requires s.job.Idle? && time(k) >= s.cutoff
    ensures ReplayingKey(DoReplay(s), time, k)
  {
    var p := s.position;
    var batch := s.log[p];
    ExtendRange(s.log, 0, p, k);
    assert s.log[0..p + 1] == s.log[..p + 1] && s.log[0..p] == s.log[..p];
    if p in s.purged {
      FoldNone(batch, k);
    } else {
      hide Fold, Apply, At, Select;
      SelectGet(batch, time, AtLeast(s.watermark), k);
      SelectGet(batch, time, Below(s.watermark), k);
      ApplyGet(s.live, Select(batch, AtLeast(s.watermark)), k);
      FoldConcat(s.queue, Select(batch, Below(s.watermark)), k);
    }
  }

  lemma {:induction false} ReplayQueue(s: State, time: Key -> nat, k: Key)
    requires Shape(s, time) && Enabled(s, Replay, time) && ReplayingKey(s, time, k) && Shape(DoReplay(s), time)
    requires s.job.Idle? && time(k) < s.cutoff
    ensures ReplayingKey(DoReplay(s), time, k)
  {
    hide Fold, Apply, At, Select;
    var p := s.position;
    if p >= s.backfilled {
      ExtendRange(s.log, s.backfilled, p, k);
      SelectGet(s.log[p], time, Below(s.watermark), k);
      FoldConcat(s.queue, Select(s.log[p], Below(s.watermark)), k);
    }
  }

  // At the end of replay the serving invariant holds again.
  lemma {:induction false} ReplayedKey(s: State, time: Key -> nat, k: Key)
    requires Shape(s, time) && Serving(s) && s.job.Idle? && ReplayingKey(s, time, k)
    ensures ServingKey(s, time, k)
  {
    AtOne([], k);
    hide Fold, Apply, Timed;
    assert s.log[..|s.log|] == s.log;
    assert s.log[s.backfilled..|s.log|] == s.log[s.backfilled..];
    assert s.backfilled == |s.log| ==> s.log[s.backfilled..] == [];
    SplitLog(s.log, s.backfilled, k);
    hide At;
  }

  // ----------------------------------------------------------- whole states

  lemma {:induction false} ArchiveKeys(m: Records, us: seq<Upsert>, time: Key -> nat, cutoff: nat)
    requires forall k :: k in m ==> time(k) < cutoff
    requires forall k :: time(k) >= cutoff ==> Get(Fold(us), k) == Missing
    ensures forall k :: k in Apply(m, us) ==> time(k) < cutoff
  {
    forall k | k in Apply(m, us) ensures time(k) < cutoff {
      ApplyGet(m, us, k);
    }
  }

  lemma {:induction false} ShapeKept(s: State, a: Action, time: Key -> nat)
    requires Inv(s, time) && Enabled(s, a, time)
    ensures Shape(Do(s, a, time), time)
  {
    hide Fold, Apply, At, Select;
    match a {
      case Ingest(batch) => SelectTimed(batch, time, Below(s.watermark));
      case Replay => SelectTimed(s.log[s.position], time, Below(s.watermark));
      case BackfillDay(d) =>
        forall k | time(k) >= s.cutoff ensures Get(Fold(Select(s.job.captured, OnDay(d))), k) == Missing {
          assert KeyInv(s, time, k);
          SelectGet(s.job.captured, time, OnDay(d), k);
        }
        ArchiveKeys(s.archive, Select(s.job.captured, OnDay(d)), time, s.cutoff);
      case _ =>
    }
  }

  lemma {:induction false} QuietKey(s: State, a: Action, time: Key -> nat, k: Key)
    requires Shape(s, time) && KeyInv(s, time, k) && Enabled(s, a, time) && Shape(Do(s, a, time), time)
    requires a.SetWatermark? || a.TakeSnapshot? || a.PurgeLive? || a.PurgeLog?
    ensures KeyInv(Do(s, a, time), time, k)
  {
    hide Fold, Apply, At, Select, Timed, Over, Covered;
  }

  lemma {:induction false} KeyKept(s: State, a: Action, time: Key -> nat, k: Key)
    requires Shape(s, time) && KeyInv(s, time, k) && Enabled(s, a, time) && Shape(Do(s, a, time), time)
    ensures KeyInv(Do(s, a, time), time, k)
  {
    hide Fold, Apply, At, Select, Timed, Over, Covered, ServingKey, ReplayingKey;
    match a {
      case Ingest(batch) => IngestKey(s, batch, time, k);
      case CommitArchive => CommitKey(s, time, k);
      case StartBackfill => StartKey(s, time, k);
      case BackfillDay(d) => BackfillDayKey(s, d, time, k);
      case FinishBackfill => FinishKey(s, time, k);
      case Crash => CrashKey(s, time, k);
      case Replay =>
        if time(k) >= s.cutoff {
          ReplayLive(s, time, k);
        } else {
          ReplayQueue(s, time, k);
        }
        if Serving(DoReplay(s)) {
          ReplayedKey(DoReplay(s), time, k);
        }
      case _ => QuietKey(s, a, time, k);
    }
  }

  lemma {:induction false} StepKept(s: State, a: Action, time: Key -> nat)
    requires Inv(s, time) && Enabled(s, a, time)
    ensures Inv(Do(s, a, time), time)
  {
    ShapeKept(s, a, time);
    forall k ensures KeyInv(Do(s, a, time), time, k) {
      assert KeyInv(s, time, k);
      KeyKept(s, a, time, k);
    }
  }

  // Every run keeps the invariant.
  lemma {:induction false} RunKept(run: seq<Action>, time: Key -> nat)
    requires Legal(run, time)
    ensures Inv(After(run, time), time)
    decreases |run|
  {
    if run == [] {
      forall k ensures KeyInv(Init(), time, k) {
        AtOne([], k);
        assert Init().log[0..] == [];
      }
    } else {
      RunKept(run[..|run| - 1], time);
      StepKept(After(run[..|run| - 1], time), run[|run| - 1], time);
    }
  }

  // With the invariant, a replayed, idle and drained shard shows queries the fold.
  lemma {:induction false} DrainedState(s: State, time: Key -> nat)
    requires Inv(s, time) && Serving(s) && s.job.Idle? && s.queue == []
    ensures View(s, time) == Fold(Flat(s.log))
  {
    forall k ensures Get(View(s, time), k) == Get(Fold(Flat(s.log)), k) {
      assert KeyInv(s, time, k);
    }
    SameRecords(View(s, time), Fold(Flat(s.log)));
  }

  // After any run, once the log is replayed, no job is running and the queue is
  // drained, queries see the left fold of all logged upserts in log order, and
  // no key is both archived and visible in the live store.
  lemma {:induction false} DrainedViewIsFold(run: seq<Action>, time: Key -> nat)
    requires Legal(run, time)
    ensures var s := After(run, time);
            && (Serving(s) && s.job.Idle? && s.queue == [] ==> View(s, time) == Fold(Flat(s.log)))
            && s.archive.Keys !! VisibleLive(s, time).Keys
  {
    var s := After(run, time);
    RunKept(run, time);
    hide Legal, After, KeyInv;
    if Serving(s) && s.job.Idle? && s.queue == [] {
      DrainedState(s, time);
    }
  }

  lemma {:induction false} SameRecords(a: Records, b: Records)
    requires forall k :: Get(a, k) == Get(b, k)
    ensures a == b
  {
    forall k ensures k in a <==> k in b {
      assert Get(a, k) == Get(b, k);
    }
    forall k | k in a ensures a[k] == b[k] {
      assert Get(a, k) == Get(b, k);
    }
  }

  // ------------------------------------------------------------ query views

  // Committing an archive version moves rows but changes no query result.
  lemma {:induction false} CommitView(s: State, time: Key -> nat)
    requires s.job.Archiving? && s.cutoff <= s.watermark
    ensures View(Do(s, CommitArchive, time), time) == View(s, time)
  {
    var s' := DoCommit(s, time);
    forall k ensures Get(View(s', time), k) == Get(View(s, time), k) {
    }
    SameRecords(View(s', time), View(s, time));
  }

  // Ingestion changes no live row below the watermark, so the rows an archiving
  // job moves are those it saw when it set the watermark.
  lemma {:induction false} IngestBelowWatermark(s: State, batch: seq<Upsert>, time: Key -> nat, k: Key)
    requires Timed(batch, time) && time(k) < s.watermark
    ensures Get(DoIngest(s, batch).live, k) == Get(s.live, k) && DoIngest(s, batch).archive == s.archive
  {
    SelectGet(batch, time, AtLeast(s.watermark), k);
    ApplyGet(s.live, Select(batch, AtLeast(s.watermark)), k);
  }

  // Jobs change query results only where they apply backfilled rows.
  lemma {:induction false} QuietStepsKeepView(s: State, a: Action, time: Key -> nat)
    requires Enabled(s, a, time)
    requires a.SetWatermark? || a.TakeSnapshot? || a.PurgeLive? || a.StartBackfill? || a.FinishBackfill? || a.PurgeLog?
    ensures View(Do(s, a, time), time) == View(s, time)
  {
    assert VisibleLive(Do(s, a, time), time) == VisibleLive(s, time);
  }

  // ---------------------------------------------------------------- draining

  lemma {:induction false} Extend(run: seq<Action>, a: Action, time: Key -> nat)
    requires Legal(run, time) && Enabled(After(run, time), a, time)
    ensures Legal(run + [a], time) && After(run + [a], time) == Do(After(run, time), a, time)
  {
    assert (run + [a])[..|run + [a]| - 1] == run;
  }

  lemma {:induction false} RunPosition(run: seq<Action>, time: Key -> nat)
    requires Legal(run, time)
    ensures var s := After(run, time); s.position <= |s.log| && (!s.job.Idle? ==> Serving(s))
  {
    hide Legal, After, KeyInv;
    RunKept(run, time);
  }

  lemma {:induction false} ReplayAll(run: seq<Action>, time: Key -> nat) returns (more: seq<Action>)
    requires Legal(run, time)
    ensures Legal(run + more, time) && Serving(After(run + more, time))
            && After(run + more, time).log == After(run, time).log
    ensures After(run, time).job.Idle? ==> After(run + more, time).job.Idle?
    decreases |After(run, time).log| - After(run, time).position
  {
    hide Legal, After, Apply, Select;
    RunPosition(run, time);
    var s := After(run, time);
    if Serving(s) {
      more := [];
      assert run + more == run;
    } else {
      Extend(run, Replay, time);
      var rest := ReplayAll(run + [Replay], time);
      more := [Replay] + rest;
      assert run + more == run + [Replay] + rest;
    }
  }

  lemma {:induction false} FinishDays(run: seq<Action>, time: Key -> nat) returns (more: seq<Action>)
    requires Legal(run, time) && After(run, time).job.Backfilling?
    ensures Legal(run + more, time) && After(run + more, time).job.Idle?
    ensures var s, t := After(run, time), After(run + more, time);
            t.log == s.log && t.queue == s.queue && t.position == s.position
    decreases After(run, time).job.todo
  {
    hide Legal, After, Apply, Select;
    var s := After(run, time);
    var a := if s.job.todo == {} then FinishBackfill else var d :| d in s.job.todo; BackfillDay(d);
    Extend(run, a, time);
    var rest := [];
    if s.job.todo != {} {
      rest := FinishDays(run + [a], time);
    } else {
      assert run + [a] + rest == run + [a];
    }
    more := [a] + rest;
    assert run + more == run + [a] + rest;
  }

  // From every reachable state the running job can finish, the log can be
  // replayed and the queue drained, and then queries see exactly the fold.
  lemma {:induction false} CanDrain(run: seq<Action>, time: Key -> nat) returns (more: seq<Action>)
    requires Legal(run, time)
    ensures Legal(run + more, time)
    ensures var s := After(run + more, time);
            s.log == After(run, time).log && Serving(s) && s.queue == [] && s.job.Idle?
            && View(s, time) == Fold(Flat(s.log))
  {
    hide Legal, After, Apply, Select, Fold, View;
    RunPosition(run, time);
    var s := After(run, time);
    var first := [];
    if s.job.Archiving? {
      Extend(run, CommitArchive, time);
      first := [CommitArchive];
    } else if s.job.Backfilling? {
      first := FinishDays(run, time);
    } else {
      assert run + first == run;
    }
    var second := ReplayAll(run + first, time);
    var r2 := run + first + second;
    Extend(r2, StartBackfill, time);
    var third := FinishDays(r2 + [StartBackfill], time);
    more := first + second + [StartBackfill] + third;
    assert run + more == r2 + [StartBackfill] + third;
    DrainedViewIsFold(run + more, time);
  }
}
