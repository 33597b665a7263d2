/**
 * Who may destruct what: readers holding archive store versions against the
 * archiving and backfill jobs that replace batches and purge old columns.
 */
module Reclamation {
  // Columns are identified by number; a batch owns a set of columns.
  type Batch = set<nat>

  // The archive batches of a version, by day.
  type Version = map<nat, Batch>

  // No column belongs to two days.
  ghost predicate Separate(v: Version) {
    forall d, e, c :: d in v && e in v && c in v[d] && c in v[e] ==> d == e
  }

  // Jobs run one at a time. After publishing, a job waits until the version it
  // replaced has no users, then destructs the columns to purge one by one.
  datatype Job = Idle | Waiting(replaced: nat, purge: set<nat>) | Purging(purge: set<nat>)

  // All versions ever published (the last is current), their user counts, the
  // columns destructed so far, and the first unused column number.
  datatype State = State(versions: seq<Version>, users: seq<nat>, job: Job, destructed: set<nat>, nextColumn: nat)

  datatype Action =
    | Acquire
    | Release(version: nat)
    // Merged batches for the patched days, everything else shared.
    | PublishArchive(batches: Version)
    // One day: columns forked in place, the others shared.
    | PublishForks(day: nat, forked: set<nat>, copies: set<nat>)
    // One day: all columns replaced by merged ones; the forked copies are dropped too.
    | PublishMerge(day: nat, copies: set<nat>, merged: set<nat>)
    | UsersGone
    | Destruct(column: nat)
    | Finish

  ghost function Current(s: State): Version
    requires s.versions != []
  {
    s.versions[|s.versions| - 1]
  }

  ghost function BatchOf(v: Version, d: nat): Batch {
    if d in v then v[d] else {}
  }

  // The columns of the replaced batches.
  ghost function Replaced(v: Version, merged: Version): set<nat> {
    set d, c | d in merged && d in v && c in v[d] :: c
  }

  ghost predicate AllNew(cs: set<nat>, lo: nat, hi: nat) {
    forall c :: c in cs ==> lo <= c < hi
  }

  ghost predicate NewVersion(v: Version, lo: nat, hi: nat) {
    Separate(v) && forall d, c :: d in v && c in v[d] ==> lo <= c < hi
  }

  // Columns are created by the job that publishes them.
  ghost predicate Enabled(s: State, a: Action, next: nat) {
    && s.versions != [] && |s.users| == |s.versions| && s.nextColumn <= next
    && match a
       case Acquire => next == s.nextColumn
       case Release(v) => next == s.nextColumn && v < |s.users| && s.users[v] > 0
       case PublishArchive(merged) => s.job.Idle? && NewVersion(merged, s.nextColumn, next)
       case PublishForks(d, forked, copies) => s.job.Idle? && forked <= BatchOf(Current(s), d)
            && AllNew(copies, s.nextColumn, next)
       case PublishMerge(d, copies, merged) => s.job.Idle? && copies !! merged
            && AllNew(copies + merged, s.nextColumn, next)
       case UsersGone => next == s.nextColumn && s.job.Waiting? && s.job.replaced < |s.users|
            && s.users[s.job.replaced] == 0
       case Destruct(c) => next == s.nextColumn && s.job.Purging? && c in s.job.purge
       case Finish => next == s.nextColumn && s.job.Purging? && s.job.purge == {}
  }

  ghost function Publish(s: State, v: Version, purge: set<nat>, next: nat): State
    requires s.versions != []
  {
    s.(versions := s.versions + [v], users := s.users +
         [0], job := Waiting(|s.versions| - 1, purge), nextColumn := next)
  }

  ghost function Do(s: State, a: Action, next: nat): State
    requires Enabled(s, a, next)
  {
    var n := |s.versions| - 1;
    match a
    case Acquire => s.(users := s.users[n := s.users[n] + 1])
    case Release(v) => s.(users := s.users[v := s.users[v] - 1])
    case PublishArchive(merged) => Publish(s, Current(s) + merged, Replaced(Current(s), merged), next)
    case PublishForks(d, forked, copies) =>
      Publish(s, Current(s)[d := (BatchOf(Current(s), d) - forked) + copies], forked, next)
    case PublishMerge(d, copies, merged) =>
      Publish(s, Current(s)[d := merged], BatchOf(Current(s), d) + copies, next)
    case UsersGone => s.(job := Purging(s.job.purge))
    case Destruct(c) => s.(destructed := s.destructed + {c}, job := Purging(s.job.purge - {c}))
    case Finish => s.(job := Idle)
  }

  // ---------------------------------------------------------------- invariant

  ghost function Purged(s: State): set<nat> {
    if s.job.Idle? then {} else s.job.purge
  }

  ghost predicate Bounded(v: Version, hi: nat) {
    forall d, c :: d in v && c in v[d] ==> c < hi
  }

  ghost predicate Free(v: Version, cs: set<nat>) {
    forall d, c :: d in v && c in v[d] ==> c !in cs
  }

  ghost predicate Inv(s: State) {
    && s.versions != [] && |s.users| == |s.versions|
    && Separate(Current(s)) && Bounded(Current(s), s.nextColumn)
    && AllNew(s.destructed, 0, s.nextColumn) && AllNew(Purged(s), 0, s.nextColumn)
    // the current version shares nothing destructed or about to be
    && Free(Current(s), s.destructed) && Free(Current(s), Purged(s))
    && Purged(s) !! s.destructed
    // only the current version and the one a job waits for have users
    && (forall v :: 0 <= v < |s.users| - 1 && s.users[v] > 0 ==> s.job.Waiting? && v == s.job.replaced)
    && (s.job.Waiting? ==> s.job.replaced == |s.versions| - 2 && Free(s.versions[s.job.replaced], s.destructed))
  }

  lemma {:induction false} PublishKept(s: State, v: Version, purge: set<nat>, next: nat)
    requires Inv(s) && s.job.Idle? && s.nextColumn <= next
    requires Separate(v) && Bounded(v, next) && Free(v, s.destructed) && Free(v, purge)
    requires AllNew(purge, 0, next) && purge !! s.destructed
    ensures Inv(Publish(s, v, purge, next))
  {
  }

  lemma {:induction false} ArchiveKept(s: State, merged: Version, next: nat)
    requires Inv(s) && Enabled(s, PublishArchive(merged), next)
    ensures Inv(Do(s, PublishArchive(merged), next))
  {
    var v := Current(s) + merged;
    assert Separate(v);
    PublishKept(s, v, Replaced(Current(s), merged), next);
  }

  lemma {:induction false} ForksKept(s: State, d: nat, forked: set<nat>, copies: set<nat>, next: nat)
    requires Inv(s) && Enabled(s, PublishForks(d, forked, copies), next)
    ensures Inv(Do(s, PublishForks(d, forked, copies), next))
  {
    var v := Current(s)[d := (BatchOf(Current(s), d) - forked) + copies];
    assert Separate(v);
    PublishKept(s, v, forked, next);
  }

  lemma {:induction false} MergeKept(s: State, d: nat, copies: set<nat>, merged: set<nat>, next: nat)
    requires Inv(s) && Enabled(s, PublishMerge(d, copies, merged), next)
    ensures Inv(Do(s, PublishMerge(d, copies, merged), next))
  {
    var v := Current(s)[d := merged];
    assert Separate(v);
    PublishKept(s, v, BatchOf(Current(s), d) + copies, next);
  }

  lemma {:induction false} StepKept(s: State, a: Action, next: nat)
    requires Inv(s) && Enabled(s, a, next)
    ensures Inv(Do(s, a, next))
  {
    match a {
      case PublishArchive(merged) => ArchiveKept(s, merged, next);
      case PublishForks(d, forked, copies) => ForksKept(s, d, forked, copies, next);
      case PublishMerge(d, copies, merged) => MergeKept(s, d, copies, merged, next);
      case _ =>
    }
  }

  // A run: actions with the first unused column number after each.
  datatype Step = Step(action: Action, next: nat)

  ghost predicate Legal(run: seq<Step>)
    decreases |run|, 0
  {
    run == [] || (Legal(run[..|run| - 1])
                  && Enabled(After(run[..|run| - 1]), run[|run| - 1].action, run[|run| - 1].next))
  }

  ghost function After(run: seq<Step>): State
    requires Legal(run)
    decreases |run|, 1
  {
    if run == [] then State([map[]], [0], Idle, {}, 0)
    else Do(After(run[..|run| - 1]), run[|run| - 1].action, run[|run| - 1].next)
  }

  lemma {:induction false} RunKept(run: seq<Step>)
    requires Legal(run)
    ensures Inv(After(run))
    decreases |run|
  {
    if run != [] {
      RunKept(run[..|run| - 1]);
      StepKept(After(run[..|run| - 1]), run[|run| - 1].action, run[|run| - 1].next);
    }
  }

  // In every interleaving of readers and jobs, no column of a version with
  // users, and none of the current version, has been destructed; and no column
  // is destructed twice.
  lemma {:induction false} NothingInUseDestructed(run: seq<Step>)
    requires Legal(run)
    ensures var s := After(run);
            && s.versions != [] && |s.users| == |s.versions|
            && Free(Current(s), s.destructed)
            && (forall v :: 0 <= v < |s.versions| && s.users[v] > 0 ==> Free(s.versions[v], s.destructed))
            && (s.job.Purging? ==> s.job.purge !! s.destructed)
  {
    RunKept(run);
  }

  // A reader that holds a version keeps it intact through any one step.
  lemma {:induction false} HeldVersionStays(run: seq<Step>, step: Step, v: nat)
    requires Legal(run) && Enabled(After(run), step.action, step.next)
    requires v < |After(run).users| && After(run).users[v] > 0 && step.action != Release(v)
    ensures var s, t := After(run), Do(After(run), step.action, step.next);
            && v < |t.versions| && v < |t.users| && t.versions[v] == s.versions[v] && t.users[v] > 0
            && Free(t.versions[v], t.destructed)
  {
    RunKept(run);
    StepKept(After(run), step.action, step.next);
  }
}
