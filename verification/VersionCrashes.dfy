/** Version files when jobs are lost in crashes, and what a restart then finds. */
module VersionCrashes {
  import opened VersionText
  import opened VersionFiles

  // A restart loads, for every batch, the line that the search finds.
  datatype Event = Step(action: Action) | Crash

  // A job appends again to every batch that a lost job had appended to, because
  // the rows are still to be archived.
  ghost predicate Covers(s: Shard)
    requires s.job.Appending?
  {
    forall d, i :: d in s.lines && 0 <= i < |s.lines[d]| && s.cutoff < s.lines[d][i].version <= s.job.newCutoff ==>
      d in s.job.appended
  }

  ghost predicate May(s: Shard, e: Event) {
    match e
    case Step(a) => Enabled(s, a) && (a.CommitArchive? ==> Covers(s))
    case Crash => true
  }

  ghost function Next(s: Shard, e: Event): Shard
    requires May(s, e)
  {
    match e
    case Step(a) => Do(s, a)
    case Crash => s.(committed := map d | d in s.lines :: Found(s.lines[d], s.cutoff), job := Idle)
  }

  ghost predicate Runs(run: seq<Event>)
    decreases |run|, 0
  {
    run == [] || (Runs(run[..|run| - 1]) && May(At(run[..|run| - 1]), run[|run| - 1]))
  }

  ghost function At(run: seq<Event>): Shard
    requires Runs(run)
    decreases |run|, 1
  {
    if run == [] then Shard(map[], 0, map[], Idle) else Next(At(run[..|run| - 1]), run[|run| - 1])
  }

  // The search ends behind the last line not newer than the cutoff.
  ghost predicate Finds(s: Shard, d: nat) {
    var lines := LinesOf(s, d);
    Clear(lines, s.cutoff, 0, |lines|, UpTo(lines, s.cutoff))
  }

  // The line committed last is the last one not newer than the cutoff.
  ghost predicate LastIsCommitted(s: Shard, d: nat) {
    var lines := LinesOf(s, d);
    && Newest(lines, s.cutoff) == Committed(s.committed, d) && Committed(s.committed, d).version <= s.cutoff
    && (s.job.Appending? ==>
          && s.job.newCutoff > s.cutoff
          && (d in s.job.appended ==>
                lines != [] && lines[|lines| - 1] == s.job.appended[d] && s.job.appended[d].version == s.job.newCutoff))
  }

  lemma {:induction false} NewestAppended(lines: seq<Line>, l: Line, cutoff: nat)
    ensures Newest(lines + [l], cutoff) == if l.version <= cutoff then l else Newest(lines, cutoff)
  {
    var more := lines + [l];
    assert more[..|more| - 1] == lines;
  }

  // Raising the cutoff past no line finds the same one.
  lemma {:induction false} NewestSame(lines: seq<Line>, cutoff: nat, higher: nat)
    requires cutoff <= higher && forall i :: 0 <= i < |lines| ==>
                                   lines[i].version <= cutoff || lines[i].version > higher
    ensures UpTo(lines, higher) == UpTo(lines, cutoff)
  {
    if lines != [] {
      assert lines[|lines| - 1].version <= cutoff || lines[|lines| - 1].version > higher;
      NewestSame(lines[..|lines| - 1], cutoff, higher);
    }
  }

  lemma {:induction false} CommitKept(s: Shard, d: nat)
    requires s.job.Appending? && Covers(s) && LastIsCommitted(s, d)
    ensures LastIsCommitted(Do(s, CommitArchive), d)
  {
    var lines, c := LinesOf(s, d), s.job.newCutoff;
    if d in s.job.appended {
      WholeFile(lines, c);
    } else {
      NewestSame(lines, s.cutoff, c);
    }
  }

  lemma {:induction false} CrashKept(s: Shard, d: nat)
    requires LastIsCommitted(s, d) && Finds(s, d)
    ensures LastIsCommitted(Next(s, Crash), d)
  {
    var lines := LinesOf(s, d);
    SearchEndsAt(lines, s.cutoff, 0, |lines|, UpTo(lines, s.cutoff));
    assert Found(lines, s.cutoff) == Newest(lines, s.cutoff);
  }

  lemma {:induction false} AppendKept(s: Shard, b: nat, size: nat, d: nat)
    requires Enabled(s, AppendArchive(b, size)) && LastIsCommitted(s, d)
    ensures LastIsCommitted(Do(s, AppendArchive(b, size)), d)
  {
    NewestAppended(LinesOf(s, b), Line(s.job.newCutoff, 0, size), s.cutoff);
    hide Newest, UpTo;
  }

  lemma {:induction false} BackfillKept(s: Shard, b: nat, size: nat, d: nat)
    requires Enabled(s, Backfill(b, size)) && LastIsCommitted(s, d)
    ensures LastIsCommitted(Do(s, Backfill(b, size)), d)
  {
    var was := Committed(s.committed, b);
    NewestAppended(LinesOf(s, b), Line(was.version, was.seqNum + 1, size), s.cutoff);
    hide Newest, UpTo;
  }

  lemma {:induction false} NextKept(s: Shard, e: Event, d: nat)
    requires May(s, e) && LastIsCommitted(s, d) && (e.Crash? ==> Finds(s, d))
    ensures LastIsCommitted(Next(s, e), d)
  {
    match e {
      case Step(CommitArchive) => CommitKept(s, d);
      case Step(AppendArchive(b, size)) => AppendKept(s, b, size, d);
      case Step(Backfill(b, size)) => BackfillKept(s, b, size, d);
      case Crash => CrashKept(s, d);
      case Step(a) =>
        hide Newest, UpTo;
    }
  }

  // Every restart before the end of the run found the batch's committed line.
  ghost predicate FoundBefore(run: seq<Event>, d: nat)
    requires Runs(run)
    decreases |run|
  {
    run == [] ||
    (FoundBefore(run[..|run| - 1], d) && (run[|run| - 1].Crash? ==> Finds(At(run[..|run| - 1]), d)))
  }

  lemma {:induction false} RunLast(run: seq<Event>, d: nat)
    requires Runs(run) && FoundBefore(run, d)
    ensures LastIsCommitted(At(run), d)
    decreases |run|
  {
    if run != [] {
      RunLast(run[..|run| - 1], d);
      hide LastIsCommitted, Finds, Next, May;
      NextKept(At(run[..|run| - 1]), run[|run| - 1], d);
    }
  }

  // In every run with crashes in which the restarts so far have found the batch's
  // committed line, the next restart ends its search at that line if and only if
  // no probe on the way there hits a line of a lost job, or the other way round.
  lemma {:induction false} RestartFinds(run: seq<Event>, d: nat)
    requires Runs(run) && FoundBefore(run, d)
    ensures var s := At(run); var lines := LinesOf(s, d);
            && Committed(s.committed, d) == Newest(lines, s.cutoff)
            && (SearchEnd(lines, s.cutoff, 0, |lines|) == UpTo(lines, s.cutoff) <==> Finds(s, d))
            && (Finds(s, d) ==> Found(lines, s.cutoff) == Committed(s.committed, d))
  {
    RunLast(run, d);
    var s := At(run);
    var lines := LinesOf(s, d);
    SearchEndsAt(lines, s.cutoff, 0, |lines|, UpTo(lines, s.cutoff));
  }

  // Without lines of lost jobs every restart finds its line.
  lemma {:induction false} NoLostLines(s: Shard, d: nat)
    requires Increasing(LinesOf(s, d))
    ensures Finds(s, d)
  {
    IncreasingClear(LinesOf(s, d), s.cutoff, 0, |LinesOf(s, d)|);
  }

  // ------------------------------------------------------- a missed backfill

  ghost function LostJobRun(d: nat): seq<Event> {
    [Step(StartArchive(1)), Step(AppendArchive(d, 5)), Step(CommitArchive), Step(FinishArchive),
     Step(StartArchive(3)), Step(AppendArchive(d, 6)), Crash, Step(Backfill(d, 5))]
  }

  lemma {:induction false} NextEvent(run: seq<Event>, n: nat)
    requires n < |run| && Runs(run[..n]) && May(At(run[..n]), run[n])
    ensures Runs(run[..n + 1]) && At(run[..n + 1]) == Next(At(run[..n]), run[n])
  {
    assert run[..n + 1][..n] == run[..n];
  }

  // After four events the first archive version is committed.
  lemma {:induction false} FirstCommitted(d: nat)
    ensures var run := LostJobRun(d);
            Runs(run[..4]) && At(run[..4]) == Shard(map[d := [Line(1, 0, 5)]], 1, map[d := Line(1, 0, 5)], Idle)
  {
    hide Runs, At;
    var run := LostJobRun(d);
    NothingYet(run);
    NextEvent(run, 0);
    NextEvent(run, 1);
    assert LinesOf(At(run[..1]), d) + [Line(1, 0, 5)] == [Line(1, 0, 5)];
    assert At(run[..2]).lines == map[d := [Line(1, 0, 5)]];
    NextEvent(run, 2);
    NextEvent(run, 3);
    assert At(run[..4]).committed == map[d := Line(1, 0, 5)];
  }

  lemma {:induction false} NothingYet(run: seq<Event>)
    ensures Runs(run[..0]) && At(run[..0]) == Shard(map[], 0, map[], Idle)
  {
  }

  lemma {:induction false} FoundFirst()
    ensures Found([Line(1, 0, 5), Line(3, 0, 6)], 1) == Line(1, 0, 5)
    ensures Found([Line(1, 0, 5), Line(3, 0, 6), Line(1, 1, 5)], 1) == Line(1, 0, 5)
  {
    var two, three := [Line(1, 0, 5), Line(3, 0, 6)], [Line(1, 0, 5), Line(3, 0, 6), Line(1, 1, 5)];
    assert SearchEnd(two, 1, 0, 2) == SearchEnd(two, 1, 0, 1) == SearchEnd(two, 1, 1, 1) == 1;
    assert SearchEnd(three, 1, 0, 3) == SearchEnd(three, 1, 0, 1) == SearchEnd(three, 1, 1, 1) == 1;
  }

  // A job is lost after its append; the next backfill's line lies behind the lost
  // one, and a restart goes back to the version before that backfill.
  lemma {:induction false} BackfillMissed(d: nat)
    ensures Runs(LostJobRun(d))
    ensures var s := At(LostJobRun(d));
            Committed(s.committed, d) == Line(1, 1, 5) && Found(LinesOf(s, d), s.cutoff) == Line(1, 0, 5)
  {
    hide Runs, At, Found;
    var run := LostJobRun(d);
    FirstCommitted(d);
    FoundFirst();
    NextEvent(run, 4);
    NextEvent(run, 5);
    assert LinesOf(At(run[..5]), d) + [Line(3, 0, 6)] == [Line(1, 0, 5), Line(3, 0, 6)];
    assert At(run[..6]).lines == map[d := [Line(1, 0, 5), Line(3, 0, 6)]];
    NextEvent(run, 6);
    assert At(run[..7]).committed == map[d := Line(1, 0, 5)];
    NextEvent(run, 7);
    assert LinesOf(At(run[..8]), d) == [Line(1, 0, 5), Line(3, 0, 6), Line(1, 1, 5)];
    assert run[..8] == run;
  }
}
