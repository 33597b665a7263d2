/** The text of an archive batch's version file, one "version-seq,size" per line. */
module VersionText {
  import opened Common
  // One committed version of an archive batch.
  datatype Line = Line(version: nat, seqNum: nat, size: nat)

  function Digits(n: nat): (s: string)
    ensures s != [] && Plain(s)
  {
    if n < 10 then [(48 + n) as char] else Digits(n / 10) + [(48 + n % 10) as char]
  }

  // Decimal digits only.
  predicate Plain(s: string) {
    forall i :: 0 <= i < |s| ==> '0' <= s[i] <= '9'
  }

  function ParseUint(s: string): Option<nat> {
    if s == [] || !('0' <= s[|s| - 1] <= '9') then None
    else
      var d := s[|s| - 1] as int - 48;
      if |s| == 1 then Some(d)
      else
        var rest := ParseUint(s[..|s| - 1]);
        if rest.None? then None else Some(10 * rest.value + d)
  }

  lemma {:induction false} ParseDigits(n: nat)
    ensures ParseUint(Digits(n)) == Some(n)
  {
    if n >= 10 {
      ParseDigits(n / 10);
      var s := Digits(n);
      assert s[..|s| - 1] == Digits(n / 10);
    }
  }

  // ---------------------------------------------------------- splitting text

  function Split(s: string, sep: char): (parts: seq<string>)
    ensures parts != []
  {
    if s == [] then [""]
    else
      var init := Split(s[..|s| - 1], sep);
      if s[|s| - 1] == sep then init + [""]
      else init[..|init| - 1] + [init[|init| - 1] + [s[|s| - 1]]]
  }

  lemma {:induction false} SplitNone(s: string, sep: char)
    requires sep !in s
    ensures Split(s, sep) == [s]
  {
    if s != [] {
      SplitNone(s[..|s| - 1], sep);
      assert s == s[..|s| - 1] + [s[|s| - 1]];
    }
  }

  lemma {:induction false} SplitConcat(a: string, sep: char, b: string)
    requires sep !in b
    ensures Split(a + [sep] + b, sep) == Split(a, sep) + [b]
    decreases |b|
  {
    var s := a + [sep] + b;
    if b == [] {
      assert s[..|s| - 1] == a && s[|s| - 1] == sep;
    } else {
      SplitConcat(a, sep, b[..|b| - 1]);
      assert s[..|s| - 1] == a + [sep] + b[..|b| - 1];
      assert b == b[..|b| - 1] + [b[|b| - 1]];
    }
  }

  // ------------------------------------------------------------------ lines

  // The sequence number is left out when it is zero.
  function FormatVersion(l: Line): string {
    if l.seqNum > 0 then Digits(l.version) + "-" + Digits(l.seqNum) else Digits(l.version)
  }

  function Format(l: Line): string {
    FormatVersion(l) + "," + Digits(l.size)
  }

  function ParseVersion(s: string): Option<(nat, nat)> {
    if '-' !in s then
      var v := ParseUint(s);
      if v.None? then None else Some((v.value, 0))
    else
      var parts := Split(s, '-');
      if |parts| < 2 then None
      else
        var v, q := ParseUint(parts[0]), ParseUint(parts[1]);
        if v.None? || q.None? then None else Some((v.value, q.value))
  }

  function Parse(s: string): Option<Line> {
    var pair := Split(s, ',');
    if |pair| != 2 then None
    else
      var vs, size := ParseVersion(pair[0]), ParseUint(pair[1]);
      if vs.None? || size.None? then None else Some(Line(vs.value.0, vs.value.1, size.value))
  }

  lemma {:induction false} PlainLacks(s: string, c: char)
    requires Plain(s) && !('0' <= c <= '9')
    ensures c !in s
  {
  }

  lemma {:induction false} ParseFormatVersion(l: Line)
    ensures ParseVersion(FormatVersion(l)) == Some((l.version, l.seqNum))
    ensures ',' !in FormatVersion(l) && '\n' !in FormatVersion(l)
  {
    hide ParseUint, Split, Digits, Plain;
    var v, q := Digits(l.version), Digits(l.seqNum);
    ParseDigits(l.version);
    ParseDigits(l.seqNum);
    PlainLacks(v, '-');
    PlainLacks(q, '-');
    PlainLacks(v, ',');
    PlainLacks(q, ',');
    PlainLacks(v, '\n');
    PlainLacks(q, '\n');
    if l.seqNum > 0 {
      SplitNone(v, '-');
      SplitConcat(v, '-', q);
      assert FormatVersion(l) == v + ['-'] + q;
      assert (v + ['-'] + q)[|v|] == '-';
    }
  }

  // What is written is what is read back.
  lemma {:induction false} ParseFormat(l: Line)
    ensures Parse(Format(l)) == Some(l) && '\n' !in Format(l)
  {
    hide ParseUint, Split, Digits, Plain, ParseVersion, FormatVersion;
    ParseFormatVersion(l);
    ParseDigits(l.size);
    PlainLacks(Digits(l.size), ',');
    PlainLacks(Digits(l.size), '\n');
    SplitNone(FormatVersion(l), ',');
    SplitConcat(FormatVersion(l), ',', Digits(l.size));
  }

  // ------------------------------------------------------------------- files

  function Encode(lines: seq<Line>): string {
    if lines == [] then "" else Encode(lines[..|lines| - 1]) + Format(lines[|lines| - 1]) + "\n"
  }

  function TrimNewline(s: string): string {
    if s != [] && s[|s| - 1] == '\n' then s[..|s| - 1] else s
  }

  function Formats(lines: seq<Line>): (r: seq<string>)
    ensures |r| == |lines| && forall i :: 0 <= i < |r| ==> r[i] == Format(lines[i])
  {
    seq(|lines|, i requires 0 <= i < |lines| => Format(lines[i]))
  }

  // Splitting a file gives the formatted lines in order.
  lemma {:induction false} SplitFile(lines: seq<Line>)
    requires lines != []
    ensures Split(TrimNewline(Encode(lines)), '\n') == Formats(lines)
  {
    hide Split, Format;
    var init, last := lines[..|lines| - 1], lines[|lines| - 1];
    ParseFormat(last);
    var text := Encode(init) + Format(last);
    assert Encode(lines) == text + "\n";
    assert TrimNewline(text + "\n") == text;
    if init == [] {
      assert text == Format(last);
      SplitNone(text, '\n');
      assert Formats(lines) == [Format(last)];
    } else {
      SplitFile(init);
      EndsInNewline(init);
      var before := TrimNewline(Encode(init));
      assert text == before + ['\n'] + Format(last);
      SplitConcat(before, '\n', Format(last));
      assert Formats(lines) == Formats(init) + [Format(last)];
    }
  }

  lemma {:induction false} EndsInNewline(lines: seq<Line>)
    requires lines != []
    ensures Encode(lines) == TrimNewline(Encode(lines)) + ['\n']
  {
    hide Format;
  }
}

/** Version files of a shard: appended by archiving and backfill, searched by cutoff. */
module VersionFiles {
  import opened Common
  import opened VersionText

  predicate Before(a: Line, b: Line) {
    a.version < b.version || (a.version == b.version && a.seqNum < b.seqNum)
  }

  ghost predicate Increasing(lines: seq<Line>) {
    forall i, j :: 0 <= i < j < |lines| ==> Before(lines[i], lines[j])
  }

  // Number of leading lines not newer than the cutoff.
  ghost function UpTo(lines: seq<Line>, cutoff: nat): (n: nat)
    ensures n <= |lines|
  {
    if lines == [] then 0
    else if lines[|lines| - 1].version <= cutoff then |lines|
    else UpTo(lines[..|lines| - 1], cutoff)
  }

  lemma {:induction false} UpToSplits(lines: seq<Line>, cutoff: nat)
    requires Increasing(lines)
    ensures forall i :: 0 <= i < |lines| ==> (lines[i].version <= cutoff <==> i < UpTo(lines, cutoff))
  {
    if lines != [] && lines[|lines| - 1].version > cutoff {
      UpToSplits(lines[..|lines| - 1], cutoff);
    }
  }

  // The newest line a version with this cutoff may read; no file reads as 0-0,0.
  ghost function Newest(lines: seq<Line>, cutoff: nat): Line {
    if UpTo(lines, cutoff) == 0 then Line(0, 0, 0) else lines[UpTo(lines, cutoff) - 1]
  }

  // It is the greatest in (version, sequence number) among those not newer than the cutoff.
  lemma {:induction false} NewestIsGreatest(lines: seq<Line>, cutoff: nat, i: nat)
    requires Increasing(lines) && i < |lines| && lines[i].version <= cutoff
    ensures Newest(lines, cutoff) in lines && Newest(lines, cutoff).version <= cutoff
    ensures lines[i] == Newest(lines, cutoff) || Before(lines[i], Newest(lines, cutoff))
  {
    UpToSplits(lines, cutoff);
    assert i < UpTo(lines, cutoff);
  }

  // Where the binary search over lines [i, j) ends, whatever their order.
  ghost function SearchEnd(lines: seq<Line>, cutoff: nat, i: nat, j: nat): (n: nat)
    requires i <= j <= |lines|
    ensures i <= n <= j
    decreases j - i
  {
    if i == j then i
    else
      var h := (i + j) / 2;
      if lines[h].version > cutoff then SearchEnd(lines, cutoff, i, h) else SearchEnd(lines, cutoff, h + 1, j)
  }

  // The line found; no file reads as 0-0,0.
  ghost function Found(lines: seq<Line>, cutoff: nat): Line {
    var n := SearchEnd(lines, cutoff, 0, |lines|);
    if n == 0 then Line(0, 0, 0) else lines[n - 1]
  }

  // The probes of a search on its way to n do not turn it away.
  ghost predicate Clear(lines: seq<Line>, cutoff: nat, i: nat, j: nat, n: nat)
    requires i <= n <= j <= |lines|
    decreases j - i
  {
    i == j ||
    var h := (i + j) / 2;
    (lines[h].version <= cutoff <==> h < n)
    && if h < n then Clear(lines, cutoff, h + 1, j, n) else Clear(lines, cutoff, i, h, n)
  }

  lemma {:induction false} SearchEndsAt(lines: seq<Line>, cutoff: nat, i: nat, j: nat, n: nat)
    requires i <= n <= j <= |lines|
    ensures SearchEnd(lines, cutoff, i, j) == n <==> Clear(lines, cutoff, i, j, n)
    decreases j - i
  {
    if i < j {
      var h := (i + j) / 2;
      if h < n {
        SearchEndsAt(lines, cutoff, h + 1, j, n);
      } else {
        SearchEndsAt(lines, cutoff, i, h, n);
      }
    }
  }

  lemma {:induction false} IncreasingClear(lines: seq<Line>, cutoff: nat, i: nat, j: nat)
    requires Increasing(lines) && i <= UpTo(lines, cutoff) <= j <= |lines|
    ensures Clear(lines, cutoff, i, j, UpTo(lines, cutoff))
    decreases j - i
  {
    UpToSplits(lines, cutoff);
    hide Increasing, UpTo;
    if i < j {
      var h := (i + j) / 2;
      if h < UpTo(lines, cutoff) {
        IncreasingClear(lines, cutoff, h + 1, j);
      } else {
        IncreasingClear(lines, cutoff, i, h);
      }
    }
  }

  // In an increasing file the search finds the newest line.
  lemma {:induction false} FoundIsNewest(lines: seq<Line>, cutoff: nat)
    requires Increasing(lines)
    ensures Found(lines, cutoff) == Newest(lines, cutoff)
  {
    IncreasingClear(lines, cutoff, 0, |lines|);
    SearchEndsAt(lines, cutoff, 0, |lines|, UpTo(lines, cutoff));
  }

  lemma {:induction false} EncodeSnoc(lines: seq<Line>, l: Line)
    ensures Encode(lines + [l]) == Encode(lines) + (Format(l) + "\n") && Encode([]) == ""
  {
    assert (lines + [l])[..|lines + [l]| - 1] == lines;
  }

  class DiskMetaStore {
    // The text of each batch's version file.
    var files: map<nat, string>
    ghost var lines: map<nat, seq<Line>>

    ghost predicate Valid()
      reads this
    {
      files.Keys == lines.Keys && forall d :: d in lines ==> lines[d] != [] && files[d] == Encode(lines[d])
    }

    constructor ()
      ensures Valid() && lines == map[]
    {
      files, lines := map[], map[];
    }

    // Appends one line to the batch's file, creating it if needed.
    method AddArchiveBatchVersion(batchID: nat, version: nat, seqNum: nat, batchSize: nat)
      requires Valid()
      modifies this
      ensures Valid() && files.Keys == old(files.Keys) + {batchID}
      ensures lines == old(lines)[batchID := (if batchID in old(lines) then old(lines)[batchID] else []) +
                                    [Line(version, seqNum, batchSize)]]
    {
      hide Encode, Format;
      var l := Line(version, seqNum, batchSize);
      ghost var was := if batchID in lines then lines[batchID] else [];
      EncodeSnoc(was, l);
      var text := Format(l) + "\n";
      files := files[batchID := (if batchID in files then files[batchID] else "") + text];
      lines := lines[batchID := was + [l]];
    }

    // Binary search for the first line newer than the cutoff; the line before it.
    method GetArchiveBatchVersion(batchID: nat, cutoff: nat) returns (r: Option<Line>)
      requires Valid()
      ensures var all := if batchID in lines then lines[batchID] else [];
              r == Some(Found(all, cutoff)) && (Increasing(all) ==> r == Some(Newest(all, cutoff)))
    {
      ghost var all := if batchID in lines then lines[batchID] else [];
      if Increasing(all) {
        FoundIsNewest(all, cutoff);
      }
      if batchID !in files {
        return Some(Line(0, 0, 0));
      }
      SplitFile(lines[batchID]);
      r := SearchLines(Split(TrimNewline(files[batchID]), '\n'), cutoff, lines[batchID]);
    }

    static method SearchLines(texts: seq<string>, cutoff: nat, ghost all: seq<Line>) returns (r: Option<Line>)
      requires texts == Formats(all)
      ensures r == Some(Found(all, cutoff))
    {
      hide Parse, Format, Formats;
      var i, j := 0, |texts|;
      while i < j
        invariant 0 <= i <= j <= |texts| && SearchEnd(all, cutoff, i, j) == SearchEnd(all, cutoff, 0, |all|)
      {
        var h := (i + j) / 2;
        LineAt(texts, all, h);
        if Parse(texts[h]).value.version > cutoff {
          j := h;
        } else {
          i := h + 1;
        }
      }
      if i == 0 {
        return Some(Line(0, 0, 0));
      }
      LineAt(texts, all, i - 1);
      r := Parse(texts[i - 1]);
    }
  }

  lemma {:induction false} LineAt(texts: seq<string>, all: seq<Line>, h: nat)
    requires texts == Formats(all) && h < |all|
    ensures Parse(texts[h]) == Some(all[h])
  {
    hide Parse, Format;
    ParseFormat(all[h]);
  }

  // ------------------------------------------------------------- whole runs

  // An archiving job appends its lines, commits its cutoff, then waits for the
  // users of the version it replaced.
  datatype Job = Idle | Appending(newCutoff: nat, appended: map<nat, Line>) | Draining(oldCutoff: nat,
      replaced: map<nat, Line>)

  // The files, the current cutoff and, for each batch, the line committed for
  // the current version.
  datatype Shard = Shard(lines: map<nat, seq<Line>>, cutoff: nat, committed: map<nat, Line>, job: Job)

  datatype Action =
    | StartArchive(newCutoff: nat)
    | AppendArchive(batch: nat, size: nat)
    | CommitArchive
    | FinishArchive
    | Backfill(batch: nat, size: nat)

  ghost function LinesOf(s: Shard, d: nat): seq<Line> {
    if d in s.lines then s.lines[d] else []
  }

  ghost function Committed(m: map<nat, Line>, d: nat): Line {
    if d in m then m[d] else Line(0, 0, 0)
  }

  ghost predicate Enabled(s: Shard, a: Action) {
    match a
    case StartArchive(c) => s.job.Idle? && c > s.cutoff
    case AppendArchive(d, _) => s.job.Appending? && d !in s.job.appended
    case CommitArchive => s.job.Appending?
    case FinishArchive => s.job.Draining?
    case Backfill(_, _) => s.job.Idle?
  }

  ghost function Do(s: Shard, a: Action): Shard
    requires Enabled(s, a)
  {
    match a
    case StartArchive(c) => s.(job := Appending(c, map[]))
    case AppendArchive(d, size) =>
      var l := Line(s.job.newCutoff, 0, size);
      s.(lines := s.lines[d := LinesOf(s, d) + [l]], job := s.job.(appended := s.job.appended[d := l]))
    case CommitArchive =>
      s.(cutoff := s.job.newCutoff, committed := s.committed + s.job.appended, job := Draining(s.cutoff, s.committed))
    case FinishArchive => s.(job := Idle)
    case Backfill(d, size) =>
      var was := Committed(s.committed, d);
      var l := Line(was.version, was.seqNum + 1, size);
      s.(lines := s.lines[d := LinesOf(s, d) + [l]], committed := s.committed[d := l])
  }

  // One batch: its file is increasing, and the search at each held cutoff finds
  // the line committed for it.
  ghost predicate BatchInv(s: Shard, d: nat) {
    var lines := LinesOf(s, d);
    && Increasing(lines)
    && Newest(lines, s.cutoff) == Committed(s.committed, d)
    && Committed(s.committed, d).version <= s.cutoff
    && match s.job
       case Idle => lines == [] || lines[|lines| - 1].version <= s.cutoff
       case Appending(c, appended) =>
         && c > s.cutoff
         && (if d in appended then appended[d].version == c && lines != [] && lines[|lines| - 1] == appended[d]
             else lines == [] || lines[|lines| - 1].version <= s.cutoff)
       case Draining(c, replaced) =>
         && c < s.cutoff && Newest(lines, c) == Committed(replaced, d)
         && (lines == [] || lines[|lines| - 1].version <= s.cutoff)
  }

  lemma {:induction false} AppendLine(lines: seq<Line>, l: Line, cutoff: nat)
    requires Increasing(lines)
    ensures Increasing(lines + [l]) <==> lines == [] || Before(lines[|lines| - 1], l)
    ensures l.version > cutoff ==> Newest(lines + [l], cutoff) == Newest(lines, cutoff)
    ensures l.version <= cutoff ==> Newest(lines + [l], cutoff) == l
  {
    var more := lines + [l];
    assert more[..|more| - 1] == lines;
    if lines != [] {
      if Before(lines[|lines| - 1], l) {
        forall i | 0 <= i < |lines| ensures Before(more[i], l) {
          assert i < |lines| - 1 ==> Before(lines[i], lines[|lines| - 1]);
        }
      } else {
        assert !Before(more[|lines| - 1], more[|lines|]);
      }
    }
  }

  lemma {:induction false} WholeFile(lines: seq<Line>, cutoff: nat)
    requires lines == [] || lines[|lines| - 1].version <= cutoff
    ensures Newest(lines, cutoff) == if lines == [] then Line(0, 0, 0) else lines[|lines| - 1]
  {
  }

  lemma {:induction false} AppendKept(s: Shard, d: nat, size: nat)
    requires BatchInv(s, d) && Enabled(s, AppendArchive(d, size))
    ensures BatchInv(Do(s, AppendArchive(d, size)), d)
  {
    hide UpTo, Newest;
    AppendLine(LinesOf(s, d), Line(s.job.newCutoff, 0, size), s.cutoff);
    hide Increasing;
  }

  lemma {:induction false} CommitKept(s: Shard, d: nat)
    requires BatchInv(s, d) && s.job.Appending?
    ensures BatchInv(Do(s, CommitArchive), d)
  {
    hide UpTo, Increasing, Newest;
    WholeFile(LinesOf(s, d), s.job.newCutoff);
    if d !in s.job.appended {
      WholeFile(LinesOf(s, d), s.cutoff);
    }
  }

  lemma {:induction false} BackfillKept(s: Shard, d: nat, size: nat)
    requires BatchInv(s, d) && s.job.Idle?
    ensures BatchInv(Do(s, Backfill(d, size)), d)
  {
    hide UpTo, Newest;
    WholeFile(LinesOf(s, d), s.cutoff);
    var was := Committed(s.committed, d);
    AppendLine(LinesOf(s, d), Line(was.version, was.seqNum + 1, size), s.cutoff);
    hide Increasing;
  }

  lemma {:induction false} StepKept(s: Shard, a: Action, d: nat)
    requires BatchInv(s, d) && Enabled(s, a)
    ensures BatchInv(Do(s, a), d)
  {
    hide UpTo, Increasing, Newest;
    match a {
      case AppendArchive(e, size) =>
        if e == d {
          AppendKept(s, d, size);
        }
      case CommitArchive => CommitKept(s, d);
      case Backfill(e, size) =>
        if e == d {
          BackfillKept(s, d, size);
        }
      case _ =>
    }
  }

  ghost predicate Legal(run: seq<Action>)
    decreases |run|, 0
  {
    run == [] || (Legal(run[..|run| - 1]) && Enabled(After(run[..|run| - 1]), run[|run| - 1]))
  }

  ghost function After(run: seq<Action>): Shard
    requires Legal(run)
    decreases |run|, 1
  {
    if run == [] then Shard(map[], 0, map[], Idle) else Do(After(run[..|run| - 1]), run[|run| - 1])
  }

  lemma {:induction false} RunKept(run: seq<Action>, d: nat)
    requires Legal(run)
    ensures BatchInv(After(run), d)
    decreases |run|
  {
    if run != [] {
      RunKept(run[..|run| - 1], d);
      StepKept(After(run[..|run| - 1]), run[|run| - 1], d);
    }
  }

  // In every crash-free run each version file is increasing in (version,
  // sequence number), and the search at the cutoff of every version that may be
  // held finds the newest line committed for it, also while the next archiving
  // job has already appended its own line.
  lemma {:induction false} HeldVersionsFindTheirLines(run: seq<Action>, d: nat)
    requires Legal(run)
    ensures var s := After(run);
            && Increasing(LinesOf(s, d))
            && Newest(LinesOf(s, d), s.cutoff) == Committed(s.committed, d)
            && (s.job.Draining? ==> Newest(LinesOf(s, d), s.job.oldCutoff) == Committed(s.job.replaced, d))
  {
    RunKept(run, d);
  }

  // A crash between an archiving job's append and its commit forgets the job but
  // not its line. The next backfill of the batch keeps the file increasing if
  // and only if the job had not yet appended to that batch.
  lemma {:induction false} BackfillAfterCrash(run: seq<Action>, d: nat, size: nat)
    requires Legal(run) && After(run).job.Appending?
    ensures var s := After(run); var crashed := s.(job := Idle);
            Increasing(LinesOf(Do(crashed, Backfill(d, size)), d)) <==> d !in s.job.appended
  {
    RunKept(run, d);
    var s := After(run);
    var was := Committed(s.committed, d);
    if d !in s.job.appended {
      WholeFile(LinesOf(s, d), s.cutoff);
    }
    AppendLine(LinesOf(s, d), Line(was.version, was.seqNum + 1, size), s.cutoff);
  }
}
