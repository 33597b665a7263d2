/** Run-length encoding of a sequence: the cumulative end of each maximal block of
    equal elements, and the element of each block. */
module RunLength {

  ghost predicate OpensRun<T>(s: seq<T>)
    requires s != []
  {
    |s| == 1 || s[|s| - 2] != s[|s| - 1]
  }

  ghost function Ends<T>(s: seq<T>): (e: seq<nat>)
    ensures s == [] <==> e == []
    ensures s != [] ==> e[|e| - 1] == |s|
  {
    if s == [] then []
    else
      var e := Ends(s[..|s| - 1]);
      if OpensRun(s) then e + [|s|] else e[..|e| - 1] + [|s|]
  }

  ghost function Heads<T>(s: seq<T>): (h: seq<T>)
    ensures |h| == |Ends(s)|
  {
    if s == [] then []
    else
      var h := Heads(s[..|s| - 1]);
      if OpensRun(s) then h + [s[|s| - 1]] else h
  }

  // c separates two runs, or is an end of the sequence.
  ghost predicate IsBoundary<T>(s: seq<T>, c: nat) {
    c == 0 || c == |s| || (c < |s| && s[c - 1] != s[c])
  }

  ghost predicate AllAre<T>(s: seq<T>, x: T) {
    forall r :: 0 <= r < |s| ==> s[r] == x
  }

  lemma {:induction false} Snoc<T>(s: seq<T>, x: T)
    ensures s == [] || s[|s| - 1] != x ==>
              Ends(s + [x]) == Ends(s) + [|s| + 1] && Heads(s + [x]) == Heads(s) + [x]
    ensures s != [] && s[|s| - 1] == x ==>
              Ends(s + [x]) == Ends(s)[..|Ends(s)| - 1] + [|s| + 1] && Heads(s + [x]) == Heads(s)
  {
    assert (s + [x])[..|s|] == s;
  }

  // A block that differs from what precedes it is one more run.
  lemma {:induction false} AppendBlock<T>(s: seq<T>, block: seq<T>, x: T)
    requires block != [] && AllAre(block, x)
    requires s != [] ==> s[|s| - 1] != x
    ensures Ends(s + block) == Ends(s) + [|s| + |block|]
    ensures Heads(s + block) == Heads(s) + [x]
  {
    var init := block[..|block| - 1];
    var t := s + init;
    assert s + block == t + [x];
    if init == [] {
      assert t == s;
    } else {
      AppendBlock(s, init, x);
      assert t[|t| - 1] == init[|init| - 1] == x;
      assert Ends(t)[..|Ends(t)| - 1] == Ends(s);
    }
    Snoc(t, x);
  }

  lemma {:induction false} PrefixOfShorter<T>(a: seq<T>, b: seq<T>)
    requires a <= b && |a| < |b|
    ensures a <= b[..|b| - 1]
  {
  }

  // Up to a boundary, the encoding is a prefix of the whole encoding.
  lemma {:induction false} EncodingPrefix<T>(s: seq<T>, c: nat)
    requires c <= |s| && IsBoundary(s, c)
    ensures Ends(s[..c]) <= Ends(s) && Heads(s[..c]) <= Heads(s)
    ensures c < |s| ==> |Ends(s[..c])| < |Ends(s)|
  {
    if c == |s| {
      assert s[..c] == s;
    } else if c == 0 {
      assert s[..c] == [];
    } else {
      var init, x := s[..|s| - 1], s[|s| - 1];
      assert init[..c] == s[..c] && init + [x] == s;
      EncodingPrefix(init, c);
      if c == |init| {
        assert init[..c] == init && init[|init| - 1] != x;
        Snoc(init, x);
      } else {
        PrefixOfShorter(Ends(s[..c]), Ends(init));
        Snoc(init, x);
      }
    }
  }

  // s[c..e) is the run number n, and it starts at c.
  ghost predicate RunIs<T>(s: seq<T>, c: nat, n: nat, e: nat) {
    && c < e <= |s|
    && n < |Ends(s)| && Ends(s)[n] == e
    && IsBoundary(s, e)
    && AllAre(s[c..e], Heads(s)[n])
  }

  lemma {:induction false} RunAt<T>(s: seq<T>, c: nat)
    requires c < |s| && IsBoundary(s, c)
    ensures |Ends(s[..c])| < |Ends(s)|
    ensures RunIs(s, c, |Ends(s[..c])|, Ends(s)[|Ends(s[..c])|])
  {
    EncodingPrefix(s, c);
    var init := s[..|s| - 1];
    var n := |Ends(s[..c])|;
    if c == |s| - 1 {
      assert init == s[..c];
      assert s[c..|s|] == [s[c]];
    } else {
      RunAt(init, c);
      assert init[..c] == s[..c];
      RunAtExtend(s, c, n, Ends(init)[n]);
    }
  }

  lemma {:induction false} RunAtExtend<T>(s: seq<T>, c: nat, n: nat, e: nat)
    requires |s| > 1 && RunIs(s[..|s| - 1], c, n, e)
    ensures n < |Ends(s)| && RunIs(s, c, n, Ends(s)[n])
  {
    var init, x := s[..|s| - 1], s[|s| - 1];
    assert s == init + [x];
    LastEnd(init, n);
    if e == |init| {
      assert init[|init| - 1] == init[c..e][|init| - 1 - c];
      RunGrows(s, init, x, c, n);
    } else {
      RunStays(s, init, x, c, n, e);
    }
  }

  lemma {:induction false} LastEnd<T>(s: seq<T>, n: nat)
    requires n < |Ends(s)|
    ensures Ends(s)[n] == |s| <==> n + 1 == |Ends(s)|
  {
    EndsIncrease(s);
  }

  // A run that ends earlier is not touched.
  lemma {:induction false} RunStays<T>(s: seq<T>, init: seq<T>, x: T, c: nat, n: nat, e: nat)
    requires s == init + [x] && RunIs(init, c, n, e) && n + 1 < |Ends(init)| && e < |init|
    ensures n < |Ends(s)| && RunIs(s, c, n, Ends(s)[n])
  {
    Snoc(init, x);
    hide Ends, Heads;
    assert s[c..e] == init[c..e];
  }

  // The last run either ends or grows by one element.
  lemma {:induction false} RunGrows<T>(s: seq<T>, init: seq<T>, x: T, c: nat, n: nat)
    requires s == init + [x] && RunIs(init, c, n, |init|) && n + 1 == |Ends(init)|
    requires init[|init| - 1] == Heads(init)[n]
    ensures n < |Ends(s)| && RunIs(s, c, n, Ends(s)[n])
  {
    Snoc(init, x);
    hide Ends, Heads;
    if x == init[|init| - 1] {
      assert s[c..|s|] == init[c..|init|] + [x];
    } else {
      assert s[c..|init|] == init[c..|init|];
      assert s[|init| - 1] == init[|init| - 1] && s[|init|] == x;
    }
  }

  // The cumulative counts strictly increase and end at the length.
  lemma {:induction false} EndsIncrease<T>(s: seq<T>)
    ensures forall n :: 0 <= n < |Ends(s)| ==> 0 < Ends(s)[n] <= |s|
    ensures forall m, n :: 0 <= m < n < |Ends(s)| ==> Ends(s)[m] < Ends(s)[n]
  {
    if s != [] {
      EndsIncrease(s[..|s| - 1]);
    }
  }

  // The counts are exactly the positive boundaries.
  lemma {:induction false} EndIndex<T>(s: seq<T>, c: nat)
    requires 0 < c <= |s| && IsBoundary(s, c)
    ensures 0 < |Ends(s[..c])| <= |Ends(s)|
    ensures Ends(s)[|Ends(s[..c])| - 1] == c
  {
    EncodingPrefix(s, c);
  }

  lemma {:induction false} EndsAreBoundaries<T>(s: seq<T>, n: nat)
    requires n < |Ends(s)|
    ensures 0 < Ends(s)[n] <= |s| && IsBoundary(s, Ends(s)[n])
    ensures |Ends(s[..Ends(s)[n]])| == n + 1
  {
    EndsIncrease(s);
    if n == 0 {
      assert s[..0] == [];
      RunAt(s, 0);
    } else {
      EndsAreBoundaries(s, n - 1);
      RunAt(s, Ends(s)[n - 1]);
    }
    var e := Ends(s)[n];
    EndIndex(s, e);
    var m := |Ends(s[..e])| - 1;
    assert m == n;
  }

  // The run number n starts where the one before it ends.
  lemma {:induction false} RunNumbered<T>(s: seq<T>, n: nat)
    requires n < |Ends(s)|
    ensures RunIs(s, if n == 0 then 0 else Ends(s)[n - 1], n, Ends(s)[n])
  {
    EndsIncrease(s);
    if n == 0 {
      assert s[..0] == [];
      RunAt(s, 0);
    } else {
      EndsAreBoundaries(s, n - 1);
      hide RunIs;
      RunAt(s, Ends(s)[n - 1]);
    }
  }

  // No boundary lies inside a run.
  lemma {:induction false} RunWithin<T>(s: seq<T>, c: nat, n: nat, e: nat, b: nat)
    requires RunIs(s, c, n, e)
    requires IsBoundary(s, b) && c < b
    ensures e <= b
  {
    assert forall r :: c <= r < e ==> s[r] == s[c..e][r - c];
  }
}

/** Nested run-length form of sort columns: column j groups rows by columns 0..j. */
module NestedRuns {
  import opened DataValues
  import opened Rows
  import opened RunLength

  // What column j groups rows by: the first j + 1 sort columns.
  ghost function Prefixes(rows: seq<Row>, k: nat, j: nat): (s: seq<seq<DataValue>>)
    requires Keyed(rows, k) && j < k
    ensures |s| == |rows|
    ensures forall r :: 0 <= r < |rows| ==> s[r] == rows[r].key[..j + 1]
  {
    seq(|rows|, r requires 0 <= r < |rows| => rows[r].key[..j + 1])
  }

  ghost function KeyColumn(rows: seq<Row>, k: nat, j: nat): (vals: seq<DataValue>)
    requires Keyed(rows, k) && j < k
    ensures |vals| == |rows|
    ensures forall r :: 0 <= r < |rows| ==> vals[r] == rows[r].key[j]
  {
    seq(|rows|, r requires 0 <= r < |rows| => rows[r].key[j])
  }

  // Boundaries of a sort column are boundaries of every later one.
  lemma {:induction false} BoundaryNests(rows: seq<Row>, k: nat, i: nat, j: nat, c: nat)
    requires Keyed(rows, k) && i <= j < k && c <= |rows|
    requires IsBoundary(Prefixes(rows, k, i), c)
    ensures IsBoundary(Prefixes(rows, k, j), c)
  {
    if 0 < c < |rows| {
      var a, b := rows[c - 1].key, rows[c].key;
      assert a[..i + 1] == a[..j + 1][..i + 1];
      assert b[..i + 1] == b[..j + 1][..i + 1];
    }
  }

  ghost function Last(prefix: seq<DataValue>): DataValue {
    if prefix == [] then Null else prefix[|prefix| - 1]
  }

  // The value of column j in each of its runs.
  ghost function Vals(rows: seq<Row>, k: nat, j: nat): (v: seq<DataValue>)
    requires Keyed(rows, k) && j < k
    ensures |v| == |Ends(Prefixes(rows, k, j))|
    ensures forall n :: 0 <= n < |v| ==> v[n] == Last(Heads(Prefixes(rows, k, j))[n])
  {
    var h := Heads(Prefixes(rows, k, j));
    seq(|h|, n requires 0 <= n < |h| => Last(h[n]))
  }

  // Every row of a run carries the run's value.
  lemma {:induction false} RunValue(rows: seq<Row>, k: nat, j: nat, c: nat, n: nat, e: nat)
    requires Keyed(rows, k) && j < k
    requires RunIs(Prefixes(rows, k, j), c, n, e)
    ensures forall r :: c <= r < e ==> rows[r].key[j] == Vals(rows, k, j)[n]
    ensures forall r :: c <= r < e ==> rows[r].key[..j + 1] == rows[c].key[..j + 1]
  {
    var s := Prefixes(rows, k, j);
    forall r | c <= r < e
      ensures rows[r].key[j] == Vals(rows, k, j)[n]
      ensures rows[r].key[..j + 1] == Heads(s)[n]
    {
      assert s[r] == s[c..e][r - c];
      assert rows[r].key[j] == rows[r].key[..j + 1][j];
    }
  }

  lemma {:induction false} PrefixesConcat(out: seq<Row>, block: seq<Row>, k: nat, j: nat)
    requires Keyed(out, k) && Keyed(block, k) && j < k
    ensures Keyed(out + block, k)
    ensures Prefixes(out + block, k, j) == Prefixes(out, k, j) + Prefixes(block, k, j)
  {
  }

  // Appending a block of rows that agree on columns 0..j and differ there from
  // the row before them adds exactly one run to column j.
  lemma {:induction false} AppendRun(out: seq<Row>, block: seq<Row>, k: nat, j: nat, x: seq<DataValue>)
    requires Keyed(out, k) && Keyed(block, k) && j < k && block != []
    requires AllAre(Prefixes(block, k, j), x)
    requires out != [] ==> Prefixes(out, k, j)[|out| - 1] != x
    ensures Keyed(out + block, k)
    ensures Ends(Prefixes(out + block, k, j)) == Ends(Prefixes(out, k, j)) + [|out| + |block|]
    ensures Vals(out + block, k, j) == Vals(out, k, j) + [Last(x)]
  {
    hide Ends, Heads;
    PrefixesConcat(out, block, k, j);
    AppendBlock(Prefixes(out, k, j), Prefixes(block, k, j), x);
  }

  // The run number n starts where the one before it ends.
  lemma {:induction false} RunNumber(rows: seq<Row>, k: nat, j: nat, n: nat)
    requires Keyed(rows, k) && j < k && n < |Ends(Prefixes(rows, k, j))|
    ensures var s := Prefixes(rows, k, j);
            RunIs(s, if n == 0 then 0 else Ends(s)[n - 1], n, Ends(s)[n])
  {
    RunNumbered(Prefixes(rows, k, j), n);
  }
}

/** Number of values that differ from a column's default. */
module DefaultCounts {
  import opened DataValues

  ghost function CountNot(vals: seq<DataValue>, d: DataValue): (n: nat) {
    if vals == [] then 0
    else CountNot(vals[..|vals| - 1], d) + (if vals[|vals| - 1] != d then 1 else 0)
  }

  lemma {:induction false} CountNotZero(vals: seq<DataValue>, d: DataValue)
    ensures CountNot(vals, d) == 0 <==> forall i :: 0 <= i < |vals| ==> vals[i] == d
  {
    if vals != [] {
      CountNotZero(vals[..|vals| - 1], d);
    }
  }

  // A run of n equal values counts n times or not at all.
  lemma {:induction false} CountNotRun(vals: seq<DataValue>, run: seq<DataValue>, v: DataValue, d: DataValue)
    requires forall i :: 0 <= i < |run| ==> run[i] == v
    ensures CountNot(vals + run, d) == CountNot(vals, d) + (if v != d then |run| else 0)
  {
    var all := vals + run;
    if run == [] {
      assert all == vals;
    } else {
      CountNotRun(vals, run[..|run| - 1], v, d);
      assert all[..|all| - 1] == vals + run[..|run| - 1];
    }
  }
}
