/** Column values as merging, backfill and slicing see them. */
module DataValues {

  // A null, or a present scalar. Scalars of every column type are modelled by
  // integers in the order of the type's comparison function.
  datatype DataValue = Null | Valid(v: int)

  // Three-way comparison: nulls come before every present value.
  function Compare(a: DataValue, b: DataValue): (c: int)
    ensures c == 0 <==> a == b
    ensures c < 0 <==> b.Valid? && (a.Null? || a.v < b.v)
  {
    match (a, b)
    case (Null, Null) => 0
    case (Null, Valid(_)) => -1
    case (Valid(_), Null) => 1
    case (Valid(x), Valid(y)) => x - y
  }
}

/** Rows of a batch, the lexicographic order on their sort keys, and the stable
    two-way merge of sorted row sequences that archiving has to implement. */
module Rows {
  import opened DataValues

  // `key` holds the sort columns in archiving sort order, `rest` the others.
  datatype Row = Row(key: seq<DataValue>, rest: seq<DataValue>)

  // Compares two keys from column i on: a tie moves to the next column.
  predicate LessFrom(a: seq<DataValue>, b: seq<DataValue>, i: nat)
    requires |a| == |b| && i <= |a|
    decreases |a| - i
  {
    i < |a| && (Compare(a[i], b[i]) < 0 || (a[i] == b[i] && LessFrom(a, b, i + 1)))
  }

  predicate Less(a: seq<DataValue>, b: seq<DataValue>)
    requires |a| == |b|
  {
    LessFrom(a, b, 0)
  }

  ghost predicate Keyed(rows: seq<Row>, k: nat) {
    forall r :: 0 <= r < |rows| ==> |rows[r].key| == k
  }

  ghost predicate Sorted(rows: seq<Row>, k: nat) {
    && Keyed(rows, k)
    && forall p, q :: 0 <= p < q < |rows| ==> !Less(rows[q].key, rows[p].key)
  }

  lemma {:induction false} LessSkip(a: seq<DataValue>, b: seq<DataValue>, i: nat)
    requires |a| == |b| && i <= |a|
    requires a[..i] == b[..i]
    ensures Less(a, b) == LessFrom(a, b, i)
  {
    var m := 0;
    while m < i
      invariant m <= i
      invariant Less(a, b) == LessFrom(a, b, m)
    {
      assert a[m] == a[..i][m] == b[m];
      m := m + 1;
    }
  }

  // The order decided by the first differing column.
  lemma {:induction false} LessAt(a: seq<DataValue>, b: seq<DataValue>, i: nat)
    requires |a| == |b| && i < |a|
    requires a[..i] == b[..i]
    ensures Compare(a[i], b[i]) < 0 ==> Less(a, b) && !Less(b, a)
  {
    LessSkip(a, b, i);
    LessSkip(b, a, i);
  }

  lemma {:induction false} LessFromTotal(a: seq<DataValue>, b: seq<DataValue>, i: nat)
    requires |a| == |b| && i <= |a|
    ensures !(LessFrom(a, b, i) && LessFrom(b, a, i))
    ensures !LessFrom(a, b, i) && !LessFrom(b, a, i) ==> a[i..] == b[i..]
    decreases |a| - i
  {
    if i < |a| {
      LessFromTotal(a, b, i + 1);
      assert a[i..] == [a[i]] + a[i + 1..];
      assert b[i..] == [b[i]] + b[i + 1..];
    }
  }

  lemma {:induction false} LessTotal(a: seq<DataValue>, b: seq<DataValue>)
    requires |a| == |b|
    ensures !(Less(a, b) && Less(b, a))
    ensures !Less(a, b) && !Less(b, a) ==> a == b
  {
    LessFromTotal(a, b, 0);
    assert a[0..] == a && b[0..] == b;
  }

  lemma {:induction false} LessFromTrans(a: seq<DataValue>, b: seq<DataValue>, c: seq<DataValue>, i: nat)
    requires |a| == |b| == |c| && i <= |a|
    ensures LessFrom(a, b, i) && LessFrom(b, c, i) ==> LessFrom(a, c, i)
    ensures !LessFrom(b, a, i) && !LessFrom(c, b, i) ==> !LessFrom(c, a, i)
    decreases |a| - i
  {
    if i < |a| {
      LessFromTrans(a, b, c, i + 1);
    }
  }

  // A key between two keys that share a prefix shares it too.
  lemma {:induction false} PrefixSqueeze(a: seq<DataValue>, b: seq<DataValue>, c: seq<DataValue>, i: nat)
    requires |a| == |b| == |c| && i <= |a|
    requires !Less(b, a) && !Less(c, b)
    requires a[..i] == c[..i]
    ensures b[..i] == a[..i]
  {
    if i > 0 {
      assert a[..i - 1] == a[..i][..i - 1] == c[..i][..i - 1] == c[..i - 1];
      PrefixSqueeze(a, b, c, i - 1);
      assert a[i - 1] == a[..i][i - 1] == c[..i][i - 1] == c[i - 1];
      LessAt(b, a, i - 1);
      LessAt(c, b, i - 1);
      assert b[..i] == b[..i - 1] + [b[i - 1]];
      assert a[..i] == a[..i - 1] + [a[i - 1]];
    }
  }

  // Column i inside a group of rows sharing the first i columns: values do not
  // decrease, and they strictly increase across a change of the first i + 1.
  lemma {:induction false} ColumnIncreases(rows: seq<Row>, k: nat, i: nat, p: nat, m: nat, q: nat)
    requires Sorted(rows, k) && i < k
    requires p < m <= q < |rows|
    requires rows[p].key[..i] == rows[q].key[..i]
    requires rows[m - 1].key[..i + 1] != rows[m].key[..i + 1]
    ensures Compare(rows[p].key[i], rows[q].key[i]) < 0
  {
    var a, b, c, d := rows[p].key, rows[m - 1].key, rows[m].key, rows[q].key;
    LessTotal(a, a);
    LessTotal(d, d);
    assert !Less(b, a) && !Less(c, b) && !Less(d, c);
    LessFromTrans(a, b, c, 0);
    LessFromTrans(b, c, d, 0);
    PrefixSqueeze(a, b, d, i);
    PrefixSqueeze(a, c, d, i);
    LessAt(b, a, i);
    LessAt(c, b, i);
    LessAt(d, c, i);
    assert b[..i + 1] == b[..i] + [b[i]] && c[..i + 1] == c[..i] + [c[i]];
  }

  // --------------------------------------------------------------- merging

  // The stable merge: a patch row goes first only if its key is smaller.
  function MergeRows(bs: seq<Row>, ps: seq<Row>, k: nat): (m: seq<Row>)
    requires Keyed(bs, k) && Keyed(ps, k)
    ensures Keyed(m, k) && |m| == |bs| + |ps|
    decreases |bs| + |ps|
  {
    if bs == [] then ps
    else if ps == [] then bs
    else if Less(ps[0].key, bs[0].key) then [ps[0]] + MergeRows(bs, ps[1..], k)
    else [bs[0]] + MergeRows(bs[1..], ps, k)
  }

  // Smaller patch rows come out first.
  lemma {:induction false} MergePatchFirst(bs: seq<Row>, p1: seq<Row>, p2: seq<Row>, k: nat)
    requires Keyed(bs, k) && Keyed(p1, k) && Keyed(p2, k)
    requires forall p, b :: 0 <= p < |p1| && 0 <= b < |bs| ==> Less(p1[p].key, bs[b].key)
    ensures MergeRows(bs, p1 + p2, k) == p1 + MergeRows(bs, p2, k)
    decreases |p1|
  {
    if p1 == [] {
      assert p1 + p2 == p2;
    } else if bs != [] {
      var ps := p1 + p2;
      assert ps[0] == p1[0] && ps[1..] == p1[1..] + p2 && Less(ps[0].key, bs[0].key);
      MergePatchFirst(bs, p1[1..], p2, k);
      assert MergeRows(bs, ps, k) == [ps[0]] + MergeRows(bs, ps[1..], k);
      assert p1 == [p1[0]] + p1[1..];
    }
  }

  // Base rows that no patch row undercuts come out first.
  lemma {:induction false} MergeBaseFirst(b1: seq<Row>, b2: seq<Row>, ps: seq<Row>, k: nat)
    requires Keyed(b1, k) && Keyed(b2, k) && Keyed(ps, k)
    requires forall p, b :: 0 <= p < |ps| && 0 <= b < |b1| ==> !Less(ps[p].key, b1[b].key)
    ensures MergeRows(b1 + b2, ps, k) == b1 + MergeRows(b2, ps, k)
    decreases |b1|
  {
    if b1 == [] {
      assert b1 + b2 == b2;
    } else if ps != [] {
      var bs := b1 + b2;
      assert bs[0] == b1[0] && bs[1..] == b1[1..] + b2 && !Less(ps[0].key, bs[0].key);
      MergeBaseFirst(b1[1..], b2, ps, k);
      assert MergeRows(bs, ps, k) == [bs[0]] + MergeRows(bs[1..], ps, k);
      assert b1 == [b1[0]] + b1[1..];
    }
  }

  // Merging distributes over a cut that separates both inputs.
  lemma {:induction false} MergeCut(b1: seq<Row>, b2: seq<Row>, p1: seq<Row>, p2: seq<Row>, k: nat)
    requires Keyed(b1, k) && Keyed(b2, k) && Keyed(p1, k) && Keyed(p2, k)
    requires forall p, b :: 0 <= p < |p1| && 0 <= b < |b2| ==> Less(p1[p].key, b2[b].key)
    requires forall p, b :: 0 <= p < |p2| && 0 <= b < |b1| ==> !Less(p2[p].key, b1[b].key)
    ensures MergeRows(b1 + b2, p1 + p2, k) == MergeRows(b1, p1, k) + MergeRows(b2, p2, k)
    decreases |b1| + |p1|
  {
    if b1 == [] {
      assert b1 + b2 == b2;
      MergePatchFirst(b2, p1, p2, k);
    } else if p1 == [] {
      assert p1 + p2 == p2;
      MergeBaseFirst(b1, b2, p2, k);
    } else if Less(p1[0].key, b1[0].key) {
      assert (p1 + p2)[1..] == p1[1..] + p2;
      MergeCut(b1, b2, p1[1..], p2, k);
    } else {
      assert (b1 + b2)[1..] == b1[1..] + b2;
      MergeCut(b1[1..], b2, p1, p2, k);
    }
  }

  // Rows with one common key: the base rows first, then the patch rows.
  lemma {:induction false} MergeEqualKeys(bs: seq<Row>, ps: seq<Row>, k: nat)
    requires Keyed(bs, k) && Keyed(ps, k)
    requires forall p, b :: 0 <= p < |ps| && 0 <= b < |bs| ==> ps[p].key == bs[b].key
    ensures MergeRows(bs, ps, k) == bs + ps
    decreases |bs|
  {
    if bs != [] && ps != [] {
      LessTotal(ps[0].key, bs[0].key);
      MergeEqualKeys(bs[1..], ps, k);
      assert bs + ps == [bs[0]] + (bs[1..] + ps);
    }
  }

  // The multiset of rows is kept.
  lemma {:induction false} MergePermutes(bs: seq<Row>, ps: seq<Row>, k: nat)
    requires Keyed(bs, k) && Keyed(ps, k)
    ensures multiset(MergeRows(bs, ps, k)) == multiset(bs) + multiset(ps)
    decreases |bs| + |ps|
  {
    if bs == [] || ps == [] {
    } else if Less(ps[0].key, bs[0].key) {
      MergePermutes(bs, ps[1..], k);
      assert ps == [ps[0]] + ps[1..];
    } else {
      MergePermutes(bs[1..], ps, k);
      assert bs == [bs[0]] + bs[1..];
    }
  }

  // x precedes or ties every row of a merge of rows it precedes or ties.
  lemma {:induction false} MergeLowerBound(x: seq<DataValue>, bs: seq<Row>, ps: seq<Row>, k: nat)
    requires Keyed(bs, k) && Keyed(ps, k) && |x| == k
    requires forall b :: 0 <= b < |bs| ==> !Less(bs[b].key, x)
    requires forall p :: 0 <= p < |ps| ==> !Less(ps[p].key, x)
    ensures forall m :: 0 <= m < |bs| + |ps| ==> !Less(MergeRows(bs, ps, k)[m].key, x)
    decreases |bs| + |ps|
  {
    if bs == [] || ps == [] {
    } else if Less(ps[0].key, bs[0].key) {
      MergeLowerBound(x, bs, ps[1..], k);
    } else {
      MergeLowerBound(x, bs[1..], ps, k);
    }
  }

  lemma {:induction false} MergeSorts(bs: seq<Row>, ps: seq<Row>, k: nat)
    requires Sorted(bs, k) && Sorted(ps, k)
    ensures Sorted(MergeRows(bs, ps, k), k)
    decreases |bs| + |ps|
  {
    if bs == [] || ps == [] {
      return;
    }
    var m := MergeRows(bs, ps, k);
    LessTotal(ps[0].key, bs[0].key);
    if Less(ps[0].key, bs[0].key) {
      MergeSorts(bs, ps[1..], k);
      forall b | 0 <= b < |bs| ensures !Less(bs[b].key, ps[0].key) {
        LessFromTrans(ps[0].key, bs[0].key, bs[b].key, 0);
        LessTotal(bs[b].key, bs[b].key);
      }
      LessTotal(ps[0].key, ps[0].key);
      MergeLowerBound(ps[0].key, bs, ps[1..], k);
      assert m[1..] == MergeRows(bs, ps[1..], k);
    } else {
      MergeSorts(bs[1..], ps, k);
      forall p | 0 <= p < |ps| ensures !Less(ps[p].key, bs[0].key) {
        LessFromTrans(bs[0].key, ps[0].key, ps[p].key, 0);
        LessTotal(ps[p].key, ps[p].key);
      }
      MergeLowerBound(bs[0].key, bs[1..], ps, k);
      assert m[1..] == MergeRows(bs[1..], ps, k);
    }
    forall p, q | 0 <= p < q < |m| ensures !Less(m[q].key, m[p].key) {
      assert m[q] == m[1..][q - 1];
      if p > 0 {
        assert m[p] == m[1..][p - 1];
      }
    }
  }

  // Rows of one key keep their order, base rows before patch rows.
  ghost function WithKey(rows: seq<Row>, x: seq<DataValue>): seq<Row> {
    if rows == [] then []
    else (if rows[0].key == x then [rows[0]] else []) + WithKey(rows[1..], x)
  }

  lemma {:induction false} NoneWithKey(rows: seq<Row>, x: seq<DataValue>)
    requires forall r :: 0 <= r < |rows| ==> rows[r].key != x
    ensures WithKey(rows, x) == []
  {
    if rows != [] {
      NoneWithKey(rows[1..], x);
    }
  }

  lemma {:induction false} MergeStable(bs: seq<Row>, ps: seq<Row>, k: nat, x: seq<DataValue>)
    requires Sorted(bs, k) && Sorted(ps, k) && |x| == k
    ensures WithKey(MergeRows(bs, ps, k), x) == WithKey(bs, x) + WithKey(ps, x)
    decreases |bs| + |ps|
  {
    if bs == [] || ps == [] {
      return;
    }
    var m := MergeRows(bs, ps, k);
    if Less(ps[0].key, bs[0].key) {
      MergeStable(bs, ps[1..], k, x);
      assert m[1..] == MergeRows(bs, ps[1..], k);
      if ps[0].key == x {
        forall b | 0 <= b < |bs| ensures bs[b].key != x {
          LessFromTrans(ps[0].key, bs[0].key, bs[b].key, 0);
          LessTotal(ps[0].key, bs[0].key);
          LessFromTotal(bs[b].key, bs[0].key, 0);
        }
        NoneWithKey(bs, x);
      }
    } else {
      MergeStable(bs[1..], ps, k, x);
      assert m[1..] == MergeRows(bs[1..], ps, k);
    }
  }
}
