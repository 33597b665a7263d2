/** Records by column, as the rows of an archive batch. */
module RowLayouts {
  import opened DataValues
  import opened DefaultCounts
  import opened Rows
  import opened MergeOutput

  type Record = seq<DataValue>

  // The columns of a batch: sort columns in archiving sort order, then the others.
  datatype Layout = Layout(sorted: seq<nat>, rest: seq<nat>) {
    ghost predicate Fits(n: nat) {
      (forall j :: 0 <= j < |sorted| ==> sorted[j] < n) && (forall u :: 0 <= u < |rest| ==> rest[u] < n)
    }

    ghost function ToRow(r: Record): Row
      requires Fits(|r|)
    {
      Row(seq(|sorted|, j requires 0 <= j < |sorted| => r[sorted[j]]),
          seq(|rest|, u requires 0 <= u < |rest| => r[rest[u]]))
    }
  }

  ghost predicate Distinct<T>(s: seq<T>) {
    forall i, j :: 0 <= i < j < |s| ==> s[i] != s[j]
  }

  ghost predicate AllOf(recs: seq<Record>, n: nat) {
    forall i :: 0 <= i < |recs| ==> |recs[i]| == n
  }

  ghost function ToRows(layout: Layout, recs: seq<Record>, n: nat): (rows: seq<Row>)
    requires layout.Fits(n) && AllOf(recs, n)
    ensures |rows| == |recs| && forall i :: 0 <= i < |recs| ==> rows[i] == layout.ToRow(recs[i])
  {
    seq(|recs|, i requires 0 <= i < |recs| => layout.ToRow(recs[i]))
  }

  // An unsorted column counts a value exactly when some record holds one that is
  // not the default.
  lemma {:induction false} ColumnCount(layout: Layout, recs: seq<Record>, n: nat, rows: seq<Row>, u: nat, d: DataValue)
    requires layout.Fits(n) && AllOf(recs, n) && multiset(rows) == multiset(ToRows(layout, recs, n))
             && u < |layout.rest|
    ensures Wide(rows, |layout.rest|)
    ensures CountNot(RestColumn(rows, |layout.rest|, u), d) != 0 <==>
            exists i :: 0 <= i < |recs| && recs[i][layout.rest[u]] != d
  {
    var all, m := ToRows(layout, recs, n), |layout.rest|;
    forall r | 0 <= r < |rows| ensures |rows[r].rest| == m {
      var i := SameElement(rows, all, r);
    }
    var column := RestColumn(rows, m, u);
    CountNotZero(column, d);
    if r :| 0 <= r < |rows| && column[r] != d {
      var i := SameElement(rows, all, r);
      assert recs[i][layout.rest[u]] == rows[r].rest[u];
    }
    if i :| 0 <= i < |recs| && recs[i][layout.rest[u]] != d {
      var r := SameElement(all, rows, i);
      assert column[r] == rows[r].rest[u] == all[i].rest[u];
    }
  }

  lemma {:induction false} SameElement<T>(s: seq<T>, t: seq<T>, i: nat) returns (j: nat)
    requires multiset(s) == multiset(t) && i < |s|
    ensures j < |t| && t[j] == s[i]
  {
    assert s[i] in multiset(s);
    assert s[i] in multiset(t);
    j :| 0 <= j < |t| && t[j] == s[i];
  }
}
