/** Upserts in overwrite mode, and the table a log of them stands for. */
module Upserts {
  import opened CuckooTable

  // The non-null cells of a row, by column.
  type Cells = map<nat, int>

  // A row of an upsert batch, with the columns of its batch.
  datatype Upsert = Upsert(key: Key, eventTime: nat, cells: Cells, columns: set<nat>)

  type Records = map<Key, Cells>

  datatype Found = Missing | Has(cells: Cells)

  // Non-null values overwrite, nulls and absent columns keep what was there.
  function Put(m: Records, u: Upsert): Records {
    m[u.key := if u.key in m then m[u.key] + u.cells else u.cells]
  }

  // Left fold of the upserts over the records.
  function Apply(m: Records, us: seq<Upsert>): Records
    decreases |us|
  {
    if us == [] then m else Put(Apply(m, us[..|us| - 1]), us[|us| - 1])
  }

  function Fold(us: seq<Upsert>): Records {
    Apply(map[], us)
  }

  function Get(m: Records, k: Key): Found {
    if k in m then Has(m[k]) else Missing
  }

  // What later writes make of earlier ones.
  function Over(a: Found, b: Found): Found {
    if b.Missing? then a else if a.Missing? then b else Has(a.cells + b.cells)
  }

  // Every cell a writes, b writes too.
  predicate Covered(a: Found, b: Found) {
    a.Missing? || (b.Has? && a.cells.Keys <= b.cells.Keys)
  }

  lemma {:induction false} OverAssoc(a: Found, b: Found, c: Found)
    ensures Over(Over(a, b), c) == Over(a, Over(b, c))
  {
    if a.Has? && b.Has? && c.Has? {
      assert (a.cells + b.cells) + c.cells == a.cells + (b.cells + c.cells);
    }
  }

  // Writes repeated later need not be made now.
  lemma {:induction false} Rewritten(a: Found, b: Found, c: Found)
    requires Covered(b, c)
    ensures Over(Over(a, b), c) == Over(a, c)
  {
    if a.Has? && b.Has? {
      assert (a.cells + b.cells) + c.cells == a.cells + c.cells;
    } else if b.Has? {
      assert b.cells + c.cells == c.cells;
    }
  }

  lemma {:induction false} CoveredOver(a: Found, b: Found, c: Found, d: Found)
    ensures Covered(a, b) ==> Covered(Over(a, d), Over(b, d))
    ensures Covered(b, Over(c, b)) && Covered(c, Over(c, b))
  {
  }

  lemma {:induction false} ApplyGet(m: Records, us: seq<Upsert>, k: Key)
    ensures Get(Apply(m, us), k) == Over(Get(m, k), Get(Fold(us), k))
    decreases |us|
  {
    if us != [] {
      var init, u := us[..|us| - 1], us[|us| - 1];
      ApplyGet(m, init, k);
      var last := if u.key == k then Has(u.cells) else Missing;
      assert Get(Apply(m, us), k) == Over(Get(Apply(m, init), k), last);
      assert Get(Fold(us), k) == Over(Get(Fold(init), k), last);
      OverAssoc(Get(m, k), Get(Fold(init), k), last);
    }
  }

  lemma {:induction false} ApplyConcat(m: Records, us: seq<Upsert>, vs: seq<Upsert>)
    ensures Apply(m, us + vs) == Apply(Apply(m, us), vs)
    decreases |vs|
  {
    if vs == [] {
      assert us + vs == us;
    } else {
      assert (us + vs)[..|us + vs| - 1] == us + vs[..|vs| - 1];
      ApplyConcat(m, us, vs[..|vs| - 1]);
    }
  }

  lemma {:induction false} FoldConcat(us: seq<Upsert>, vs: seq<Upsert>, k: Key)
    ensures Get(Fold(us + vs), k) == Over(Get(Fold(us), k), Get(Fold(vs), k))
  {
    ApplyConcat(map[], us, vs);
    ApplyGet(Fold(us), vs, k);
  }

  // -------------------------------------------------- selecting by event time

  // The rows whose event time passes a test, in order.
  function Select(us: seq<Upsert>, keep: nat -> bool): (r: seq<Upsert>)
    decreases |us|
  {
    if us == [] then []
    else Select(us[..|us| - 1], keep) + (if keep(us[|us| - 1].eventTime) then [us[|us| - 1]] else [])
  }

  function AtLeast(cut: nat): nat -> bool {
    t => cut <= t
  }

  function Below(cut: nat): nat -> bool {
    t => t < cut
  }

  function OnDay(day: nat): nat -> bool {
    t => t / 86400 == day
  }

  ghost predicate Timed(us: seq<Upsert>, time: Key -> nat) {
    forall i :: 0 <= i < |us| ==> us[i].eventTime == time(us[i].key)
  }

  lemma {:induction false} OneGet(u: Upsert, k: Key)
    ensures Get(Fold([u]), k) == if u.key == k then Has(u.cells) else Missing
    ensures Get(Fold([]), k) == Missing
  {
    assert [u][..0] == [];
    assert Fold([u]) == Put(Apply(map[], []), u);
  }

  lemma {:induction false} SelectTimed(us: seq<Upsert>, time: Key -> nat, keep: nat -> bool)
    requires Timed(us, time)
    ensures Timed(Select(us, keep), time)
    ensures forall i :: 0 <= i < |Select(us, keep)| ==> keep(Select(us, keep)[i].eventTime)
    decreases |us|
  {
    if us != [] {
      SelectTimed(us[..|us| - 1], time, keep);
    }
  }

  // Times are fixed per key, so selecting by time keeps all or none of a key's writes.
  lemma {:induction false} SelectGet(us: seq<Upsert>, time: Key -> nat, keep: nat -> bool, k: Key)
    requires Timed(us, time)
    ensures Get(Fold(Select(us, keep)), k) == if keep(time(k)) then Get(Fold(us), k) else Missing
    decreases |us|
  {
    if us == [] {
    } else {
      var init, u := us[..|us| - 1], us[|us| - 1];
      SelectGet(init, time, keep, k);
      FoldConcat(init, [u], k);
      OneGet(u, k);
      assert us == init + [u];
      hide Fold;
      if keep(u.eventTime) {
        FoldConcat(Select(init, keep), [u], k);
      } else {
        assert Select(us, keep) == Select(init, keep);
      }
    }
  }

  lemma {:induction false} FoldNone(us: seq<Upsert>, k: Key)
    requires forall i :: 0 <= i < |us| ==> us[i].key != k
    ensures Get(Fold(us), k) == Missing
    decreases |us|
  {
    if us != [] {
      FoldNone(us[..|us| - 1], k);
    }
  }

  // ------------------------------------------------------------ logs of batches

  function Flat(log: seq<seq<Upsert>>): seq<Upsert>
    decreases |log|
  {
    if log == [] then [] else Flat(log[..|log| - 1]) + log[|log| - 1]
  }

  lemma {:induction false} FlatConcat(a: seq<seq<Upsert>>, b: seq<seq<Upsert>>)
    ensures Flat(a + b) == Flat(a) + Flat(b)
    decreases |b|
  {
    if b == [] {
      assert a + b == a;
    } else {
      assert (a + b)[..|a + b| - 1] == a + b[..|b| - 1];
      FlatConcat(a, b[..|b| - 1]);
    }
  }

  // What the batches of a log write to a key.
  ghost function At(log: seq<seq<Upsert>>, k: Key): Found {
    Get(Fold(Flat(log)), k)
  }

  lemma {:induction false} AtConcat(a: seq<seq<Upsert>>, b: seq<seq<Upsert>>, k: Key)
    ensures At(a + b, k) == Over(At(a, k), At(b, k))
  {
    FlatConcat(a, b);
    FoldConcat(Flat(a), Flat(b), k);
  }

  lemma {:induction false} AtOne(e: seq<Upsert>, k: Key)
    ensures At([e], k) == Get(Fold(e), k) && At([], k) == Missing
  {
    assert [e][..0] == [];
    assert Flat([e]) == e;
  }
}
