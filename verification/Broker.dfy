/** Merging query results from data nodes: trees of dimensions with measures at the leaves. */
module Broker {
  import opened Common
  datatype AggType = Count | Sum | Max | Min

  // A null, a measure, or the values of one more dimension.
  datatype Tree = Nil | Leaf(value: real) | Node(kids: map<string, Tree>)

  type Path = seq<string>

  function Kid(kids: map<string, Tree>, k: string): Tree {
    if k in kids then kids[k] else Nil
  }

  // The measure at a path; null and missing read alike.
  ghost function At(t: Tree, p: Path): Option<real>
    decreases |p|
  {
    match t
    case Nil => None
    case Leaf(v) => if p == [] then Some(v) else None
    case Node(kids) => if p == [] then None else At(Kid(kids, p[0]), p[1..])
  }

  // All measures lie d dimensions deep.
  ghost predicate Deep(t: Tree, d: nat)
    decreases t
  {
    match t
    case Nil => true
    case Leaf(_) => d == 0
    case Node(kids) => d > 0 && forall k :: k in kids ==> Deep(kids[k], d - 1)
  }

  // No measure meets a dimension at the same path.
  ghost predicate Compatible(l: Tree, r: Tree)
    decreases l
  {
    match l
    case Nil => true
    case Leaf(_) => !r.Node?
    case Node(kids) => r.Nil? || (r.Node? && forall k :: k in kids ==> Compatible(kids[k], Kid(r.kids, k)))
  }

  lemma {:induction false} SameDepthCompatible(l: Tree, r: Tree, d: nat)
    requires Deep(l, d) && Deep(r, d)
    ensures Compatible(l, r)
    decreases l
  {
    if l.Node? && r.Node? {
      forall k | k in l.kids ensures Compatible(l.kids[k], Kid(r.kids, k)) {
        SameDepthCompatible(l.kids[k], Kid(r.kids, k), d - 1);
      }
    }
  }

  function Combine(agg: AggType, a: real, b: real): real {
    match agg
    case Count => a + b
    case Sum => a + b
    case Max => if b > a then b else a
    case Min => if b < a then b else a
  }

  // The aggregate of two measures, either of which may be absent.
  function Aggregate(agg: AggType, a: Option<real>, b: Option<real>): Option<real> {
    if a.None? then b else if b.None? then a else Some(Combine(agg, a.value, b.value))
  }

  lemma {:induction false} AggregateLaws(agg: AggType, a: Option<real>, b: Option<real>, c: Option<real>)
    ensures Aggregate(agg, a, b) == Aggregate(agg, b, a)
    ensures Aggregate(agg, Aggregate(agg, a, b), c) == Aggregate(agg, a, Aggregate(agg, b, c))
  {
  }

  // What is found at a path: nothing, a measure or a dimension.
  datatype Kind = Nothing | Measure | Dimension

  ghost function KindAt(t: Tree, p: Path): Kind
    decreases |p|
  {
    if p == [] then match t case Nil => Nothing case Leaf(_) => Measure case Node(_) => Dimension
    else if t.Node? then KindAt(Kid(t.kids, p[0]), p[1..]) else Nothing
  }

  predicate Clash(a: Kind, b: Kind) {
    a != b && !a.Nothing? && !b.Nothing?
  }

  function Join(a: Kind, b: Kind): Kind {
    if a.Nothing? then b else a
  }

  ghost predicate JoinsKinds(l: Tree, r: Tree, m: Tree) {
    forall p :: KindAt(m, p) == Join(KindAt(l, p), KindAt(r, p))
  }

  lemma {:induction false} CompatibleNoClash(l: Tree, r: Tree, p: Path)
    requires Compatible(l, r)
    ensures !Clash(KindAt(l, p), KindAt(r, p))
    decreases |p|
  {
    if p != [] && l.Node? && r.Node? && p[0] in l.kids {
      CompatibleNoClash(l.kids[p[0]], Kid(r.kids, p[0]), p[1..]);
    }
  }

  lemma {:induction false} NoClashCompatible(l: Tree, r: Tree)
    requires forall p :: !Clash(KindAt(l, p), KindAt(r, p))
    ensures Compatible(l, r)
    decreases l
  {
    assert !Clash(KindAt(l, []), KindAt(r, []));
    if l.Node? && r.Node? {
      forall k | k in l.kids ensures Compatible(l.kids[k], Kid(r.kids, k)) {
        forall p ensures !Clash(KindAt(l.kids[k], p), KindAt(Kid(r.kids, k), p)) {
          assert ([k] + p)[1..] == p && !Clash(KindAt(l, [k] + p), KindAt(r, [k] + p));
        }
        NoClashCompatible(l.kids[k], Kid(r.kids, k));
      }
    }
  }

  // Results are compatible exactly when no path has a measure in one and a
  // dimension in the other.
  lemma {:induction false} CompatibleKinds(l: Tree, r: Tree)
    ensures Compatible(l, r) <==> forall p :: !Clash(KindAt(l, p), KindAt(r, p))
  {
    hide Compatible, KindAt;
    if p: Path :| Clash(KindAt(l, p), KindAt(r, p)) {
      if Compatible(l, r) {
        CompatibleNoClash(l, r, p);
      }
    } else {
      NoClashCompatible(l, r);
    }
  }

  // A merged result is compatible with what both its parts are.
  lemma {:induction false} MergedCompatible(l: Tree, r: Tree, m: Tree, t: Tree)
    requires Compatible(l, r) && JoinsKinds(l, r, m)
    ensures Compatible(m, t) <==> Compatible(l, t) && Compatible(r, t)
  {
    CompatibleKinds(l, r);
    CompatibleKinds(m, t);
    CompatibleKinds(l, t);
    CompatibleKinds(r, t);
    hide Compatible, KindAt;
    if Compatible(m, t) {
      forall p ensures !Clash(KindAt(l, p), KindAt(t, p)) && !Clash(KindAt(r, p), KindAt(t, p)) {
        assert !Clash(KindAt(m, p), KindAt(t, p)) && !Clash(KindAt(l, p), KindAt(r, p));
      }
    }
    if Compatible(l, t) && Compatible(r, t) {
      forall p ensures !Clash(KindAt(m, p), KindAt(t, p)) {
        assert !Clash(KindAt(l, p), KindAt(t, p)) && !Clash(KindAt(r, p), KindAt(t, p));
      }
    }
  }

  ghost predicate Pointwise(agg: AggType, l: Tree, r: Tree, m: Tree) {
    (forall p :: At(m, p) == Aggregate(agg, At(l, p), At(r, p))) && JoinsKinds(l, r, m)
  }

  ghost predicate KeepsDepth(l: Tree, r: Tree, m: Tree) {
    forall d :: Deep(l, d) && Deep(r, d) ==> Deep(m, d)
  }

  // Under each key, the merge of what both sides have there.
  ghost predicate MergedKids(agg: AggType, l: map<string, Tree>, r: map<string, Tree>, m: map<string, Tree>) {
    m.Keys == l.Keys + r.Keys
    && forall k :: k in m ==> Pointwise(agg, Kid(l, k), Kid(r, k), m[k]) && KeepsDepth(Kid(l, k), Kid(r, k), m[k])
  }

  lemma {:induction false} MergedNode(agg: AggType, l: map<string, Tree>, r: map<string, Tree>, m: map<string, Tree>)
    requires MergedKids(agg, l, r, m)
    ensures Pointwise(agg, Node(l), Node(r), Node(m)) && KeepsDepth(Node(l), Node(r), Node(m))
  {
    forall p ensures At(Node(m), p) == Aggregate(agg, At(Node(l), p), At(Node(r), p)) {
      if p != [] {
        var k := p[0];
        if k in m {
          assert At(m[k], p[1..]) == Aggregate(agg, At(Kid(l, k), p[1..]), At(Kid(r, k), p[1..]));
        }
      }
    }
    forall p ensures KindAt(Node(m), p) == Join(KindAt(Node(l), p), KindAt(Node(r), p)) {
      if p != [] {
        var k := p[0];
        if k in m {
          assert JoinsKinds(Kid(l, k), Kid(r, k), m[k]);
          assert KindAt(m[k], p[1..]) == Join(KindAt(Kid(l, k), p[1..]), KindAt(Kid(r, k), p[1..]));
        } else {
          assert Kid(l, k) == Nil && Kid(r, k) == Nil;
        }
      }
    }
    forall d: nat | Deep(Node(l), d) && Deep(Node(r), d) ensures Deep(Node(m), d) {
      forall k | k in m ensures Deep(m[k], d - 1) {
        assert KeepsDepth(Kid(l, k), Kid(r, k), m[k]) && Deep(Kid(l, k), d - 1) && Deep(Kid(r, k), d - 1);
      }
    }
  }

  lemma {:induction false} OneSided(agg: AggType, t: Tree)
    ensures Pointwise(agg, Nil, t, t) && Pointwise(agg, t, Nil, t) && KeepsDepth(Nil, t, t) && KeepsDepth(t, Nil, t)
    ensures Compatible(t, Nil) && Compatible(Nil, t)
  {
  }

  // Merges the right result into the left one; fails on a type mismatch.
  method MergeResults(agg: AggType, l: Tree, r: Tree) returns (m: Option<Tree>)
    ensures m.Some? <==> Compatible(l, r)
    ensures m.Some? ==> Pointwise(agg, l, r, m.value) && KeepsDepth(l, r, m.value)
    decreases l, 1
  {
    OneSided(agg, l);
    OneSided(agg, r);
    if l.Nil? {
      return Some(r);
    }
    if r.Nil? {
      return Some(l);
    }
    if l.Leaf? != r.Leaf? {
      return None;
    }
    if l.Leaf? {
      m := Some(Leaf(Combine(agg, l.value, r.value)));
      return;
    }
    hide Pointwise, KeepsDepth, At, Deep;
    var kids, ok := MergeLeftKids(agg, l, r);
    if !ok {
      return None;
    }
    kids := MergeRightKids(agg, l, r, kids);
    MergedNode(agg, l.kids, r.kids, kids);
    m := Some(Node(kids));
  }

  // The keys of the left map, in any order.
  method MergeLeftKids(agg: AggType, l: Tree, r: Tree) returns (kids: map<string, Tree>, ok: bool)
    requires l.Node? && r.Node?
    ensures ok <==> Compatible(l, r)
    ensures ok ==> kids.Keys == l.kids.Keys
    ensures ok ==> forall k :: k in kids ==>
              Pointwise(agg, l.kids[k], Kid(r.kids, k), kids[k]) && KeepsDepth(l.kids[k], Kid(r.kids, k), kids[k])
    decreases l, 0
  {
    hide Pointwise, KeepsDepth, At, Deep;
    kids := map[];
    var todo := l.kids.Keys;
    while todo != {}
      invariant todo <= l.kids.Keys && kids.Keys == l.kids.Keys - todo
      invariant forall k :: k in kids ==> Compatible(l.kids[k], Kid(r.kids, k))
      invariant forall k :: k in kids ==>
                  Pointwise(agg, l.kids[k], Kid(r.kids, k), kids[k]) && KeepsDepth(l.kids[k], Kid(r.kids, k), kids[k])
      decreases todo
    {
      var _ := SomeElement(todo);
      var k :| k in todo;
      var merged := MergeResults(agg, l.kids[k], Kid(r.kids, k));
      if merged.None? {
        ok := false;
        return;
      }
      kids := kids[k := merged.value];
      todo := todo - {k};
    }
    ok := true;
  }

  // Then the keys only the right map has.
  method MergeRightKids(agg: AggType, l: Tree, r: Tree, left: map<string, Tree>) returns (kids: map<string, Tree>)
    requires l.Node? && r.Node? && left.Keys == l.kids.Keys
    requires forall k :: k in left ==>
               Pointwise(agg, l.kids[k], Kid(r.kids, k), left[k]) && KeepsDepth(l.kids[k], Kid(r.kids, k), left[k])
    ensures MergedKids(agg, l.kids, r.kids, kids)
  {
    hide Pointwise, KeepsDepth, At, Deep;
    kids := left;
    var todo := r.kids.Keys - l.kids.Keys;
    while todo != {}
      invariant todo <= r.kids.Keys - l.kids.Keys && kids.Keys == l.kids.Keys + (r.kids.Keys - todo)
      invariant forall k :: k in kids ==>
                  Pointwise(agg, Kid(l.kids, k), Kid(r.kids, k), kids[k])
                  && KeepsDepth(Kid(l.kids, k), Kid(r.kids, k), kids[k])
      decreases todo
    {
      var _ := SomeElement(todo);
      var k :| k in todo;
      OneSided(agg, r.kids[k]);
      kids := kids[k := r.kids[k]];
      todo := todo - {k};
    }
  }

  // --------------------------------------------------------- many children

  // The aggregate of a measure over all children, first to last.
  ghost function AggregateAll(agg: AggType, xs: seq<Option<real>>): Option<real> {
    if xs == [] then None else Aggregate(agg, AggregateAll(agg, xs[..|xs| - 1]), xs[|xs| - 1])
  }

  ghost function Measures(children: seq<Tree>, p: Path): (xs: seq<Option<real>>)
    ensures |xs| == |children| && forall i :: 0 <= i < |xs| ==> xs[i] == At(children[i], p)
  {
    seq(|children|, i requires 0 <= i < |children| => At(children[i], p))
  }

  ghost predicate MergesAll(agg: AggType, children: seq<Tree>, m: Tree) {
    forall p :: At(m, p) == AggregateAll(agg, Measures(children, p))
  }

  // The measures that are present.
  ghost function Present(xs: seq<Option<real>>): seq<real> {
    if xs == [] then []
    else Present(xs[..|xs| - 1]) + (if xs[|xs| - 1].Some? then [xs[|xs| - 1].value] else [])
  }

  ghost function Total(s: seq<real>): real {
    if s == [] then 0.0 else Total(s[..|s| - 1]) + s[|s| - 1]
  }

  // Sums and counts add up the measures present.
  lemma {:induction false} SumIsTotal(agg: AggType, xs: seq<Option<real>>)
    requires agg.Sum? || agg.Count?
    ensures AggregateAll(agg, xs) == if Present(xs) == [] then None else Some(Total(Present(xs)))
  {
    if xs != [] {
      SumIsTotal(agg, xs[..|xs| - 1]);
      var init := Present(xs[..|xs| - 1]);
      if xs[|xs| - 1].Some? {
        assert (init + [xs[|xs| - 1].value])[..|init|] == init;
      } else {
        assert Present(xs) == init;
      }
    }
  }

  // Minimum and maximum are among them and bound them.
  lemma {:induction false} ExtremesBound(agg: AggType, xs: seq<Option<real>>)
    requires agg.Max? || agg.Min?
    ensures var m := AggregateAll(agg, xs);
            if Present(xs) == [] then m == None
            else m.Some? && m.value in Present(xs)
                 && forall i :: 0 <= i < |Present(xs)| ==>
                      if agg.Max? then m.value >= Present(xs)[i] else m.value <= Present(xs)[i]
  {
    if xs != [] {
      ExtremesBound(agg, xs[..|xs| - 1]);
    }
  }

  // No two children have a measure and a dimension at one path.
  ghost predicate AllCompatible(children: seq<Tree>) {
    forall i, j :: 0 <= i < j < |children| ==> Compatible(children[i], children[j])
  }

  // The merge of the first i children is compatible with what they all are.
  ghost predicate StandsFor(merged: Tree, children: seq<Tree>) {
    forall t :: Compatible(merged, t) <==> forall j :: 0 <= j < |children| ==> Compatible(children[j], t)
  }

  ghost predicate AllDeep(children: seq<Tree>, d: nat) {
    forall i :: 0 <= i < |children| ==> Deep(children[i], d)
  }

  // Folds the children's results from the first to the last. It fails exactly
  // when two of them do not fit together.
  method Execute(agg: AggType, children: seq<Tree>) returns (result: Option<Tree>)
    requires children != []
    ensures result.Some? <==> AllCompatible(children)
    ensures result.Some? ==> MergesAll(agg, children, result.value)
    ensures result.Some? ==> forall d :: AllDeep(children, d) ==> Deep(result.value, d)
  {
    var merged := children[0];
    FirstChild(agg, children);
    var i := 1;
    while i < |children|
      invariant 1 <= i <= |children| && AllCompatible(children[..i]) && StandsFor(merged, children[..i])
      invariant MergesAll(agg, children[..i], merged)
      invariant forall d :: AllDeep(children[..i], d) ==> Deep(merged, d)
    {
      hide Deep, MergesAll, Pointwise, Compatible, AllCompatible, StandsFor, AllDeep, KeepsDepth, JoinsKinds;
      NextCompatible(children, i, merged);
      var next := MergeResults(agg, merged, children[i]);
      if next.None? {
        return None;
      }
      NextChild(agg, children, i, merged, next.value);
      NextStands(agg, children, i, merged, next.value);
      NextDeep(children, i, merged, next.value);
      merged := next.value;
      i := i + 1;
    }
    assert children[..i] == children;
    result := Some(merged);
  }

  // Results of one depth fit together.
  lemma {:induction false} SameDepthExecutes(children: seq<Tree>, d: nat)
    requires AllDeep(children, d)
    ensures AllCompatible(children)
  {
    forall i, j | 0 <= i < j < |children| ensures Compatible(children[i], children[j]) {
      SameDepthCompatible(children[i], children[j], d);
    }
  }

  lemma {:induction false} NextCompatible(children: seq<Tree>, i: nat, merged: Tree)
    requires 0 < i < |children| && AllCompatible(children[..i]) && StandsFor(merged, children[..i])
    ensures AllCompatible(children) ==> Compatible(merged, children[i])
    ensures Compatible(merged, children[i]) <==> AllCompatible(children[..i + 1])
  {
    hide Compatible;
    var first, next := children[..i], children[..i + 1];
    assert Compatible(merged, children[i]) <==> forall j :: 0 <= j < i ==> Compatible(first[j], children[i]);
    forall j | 0 <= j < i ensures first[j] == children[j] == next[j] {
    }
    assert next[i] == children[i];
    if AllCompatible(next) {
      forall j | 0 <= j < i ensures Compatible(first[j], children[i]) {
        assert Compatible(next[j], next[i]);
      }
    }
    if Compatible(merged, children[i]) {
      forall a, c | 0 <= a < c < |next| ensures Compatible(next[a], next[c]) {
        if c < i {
          assert Compatible(first[a], first[c]);
        } else {
          assert Compatible(first[a], children[i]);
        }
      }
    }
  }

  lemma {:induction false} NextStands(agg: AggType, children: seq<Tree>, i: nat, before: Tree, after: Tree)
    requires 0 < i < |children| && StandsFor(before, children[..i]) && Compatible(before, children[i])
    requires Pointwise(agg, before, children[i], after)
    ensures StandsFor(after, children[..i + 1])
  {
    var first, next := children[..i], children[..i + 1];
    forall t ensures Compatible(after, t) <==> forall j :: 0 <= j < |next| ==> Compatible(next[j], t) {
      MergedCompatible(before, children[i], after, t);
      hide Compatible;
      assert Compatible(before, t) <==> forall j :: 0 <= j < |first| ==> Compatible(first[j], t);
      assert forall j :: 0 <= j < i ==> first[j] == next[j];
    }
  }

  lemma {:induction false} NextDeep(children: seq<Tree>, i: nat, before: Tree, after: Tree)
    requires i < |children| && KeepsDepth(before, children[i], after)
    requires forall d :: AllDeep(children[..i], d) ==> Deep(before, d)
    ensures forall d :: AllDeep(children[..i + 1], d) ==> Deep(after, d)
  {
    forall d: nat | AllDeep(children[..i + 1], d) ensures Deep(after, d) {
      assert forall j :: 0 <= j < i ==> children[..i][j] == children[..i + 1][j];
      assert AllDeep(children[..i], d);
      assert Deep(children[..i + 1][i], d);
    }
  }

  lemma {:induction false} FirstChild(agg: AggType, children: seq<Tree>)
    requires children != []
    ensures MergesAll(agg, children[..1], children[0]) && AllCompatible(children[..1])
            && StandsFor(children[0], children[..1])
    ensures forall d :: AllDeep(children[..1], d) ==> Deep(children[0], d)
  {
    assert children[..1][0] == children[0];
    forall p ensures At(children[0], p) == AggregateAll(agg, Measures(children[..1], p)) {
      var xs := Measures(children[..1], p);
      assert xs[..0] == [];
    }
  }

  lemma {:induction false} NextChild(agg: AggType, children: seq<Tree>, i: nat, before: Tree, after: Tree)
    requires i < |children| && MergesAll(agg, children[..i], before) && Pointwise(agg, before, children[i], after)
    ensures MergesAll(agg, children[..i + 1], after)
  {
    forall p ensures At(after, p) == AggregateAll(agg, Measures(children[..i + 1], p)) {
      var xs := Measures(children[..i + 1], p);
      assert xs[..i] == Measures(children[..i], p);
    }
  }

  // ------------------------------------------------------- any order at all

  lemma {:induction false} MoveToEnd(agg: AggType, xs: seq<Option<real>>, i: nat)
    requires i < |xs|
    ensures AggregateAll(agg, xs) == Aggregate(agg, AggregateAll(agg, xs[..i] + xs[i + 1..]), xs[i])
    decreases |xs|
  {
    var n := |xs| - 1;
    if i < n {
      var init := xs[..n];
      MoveToEnd(agg, init, i);
      var without := xs[..i] + xs[i + 1..];
      assert without[..|without| - 1] == init[..i] + init[i + 1..] && without[|without| - 1] == xs[n];
      AggregateLaws(agg, AggregateAll(agg, init[..i] + init[i + 1..]), xs[i], xs[n]);
      AggregateLaws(agg, AggregateAll(agg, init[..i] + init[i + 1..]), xs[n], xs[i]);
      AggregateLaws(agg, xs[i], xs[n], None);
    } else {
      assert xs[..i] + xs[i + 1..] == xs[..n];
    }
  }

  ghost function Without<T>(s: seq<T>, i: nat): seq<T>
    requires i < |s|
  {
    s[..i] + s[i + 1..]
  }

  // Two permutations stay permutations when an element is taken out of each.
  lemma {:induction false} TakeLast<T>(xs: seq<T>, ys: seq<T>) returns (i: nat)
    requires multiset(xs) == multiset(ys) && xs != []
    ensures i < |ys| && ys[i] == xs[|xs| - 1] && multiset(xs[..|xs| - 1]) == multiset(Without(ys, i))
  {
    var n := |xs| - 1;
    var last := xs[n];
    assert last in multiset(xs);
    i :| 0 <= i < |ys| && ys[i] == last;
    assert ys == ys[..i] + [last] + ys[i + 1..];
    assert xs == xs[..n] + [last];
    assert multiset(xs[..n]) == multiset(xs) - multiset{last};
    assert multiset(Without(ys, i)) == multiset(ys) - multiset{last};
  }

  lemma {:induction false} SameLength<T>(xs: seq<T>, ys: seq<T>)
    requires multiset(xs) == multiset(ys)
    ensures |xs| == |ys|
  {
    assert |multiset(xs)| == |xs| && |multiset(ys)| == |ys|;
  }

  lemma {:induction false} OrderIndependent(agg: AggType, xs: seq<Option<real>>, ys: seq<Option<real>>)
    requires multiset(xs) == multiset(ys)
    ensures AggregateAll(agg, xs) == AggregateAll(agg, ys)
    decreases |xs|
  {
    SameLength(xs, ys);
    if xs != [] {
      var i := TakeLast(xs, ys);
      OrderIndependent(agg, xs[..|xs| - 1], Without(ys, i));
      MoveToEnd(agg, ys, i);
    }
  }

  lemma {:induction false} MeasuresWithout(b: seq<Tree>, p: Path, i: nat)
    requires i < |b|
    ensures multiset(Measures(b, p)) == multiset(Measures(Without(b, i), p)) + multiset{At(b[i], p)}
  {
    var xs := Measures(b, p);
    assert xs == xs[..i] + [At(b[i], p)] + xs[i + 1..];
    assert Measures(Without(b, i), p) == xs[..i] + xs[i + 1..];
  }

  lemma {:induction false} MeasuresPermute(a: seq<Tree>, b: seq<Tree>, p: Path)
    requires multiset(a) == multiset(b)
    ensures multiset(Measures(a, p)) == multiset(Measures(b, p))
    decreases |a|
  {
    hide Measures;
    SameLength(a, b);
    if a != [] {
      var n := |a| - 1;
      var i := TakeLast(a, b);
      assert Without(a, n) == a[..n];
      MeasuresPermute(a[..n], Without(b, i), p);
      MeasuresWithout(a, p, n);
      MeasuresWithout(b, p, i);
    } else {
      assert a == b;
    }
  }

  // The same children in another order give the same measure at every path.
  lemma {:induction false} ChildOrderIrrelevant(agg: AggType, a: seq<Tree>, b: seq<Tree>, m: Tree, n: Tree, p: Path)
    requires multiset(a) == multiset(b) && MergesAll(agg, a, m) && MergesAll(agg, b, n)
    ensures At(m, p) == At(n, p)
  {
    MeasuresPermute(a, b, p);
    OrderIndependent(agg, Measures(a, p), Measures(b, p));
  }
}
