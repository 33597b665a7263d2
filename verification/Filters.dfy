/** Query filters: flattening conjunctions, choosing prefilters, splitting the rest. */
module Filters {
  datatype Op = AND | OR | EQ | LT | LTE | GT | GTE | OtherOp

  datatype Expr =
    | VarRef(tableID: nat, columnID: nat, isBoolean: bool)
    | Not(e: Expr)
    | Binary(op: Op, lhs: Expr, rhs: Expr)
    // A number literal; only some types of number fit a prefilter.
    | Number(value: int, fits: bool)
    | Other(id: nat)

  // ------------------------------------------------------- three-valued logic

  datatype Truth = True | False | Unknown

  function And(a: Truth, b: Truth): Truth {
    if a.False? || b.False? then False else if a.Unknown? || b.Unknown? then Unknown else True
  }

  predicate IsAnd(e: Expr) {
    e.Binary? && e.op.AND?
  }

  // Conjunctions are evaluated; any other expression may have any truth value.
  ghost function Eval(e: Expr, env: Expr -> Truth): Truth {
    if IsAnd(e) then And(Eval(e.lhs, env), Eval(e.rhs, env)) else env(e)
  }

  ghost function Conjunction(filters: seq<Expr>, env: Expr -> Truth): Truth {
    if filters == [] then True else And(Conjunction(filters[..|filters| - 1], env), Eval(filters[|filters| - 1], env))
  }

  // The operands of nested top-level ANDs.
  ghost function Conjuncts(e: Expr): multiset<Expr> {
    if IsAnd(e) then Conjuncts(e.lhs) + Conjuncts(e.rhs) else multiset{e}
  }

  ghost function AllConjuncts(filters: seq<Expr>): multiset<Expr> {
    if filters == [] then multiset{} else AllConjuncts(filters[..|filters| - 1]) + Conjuncts(filters[|filters| - 1])
  }

  ghost function Nodes(e: Expr): nat {
    if IsAnd(e) then Nodes(e.lhs) + Nodes(e.rhs) + 1 else 1
  }

  ghost function NodesFrom(filters: seq<Expr>, i: nat): nat
    requires i <= |filters|
    decreases |filters|
  {
    if i == |filters| then 0 else NodesFrom(filters[..|filters| - 1], i) + Nodes(filters[|filters| - 1])
  }

  lemma {:induction false} ConjunctionSnoc(filters: seq<Expr>, e: Expr, env: Expr -> Truth)
    ensures Conjunction(filters + [e], env) == And(Conjunction(filters, env), Eval(e, env))
    ensures AllConjuncts(filters + [e]) == AllConjuncts(filters) + Conjuncts(e)
  {
    assert (filters + [e])[..|filters + [e]| - 1] == filters;
  }

  // An AND split in two, its left operand staying in place.
  lemma {:induction false} SplitConjunction(filters: seq<Expr>, i: nat, a: Expr, b: Expr, env: Expr -> Truth)
    requires i < |filters| && filters[i] == Binary(AND, a, b)
    ensures And(Conjunction(filters[i := a], env), Eval(b, env)) == Conjunction(filters, env)
    decreases |filters|
  {
    var n := |filters| - 1;
    var u := filters[i := a];
    if i == n {
      assert u[..n] == filters[..n];
    } else {
      assert u[..n] == filters[..n][i := a];
      SplitConjunction(filters[..n], i, a, b, env);
    }
  }

  lemma {:induction false} SplitConjuncts(filters: seq<Expr>, i: nat, a: Expr, b: Expr)
    requires i < |filters| && filters[i] == Binary(AND, a, b)
    ensures AllConjuncts(filters[i := a]) + Conjuncts(b) == AllConjuncts(filters)
    decreases |filters|
  {
    var n := |filters| - 1;
    var u := filters[i := a];
    if i == n {
      assert u[..n] == filters[..n];
      assert Conjuncts(filters[i]) == Conjuncts(a) + Conjuncts(b);
    } else {
      assert u[..n] == filters[..n][i := a];
      SplitConjuncts(filters[..n], i, a, b);
      hide Conjuncts;
    }
  }

  lemma {:induction false} SplitNodes(filters: seq<Expr>, i: nat, a: Expr, b: Expr)
    requires i < |filters| && filters[i] == Binary(AND, a, b)
    ensures NodesFrom(filters[i := a], i) + Nodes(b) + 1 == NodesFrom(filters, i)
    decreases |filters|
  {
    var n := |filters| - 1;
    var u := filters[i := a];
    if i == n {
      assert u[..n] == filters[..n];
    } else {
      assert u[..n] == filters[..n][i := a];
      SplitNodes(filters[..n], i, a, b);
    }
  }

  lemma {:induction false} NodesStep(filters: seq<Expr>, i: nat, e: Expr)
    requires i <= |filters|
    ensures NodesFrom(filters + [e], i) == NodesFrom(filters, i) + Nodes(e)
    ensures i < |filters| ==> NodesFrom(filters, i) == NodesFrom(filters, i + 1) + Nodes(filters[i])
    decreases |filters|
  {
    assert (filters + [e])[..|filters + [e]| - 1] == filters;
    if i < |filters| - 1 {
      NodesStep(filters[..|filters| - 1], i, e);
    }
  }

  lemma {:induction false} NoAndsLeft(filters: seq<Expr>)
    requires forall i :: 0 <= i < |filters| ==> !IsAnd(filters[i])
    ensures AllConjuncts(filters) == multiset(filters)
  {
    if filters != [] {
      NoAndsLeft(filters[..|filters| - 1]);
      assert filters == filters[..|filters| - 1] + [filters[|filters| - 1]];
    }
  }

  // Flattens top-level conjunctions: the result holds exactly the conjuncts,
  // none of them an AND, with the same three-valued conjunction.
  method NormalizeAndFilters(given: seq<Expr>, ghost env: Expr -> Truth) returns (filters: seq<Expr>)
    ensures forall i :: 0 <= i < |filters| ==> !IsAnd(filters[i])
    ensures Conjunction(filters, env) == Conjunction(given, env)
    ensures multiset(filters) == AllConjuncts(given)
  {
    filters := given;
    var i := 0;
    while i < |filters|
      invariant 0 <= i <= |filters|
      invariant forall j :: 0 <= j < i ==> !IsAnd(filters[j])
      invariant Conjunction(filters, env) == Conjunction(given, env)
      invariant AllConjuncts(filters) == AllConjuncts(given)
      decreases NodesFrom(filters, i)
    {
      var f := filters[i];
      NodesStep(filters, i, f);
      if IsAnd(f) {
        SplitConjunction(filters, i, f.lhs, f.rhs, env);
        SplitConjuncts(filters, i, f.lhs, f.rhs);
        SplitNodes(filters, i, f.lhs, f.rhs);
        ConjunctionSnoc(filters[i := f.lhs], f.rhs, env);
        NodesStep(filters[i := f.lhs], i, f.rhs);
        filters := filters[i := f.lhs] + [f.rhs];
      } else {
        i := i + 1;
      }
    }
    NoAndsLeft(filters);
  }

  // --------------------------------------------------------- prefilter matching

  datatype Place = Place(table: nat, column: nat)

  datatype Kind = Lower | Upper | Equal

  datatype Class = NoClass | Class(kind: Kind, place: Place)

  // What a filter could be used for.
  function Classify(f: Expr): Class {
    match f
    case VarRef(t, c, isBoolean) => if isBoolean then Class(Equal, Place(t, c)) else NoClass
    case Not(e) => if e.VarRef? && e.isBoolean then Class(Equal, Place(e.tableID, e.columnID)) else NoClass
    case Binary(op, l, _) =>
      if !l.VarRef? then NoClass
      else if op.EQ? then Class(Equal, Place(l.tableID, l.columnID))
      else if op.GT? || op.GTE? then Class(Lower, Place(l.tableID, l.columnID))
      else if op.LT? || op.LTE? then Class(Upper, Place(l.tableID, l.columnID))
      else NoClass
    case _ => NoClass
  }

  // `column`, `not column` on a boolean column, or `column = number`.
  predicate IsEquality(f: Expr, table: nat, column: nat) {
    Classify(f) == Class(Equal, Place(table, column))
  }

  predicate IsLowerBound(f: Expr, table: nat, column: nat) {
    Classify(f) == Class(Lower, Place(table, column))
  }

  predicate IsUpperBound(f: Expr, table: nat, column: nat) {
    Classify(f) == Class(Upper, Place(table, column))
  }

  // The value of the filter can be put in a prefilter.
  predicate Extractable(f: Expr) {
    f.VarRef? || f.Not? || (f.Binary? && f.rhs.Number? && f.rhs.fits)
  }

  datatype Slot = Slot(lower: int, upper: int, equality: int)

  // The last filter of each kind for a column.
  type Candidates = map<Place, Slot>

  function SlotOf(m: Candidates, p: Place): Slot {
    if p in m then m[p] else Slot(-1, -1, -1)
  }

  function Index(m: Candidates, filterID: nat, f: Expr): Candidates {
    match f
    case VarRef(t, c, isBoolean) => if isBoolean then m[Place(t, c) := Slot(-1, -1, filterID)] else m
    case Not(e) => if e.VarRef? && e.isBoolean then m[Place(e.tableID, e.columnID) := Slot(-1, -1, filterID)] else m
    case Binary(op, l, _) =>
      if !l.VarRef? then m
      else
        var p := Place(l.tableID, l.columnID);
        (match op
         case GT => m[p := SlotOf(m, p).(lower := filterID)]
         case GTE => m[p := SlotOf(m, p).(lower := filterID)]
         case LT => m[p := SlotOf(m, p).(upper := filterID)]
         case LTE => m[p := SlotOf(m, p).(upper := filterID)]
         case EQ => m[p := SlotOf(m, p).(equality := filterID)]
         case _ => m)
    case _ => m
  }

  // Each slot names a filter of its kind on its column.
  ghost predicate SlotOk(filters: seq<Expr>, p: Place, s: Slot) {
    && s.lower < |filters| && s.upper < |filters| && s.equality < |filters|
    && (s.lower >= 0 ==> IsLowerBound(filters[s.lower], p.table, p.column))
    && (s.upper >= 0 ==> IsUpperBound(filters[s.upper], p.table, p.column))
    && (s.equality >= 0 ==> IsEquality(filters[s.equality], p.table, p.column))
  }

  function Named(s: Slot, k: Kind): int {
    match k
    case Lower => s.lower
    case Upper => s.upper
    case Equal => s.equality
  }

  // A reference to a boolean column is an equality that also drops the bounds.
  predicate Resets(f: Expr, p: Place) {
    match f
    case VarRef(t, c, isBoolean) => isBoolean && p == Place(t, c)
    case Not(e) => e.VarRef? && e.isBoolean && p == Place(e.tableID, e.columnID)
    case _ => false
  }

  ghost predicate ResetBetween(filters: seq<Expr>, p: Place, i: int, n: nat)
    requires n <= |filters| && -1 <= i
  {
    exists j :: i < j < n && Resets(filters[j], p)
  }

  // Among the first n filters, none of a kind comes after the one in the slot,
  // unless a bound was dropped by a later boolean reference; and no bound in a
  // slot comes before such a reference.
  ghost predicate Latest(filters: seq<Expr>, n: nat, m: Candidates)
    requires n <= |filters|
  {
    && (forall i :: 0 <= i < n && Classify(filters[i]).Class? ==>
          var c := Classify(filters[i]);
          c.place in m && (Named(m[c.place], c.kind) >= i || (!c.kind.Equal? && ResetBetween(filters, c.place, i, n))))
    && (forall p, k: Kind :: p in m && !k.Equal? && Named(m[p], k) >= 0 ==>
          !ResetBetween(filters, p, Named(m[p], k), n))
  }

  ghost predicate SlotsOk(filters: seq<Expr>, n: nat, m: Candidates) {
    forall p :: p in m ==> SlotOk(filters, p, m[p]) && m[p].lower < n && m[p].upper < n && m[p].equality < n
  }

  // Indexing a filter changes at most its own slot: its kind, and for a boolean
  // column reference the bounds.
  lemma {:induction false} IndexOne(m: Candidates, id: nat, f: Expr)
    ensures var c := Classify(f);
            if c.NoClass? then Index(m, id, f) == m && forall p :: !Resets(f, p)
            else
              var was := SlotOf(m, c.place);
              && c.place in Index(m, id, f) && Index(m, id, f) == m[c.place := Index(m, id, f)[c.place]]
              && var s := Index(m, id, f)[c.place];
                 Named(s, c.kind) == id
                 && (Resets(f, c.place) ==> c.kind.Equal?) && (forall p :: Resets(f, p) ==> p == c.place)
                 && forall k :: k != c.kind ==> Named(s, k) == if Resets(f, c.place) then -1 else Named(was, k)
  {
  }

  lemma {:induction false} ResetStep(filters: seq<Expr>, p: Place, i: int, n: nat)
    requires n < |filters| && -1 <= i < n
    ensures ResetBetween(filters, p, i, n + 1) <==> ResetBetween(filters, p, i, n) || Resets(filters[n], p)
    ensures !ResetBetween(filters, p, n, n + 1)
  {
  }

  lemma {:induction false} IndexKeepsLatest(filters: seq<Expr>, n: nat, m: Candidates)
    requires n < |filters| && Latest(filters, n, m) && SlotsOk(filters, n, m)
    ensures Latest(filters, n + 1, Index(m, n, filters[n]))
  {
    IndexOne(m, n, filters[n]);
    hide Index, Classify, SlotOk, ResetBetween, Resets;
    var next := Index(m, n, filters[n]);
    forall i | 0 <= i < n + 1 && Classify(filters[i]).Class?
      ensures var c := Classify(filters[i]);
              c.place in next && (Named(next[c.place], c.kind) >= i
                                  || (!c.kind.Equal? && ResetBetween(filters, c.place, i, n + 1)))
    {
      if i < n {
        ResetStep(filters, Classify(filters[i]).place, i, n);
      }
    }
    forall p, k: Kind | p in next && !k.Equal? && Named(next[p], k) >= 0
      ensures !ResetBetween(filters, p, Named(next[p], k), n + 1)
    {
      ResetStep(filters, p, -1, n);
      if Named(next[p], k) < n {
        ResetStep(filters, p, Named(next[p], k), n);
      }
    }
  }

  lemma {:induction false} IndexKeepsSlots(filters: seq<Expr>, n: nat, m: Candidates)
    requires n < |filters| && SlotsOk(filters, n, m)
    ensures SlotsOk(filters, n + 1, Index(m, n, filters[n]))
  {
    IndexOne(m, n, filters[n]);
    hide Index;
    var next := Index(m, n, filters[n]);
    var d := Classify(filters[n]);
    if d.Class? {
      var s := next[d.place];
      assert Named(s, Lower) == s.lower && Named(s, Upper) == s.upper && Named(s, Equal) == s.equality;
    }
  }

  // Every slot names the last filter of its kind on its column.
  method IndexCandidates(filters: seq<Expr>) returns (m: Candidates)
    ensures forall p :: p in m ==> SlotOk(filters, p, m[p])
    ensures Latest(filters, |filters|, m)
  {
    m := map[];
    for i := 0 to |filters|
      invariant SlotsOk(filters, i, m) && Latest(filters, i, m)
    {
      IndexKeepsLatest(filters, i, m);
      IndexKeepsSlots(filters, i, m);
      hide Latest, SlotsOk, Index;
      m := Index(m, i, filters[i]);
    }
  }

  // Prefilters of one table: equalities on its first sort columns, and bounds
  // on the next one.
  datatype Match = Match(equalities: seq<nat>, bounds: seq<nat>)

  ghost predicate MatchOk(filters: seq<Expr>, table: nat, sortColumns: seq<nat>, m: Match) {
    && |m.equalities| <= |sortColumns|
    && (forall i :: 0 <= i < |m.equalities| ==>
          m.equalities[i] < |filters| && Extractable(filters[m.equalities[i]])
          && IsEquality(filters[m.equalities[i]], table, sortColumns[i]))
    && (m.bounds != [] ==> |m.equalities| < |sortColumns|)
    && |m.bounds| <= 2
    && (forall i :: 0 <= i < |m.bounds| ==>
          var f := m.bounds[i];
          f < |filters| && Extractable(filters[f])
          && (IsLowerBound(filters[f], table, sortColumns[|m.equalities|])
              || IsUpperBound(filters[f], table, sortColumns[|m.equalities|])))
    && (|m.bounds| == 2 ==> m.bounds[0] != m.bounds[1])
  }

  function Bound(filters: seq<Expr>, id: int): seq<nat>
    requires id < |filters|
  {
    if id >= 0 && Extractable(filters[id]) then [id] else []
  }

  // The match goes as far as the candidates allow: it takes the equality of each
  // column in turn, and stops at a column without candidates, with an equality
  // whose value cannot be extracted, or with bounds only, which it takes.
  ghost predicate Exhaustive(filters: seq<Expr>, candidates: Candidates, table: nat, sortColumns: seq<nat>, m: Match)
    requires forall p :: p in candidates ==> SlotOk(filters, p, candidates[p])
  {
    var n := |m.equalities|;
    && n <= |sortColumns|
    && (forall i :: 0 <= i < n ==> SlotOf(candidates, Place(table, sortColumns[i])).equality == m.equalities[i])
    && if n == |sortColumns| then m.bounds == []
       else
         var p := Place(table, sortColumns[n]);
         if p !in candidates then m.bounds == []
         else SlotOk(filters, p, candidates[p])
              && if candidates[p].equality >= 0 then !Extractable(filters[candidates[p].equality]) && m.bounds == []
         else m.bounds == Bound(filters, candidates[p].lower) + Bound(filters, candidates[p].upper)
  }

  // Matches in sort column order, stopping at the first column without an
  // equality.
  method MatchTable(filters: seq<Expr>, candidates: Candidates, table: nat, sortColumns: seq<nat>) returns (m: Match)
    requires forall p :: p in candidates ==> SlotOk(filters, p, candidates[p])
    ensures MatchOk(filters, table, sortColumns, m) && Exhaustive(filters, candidates, table, sortColumns, m)
  {
    m := Match([], []);
    var i := 0;
    while i < |sortColumns|
      invariant 0 <= i <= |sortColumns| && |m.equalities| == i && m.bounds == []
                && MatchOk(filters, table, sortColumns, m)
      invariant forall j :: 0 <= j < i ==> SlotOf(candidates, Place(table, sortColumns[j])).equality == m.equalities[j]
    {
      var p := Place(table, sortColumns[i]);
      if p !in candidates {
        return;
      }
      var s := candidates[p];
      assert SlotOk(filters, p, s);
      if s.equality >= 0 {
        if !Extractable(filters[s.equality]) {
          return;
        }
        m := m.(equalities := m.equalities + [s.equality]);
        i := i + 1;
      } else {
        var bounds: seq<nat> := [];
        if s.lower >= 0 && Extractable(filters[s.lower]) {
          bounds := bounds + [s.lower];
        }
        if s.upper >= 0 && Extractable(filters[s.upper]) {
          bounds := bounds + [s.upper];
        }
        assert bounds == Bound(filters, s.lower) + Bound(filters, s.upper);
        m := m.(bounds := bounds);
        return;
      }
    }
  }

  ghost predicate Distinct(s: seq<nat>) {
    forall i, j :: 0 <= i < j < |s| ==> s[i] != s[j]
  }

  function Chosen(m: Match): seq<nat> {
    m.equalities + m.bounds
  }

  // A filter is about one column of one table.
  lemma {:induction false} OnePlace(f: Expr, t: nat, c: nat, u: nat, d: nat)
    requires IsEquality(f, t, c) || IsLowerBound(f, t, c) || IsUpperBound(f, t, c)
    requires IsEquality(f, u, d) || IsLowerBound(f, u, d) || IsUpperBound(f, u, d)
    ensures t == u && c == d
  {
  }

  // The filters chosen for a table are all different.
  lemma {:induction false} ChosenDistinct(filters: seq<Expr>, table: nat, sortColumns: seq<nat>, m: Match)
    requires MatchOk(filters, table, sortColumns, m) && Distinct(sortColumns)
    ensures Distinct(Chosen(m))
  {
    var ids := Chosen(m);
    forall i, j | 0 <= i < j < |ids| ensures ids[i] != ids[j] {
      if ids[i] == ids[j] && i < |m.equalities| {
        var f := filters[ids[i]];
        OnePlace(f, table, sortColumns[i], table, sortColumns[if j < |m.equalities| then j else |m.equalities|]);
      }
    }
  }

  lemma {:induction false} TablesDisjoint(filters: seq<Expr>, t: nat, tc: seq<nat>, m: Match, u: nat, uc: seq<nat>,
      n: Match)
    requires MatchOk(filters, t, tc, m) && MatchOk(filters, u, uc, n) && t != u
    ensures forall i, j :: 0 <= i < |Chosen(m)| && 0 <= j < |Chosen(n)| ==> Chosen(m)[i] != Chosen(n)[j]
  {
    forall i, j | 0 <= i < |Chosen(m)| && 0 <= j < |Chosen(n)| ensures Chosen(m)[i] != Chosen(n)[j] {
      if Chosen(m)[i] == Chosen(n)[j] {
        OnePlace(filters[Chosen(m)[i]], t, tc[if i < |m.equalities| then i else |m.equalities|],
                 u, uc[if j < |n.equalities| then j else |n.equalities|]);
      }
    }
  }

  ghost predicate Ascending(s: seq<nat>) {
    forall i, j :: 0 <= i < j < |s| ==> s[i] < s[j]
  }

  method InsertInto(s: seq<nat>, x: nat) returns (r: seq<nat>)
    requires Ascending(s) && x !in s
    ensures Ascending(r) && multiset(r) == multiset(s) + multiset{x}
  {
    var i := 0;
    while i < |s| && s[i] < x
      invariant 0 <= i <= |s| && forall j :: 0 <= j < i ==> s[j] < x
    {
      i := i + 1;
    }
    r := s[..i] + [x] + s[i..];
    assert s == s[..i] + s[i..];
    assert forall j :: i <= j < |s| ==> s[j] > x;
  }

  method SortInts(s: seq<nat>) returns (r: seq<nat>)
    requires Distinct(s)
    ensures Ascending(r) && multiset(r) == multiset(s)
  {
    r := [];
    for i := 0 to |s|
      invariant Ascending(r) && multiset(r) == multiset(s[..i])
    {
      assert s[i] !in multiset(s[..i]);
      r := InsertInto(r, s[i]);
      assert s[..i + 1] == s[..i] + [s[i]];
    }
    assert s[..|s|] == s;
  }

  // All chosen filters, table after table.
  function AllChosen(matches: seq<Match>): seq<nat> {
    if matches == [] then [] else AllChosen(matches[..|matches| - 1]) + Chosen(matches[|matches| - 1])
  }

  lemma {:induction false} ChosenByTable(matches: seq<Match>, x: nat)
    requires x in AllChosen(matches)
    ensures exists t :: 0 <= t < |matches| && x in Chosen(matches[t])
  {
    if x in Chosen(matches[|matches| - 1]) {
      assert x in Chosen(matches[|matches| - 1]);
    } else {
      ChosenByTable(matches[..|matches| - 1], x);
      var t :| 0 <= t < |matches| - 1 && x in Chosen(matches[..|matches| - 1][t]);
      assert x in Chosen(matches[t]);
    }
  }

  lemma {:induction false} AllChosenDistinct(filters: seq<Expr>, tables: seq<seq<nat>>, matches: seq<Match>)
    requires |matches| <= |tables| && (forall t :: 0 <= t < |tables| ==> Distinct(tables[t]))
    requires forall t :: 0 <= t < |matches| ==> MatchOk(filters, t, tables[t], matches[t])
    ensures Distinct(AllChosen(matches)) && forall x :: x in AllChosen(matches) ==> x < |filters|
  {
    if matches != [] {
      var n := |matches| - 1;
      var init, last := AllChosen(matches[..n]), Chosen(matches[n]);
      AllChosenDistinct(filters, tables, matches[..n]);
      ChosenDistinct(filters, n, tables[n], matches[n]);
      forall i, j | 0 <= i < |init| && 0 <= j < |last| ensures init[i] != last[j] {
        ChosenByTable(matches[..n], init[i]);
        var t :| 0 <= t < n && init[i] in Chosen(matches[..n][t]);
        TablesDisjoint(filters, t, tables[t], matches[t], n, tables[n], matches[n]);
      }
      hide MatchOk;
      assert forall x :: x in last ==> x < |filters| by {
        ChosenInRange(filters, n, tables[n], matches[n]);
      }
    }
  }

  lemma {:induction false} ChosenInRange(filters: seq<Expr>, table: nat, sortColumns: seq<nat>, m: Match)
    requires MatchOk(filters, table, sortColumns, m)
    ensures forall x :: x in Chosen(m) ==> x < |filters|
  {
  }

  // Every table's prefilters, and all of them in filter order.
  method MatchPrefilters(filters: seq<Expr>, tables: seq<seq<nat>>)
    returns (prefilters: seq<nat>, matches: seq<Match>, ghost candidates: Candidates)
    requires forall t :: 0 <= t < |tables| ==> Distinct(tables[t])
    ensures (forall p :: p in candidates ==> SlotOk(filters, p, candidates[p]))
            && Latest(filters, |filters|, candidates)
    ensures |matches| == |tables|
    ensures forall t :: 0 <= t < |tables| ==>
              MatchOk(filters, t, tables[t], matches[t]) && Exhaustive(filters, candidates, t, tables[t], matches[t])
    ensures Ascending(prefilters) && multiset(prefilters) == multiset(AllChosen(matches))
    ensures forall i :: 0 <= i < |prefilters| ==> prefilters[i] < |filters|
  {
    hide MatchOk, SlotOk, Distinct, Ascending, Latest, Exhaustive;
    var slots := IndexCandidates(filters);
    candidates := slots;
    matches := [];
    while |matches| < |tables|
      invariant |matches| <= |tables|
      invariant forall t :: 0 <= t < |matches| ==> MatchOk(filters, t, tables[t], matches[t])
      invariant forall t :: 0 <= t < |matches| ==> Exhaustive(filters, candidates, t, tables[t], matches[t])
    {
      var m := MatchTable(filters, slots, |matches|, tables[|matches|]);
      matches := matches + [m];
    }
    AllChosenDistinct(filters, tables, matches);
    prefilters := SortInts(AllChosen(matches));
    forall i | 0 <= i < |prefilters| ensures prefilters[i] < |filters| {
      assert prefilters[i] in multiset(prefilters);
      assert prefilters[i] in AllChosen(matches);
    }
  }

  // ------------------------------------------------------------- splitting

  // The filters whose position passes a test, in order.
  ghost function Pick(filters: seq<Expr>, ids: seq<nat>, inside: bool): seq<Expr> {
    if filters == [] then []
    else Pick(filters[..|filters| - 1], ids, inside)
         + (if ((|filters| - 1) in ids) == inside then [filters[|filters| - 1]] else [])
  }

  lemma {:induction false} PickSnoc(filters: seq<Expr>, n: nat, ids: seq<nat>, inside: bool)
    requires n < |filters|
    ensures Pick(filters[..n + 1], ids, inside) ==
            Pick(filters[..n], ids, inside) + (if (n in ids) == inside then [filters[n]] else [])
  {
    assert filters[..n + 1][..n] == filters[..n];
  }

  // Walks the filters and the sorted prefilter positions together.
  method SplitFilters(filters: seq<Expr>, prefilters: seq<nat>, measureFilters: seq<Expr>)
    returns (matched: seq<Expr>, common: seq<Expr>)
    requires Ascending(prefilters) && forall i :: 0 <= i < |prefilters| ==> prefilters[i] < |filters|
    ensures matched == Pick(filters, prefilters, true)
    ensures common == measureFilters + Pick(filters, prefilters, false)
  {
    common, matched := measureFilters, [];
    var k := 0;
    for index := 0 to |filters|
      invariant 0 <= k <= |prefilters|
      invariant forall i :: 0 <= i < k ==> prefilters[i] < index
      invariant forall i :: k <= i < |prefilters| ==> prefilters[i] >= index
      invariant matched == Pick(filters[..index], prefilters, true)
      invariant common == measureFilters + Pick(filters[..index], prefilters, false)
    {
      PickSnoc(filters, index, prefilters, true);
      PickSnoc(filters, index, prefilters, false);
      if k == |prefilters| || prefilters[k] > index {
        assert index !in prefilters;
        common := common + [filters[index]];
      } else {
        assert prefilters[k] == index;
        matched := matched + [filters[index]];
        k := k + 1;
      }
    }
    assert filters[..|filters|] == filters;
  }

  // Every filter lands exactly once on one side.
  lemma {:induction false} SplitOnce(filters: seq<Expr>, ids: seq<nat>)
    ensures multiset(Pick(filters, ids, true)) + multiset(Pick(filters, ids, false)) == multiset(filters)
  {
    if filters != [] {
      var n := |filters| - 1;
      SplitOnce(filters[..n], ids);
      assert filters == filters[..n] + [filters[n]];
    }
  }

  lemma {:induction false} AndLaws(a: Truth, b: Truth, c: Truth)
    ensures And(And(a, b), c) == And(And(a, c), b) == And(a, And(b, c))
  {
  }

  // So the two conjunctions together are the conjunction of all filters.
  lemma {:induction false} SplitKeepsMeaning(filters: seq<Expr>, ids: seq<nat>, env: Expr -> Truth)
    ensures And(Conjunction(Pick(filters, ids, true), env), Conjunction(Pick(filters, ids, false), env)) ==
              Conjunction(filters, env)
  {
    if filters != [] {
      var n := |filters| - 1;
      var init, last := filters[..n], filters[n];
      assert filters[..n + 1] == filters;
      PickSnoc(filters, n, ids, true);
      PickSnoc(filters, n, ids, false);
      hide Pick, Conjunction, Eval, AllConjuncts;
      SplitKeepsMeaning(init, ids, env);
      var t, f := Pick(init, ids, true), Pick(init, ids, false);
      assert filters == init + [last];
      ConjunctionSnoc(init, last, env);
      ConjunctionSnoc(if n in ids then t else f, last, env);
      assert t + [] == t && f + [] == f;
      AndLaws(Conjunction(t, env), Conjunction(f, env), Eval(last, env));
    } else {
      assert Pick(filters, ids, true) == Pick(filters, ids, false) == [];
    }
  }
}
