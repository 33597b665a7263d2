/** Bootstrap requests: one runner at a time, later requests queued as one pending pass. */
module Bootstrap {
  datatype BootstrapState = NotStarted | Bootstrapping | Bootstrapped

  // Where a caller of Bootstrap that became the runner is in its loop.
  datatype Phase = Ready | Running | Deciding

  type Caller = nat

  // The locked fields, the runners, how many requests were made so far and how
  // many had been made when the latest pass started, and when it ended.
  datatype State = State(state: BootstrapState, hasPending: bool, runners: map<Caller, Phase>, requests: nat,
      started: nat, finished: nat)

  datatype Action =
    | Request(caller: Caller)
    | StartPass(caller: Caller)
    | EndPass(caller: Caller)
    | Decide(caller: Caller)

  ghost function Init(): State {
    State(NotStarted, false, map[], 0, 0, 0)
  }

  ghost predicate Enabled(s: State, a: Action) {
    match a
    case Request(c) => c !in s.runners
    case StartPass(c) => c in s.runners && s.runners[c].Ready?
    case EndPass(c) => c in s.runners && s.runners[c].Running?
    case Decide(c) => c in s.runners && s.runners[c].Deciding?
  }

  ghost function Do(s: State, a: Action): State
    requires Enabled(s, a)
  {
    match a
    case Request(c) =>
      if s.state.Bootstrapping? then s.(hasPending := true, requests := s.requests + 1)
      else s.(state := Bootstrapping, runners := s.runners[c := Ready], requests := s.requests + 1)
    case StartPass(c) => s.(runners := s.runners[c := Running], started := s.requests)
    case EndPass(c) => s.(runners := s.runners[c := Deciding], finished := s.started)
    case Decide(c) =>
      if s.hasPending then s.(hasPending := false, runners := s.runners[c := Ready])
      else s.(state := Bootstrapped, runners := s.runners - {c})
  }

  ghost predicate Inv(s: State) {
    && s.finished <= s.started <= s.requests
    // a runner is active exactly while the state says so, and there is only one
    && (s.state.Bootstrapping? <==> s.runners != map[])
    && (forall c, d :: c in s.runners && d in s.runners ==> c == d)
    // a request made after the latest pass started is remembered
    && (forall c :: c in s.runners && !s.runners[c].Ready? && s.started < s.requests ==> s.hasPending)
    && (forall c :: c in s.runners && s.runners[c].Deciding? ==> s.finished == s.started)
    && (s.runners == map[] ==> !s.hasPending)
    && (s.state.Bootstrapped? ==> s.finished == s.requests)
    && (s.state.NotStarted? ==> s.requests == 0)
  }

  lemma {:induction false} StepKept(s: State, a: Action)
    requires Inv(s) && Enabled(s, a)
    ensures Inv(Do(s, a))
  {
    var t := Do(s, a);
    match a {
      case Request(c) =>
        assert !s.state.Bootstrapping? ==> c in t.runners;
      case StartPass(c) => assert c in t.runners;
      case EndPass(c) => assert c in t.runners;
      case Decide(c) =>
        if s.hasPending {
          assert c in t.runners;
        } else {
          assert forall d :: d in s.runners ==> d == c;
          assert t.runners == map[];
        }
    }
  }

  ghost predicate Legal(run: seq<Action>)
    decreases |run|, 0
  {
    run == [] || (Legal(run[..|run| - 1]) && Enabled(After(run[..|run| - 1]), run[|run| - 1]))
  }

  ghost function After(run: seq<Action>): State
    requires Legal(run)
    decreases |run|, 1
  {
    if run == [] then Init() else Do(After(run[..|run| - 1]), run[|run| - 1])
  }

  lemma {:induction false} RunKept(run: seq<Action>)
    requires Legal(run)
    ensures Inv(After(run))
    decreases |run|
  {
    if run != [] {
      RunKept(run[..|run| - 1]);
      StepKept(After(run[..|run| - 1]), run[|run| - 1]);
    }
  }

  // In every interleaving at most one runner is active, and whenever the state
  // is Bootstrapped every request made so far was covered by a completed pass
  // that started after it.
  lemma {:induction false} RequestsNotDropped(run: seq<Action>)
    requires Legal(run)
    ensures var s := After(run);
            && (forall c, d :: c in s.runners && d in s.runners ==> c == d)
            && (s.state.Bootstrapped? ==> s.runners == map[] && s.finished == s.requests)
  {
    RunKept(run);
  }

  // A lone runner that is given time reaches Bootstrapped: passes end and, with
  // no further requests, at most one more is made.
  lemma {:induction false} Settles(run: seq<Action>, c: Caller) returns (full: seq<Action>)
    requires Legal(run) && c in After(run).runners
    ensures |run| <= |full| <= |run| + 6 && full[..|run|] == run
    ensures Legal(full) && After(full).state.Bootstrapped? && After(full).requests == After(run).requests
  {
    hide Legal, After;
    var r1 := ReachDecision(run, c);
    Extend(r1, Decide(c));
    full := r1 + [Decide(c)];
    if After(r1).hasPending {
      var r2 := ReachDecision(full, c);
      Extend(r2, Decide(c));
      full := r2 + [Decide(c)];
    }
  }

  lemma {:induction false} Extend(run: seq<Action>, a: Action)
    requires Legal(run) && Enabled(After(run), a)
    ensures Legal(run + [a]) && After(run + [a]) == Do(After(run), a)
  {
    assert (run + [a])[..|run + [a]| - 1] == run;
  }

  // The runner finishes its pass, starting it first if need be.
  lemma {:induction false} ReachDecision(run: seq<Action>, c: Caller) returns (full: seq<Action>)
    requires Legal(run) && c in After(run).runners
    ensures |run| <= |full| <= |run| + 2 && full[..|run|] == run
    ensures Legal(full) && c in After(full).runners && After(full).runners[c].Deciding?
    ensures After(full).requests == After(run).requests
    ensures After(full).hasPending == After(run).hasPending
  {
    hide Legal, After;
    full := run;
    if After(full).runners[c].Ready? {
      Extend(full, StartPass(c));
      full := full + [StartPass(c)];
    }
    if After(full).runners[c].Running? {
      Extend(full, EndPass(c));
      full := full + [EndPass(c)];
    }
  }
}
