/** What holds all along a run.

    A run of the matcher is a sequence of turns of at most four steps.  At every
    turn the place in the code stands for pending work and the failure points for
    the work put aside; the ends the whole pattern comes to are those seen so far,
    the best of which is remembered, and then those still to come; and the groups
    the place is inside of are flagged as they should be. */
module EveryTurn {
  import opened Octets
  import opened RegexLang
  import opened Backtrack
  import opened Bytecode
  import opened Machine
  import opened Rewriting
  import opened Invariant
  import opened InvariantFacts
  import opened Plays
  import opened FailureStack
  import opened Moves
  import opened Simulation
  import opened MatchTheorem
  import opened Nest
  import opened GroupFlags

  /** Of the ends `all` the state has seen some, and the others are still to come. */
  ghost predicate Stands(w: World, st: VState, k: Kont, b: nat, abs: seq<Abs>, seen: seq<Visit>, all: seq<Visit>) {
    && Inv(w, st, k, b, abs) && st.d <= |w.env.s.text|
    && all == seen + Rest(w, st.p, k, st.d, abs)
    && Passing(seen, |w.env.s.text|) && BestIn(st) == BestOf(NoBest, seen)
  }

  ghost predicate Refines(w: World, st: VState, all: seq<Visit>) {
    exists k: Kont, b: nat, abs: seq<Abs>, seen: seq<Visit> :: Stands(w, st, k, b, abs, seen, all)
  }

  lemma StandsRefines(w: World, st: VState, k: Kont, b: nat, abs: seq<Abs>, seen: seq<Visit>, all: seq<Visit>)
    requires Stands(w, st, k, b, abs, seen, all)
    ensures Refines(w, st, all)
  {}

  lemma {:induction false} BestOfAdd(best: Best, seen: seq<Visit>, more: seq<Visit>)
    ensures BestOf(best, seen + more) == BestOf(BestOf(best, seen), more)
    decreases |seen|
  {
    if |seen| > 0 {
      assert (seen + more)[1..] == seen[1..] + more;
      BestOfAdd(Better(best, seen[0].at), seen[1..], more);
    } else {
      assert seen + more == more;
    }
  }

  /** From any turn on, the next one comes within three steps of any step of the
      run, unless the run ends first. */
  lemma {:induction false} NextTurn(w: World, st: VState, k: Kont, b: nat, abs: seq<Abs>, seen: seq<Visit>,
                                    all: seq<Visit>, n: nat) returns (m: nat)
    requires Stands(w, st, k, b, abs, seen, all) && Steps(w.env, st, n).Running?
    ensures n <= m <= n + 3
    ensures Steps(w.env, st, m).Done? || (Steps(w.env, st, m).Running? && Refines(w, Steps(w.env, st, m).st, all))
    decreases n, Left(w, st.p, k, st.d, abs), |w.env.s.text| - st.d, Weight(k, st.d), |w.code0| - st.p
  {
    hide Step, Steps, PlayOf, Inv, PlaysOf, StackOk, Related, Rest, Visits;
    NoSteps(w.env, st);
    StandsRefines(w, st, k, b, abs, seen, all);
    if n == 0 { return 0; }
    StartInRange(w, st, k, b, abs);
    var mv := Advance(w, st, k, b, abs);
    match mv
    case Ends(_) =>
      OneStep(w.env, st);
      DoneStays(w.env, st, 1, n);
      m := n;
    case To(j, st', k', b', abs') =>
      StartInRange(w, st', k', b', abs');
      StandsRefines(w, st', k', b', abs', seen, all);
      if n <= j { return j; }
      StepsAdd(w.env, st, j, st', n - j);
      m := NextTurn(w, st', k', b', abs', seen, all, n - j);
      StepsAdd(w.env, st, j, st', m);
      m := j + m;
    case Fails(j, st1, st', abs', more) =>
      BestOfAdd(NoBest, seen, more);
      assert all == (seen + more) + Resume(PlaysOf(w, abs'), |w.env.s.text|);
      m := AfterFailing(w, st, n, j, st1, st', abs', seen + more, all);
  }

  /** The turn after a failure, at step `j` of the run. */
  lemma {:induction false} AfterFailing(w: World, st: VState, n: nat, j: nat, st1: VState, st': VState, abs: seq<Abs>,
                                        seen: seq<Visit>, all: seq<Visit>)
    returns (m: nat)
    requires j <= 3 && Steps(w.env, st, j) == Running(st1) && Step(w.env, st1) == Fail(w.env, st')
    requires CanFail(w, st', abs) && all == seen + Resume(PlaysOf(w, abs), |w.env.s.text|)
    requires Passing(seen, |w.env.s.text|) && BestIn(st') == BestOf(NoBest, seen)
    requires n > 0 && Steps(w.env, st, n).Running?
    ensures n <= m <= n + 3
    ensures Steps(w.env, st, m).Done? || (Steps(w.env, st, m).Running? && Refines(w, Steps(w.env, st, m).st, all))
    decreases n, 0
  {
    hide Step, Steps, Fail, PlayOf, Inv, StackOk, Related, PlaysOf, Rest, Resume;
    var i := FailResumes(w, st', abs);
    OneStep(w.env, st1);
    StepsAdd(w.env, st, j, st1, 1);
    if Fail(w.env, st').Done? {
      if n > j + 1 { DoneStays(w.env, st, j + 1, n); }
      m := j + 1;
    } else {
      var st2, a := Fail(w.env, st').st, abs[i];
      StartInRange(w, st2, a.k, a.b, abs[..i]);
      ResumeAt(w, abs, i);
      StandsRefines(w, st2, a.k, a.b, abs[..i], seen, all);
      if n <= j + 1 { return j + 1; }
      StepsAdd(w.env, st, j + 1, st2, n - (j + 1));
      m := NextTurn(w, st2, a.k, a.b, abs[..i], seen, all, n - (j + 1));
      StepsAdd(w.env, st, j + 1, st2, m);
      m := j + 1 + m;
    }
  }

  // ----- the flags -----

  lemma {:induction false} OpenFlags(k: Kont, st: VState, reg: nat)
    requires Flags(k, st.d, st.low, st.high, st.info) && reg in OpenRegs(k)
    ensures Marked(reg, st.d, st.low, st.high, st.info)
    decreases k
  {
    match k
    case Close(r, _, k') => if r != reg { OpenFlags(k', st, reg); }
    case Loop(e, _, k') => if e.body.reg != reg { OpenFlags(k', st, reg); }
    case Do(_, k') => OpenFlags(k', st, reg);
    case Again(_, k') => OpenFlags(k', st, reg);
  }

  lemma TurnFlags(e: Re, w: World, st: VState, all: seq<Visit>)
    requires Compiled(e, w.code0, w.nsub) && Refines(w, st, all)
    ensures GroupsFlagged(w.code0, st)
  {
    hide Flags, NestAt, Reps, NumberedK, LaidOut, StackOk, Related, Rest;
    var k: Kont, b: nat, abs: seq<Abs>, seen: seq<Visit> :| Stands(w, st, k, b, abs, seen, all);
    EnclosingGroups(e, w.code0, st.p, k);
    forall reg | reg in NestAt(w.code0, st.p).groups
      ensures Marked(reg, st.d, st.low, st.high, st.info)
    {
      OpenFlags(k, st, reg);
    }
  }

  // ----- every run -----

  /** In every run of a compiled pattern, after any number of steps, the groups are
      flagged rightly, and the run ends or comes to a turn within three more. */
  lemma AlwaysATurn(e: Re, code0: seq<byte>, nsub: nat, env: Env, code: seq<byte>, n: nat) returns (m: nat)
    requires Compiled(e, code0, nsub) && Related(code0, code) && env.start <= |env.s.text|
    requires Steps(env, Entry(env, code, nsub), n).Running?
    ensures GroupsFlagged(code0, Steps(env, Entry(env, code, nsub), n).st)
    ensures n <= m <= n + 3
    ensures var out := Steps(env, Entry(env, code, nsub), m);
      out.Done? ||
      (out.Running? && GroupsFlagged(code0, out.st) &&
       Refines(World(code0, env, nsub), out.st, AllVisits(e, code0, env.s, env.start)))
  {
    hide Compiled, Step, Steps, Related, PlayOf, Inv, Rest, AllVisits, Refines, GroupsFlagged, PointFlagged;
    AlwaysFlagged(e, code0, nsub, env, code, n);
    EntryInv(e, code0, nsub, env, code);
    var w, st, all := World(code0, env, nsub), Entry(env, code, nsub), AllVisits(e, code0, env.s, env.start);
    EntryRest(e, w);
    assert [] + all == all;
    m := NextTurn(w, st, Do(e, Halt), 1, [], [], all, n);
    var out := Steps(env, st, m);
    if out.Running? { TurnFlags(e, w, out.st, all); }
  }
}
