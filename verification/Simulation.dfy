/** Every run of the matcher plays out the work it stands for.

    From any state that stands for pending work the run ends, and what it returns
    is the answer to the ends still to come, unless its stack runs out of room. */
module Simulation {
  import opened Octets
  import opened RegexLang
  import opened Backtrack
  import opened Bytecode
  import opened Machine
  import opened Rewriting
  import opened Invariant
  import opened InvariantFacts
  import opened Plays
  import opened FailureStack
  import opened Commands
  import opened Moves

  /** The move for the work at hand. */
  lemma Advance(w: World, st: VState, k: Kont, b: nat, abs: seq<Abs>) returns (mv: Move)
    requires Inv(w, st, k, b, abs)
    ensures GoodMove(w, st, k, abs, mv)
  {
    hide Fetch, Step, Reps, PlayOf, GoodMove, StackOk, NumberedK, Flags, Related, Boundary, LaidOut, LoopAt;
    if !Direct(w.code0, st.p, k) {
      mv := PastAltMove(w, st, k, b, abs);
    } else {
      match k {
        case Halt => mv := HaltMove(w, st, b, abs);
        case Again(e, k') =>
          if e.body.Group? { mv := AgainGroupMove(w, st, e, k', b, abs); }
          else { mv := AgainByteMove(w, st, e, k', b, abs); }
        case Close(reg, start, k') =>
          if Fetch(w.code0, st.p).PushDummyFailure? { mv := DummyMove(w, st, k, b, abs); }
          else { mv := CloseMove(w, st, reg, start, k', b, abs); }
        case Loop(e, start, k') =>
          if Fetch(w.code0, st.p).PushDummyFailure? { mv := DummyMove(w, st, k, b, abs); }
          else { mv := LoopMove(w, st, e, start, k', b, abs); }
        case Do(e, k') => mv := AdvanceDo(w, st, e, k', b, abs);
      }
    }
  }

  lemma AdvanceDo(w: World, st: VState, e: Re, k: Kont, b: nat, abs: seq<Abs>) returns (mv: Move)
    requires Inv(w, st, Do(e, k), b, abs) && Direct(w.code0, st.p, Do(e, k))
    ensures GoodMove(w, st, Do(e, k), abs, mv)
  {
    hide Fetch, Step, Reps, PlayOf, GoodMove, StackOk, NumberedK, Flags, Related, Boundary, LaidOut, LoopAt, Direct;
    match e {
      case Alt(_, _) => mv := AltMove(w, st, e, k, b, abs);
      case Group(_, _, _) => mv := GroupMove(w, st, e, k, b, abs);
      case Repeat(Opt, _) => mv := OptMove(w, st, e, k, b, abs);
      case Repeat(Star, _) => mv := ReadMove(w, st, e, k, b, abs);
      case Repeat(Plus, body) =>
        if body.Group? { mv := PlusGroupMove(w, st, e, k, b, abs); }
        else { mv := PlusByteMove(w, st, e, k, b, abs); }
      case Empty => mv := ReadMove(w, st, e, k, b, abs);
      case Cat(_, _) => mv := ReadMove(w, st, e, k, b, abs);
      case _ => mv := LeafMove(w, st, e, k, b, abs);
    }
  }

  /** What is put aside last and is not a dummy comes next. */
  lemma {:induction false} ResumeAt(w: World, abs: seq<Abs>, m: nat)
    requires m < |abs| && abs[m].Point? && abs[m].d <= |w.env.s.text|
    requires forall i | m < i < |abs| :: abs[i] == Blank
    ensures var a := abs[m];
      && Resume(PlaysOf(w, abs), |w.env.s.text|) == Rest(w, a.p, a.k, a.d, abs[..m])
      && Left(w, a.p, a.k, a.d, abs[..m]) <= Load(PlaysOf(w, abs))
    decreases |abs|
  {
    hide PlayOf;
    var top := |abs| - 1;
    PlaysCut(w, abs, top);
    if m < top {
      ResumeAt(w, abs[..top], m);
      assert abs[..top][..m] == abs[..m];
    }
  }

  lemma {:induction false} ResumeNone(w: World, abs: seq<Abs>)
    requires forall i | 0 <= i < |abs| :: abs[i] == Blank
    ensures Resume(PlaysOf(w, abs), |w.env.s.text|) == []
    decreases |abs|
  {
    if |abs| > 0 {
      var top := |abs| - 1;
      PlaysCut(w, abs, top);
      ResumeNone(w, abs[..top]);
    }
  }

  lemma StartInRange(w: World, st: VState, k: Kont, b: nat, abs: seq<Abs>)
    requires Inv(w, st, k, b, abs)
    ensures st.p <= |w.code0| && w.env.start <= st.d <= |w.env.s.text|
  {
    RepsStarts(w.code0, st.p, k);
  }

  /** What a run must return, given the best match so far and the ends to come. */
  ghost predicate Right(w: World, best: Best, v: seq<Visit>, out: Status) {
    && out.Done? && Related(w.code0, out.code)
    && (out.result == OVERFLOW || out.result == Answer(w.env.start, |w.env.s.text|, best, v))
  }

  /** From a state that stands for `k` and a stack that stands for `abs`, the
      matcher stops, and stops right. */
  lemma {:induction false} Run(w: World, st: VState, k: Kont, b: nat, abs: seq<Abs>) returns (n: nat, out: Status)
    requires Inv(w, st, k, b, abs)
    ensures st.d <= |w.env.s.text|
    ensures Steps(w.env, st, n) == out && Right(w, BestIn(st), Rest(w, st.p, k, st.d, abs), out)
    decreases if st.d <= |w.env.s.text| then Left(w, st.p, k, st.d, abs) else 0,
      |w.env.s.text| - st.d, Weight(k, st.d), |w.code0| - st.p
  {
    hide Step, Steps, PlayOf, Inv, PlaysOf, StackOk, Related, Rest;
    StartInRange(w, st, k, b, abs);
    var mv := Advance(w, st, k, b, abs);
    match mv
    case Ends(o) =>
      OneStep(w.env, st);
      n, out := 1, o;
    case To(m, st', k', b', abs') =>
      StartInRange(w, st', k', b', abs');
      n, out := Run(w, st', k', b', abs');
      StepsAdd(w.env, st, m, st', n);
      n := m + n;
    case Fails(m, st1, st', abs', seen) =>
      n, out := RunFailing(w, st1, st', abs');
      StepsAdd(w.env, st, m, st1, n);
      AnswerAfter(w.env.start, |w.env.s.text|, BestIn(st), seen, Resume(PlaysOf(w, abs'), |w.env.s.text|));
      n := m + n;
  }

  /** After failing, the run goes on from the newest failure point. */
  lemma {:induction false} RunFailing(w: World, st0: VState, st: VState, abs: seq<Abs>) returns (n: nat, out: Status)
    requires CanFail(w, st, abs) && Step(w.env, st0) == Fail(w.env, st)
    ensures Steps(w.env, st0, n) == out
    ensures Right(w, BestIn(st), Resume(PlaysOf(w, abs), |w.env.s.text|), out)
    decreases Load(PlaysOf(w, abs)), |w.env.s.text| + 1
  {
    hide Step, Steps, Fail, PlayOf, Inv, StackOk, Related, PlaysOf, Rest;
    var m := FailResumes(w, st, abs);
    OneStep(w.env, st0);
    if Fail(w.env, st).Done? {
      ResumeNone(w, abs);
      n, out := 1, Step(w.env, st0);
    } else {
      var st', a := Fail(w.env, st).st, abs[m];
      StartInRange(w, st', a.k, a.b, abs[..m]);
      ResumeAt(w, abs, m);
      n, out := Run(w, st', a.k, a.b, abs[..m]);
      StepsAdd(w.env, st0, 1, st', n);
      n := 1 + n;
    }
  }
}
