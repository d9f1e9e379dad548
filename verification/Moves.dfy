/** One move of the matcher for each kind of pending work.

    A move is a few steps of the machine after which the invariant holds for work
    that is smaller, or a failure, or the end of the run.  It comes to no end of the
    pattern that the work does not come to, and misses none: what is left to visit
    after a move is what was left before, but for an end just seen. */
module Moves {
  import opened Octets
  import opened RegexLang
  import opened Backtrack
  import opened Bytecode
  import opened Machine
  import opened Rewriting
  import opened Invariant
  import opened InvariantFacts
  import opened Plays
  import opened Choices
  import opened FailureStack
  import opened Commands

  /** The play a failure point stands for. */
  ghost function AbsPlay(w: World, a: Abs): Play {
    if a.Point? && a.d <= |w.env.s.text| then PlayOf(w.code0, w.env.s, a.p, a.k, a.d) else Dead
  }

  ghost function PlaysOf(w: World, abs: seq<Abs>): (r: seq<Play>)
    ensures |r| == |abs|
  {
    seq(|abs|, i requires 0 <= i < |abs| => AbsPlay(w, abs[i]))
  }

  /** The work at hand, as a play. */
  ghost function Here(w: World, p: nat, k: Kont, d: nat): Play
    requires d <= |w.env.s.text|
  {
    PlayOf(w.code0, w.env.s, p, k, d)
  }

  /** The ends still to come. */
  ghost function Rest(w: World, p: nat, k: Kont, d: nat, abs: seq<Abs>): seq<Visit>
    requires d <= |w.env.s.text|
  {
    Visits(Here(w, p, k, d), PlaysOf(w, abs), |w.env.s.text|)
  }

  function BestIn(st: VState): Best {
    if st.hasBest then Best(st.best) else NoBest
  }

  lemma PlaysPush(w: World, abs: seq<Abs>, a: Abs)
    ensures PlaysOf(w, abs + [a]) == PlaysOf(w, abs) + [AbsPlay(w, a)]
    ensures Load(PlaysOf(w, abs + [a])) == Load(PlaysOf(w, abs)) + PlaySize(AbsPlay(w, a))
  {
    hide AbsPlay;
    LoadPush(PlaysOf(w, abs), AbsPlay(w, a));
    assert PlaysOf(w, abs + [a]) == PlaysOf(w, abs) + [AbsPlay(w, a)];
  }

  lemma PlaysCut(w: World, abs: seq<Abs>, m: nat)
    requires m <= |abs|
    ensures PlaysOf(w, abs[..m]) == PlaysOf(w, abs)[..m]
  {
    hide AbsPlay;
  }

  lemma StackPush(w: World, stack: seq<FailPoint>, abs: seq<Abs>, fp: FailPoint, a: Abs)
    requires StackOk(w, stack, abs) && PointOk(w, fp, a, |stack|)
    ensures StackOk(w, stack + [fp], abs + [a])
  {
    hide PointOk;
    assert forall i | 0 <= i < |abs| :: (abs + [a])[i] == abs[i];
    assert (abs + [a])[|abs|] == a;
  }

  datatype Move =
    | Ends(out: Status)
    | To(n: nat, st: VState, k: Kont, b: nat, abs: seq<Abs>)
    | Fails(n: nat, at: VState, st: VState, abs: seq<Abs>, seen: seq<Visit>)

  ghost function Left(w: World, p: nat, k: Kont, d: nat, abs: seq<Abs>): nat
    requires d <= |w.env.s.text|
  {
    PlaySize(Here(w, p, k, d)) + Load(PlaysOf(w, abs))
  }

  ghost predicate Smaller(w: World, p: nat, k: Kont, d: nat, abs: seq<Abs>,
                          p': nat, k': Kont, d': nat, abs': seq<Abs>)
    requires d <= |w.env.s.text| && d' <= |w.env.s.text|
  {
    var m, m' := Left(w, p, k, d, abs), Left(w, p', k', d', abs');
    m' < m || (m' == m && (d' > d || (d' == d && (Weight(k', d) < Weight(k, d) ||
      (Weight(k', d) == Weight(k, d) && p < p' <= |w.code0|)))))
  }

  ghost predicate GoodMove(w: World, st: VState, k: Kont, abs: seq<Abs>, mv: Move)
    requires st.d <= |w.env.s.text|
  {
    var rest := Rest(w, st.p, k, st.d, abs);
    match mv
    case Ends(out) =>
      && Step(w.env, st) == out && out.Done? && Related(w.code0, out.code)
      && (out.result == OVERFLOW || out.result == Answer(w.env.start, |w.env.s.text|, BestIn(st), rest))
    case To(n, st', k', b', abs') =>
      && n <= 3 && Steps(w.env, st, n) == Running(st') && Inv(w, st', k', b', abs')
      && BestIn(st') == BestIn(st)
      && Smaller(w, st.p, k, st.d, abs, st'.p, k', st'.d, abs')
      && Rest(w, st'.p, k', st'.d, abs') == rest
    case Fails(n, st1, st', abs', seen) =>
      && n <= 3 && Steps(w.env, st, n) == Running(st1) && Step(w.env, st1) == Fail(w.env, st')
      && CanFail(w, st', abs') && Load(PlaysOf(w, abs')) < Left(w, st.p, k, st.d, abs)
      && Passing(seen, |w.env.s.text|) && BestIn(st') == BestOf(BestIn(st), seen)
      && rest == seen + Resume(PlaysOf(w, abs'), |w.env.s.text|)
  }

  /** A step in front of a run. */
  lemma OneMore(env: Env, st: VState, st': VState, n: nat)
    requires Step(env, st) == Running(st')
    ensures Steps(env, st, n + 1) == Steps(env, st', n)
  {
    hide Step;
  }

  lemma OneStep(env: Env, st: VState)
    ensures Steps(env, st, 1) == Step(env, st)
  {
    hide Step;
  }

  lemma NoSteps(env: Env, st: VState)
    ensures Steps(env, st, 0) == Running(st)
  {}

  lemma InvInside(w: World, st: VState, k: Kont, b: nat, abs: seq<Abs>)
    requires Inv(w, st, k, b, abs)
    ensures w.env.start <= st.d <= |w.env.s.text| && Related(w.code0, st.code)
  {
    hide Related, Reps, StackOk, Whole;
  }
  lemma InvValid(w: World, st: VState, k: Kont, b: nat, abs: seq<Abs>)
    requires Inv(w, st, k, b, abs)
    ensures ValidWorld(w) && RangeOk(st)
  {
    hide Related, Reps, StackOk, Whole, Flags, FitK, NumberedK;
  }

  lemma InvReps(w: World, st: VState, k: Kont, b: nat, abs: seq<Abs>)
    requires Inv(w, st, k, b, abs)
    ensures Reps(w.code0, st.p, k) && Starts(w.code0, st.p)
  {
    hide Related, Reps, StackOk, Whole, Starts;
    RepsStarts(w.code0, st.p, k);
  }
  /** A move that leads on, with the same ends still to come. */
  lemma LeadsTo(w: World, st: VState, k: Kont, abs: seq<Abs>, n: nat, st': VState, k': Kont, b': nat, abs': seq<Abs>)
    returns (mv: Move)
    requires st.d <= |w.env.s.text| && st'.d <= |w.env.s.text|
    requires n <= 3 && Steps(w.env, st, n) == Running(st') && Inv(w, st', k', b', abs') && BestIn(st') == BestIn(st)
    requires Smaller(w, st.p, k, st.d, abs, st'.p, k', st'.d, abs')
    requires Rest(w, st'.p, k', st'.d, abs') == Rest(w, st.p, k, st.d, abs)
    ensures GoodMove(w, st, k, abs, mv)
  {
    hide Step, Steps, Inv, Smaller, Rest;
    mv := To(n, st', k', b', abs');
  }

  /** The first of two choices taken, the second put aside or, when it is dropped
      again at once, not. */
  lemma TryTaken(w: World, p: nat, k: Kont, d: nat, abs: seq<Abs>, a: Abs, pop: bool, p': nat, k': Kont, d': nat)
    requires d <= |w.env.s.text| && d' <= |w.env.s.text|
    requires Here(w, p, k, d) == Try(Dropping(pop, Here(w, p', k', d')), AbsPlay(w, a))
    ensures var abs' := if pop then abs else abs + [a];
      && Smaller(w, p, k, d, abs, p', k', d', abs')
      && Rest(w, p', k', d', abs') == Rest(w, p, k, d, abs)
  {
    hide Here, PlaysOf, AbsPlay, Dropping, Visits, Load, PlaySize, Resume;
    PlaysPush(w, abs, a);
    TryTurn(pop, Here(w, p', k', d'), AbsPlay(w, a), PlaysOf(w, abs), |w.env.s.text|);
  }

  /** The first of two choices is dead after all. */
  lemma TryDead(w: World, st: VState, k: Kont, abs: seq<Abs>, a: Abs, st1: VState) returns (mv: Move)
    requires st.d <= |w.env.s.text| && Here(w, st.p, k, st.d) == Try(Dead, AbsPlay(w, a))
    requires Step(w.env, st) == Running(st1) && Step(w.env, st1) == Fail(w.env, st1)
    requires CanFail(w, st1, abs + [a]) && BestIn(st1) == BestIn(st)
    ensures GoodMove(w, st, k, abs, mv)
  {
    hide Step, Here, PlaysOf, AbsPlay, Fail, CanFail, Visits, Load, PlaySize, Resume;
    OneStep(w.env, st);
    PlaysPush(w, abs, a);
    TryTurn(false, Dead, AbsPlay(w, a), PlaysOf(w, abs), |w.env.s.text|);
    mv := Fails(1, st1, st1, abs + [a], []);
  }

  /** A dummy put on the stack. */
  lemma DummyPushed(w: World, st: VState, st1: VState, abs: seq<Abs>)
    requires CanFail(w, st, abs) && RangeOk(st)
    requires st1 == st.(p := st1.p, stack := st.stack + [FailPoint(true, 0, 0, st.low, st.high, Saved(st))])
    ensures CanFail(w, st1, abs + [Blank]) && BestIn(st1) == BestIn(st)
  {
    hide StackOk, Related, Saved;
    StackPush(w, st.stack, abs, FailPoint(true, 0, 0, st.low, st.high, Saved(st)), Blank);
  }

  // ----- moves that take no step, or only follow the code -----

  /** Skip the jump at the end of an alternative. */
  lemma PastAltMove(w: World, st: VState, k: Kont, b: nat, abs: seq<Abs>) returns (mv: Move)
    requires Inv(w, st, k, b, abs) && !Direct(w.code0, st.p, k)
    ensures GoodMove(w, st, k, abs, mv)
  {
    hide Fetch, Step, PlayOf, NumberedK, Flags, FitK, Direct, StackOk, Related, Starts, PlaysOf, Visits;
    var off := Fetch(w.code0, st.p).off;
    RepsStarts(w.code0, st.p, k);
    PastAltStep(w, st, off);
    var st' := st.(p := st.p + 3 + off);
    OneStep(w.env, st);
    RepsStarts(w.code0, st'.p, k);
    StartAtMost(w.code0, st'.p);
    HopPlay(w.code0, w.env.s, st.p, k, st.d);
    mv := To(1, st', k, b, abs);
  }

  lemma HopPlay(code: seq<byte>, s: Subject, p: nat, k: Kont, d: nat)
    requires d <= |s.text| && Hops(code, p, k)
    ensures PlayOf(code, s, p, k, d) == PlayOf(code, s, p + 3 + Fetch(code, p).off, k, d)
  {
    hide Fetch, Direct;
  }

  lemma RepsStarts(code: seq<byte>, p: nat, k: Kont)
    requires Reps(code, p, k)
    ensures Starts(code, p)
  {}

  /** End of the pattern. */
  lemma HaltMove(w: World, st: VState, b: nat, abs: seq<Abs>) returns (mv: Move)
    requires Inv(w, st, Halt, b, abs) && st.p == |w.code0|
    ensures GoodMove(w, st, Halt, abs, mv)
  {
    hide Fetch, NumberedK, Flags, Reps, Fail, Starts, AbsPlay, PointOk;
    var size := |w.env.s.text|;
    assert Here(w, st.p, Halt, st.d) == End(st.d);
    NoSteps(w.env, st);
    SameLength(w.code0, st.code);
    if st.d != size && |st.stack| > 0 {
      var st' := if !st.hasBest || st.d > st.best then st.(hasBest := true, best := st.d) else st;
      var seen := [Visit(st.d, |abs|)];
      assert seen[1..] == [] && BestOf(BestIn(st), seen) == Better(BestIn(st), st.d);
      mv := Fails(0, st, st', abs, seen);
    } else {
      mv := Ends(Step(w.env, st));
    }
  }

  /** Consuming a leaf keeps registers and flags in step with the position. */
  lemma LeafKeeps(w: World, st: VState, e: Re, k: Kont, b: nat)
    requires Located(w, st.p, Do(e, k), st.d, b, st.low, st.high, st.info) && Leaf(e) && w.nsub <= 255
    requires Direct(w.code0, st.p, Do(e, k)) && LeafEnd(w.env.s, e, st.d) >= 0
    ensures RangeOk(st)
    ensures var st' := AfterLeaf(st, e, LeafEnd(w.env.s, e, st.d));
      && Located(w, st'.p, k, st'.d, b, st'.low, st'.high, st'.info)
      && st' == st.(p := st'.p, d := st'.d, info := st'.info)
  {
    hide Fetch, Boundary, LaidOut, Reps;
    var end := LeafEnd(w.env.s, e, st.d);
    if !e.Bol? && !e.Eol? {
      FlagsConsume(k, st.d, st, end - st.d);
    }
  }

  lemma LeafInside(code: seq<byte>, p: nat, e: Re, k: Kont)
    requires Direct(code, p, Do(e, k)) && Leaf(e)
    ensures p < |code|
  {}

  lemma LeafPlay(code: seq<byte>, s: Subject, p: nat, e: Re, k: Kont, d: nat)
    requires d <= |s.text| && Direct(code, p, Do(e, k)) && Leaf(e)
    ensures LeafEnd(s, e, d) <= |s.text|
    ensures PlayOf(code, s, p, Do(e, k), d) ==
            if LeafEnd(s, e, d) < 0 then Dead else PlayOf(code, s, p + Len(e), k, LeafEnd(s, e, d))
  {
    hide Fetch, Direct;
    LeafEndBounds(s, e, d);
  }

  /** A literal, a set, `.` or an anchor. */
  lemma LeafMove(w: World, st: VState, e: Re, k: Kont, b: nat, abs: seq<Abs>) returns (mv: Move)
    requires Inv(w, st, Do(e, k), b, abs) && Direct(w.code0, st.p, Do(e, k)) && Leaf(e)
    ensures GoodMove(w, st, Do(e, k), abs, mv)
  {
    hide Fetch, Fail, Step, StackOk, Boundary, SetMatched, Reps, NumberedK, Flags, PlayOf, PlaysOf;
    InvCanFail(w, st, Do(e, k), b, abs);
    RepsStarts(w.code0, st.p, Do(e, k));
    LeafStep(w.code0, w.env, st, e);
    LeafPlay(w.code0, w.env.s, st.p, e, k, st.d);
    LeafEndBounds(w.env.s, e, st.d);
    LeafInside(w.code0, st.p, e, k);
    SameLength(w.code0, st.code);
    NoSteps(w.env, st);
    OneStep(w.env, st);
    if LeafEnd(w.env.s, e, st.d) < 0 {
      mv := Fails(0, st, st, abs, []);
    } else {
      LeafKeeps(w, st, e, k, b);
      var st' := AfterLeaf(st, e, LeafEnd(w.env.s, e, st.d));
      mv := To(1, st', k, b, abs);
    }
  }

  /** An empty branch, a concatenation, or a loop about to be entered. */
  lemma ReadMove(w: World, st: VState, e: Re, k: Kont, b: nat, abs: seq<Abs>) returns (mv: Move)
    requires Inv(w, st, Do(e, k), b, abs) && Direct(w.code0, st.p, Do(e, k))
    requires e.Empty? || e.Cat? || (e.Repeat? && e.op.Star?)
    ensures GoodMove(w, st, Do(e, k), abs, mv)
  {
    hide Inv, GoodMove, Direct, PlayOf, DoPlay, Related;
    InvInside(w, st, Do(e, k), b, abs);
    DoPlayed(w.code0, w.env.s, st.p, e, k, st.d);
    match e
    case Empty =>
      EmptyInv(w, st, k, b, abs);
      mv := ReadsOn(w, st, Do(e, k), abs, k, b);
    case Cat(l, r) =>
      CatInv(w, st, l, r, k, b, abs);
      assert Weight(Do(r, k), st.d) == Size(r) + Weight(k, st.d);
      mv := ReadsOn(w, st, Do(e, k), abs, Do(l, Do(r, k)), b);
    case Repeat(op, body) =>
      StarInv(w, st, e, k, b, abs);
      StarPlay(w.code0, w.env.s, st.p, e, k, st.d);
      mv := ReadsOn(w, st, Do(e, k), abs, Again(e, k), b);
  }

  /** A move that takes no step: the same play, with less left to read. */
  lemma ReadsOn(w: World, st: VState, k: Kont, abs: seq<Abs>, k': Kont, b': nat) returns (mv: Move)
    requires st.d <= |w.env.s.text| && Inv(w, st, k', b', abs) && Weight(k', st.d) < Weight(k, st.d)
    requires Here(w, st.p, k', st.d) == Here(w, st.p, k, st.d)
    ensures GoodMove(w, st, k, abs, mv)
  {
    hide Inv, GoodMove, Here, PlaysOf, Visits, Load, PlaySize, Weight, Steps, Step;
    NoSteps(w.env, st);
    mv := LeadsTo(w, st, k, abs, 0, st, k', b', abs);
  }

  lemma EmptyInv(w: World, st: VState, k: Kont, b: nat, abs: seq<Abs>)
    requires Inv(w, st, Do(Empty, k), b, abs) && Direct(w.code0, st.p, Do(Empty, k))
    ensures Inv(w, st, k, b, abs)
  {
    hide Fetch, StackOk, Boundary, Starts, Related, Whole;
  }

  lemma CatInv(w: World, st: VState, l: Re, r: Re, k: Kont, b: nat, abs: seq<Abs>)
    requires Inv(w, st, Do(Cat(l, r), k), b, abs) && Direct(w.code0, st.p, Do(Cat(l, r), k))
    ensures Inv(w, st, Do(l, Do(r, k)), b, abs)
  {
    hide StackOk, Starts, Related, Whole, Reps, NumberedK, LaidOut;
    InvReps(w, st, Do(Cat(l, r), k), b, abs);
    RepsCat(w.code0, st.p, l, r, k);
    CatNumbered(l, r, k, b, w.nsub);
    CatParts(l, r, k, st.d, st.low, st.high, st.info);
  }

  lemma CatParts(l: Re, r: Re, k: Kont, d: nat, low: nat, high: nat, info: seq<RegInfo>)
    ensures FitK(Do(Cat(l, r), k)) ==> FitK(Do(l, Do(r, k)))
    ensures NoFrames(Do(l, Do(r, k))) == NoFrames(Do(Cat(l, r), k))
    ensures Loops(Do(l, Do(r, k))) == Loops(Do(Cat(l, r), k))
    ensures Flags(Do(l, Do(r, k)), d, low, high, info) == Flags(Do(Cat(l, r), k), d, low, high, info)
  {
    assert FitK(Do(r, k)) == (Fit(r) && FitK(k));
    assert NoFrames(Do(r, k)) == NoFrames(k) && Loops(Do(r, k)) == Loops(k);
    assert Flags(Do(r, k), d, low, high, info) == Flags(k, d, low, high, info);
  }

  lemma StarInv(w: World, st: VState, e: Re, k: Kont, b: nat, abs: seq<Abs>)
    requires Inv(w, st, Do(e, k), b, abs) && Direct(w.code0, st.p, Do(e, k)) && e.Repeat? && e.op.Star?
    ensures Inv(w, st, Again(e, k), b, abs) && Direct(w.code0, st.p, Again(e, k))
  {
    hide Fetch, StackOk, Boundary, Starts, Related, LoopAt, Whole;
    InvReps(w, st, Do(e, k), b, abs);
    assert Direct(w.code0, st.p, Again(e, k));
  }

  lemma StarPlay(code: seq<byte>, s: Subject, p: nat, e: Re, k: Kont, d: nat)
    requires d <= |s.text| && Direct(code, p, Do(e, k)) && e.Repeat? && e.op.Star?
    ensures PlayOf(code, s, p, Do(e, k), d) == PlayOf(code, s, p, Again(e, k), d)
  {
    hide Fetch, Direct;
  }

  lemma CatNumbered(l: Re, r: Re, k: Kont, b: nat, nsub: nat)
    requires NumberedK(Do(Cat(l, r), k), b, nsub)
    ensures NumberedK(Do(l, Do(r, k)), b, nsub)
  {
    AfterGrows(l, b);
    FramesBelowMore(k, b, After(l, b));
    assert NumberedK(Do(r, k), After(l, b), nsub);
  }

  // ----- moves that push a failure point -----

  /** `k2` is `k` itself or one more thing to do before it. */
  ghost predicate Tail(k2: Kont, k: Kont) {
    k2 == k || (k2.Do? && k2.k == k)
  }

  /** A failure jump in front of `k`, with `k2` to do on failure. */
  ghost predicate CanChoose(w: World, st: VState, k: Kont, b: nat, k2: Kont, b2: nat, off: nat, abs: seq<Abs>) {
    && CanFail(w, st, abs) && w.env.start <= st.d <= |w.env.s.text|
    && Starts(w.code0, st.p) && Fetch(w.code0, st.p) == OnFailureJump(off)
    && RangeBase(st.low, st.high, w.nsub) && Flags(k, st.d, st.low, st.high, st.info)
    && FramesBelow(k, b) && 1 <= b <= b2 && Loops(k) <= |st.stack|
    && (NoFrames(k) ==> st.low == NO_LOWEST_ACTIVE_REG || st.low <= b)
    && Tail(k2, k) && Reps(w.code0, st.p + 3 + off, k2) && FitK(k2) && NumberedK(k2, b2, w.nsub)
    && (Fetch(w.code0, st.p + 3).StartMemory? ==>
          var i := Fetch(w.code0, st.p + 3); b <= i.reg && i.reg + i.inner < b2)
  }

  /** The state after the failure jump. */
  ghost predicate Chosen(w: World, st: VState, st1: VState, k: Kont, b: nat, k2: Kont, b2: nat, off: nat,
                         abs: seq<Abs>)
  {
    && st1 == st.(p := st.p + 3, stack := st1.stack, low := st1.low, high := st1.high)
    && |st1.stack| == |st.stack| + 1
    && StackOk(w, st1.stack, abs + [Point(st.p + 3 + off, k2, st.d, b2)])
    && RangeBase(st1.low, st1.high, w.nsub) && Flags(k, st.d, st1.low, st1.high, st1.info)
    && (NoFrames(k) ==>
          (st1.low == NO_LOWEST_ACTIVE_REG || st1.low <= b ||
           (Fetch(w.code0, st.p + 3).StartMemory? && st1.low == Fetch(w.code0, st.p + 3).reg)))
  }

  lemma Choose(w: World, st: VState, k: Kont, b: nat, k2: Kont, b2: nat, off: nat, abs: seq<Abs>)
    returns (st1: VState)
    requires CanChoose(w, st, k, b, k2, b2, off, abs)
    ensures Step(w.env, st) == Done(OVERFLOW, st.code) ||
            (Step(w.env, st) == Running(st1) && Chosen(w, st, st1, k, b, k2, b2, off, abs))
  {
    hide Fetch, Step, Reps, FitK, Starts, Related, NumberedK, FramesBelow, PointOk, StackOk, Flags, Loops, Saved;
    var next := Fetch(w.code0, st.p + 3);
    NumberedKBound(k2, b2, w.nsub);
    if next.StartMemory? { FramesBelowMore(k, b, next.reg); }
    WidenedOk(w, st, k, b);
    OnFailureStep(w, st, off);
    var st' := Widened(w.code0, st);
    var fp := FailPoint(false, st.p + 3 + off, st.d, st'.low, st'.high, Saved(st'));
    st1 := st'.(p := st.p + 3, stack := st.stack + [fp]);
    TailSame(k2, k, st.d, st'.low, st'.high, st.info);
    PushedPointOk(w, st', st.p + 3 + off, k2, b2, |st.stack|);
    StackPush(w, st.stack, abs, fp, Point(st.p + 3 + off, k2, st.d, b2));
  }

  lemma TailSame(k2: Kont, k: Kont, d: nat, low: nat, high: nat, info: seq<RegInfo>)
    requires Tail(k2, k)
    ensures Flags(k2, d, low, high, info) == Flags(k, d, low, high, info)
    ensures NoFrames(k2) == NoFrames(k) && Loops(k2) == Loops(k)
  {}

  /** The failure stack ran out of room. */
  lemma OverflowMove(w: World, st: VState, k: Kont, abs: seq<Abs>) returns (mv: Move)
    requires st.d <= |w.env.s.text| && Related(w.code0, st.code)
    requires Step(w.env, st) == Done(OVERFLOW, st.code)
    ensures GoodMove(w, st, k, abs, mv)
  {
    hide Step, Related;
    mv := Ends(Step(w.env, st));
  }

  /** The jump at the end of an alternative leads to what follows them all. */
  lemma {:induction false} PastAltReps(code: seq<byte>, q: nat, r: Re, k: Kont)
    requires Starts(code, q) && LaidOut(r, code, q) && Reps(code, q + Len(r), k)
    ensures Reps(code, q + PastAlt(r), k)
    decreases r
  {
    hide Fetch, Boundary, Starts, Reps, LaidOut;
    if r.Alt? {
      AltStarts(r, code, q);
      AltParts(code, q, r);
      assert q + Len(r) == (q + 6 + Len(r.l)) + Len(r.r);
      PastAltReps(code, q + 6 + Len(r.l), r.r, k);
      PastAltHop(code, q + 3 + Len(r.l), PastAlt(r.r), k);
      assert q + PastAlt(r) == q + 3 + Len(r.l);
    }
  }

  lemma PastAltHop(code: seq<byte>, p: nat, off: nat, k: Kont)
    requires Starts(code, p) && Fetch(code, p) == JumpPastAlt(off) && Reps(code, p + 3 + off, k)
    ensures Reps(code, p, k)
  {
    hide Fetch, Boundary, Direct;
    StartBound(code, p, p + 3 + off, k);
  }

  lemma StartBound(code: seq<byte>, p: nat, q: nat, k: Kont)
    requires Starts(code, p) && Reps(code, q, k)
    ensures p <= |code| && q <= |code|
  {
    hide Fetch, Boundary, Direct;
  }

  lemma AltReps(code: seq<byte>, p: nat, e: Re, k: Kont)
    requires e.Alt? && Starts(code, p) && LaidOut(e, code, p) && Reps(code, p + Len(e), k)
    ensures Reps(code, p + 3, Do(e.l, k)) && Reps(code, p + 6 + Len(e.l), Do(e.r, k))
  {
    hide Fetch, Boundary, Starts, LaidOut, Direct, Reps, PastAlt;
    AltStarts(e, code, p);
    AltParts(code, p, e);
    assert p + Len(e) == (p + 6 + Len(e.l)) + Len(e.r);
    PastAltReps(code, p + 6 + Len(e.l), e.r, k);
    DoReps(code, p + 6 + Len(e.l), e.r, k);
    PastAltHop(code, p + 3 + Len(e.l), PastAlt(e.r), k);
    DoReps(code, p + 3, e.l, k);
  }

  lemma DoReps(code: seq<byte>, p: nat, e: Re, k: Kont)
    requires Starts(code, p) && LaidOut(e, code, p) && Reps(code, p + Len(e), k)
    ensures Reps(code, p, Do(e, k))
  {
    hide Fetch, Boundary, Starts, LaidOut;
    assert Direct(code, p, Do(e, k));
  }

  /** Group numbers on the two sides of an alternation, from the failure jump on. */
  lemma AltNumbers(w: World, p: nat, e: Re, k: Kont, b: nat) returns (b1: nat)
    requires e.Alt? && Whole(w.code0) && Starts(w.code0, p) && LaidOut(e, w.code0, p)
    requires NumberedK(Do(e, k), b, w.nsub)
    ensures b <= After(e.l, b) && NumberedK(Do(e.r, k), After(e.l, b), w.nsub)
    ensures b <= b1 && NumberedK(Do(e.l, k), b1, w.nsub)
    ensures var i := Fetch(w.code0, p + 3);
      if i.StartMemory? then b1 == i.reg && i.reg + i.inner < After(e.l, b) else b1 == b
  {
    hide Fetch, Boundary, Starts, LaidOut;
    AltParts(w.code0, p, e);
    var l, r := e.l, e.r;
    AfterGrows(l, b);
    AfterGrows(r, After(l, b));
    FramesBelowMore(k, b, After(l, b));
    NumberedKLower(k, After(e, b), After(l, b), w.nsub);
    b1 := b;
    var i := Fetch(w.code0, p + 3);
    if i.StartMemory? {
      assert Len(l) > 0;
      HeadStart(l, w.code0, p + 3, b);
      b1 := i.reg;
      FramesBelowMore(k, b, b1);
    }
  }

  /** After a failure jump the first choice is at hand and the second remembered. */
  lemma ForkMove(w: World, st: VState, st1: VState, k: Kont, kt: Kont, b: nat, k1: Kont, b1: nat, k2: Kont, b2: nat,
                 off: nat, abs: seq<Abs>) returns (mv: Move)
    requires Inv(w, st, k, b, abs) && CanFail(w, st, abs)
    requires Step(w.env, st) == Running(st1) && Chosen(w, st, st1, kt, b, k2, b2, off, abs)
    requires Here(w, st.p, k, st.d) == Try(Here(w, st.p + 3, k1, st.d), Here(w, st.p + 3 + off, k2, st.d))
    requires Reps(w.code0, st.p + 3, k1) && FitK(k1) && NumberedK(k1, b1, w.nsub) && b <= b1
    requires Tail(k1, kt) && Loops(kt) <= |st.stack|
    requires Fetch(w.code0, st.p + 3).StartMemory? ==> b1 == Fetch(w.code0, st.p + 3).reg
    ensures GoodMove(w, st, k, abs, mv)
  {
    hide Fetch, Step, Reps, StackOk, Starts, Related, RangeOk, PlayOf, PlaysOf, NumberedK, Flags, FitK;
    var a := Point(st.p + 3 + off, k2, st.d, b2);
    OneStep(w.env, st);
    PlaysPush(w, abs, a);
    TailSame(k1, kt, st.d, st1.low, st1.high, st1.info);
    mv := To(1, st1, k1, b1, abs + [a]);
  }

  /** An alternation. */
  lemma AltMove(w: World, st: VState, e: Re, k: Kont, b: nat, abs: seq<Abs>) returns (mv: Move)
    requires Inv(w, st, Do(e, k), b, abs) && Direct(w.code0, st.p, Do(e, k)) && e.Alt?
    ensures GoodMove(w, st, Do(e, k), abs, mv)
  {
    hide Fetch, Step, Reps, StackOk, Boundary, Starts, Related, RangeOk, PlayOf, GoodMove, LaidOut;
    RepsStarts(w.code0, st.p, Do(e, k));
    AltParts(w.code0, st.p, e);
    AltReps(w.code0, st.p, e, k);
    AltPlay(w.code0, w.env.s, st.p, e, k, st.d);
    var b1 := AltNumbers(w, st.p, e, k, b);
    var b2 := After(e.l, b);
    InvCanFail(w, st, Do(e, k), b, abs);
    var st1 := Choose(w, st, k, b, Do(e.r, k), b2, Len(e.l) + 3, abs);
    if Step(w.env, st).Done? {
      mv := OverflowMove(w, st, Do(e, k), abs);
    } else {
      mv := ForkMove(w, st, st1, Do(e, k), k, b, Do(e.l, k), b1, Do(e.r, k), b2, Len(e.l) + 3, abs);
    }
  }

  lemma AltPlay(code: seq<byte>, s: Subject, p: nat, e: Re, k: Kont, d: nat)
    requires e.Alt? && d <= |s.text| && Direct(code, p, Do(e, k))
    ensures PlayOf(code, s, p, Do(e, k), d) ==
            Try(PlayOf(code, s, p + 3, Do(e.l, k), d), PlayOf(code, s, p + 6 + Len(e.l), Do(e.r, k), d))
  {
    hide Fetch, Direct;
  }

  /** An optional group or byte. */
  lemma OptMove(w: World, st: VState, e: Re, k: Kont, b: nat, abs: seq<Abs>) returns (mv: Move)
    requires Inv(w, st, Do(e, k), b, abs) && Direct(w.code0, st.p, Do(e, k))
    requires e.Repeat? && e.op.Opt?
    ensures GoodMove(w, st, Do(e, k), abs, mv)
  {
    hide Fetch, Step, Reps, StackOk, Boundary, Starts, Related, RangeOk, PlayOf, GoodMove;
    RepsStarts(w.code0, st.p, Do(e, k));
    OptReps(w.code0, st.p, e, k);
    OptPlay(w.code0, w.env.s, st.p, e, k, st.d);
    var b2 := After(e, b);
    var b1 := OptNumbers(w, st.p, e, k, b);
    InvCanFail(w, st, Do(e, k), b, abs);
    var st1 := Choose(w, st, k, b, k, b2, Len(e.body), abs);
    if Step(w.env, st).Done? {
      mv := OverflowMove(w, st, Do(e, k), abs);
    } else {
      mv := ForkMove(w, st, st1, Do(e, k), k, b, Do(e.body, k), b1, k, b2, Len(e.body), abs);
    }
  }

  lemma OptPlay(code: seq<byte>, s: Subject, p: nat, e: Re, k: Kont, d: nat)
    requires e.Repeat? && e.op.Opt? && d <= |s.text| && Direct(code, p, Do(e, k))
    ensures PlayOf(code, s, p, Do(e, k), d) ==
            Try(PlayOf(code, s, p + 3, Do(e.body, k), d), PlayOf(code, s, p + 3 + Len(e.body), k, d))
  {
    hide Fetch, Direct;
  }

  lemma OptReps(code: seq<byte>, p: nat, e: Re, k: Kont)
    requires e.Repeat? && e.op.Opt? && Starts(code, p) && LaidOut(e, code, p) && Reps(code, p + Len(e), k)
    ensures LaidOut(e.body, code, p + 3) && Reps(code, p + 3, Do(e.body, k))
  {
    hide Fetch, Boundary, Starts, Direct, Reps;
    StartsNext(code, p);
    assert p + Len(e) == (p + 3) + Len(e.body);
    DoReps(code, p + 3, e.body, k);
  }

  lemma OptNumbers(w: World, p: nat, e: Re, k: Kont, b: nat) returns (b1: nat)
    requires e.Repeat? && Fit(e) && LaidOut(e.body, w.code0, p + 3)
    requires NumberedK(Do(e, k), b, w.nsub)
    ensures b <= After(e, b) && b <= b1 && NumberedK(Do(e.body, k), b1, w.nsub)
    ensures var i := Fetch(w.code0, p + 3);
      if i.StartMemory? then b1 == i.reg && i.reg + i.inner < After(e, b) else b1 == b
  {
    hide Fetch, LaidOut;
    AfterGrows(e, b);
    b1 := b;
    var i := Fetch(w.code0, p + 3);
    if i.StartMemory? {
      assert Len(e.body) > 0;
      HeadStart(e.body, w.code0, p + 3, b);
      b1 := i.reg;
      FramesBelowMore(k, b, b1);
    }
  }

  // ----- groups and loops over groups -----

  lemma GroupNumbers(reg: nat, inner: nat, body: Re, d: nat, k: Kont, b: nat, nsub: nat)
    requires NumberedK(Do(Group(reg, inner, body), k), b, nsub) && b >= 1
    ensures 1 <= b <= reg && reg + inner <= nsub && FramesBelow(k, reg)
    ensures NumberedK(Do(body, Close(reg, d, k)), reg + 1, nsub)
  {
    FramesBelowMore(k, b, reg);
    NumberedKBound(k, reg + 1 + inner, nsub);
    var c := After(body, reg + 1);
    AfterGrows(body, reg + 1);
    FramesBelowMore(k, reg, c);
    FramesBelowMore(k, reg, reg + 1);
    NumberedKLower(k, reg + 1 + inner, c, nsub);
    assert NumberedK(Close(reg, d, k), c, nsub);
  }

  /** Entering a group. */
  lemma EnterGroup(w: World, st: VState, e: Re, k: Kont, b: nat, abs: seq<Abs>) returns (st': VState)
    requires Inv(w, st, Do(e, k), b, abs) && Direct(w.code0, st.p, Do(e, k)) && e.Group?
    ensures Step(w.env, st) == Running(st')
    ensures Located(w, st'.p, Do(e.body, Close(e.reg, st.d, k)), st.d, e.reg + 1, st'.low, st'.high, st'.info)
    ensures st' == st.(p := st.p + 3, info := st'.info, low := st'.low, high := st'.high)
  {
    hide Fetch, Step, Reps, StackOk, Boundary, Starts, Related, RangeOk, NumberedK, FitK, Flags, LaidOut;
    RepsStarts(w.code0, st.p, Do(e, k));
    GroupHead(w.code0, st.p, e, k);
    GroupNumbers(e.reg, e.inner, e.body, st.d, k, b, w.nsub);
    RepsClose(w.code0, st.p, e, st.d, k);
    FlagsOfDo(e, k, st.d, st.low, st.high, st.info);
    st' := StartStep(w, st, k, e.reg, e.inner);
    GroupFrame(e, k, st.d, st'.low, st'.high, st'.info);
  }

  lemma GroupHead(code: seq<byte>, p: nat, e: Re, k: Kont)
    requires e.Group? && Direct(code, p, Do(e, k))
    ensures LaidOut(e, code, p) && Reps(code, p + Len(e), k) && Fetch(code, p) == StartMemory(e.reg, e.inner)
    ensures e.reg < 256 && e.inner < 256
  {
    hide Fetch, Reps, Len;
    GroupParts(e, code, p);
  }

  lemma FlagsOfDo(e: Re, k: Kont, d: nat, low: nat, high: nat, info: seq<RegInfo>)
    ensures Flags(Do(e, k), d, low, high, info) == Flags(k, d, low, high, info)
  {}

  /** The frame of a group just entered. */
  lemma GroupFrame(e: Re, k: Kont, d: nat, low: nat, high: nat, info: seq<RegInfo>)
    requires e.Group? && FitK(Do(e, k)) && Flags(k, d, low, high, info)
    requires FrameFlags(e.reg, d, d, low, high, info)
    ensures var l := Do(e.body, Close(e.reg, d, k));
      FitK(l) && Flags(l, d, low, high, info) && !NoFrames(l)
  {
    var c := Close(e.reg, d, k);
    assert FitK(c) && Flags(c, d, low, high, info) && !NoFrames(c);
  }

  lemma InText(w: World, st: VState, k: Kont, b: nat, abs: seq<Abs>)
    requires Inv(w, st, k, b, abs)
    ensures st.d <= |w.env.s.text|
  {}

  lemma GroupMove(w: World, st: VState, e: Re, k: Kont, b: nat, abs: seq<Abs>) returns (mv: Move)
    requires Inv(w, st, Do(e, k), b, abs) && Direct(w.code0, st.p, Do(e, k)) && e.Group?
    ensures GoodMove(w, st, Do(e, k), abs, mv)
  {
    hide Fetch, Step, Reps, StackOk, Related, Located, Direct, PlayOf, PlaysOf, Visits;
    var st' := EnterGroup(w, st, e, k, b, abs);
    OneStep(w.env, st);
    InText(w, st, Do(e, k), b, abs);
    DoPlayed(w.code0, w.env.s, st.p, e, k, st.d);
    var c := Close(e.reg, st.d, k);
    assert Weight(c, st.d) == 1 + Weight(k, st.d) && Loops(c) == Loops(k);
    mv := To(1, st', Do(e.body, c), e.reg + 1, abs);
  }

  lemma LoopNumbers(e: Re, d: nat, k: Kont, b: nat, nsub: nat)
    requires IsGroupLoop(e) && NumberedK(Again(e, k), b, nsub) && b >= 1
    ensures b <= e.body.reg && e.body.reg + e.body.inner <= nsub && FramesBelow(k, e.body.reg)
    ensures e.body.reg + e.body.inner < After(e, b) && NumberedK(k, After(e, b), nsub)
    ensures NumberedK(Do(e.body.body, Loop(e, d, k)), e.body.reg + 1, nsub)
  {
    var reg, inner, body := e.body.reg, e.body.inner, e.body.body;
    assert Numbered(e.body, b);
    FramesBelowMore(k, b, reg);
    LoopAfter(e, b, reg);
    NumberedKBound(k, reg + 1 + inner, nsub);
    AfterGrows(body, reg + 1);
    var c := After(body, reg + 1);
    LoopAfter(e, b, c);
    FramesBelowMore(k, reg, c);
    FramesBelowMore(k, reg, reg + 1);
    assert Numbered(e.body, reg);
    assert NumberedK(Loop(e, d, k), c, nsub);
  }

  lemma LoopReps(code: seq<byte>, t: nat, e: Re, d: nat, k: Kont)
    requires IsGroupLoop(e) && Starts(code, t) && LoopAt(e.body, code, t) && Reps(code, t + Len(e.body) + 6, k)
    ensures Starts(code, t + 3) && e.body.reg < 256 && e.body.inner < 256
    ensures Fetch(code, t + 3) == StartMemory(e.body.reg, e.body.inner)
    ensures Reps(code, t + 6, Do(e.body.body, Loop(e, d, k)))
  {
    hide Fetch, Boundary, Starts, Direct, Reps, LoopAt, LaidOut;
    LoopStarts(e.body, code, t);
    LoopGroup(code, t, e);
    var q := t + 6 + Len(e.body.body);
    var stop := StopAddr(code, q);
    assert stop - Len(e.body) == t;
    assert stop + 6 == t + Len(e.body) + 6;
    LoopFrameReps(code, q, e, d, k);
    DoReps(code, t + 6, e.body.body, Loop(e, d, k));
  }

  /** The parts of a loop over a group. */
  lemma LoopGroup(code: seq<byte>, t: nat, e: Re)
    requires IsGroupLoop(e) && LoopAt(e.body, code, t) && Starts(code, t + 3)
    ensures e.body.reg < 256 && e.body.inner < 256 && LaidOut(e.body.body, code, t + 6)
    ensures Fetch(code, t + 3) == StartMemory(e.body.reg, e.body.inner)
    ensures Starts(code, t + 6) && Starts(code, t + 6 + Len(e.body.body))
    ensures ClosesAt(code, t + 6 + Len(e.body.body), e.body.reg)
    ensures StopAddr(code, t + 6 + Len(e.body.body)) == t + Len(e.body)
  {
    hide Fetch, Boundary, Starts, LaidOut;
    GroupParts(e.body, code, t + 3);
    GroupStarts(e.body, code, t + 3);
  }

  lemma LoopFrameReps(code: seq<byte>, p: nat, e: Re, d: nat, k: Kont)
    requires Starts(code, p) && IsGroupLoop(e) && ClosesAt(code, p, e.body.reg)
    requires StopAddr(code, p) >= Len(e.body) && Starts(code, StopAddr(code, p) - Len(e.body))
    requires LoopAt(e.body, code, StopAddr(code, p) - Len(e.body)) && Reps(code, StopAddr(code, p) + 6, k)
    ensures Reps(code, p, Loop(e, d, k))
  {
    hide Fetch, Boundary, Starts, LoopAt;
    assert Direct(code, p, Loop(e, d, k));
  }

  /** Entering the body of a repeated group, from its `start_memory`. */
  lemma EnterLoop(w: World, st: VState, e: Re, t: nat, k: Kont, b: nat, abs: seq<Abs>) returns (st': VState)
    requires CanEnter(w, st, e, t, k, b, abs)
    ensures Step(w.env, st) == Running(st')
    ensures Inv(w, st', Do(e.body.body, Loop(e, st.d, k)), e.body.reg + 1, abs)
    ensures st' == st.(p := t + 6, info := st'.info, low := st'.low, high := st'.high)
  {
    hide Fetch, Step, Reps, StackOk, Boundary, Starts, Related, RangeOk, LoopAt;
    LoopNumbers(e, st.d, k, b, w.nsub);
    LoopReps(w.code0, t, e, st.d, k);
    st' := StartStep(w, st, k, e.body.reg, e.body.inner);
    var l := Loop(e, st.d, k);
    assert Flags(l, st.d, st'.low, st'.high, st'.info);
    assert FitK(l) && !NoFrames(l) && Loops(l) == 1 + Loops(k);
    assert Fit(e.body.body) by { assert Fit(e.body); }
  }

  /** In front of a loop over a group. */
  lemma AgainGroupMove(w: World, st: VState, e: Re, k: Kont, b: nat, abs: seq<Abs>) returns (mv: Move)
    requires Inv(w, st, Again(e, k), b, abs) && Direct(w.code0, st.p, Again(e, k)) && IsGroupLoop(e)
    ensures GoodMove(w, st, Again(e, k), abs, mv)
  {
    hide Step, Inv, GoodMove, PlayOf, Direct, Related, CanEnter, Smaller, Rest;
    InvInside(w, st, Again(e, k), b, abs);
    AgainGroupPlay(w.code0, w.env.s, st.p, e, k, st.d);
    var st1 := AgainGroupEntry(w, st, e, k, b, abs);
    if Step(w.env, st).Done? {
      mv := OverflowMove(w, st, Again(e, k), abs);
    } else {
      var a := Point(st.p + Len(e.body) + 6, k, st.d, After(e, b));
      mv := GroupTurn(w, st, st1, Again(e, k), e, st.p, k, b, abs, a);
    }
  }

  /** What entering the body of a repeated group takes. */
  ghost predicate CanEnter(w: World, st: VState, e: Re, t: nat, k: Kont, b: nat, abs: seq<Abs>) {
    && CanFail(w, st, abs) && w.env.start <= st.d <= |w.env.s.text| && st.p == t + 3
    && IsGroupLoop(e) && !e.op.Opt? && Fit(e) && FitK(k) && Starts(w.code0, t) && LoopAt(e.body, w.code0, t)
    && Reps(w.code0, t + Len(e.body) + 6, k) && NumberedK(Again(e, k), b, w.nsub) && b >= 1
    && RangeBase(st.low, st.high, w.nsub) && Flags(k, st.d, st.low, st.high, st.info)
    && (NoFrames(k) ==> st.low == NO_LOWEST_ACTIVE_REG || st.low <= e.body.reg)
    && Loops(k) < |st.stack|
  }

  /** Into the body of a repeated group, after the step that put something aside. */
  lemma GroupTurn(w: World, st: VState, st1: VState, k0: Kont, e: Re, t: nat, k: Kont, b: nat, abs: seq<Abs>, a: Abs)
    returns (mv: Move)
    requires st.d <= |w.env.s.text| && Step(w.env, st) == Running(st1) && CanEnter(w, st1, e, t, k, b, abs + [a])
    requires st1.d == st.d && BestIn(st1) == BestIn(st)
    requires IsGroupLoop(e)
    requires Here(w, st.p, k0, st.d) == Try(Here(w, t + 6, Do(e.body.body, Loop(e, st.d, k)), st.d), AbsPlay(w, a))
    ensures GoodMove(w, st, k0, abs, mv)
  {
    hide Step, Steps, Fetch, Inv, PlayOf, AbsPlay, GoodMove, CanEnter, Here, Smaller, Rest;
    var st2 := EnterLoop(w, st1, e, t, k, b, abs + [a]);
    OneStep(w.env, st1);
    OneMore(w.env, st, st1, 1);
    var k' := Do(e.body.body, Loop(e, st.d, k));
    TryTaken(w, st.p, k0, st.d, abs, a, false, t + 6, k', st.d);
    mv := LeadsTo(w, st, k0, abs, 2, st2, k', e.body.reg + 1, abs + [a]);
  }

  /** The failure jump of a loop over a group. */
  lemma AgainGroupEntry(w: World, st: VState, e: Re, k: Kont, b: nat, abs: seq<Abs>) returns (st1: VState)
    requires Inv(w, st, Again(e, k), b, abs) && Direct(w.code0, st.p, Again(e, k)) && IsGroupLoop(e)
    ensures Step(w.env, st) == Done(OVERFLOW, st.code) ||
            (Step(w.env, st) == Running(st1) && st1.d == st.d && BestIn(st1) == BestIn(st) &&
             CanEnter(w, st1, e, st.p, k, b, abs + [Point(st.p + Len(e.body) + 6, k, st.d, After(e, b))]))
  {
    hide Fetch, Step, Reps, StackOk, Boundary, Starts, Related, RangeOk, NumberedK, Flags, FitK, LoopAt, LaidOut;
    LoopNumbers(e, st.d, k, b, w.nsub);
    LoopBelow(e, k, b, w.nsub);
    InvCanFail(w, st, Again(e, k), b, abs);
    GroupHeadAgain(w.code0, st.p, e, k, st.d);
    AgainFit(e, k, st.d, st.low, st.high, st.info);
    st1 := Choose(w, st, k, b, k, After(e, b), Len(e.body) + 3, abs);
  }

  lemma LoopBelow(e: Re, k: Kont, b: nat, nsub: nat)
    requires IsGroupLoop(e) && NumberedK(Again(e, k), b, nsub)
    ensures FramesBelow(k, b)
  {}

  lemma GroupHeadAgain(code: seq<byte>, t: nat, e: Re, k: Kont, d: nat)
    requires Reps(code, t, Again(e, k)) && Direct(code, t, Again(e, k)) && IsGroupLoop(e)
    ensures Starts(code, t) && LoopAt(e.body, code, t) && Reps(code, t + Len(e.body) + 6, k)
    ensures e.body.reg < 256 && e.body.inner < 256 && Fetch(code, t) == OnFailureJump(Len(e.body) + 3)
    ensures Fetch(code, t + 3) == StartMemory(e.body.reg, e.body.inner)
  {
    hide Fetch, Boundary, Starts, Reps;
    RepsStarts(code, t, Again(e, k));
    LoopReps(code, t, e, d, k);
  }

  lemma AgainGroupPlay(code: seq<byte>, s: Subject, t: nat, e: Re, k: Kont, d: nat)
    requires IsGroupLoop(e) && d <= |s.text| && Direct(code, t, Again(e, k))
    ensures PlayOf(code, s, t, Again(e, k), d) ==
            Try(PlayOf(code, s, t + 6, Do(e.body.body, Loop(e, d, k)), d), PlayOf(code, s, t + Len(e.body) + 6, k, d))
  {
    hide Fetch, Direct;
  }

  /** In front of a loop over a group that must run at least once. */
  lemma PlusGroupMove(w: World, st: VState, e: Re, k: Kont, b: nat, abs: seq<Abs>) returns (mv: Move)
    requires Inv(w, st, Do(e, k), b, abs) && Direct(w.code0, st.p, Do(e, k))
    requires IsGroupLoop(e) && e.op.Plus?
    ensures GoodMove(w, st, Do(e, k), abs, mv)
  {
    hide Step, Inv, GoodMove, PlayOf, Direct, Related, CanEnter;
    InvInside(w, st, Do(e, k), b, abs);
    PlusPlay(w.code0, w.env.s, st.p, e, k, st.d);
    var st1 := PlusGroupEntry(w, st, e, k, b, abs);
    if Step(w.env, st).Done? {
      mv := OverflowMove(w, st, Do(e, k), abs);
    } else {
      mv := GroupTurn(w, st, st1, Do(e, k), e, st.p + 3, k, b, abs, Blank);
    }
  }

  /** The dummy pushed in front of a loop over a group that must run at least once. */
  lemma PlusGroupEntry(w: World, st: VState, e: Re, k: Kont, b: nat, abs: seq<Abs>) returns (st1: VState)
    requires Inv(w, st, Do(e, k), b, abs) && Direct(w.code0, st.p, Do(e, k))
    requires IsGroupLoop(e) && e.op.Plus?
    ensures Step(w.env, st) == Done(OVERFLOW, st.code) ||
            (Step(w.env, st) == Running(st1) && st1.d == st.d && BestIn(st1) == BestIn(st) &&
             CanEnter(w, st1, e, st.p + 3, k, b, abs + [Blank]))
  {
    hide Fetch, Step, Reps, StackOk, Boundary, Starts, Related, RangeOk, LaidOut, Saved, Direct, LoopAt, FramesBelow;
    var t := st.p + 3;
    InvReps(w, st, Do(e, k), b, abs);
    PlusParts(w.code0, st.p, e, k);
    InvCanFail(w, st, Do(e, k), b, abs);
    PlusNumbers(e, k, st.d, b, w.nsub);
    DummyJumpStep(w, st, 3);
    var fp := FailPoint(true, 0, 0, st.low, st.high, Saved(st));
    st1 := st.(p := t + 3, stack := st.stack + [fp]);
    DummyPushed(w, st, st1, abs);
  }

  lemma PlusNumbers(e: Re, k: Kont, d: nat, b: nat, nsub: nat)
    requires IsGroupLoop(e) && NumberedK(Do(e, k), b, nsub) && b >= 1
    ensures NumberedK(Again(e, k), b, nsub) && b <= e.body.reg
  {
    LoopNumbers(e, d, k, b, nsub);
  }

  lemma PlusPlay(code: seq<byte>, s: Subject, p: nat, e: Re, k: Kont, d: nat)
    requires e.Repeat? && e.op.Plus? && d <= |s.text| && Direct(code, p, Do(e, k))
    ensures e.body.Group? ==>
      PlayOf(code, s, p, Do(e, k), d) == Try(PlayOf(code, s, p + 9, Do(e.body.body, Loop(e, d, k)), d), Dead)
    ensures Single(e.body) ==> PlayOf(code, s, p, Do(e, k), d) == Try(TurnPlay(code, s, p + 3, e, k, d), Dead)
  {
    hide Fetch, Direct, TurnPlay;
  }

  lemma PlusParts(code: seq<byte>, p: nat, e: Re, k: Kont)
    requires e.Repeat? && e.op.Plus? && Reps(code, p, Do(e, k)) && Direct(code, p, Do(e, k))
    ensures Starts(code, p) && Fetch(code, p) == DummyFailureJump(3)
    ensures Starts(code, p + 3) && LoopAt(e.body, code, p + 3)
    ensures Reps(code, p + 3 + Len(e.body) + 6, k)
  {
    hide Fetch, Boundary, Starts, LoopAt;
    RepsStarts(code, p, Do(e, k));
    StartsNext(code, p);
    assert p + Len(e) == p + 3 + Len(e.body) + 6;
  }

  // ----- loops over a single byte -----

  lemma SingleEnd(s: Subject, e: Re, d: nat)
    requires Single(e) && d <= |s.text|
    ensures Leaf(e) && LeafEnd(s, e, d) == if d < |s.text| && Accepts(e, s.text[d]) then d + 1 else -1
  {
    if e.Exact? && d < |s.text| { assert s.text[d..d + 1] == [s.text[d]]; }
  }

  lemma StackDrop(w: World, stack: seq<FailPoint>, abs: seq<Abs>, a: Abs)
    requires StackOk(w, stack, abs + [a])
    ensures StackOk(w, stack[..|stack| - 1], abs)
  {
    hide PointOk;
    forall i | 0 <= i < |abs|
      ensures PointOk(w, stack[..|stack| - 1][i], abs[i], i)
    {
      assert PointOk(w, stack[i], (abs + [a])[i], i);
    }
  }

  /** What is on the stack at the body of a loop over a byte: the way out of the
      loop, or a dummy. */
  ghost predicate CanTurn(w: World, st: VState, e: Re, t: nat, k: Kont, b: nat, abs: seq<Abs>, a: Abs) {
    && CanFail(w, st, abs + [a]) && Located(w, t, Again(e, k), st.d, b, st.low, st.high, st.info)
    && Direct(w.code0, t, Again(e, k)) && e.Repeat? && Single(e.body) && st.p == t + 3
    && Loops(k) < |st.stack|
  }

  /** One turn of a loop over a byte: the byte, then the closing jump. */
  lemma OneTurn(w: World, st: VState, e: Re, t: nat, k: Kont, b: nat, abs: seq<Abs>, a: Abs)
    returns (st': VState, pop: bool)
    requires CanTurn(w, st, e, t, k, b, abs, a)
    ensures var s := w.env.s;
      if st.d < |s.text| && Accepts(e.body, s.text[st.d]) then
        && Steps(w.env, st, 2) == Running(st') && st'.p == t && st'.d == st.d + 1
        && BestIn(st') == BestIn(st) && pop == CanPop(w.code0, t + 3 + Len(e.body))
        && Inv(w, st', Again(e, k), b, if pop then abs else abs + [a])
      else Step(w.env, st) == Fail(w.env, st)
  {
    hide Fetch, Step, Fail, Boundary, Starts, Related, SetMatched, NumberedK, CanPop, StackOk, Reps;
    var code0, d := w.code0, st.d;
    st', pop := st, false;
    RepsStarts(code0, t, Again(e, k));
    LoopStarts(e.body, code0, t);
    SingleEnd(w.env.s, e.body, d);
    LeafStep(code0, w.env, st, e.body);
    if d < |w.env.s.text| && Accepts(e.body, w.env.s.text[d]) {
      FlagsConsume(k, d, st, 1);
      var st1 := AfterLeaf(st, e.body, d + 1);
      AfterLeafKeeps(st, e.body, d + 1);
      st' := ClosingStep(code0, w.env, st1, e.body, t);
      OneStep(w.env, st1);
      OneMore(w.env, st, st1, 1);
      pop := CanPop(code0, t + 3 + Len(e.body));
      if pop {
        StackDrop(w, st.stack, abs, a);
      }
    }
  }

  lemma AfterLeafKeeps(st: VState, e: Re, end: nat)
    requires RangeOk(st)
    ensures var st' := AfterLeaf(st, e, end);
      st' == st.(p := st.p + Len(e), d := end, info := st'.info) && |st'.info| == |st.info|
    ensures !e.Bol? && !e.Eol? ==> AfterLeaf(st, e, end).info == SetMatched(st).info
  {}

  /** A turn of a loop over a byte, after the step that put something aside. */
  lemma ByteTurn(w: World, st: VState, st1: VState, k0: Kont, e: Re, t: nat, k: Kont, b: nat, abs: seq<Abs>, a: Abs)
    returns (mv: Move)
    requires st.d <= |w.env.s.text| && Step(w.env, st) == Running(st1) && CanTurn(w, st1, e, t, k, b, abs, a)
    requires st1.d == st.d && BestIn(st1) == BestIn(st)
    requires Here(w, st.p, k0, st.d) == Try(TurnPlay(w.code0, w.env.s, t, e, k, st.d), AbsPlay(w, a))
    ensures GoodMove(w, st, k0, abs, mv)
  {
    hide Step, Steps, Fail, Fetch, Inv, CanPop, Accepts, PlayOf, AbsPlay, GoodMove, Located, Direct, StackOk, Related;
    hide Smaller, Rest, Loops;
    var st2, pop := OneTurn(w, st1, e, t, k, b, abs, a);
    if st.d < |w.env.s.text| && Accepts(e.body, w.env.s.text[st.d]) {
      TryTaken(w, st.p, k0, st.d, abs, a, pop, t, Again(e, k), st.d + 1);
      OneMore(w.env, st, st1, 2);
      mv := LeadsTo(w, st, k0, abs, 3, st2, Again(e, k), b, if pop then abs else abs + [a]);
    } else {
      mv := TryDead(w, st, k0, abs, a, st1);
    }
  }

  lemma AgainByteMove(w: World, st: VState, e: Re, k: Kont, b: nat, abs: seq<Abs>) returns (mv: Move)
    requires Inv(w, st, Again(e, k), b, abs) && Direct(w.code0, st.p, Again(e, k))
    requires e.Repeat? && Single(e.body)
    ensures GoodMove(w, st, Again(e, k), abs, mv)
  {
    hide Step, Inv, GoodMove, PlayOf, TurnPlay, CanTurn, Direct, Related;
    InvInside(w, st, Again(e, k), b, abs);
    AgainBytePlay(w.code0, w.env.s, st.p, e, k, st.d);
    var st1 := AgainByteEntry(w, st, e, k, b, abs);
    if Step(w.env, st).Done? {
      mv := OverflowMove(w, st, Again(e, k), abs);
    } else {
      var a := Point(st.p + Len(e.body) + 6, k, st.d, After(e, b));
      mv := ByteTurn(w, st, st1, Again(e, k), e, st.p, k, b, abs, a);
    }
  }

  /** The failure jump of a loop over a byte. */
  lemma AgainByteEntry(w: World, st: VState, e: Re, k: Kont, b: nat, abs: seq<Abs>) returns (st1: VState)
    requires Inv(w, st, Again(e, k), b, abs) && Direct(w.code0, st.p, Again(e, k))
    requires e.Repeat? && Single(e.body)
    ensures Step(w.env, st) == Done(OVERFLOW, st.code) ||
            (Step(w.env, st) == Running(st1) && st1.d == st.d && BestIn(st1) == BestIn(st) &&
             CanTurn(w, st1, e, st.p, k, b, abs, Point(st.p + Len(e.body) + 6, k, st.d, After(e, b))))
  {
    hide Fetch, Step, Reps, StackOk, Boundary, Starts, Related, RangeOk, Accepts, NumberedK, Flags, FitK, LoopAt;
    AgainNumbered(e, k, b, w.nsub);
    InvCanFail(w, st, Again(e, k), b, abs);
    AgainHead(w.code0, st.p, e, k);
    AgainFit(e, k, st.d, st.low, st.high, st.info);
    st1 := Choose(w, st, k, b, k, After(e, b), Len(e.body) + 3, abs);
    if Step(w.env, st).Running? {
      AgainFit(e, k, st.d, st1.low, st1.high, st1.info);
    }
  }

  lemma AgainNumbered(e: Re, k: Kont, b: nat, nsub: nat)
    requires NumberedK(Again(e, k), b, nsub) && b >= 1
    ensures b <= After(e, b) && FramesBelow(k, b) && NumberedK(k, After(e, b), nsub)
  {
    AfterGrows(e, b);
  }

  lemma AgainHead(code: seq<byte>, t: nat, e: Re, k: Kont)
    requires Reps(code, t, Again(e, k)) && Direct(code, t, Again(e, k)) && e.Repeat? && Single(e.body)
    ensures Starts(code, t) && LoopAt(e.body, code, t) && Reps(code, t + Len(e.body) + 6, k)
    ensures Fetch(code, t) == OnFailureJump(Len(e.body) + 3) && !Fetch(code, t + 3).StartMemory?
  {
    hide Fetch, Boundary, Starts, Reps;
    RepsStarts(code, t, Again(e, k));
    SingleHead(code, t, e);
  }

  lemma AgainFit(e: Re, k: Kont, d: nat, low: nat, high: nat, info: seq<RegInfo>)
    ensures Flags(Again(e, k), d, low, high, info) == Flags(k, d, low, high, info)
    ensures FitK(Again(e, k)) ==> FitK(k) && Fit(e) && e.Repeat? && !e.op.Opt?
    ensures NoFrames(Again(e, k)) == NoFrames(k) && Loops(Again(e, k)) == Loops(k)
  {}

  lemma AgainBytePlay(code: seq<byte>, s: Subject, t: nat, e: Re, k: Kont, d: nat)
    requires e.Repeat? && Single(e.body) && d <= |s.text| && Direct(code, t, Again(e, k))
    ensures PlayOf(code, s, t, Again(e, k), d) ==
            Try(TurnPlay(code, s, t, e, k, d), PlayOf(code, s, t + Len(e.body) + 6, k, d))
  {
    hide Fetch, Direct, TurnPlay;
  }

  lemma SingleHead(code: seq<byte>, t: nat, e: Re)
    requires e.Repeat? && Single(e.body) && LoopAt(e.body, code, t)
    ensures !Fetch(code, t + 3).StartMemory?
  {
    hide Fetch;
  }

  lemma PlusByteMove(w: World, st: VState, e: Re, k: Kont, b: nat, abs: seq<Abs>) returns (mv: Move)
    requires Inv(w, st, Do(e, k), b, abs) && Direct(w.code0, st.p, Do(e, k))
    requires e.Repeat? && e.op.Plus? && Single(e.body)
    ensures GoodMove(w, st, Do(e, k), abs, mv)
  {
    hide Step, Inv, GoodMove, PlayOf, TurnPlay, CanTurn, Direct, Related;
    InvInside(w, st, Do(e, k), b, abs);
    PlusPlay(w.code0, w.env.s, st.p, e, k, st.d);
    var st1 := PlusByteEntry(w, st, e, k, b, abs);
    if Step(w.env, st).Done? {
      mv := OverflowMove(w, st, Do(e, k), abs);
    } else {
      mv := ByteTurn(w, st, st1, Do(e, k), e, st.p + 3, k, b, abs, Blank);
    }
  }

  /** The dummy pushed in front of a loop over a byte that must run at least once. */
  lemma PlusByteEntry(w: World, st: VState, e: Re, k: Kont, b: nat, abs: seq<Abs>) returns (st1: VState)
    requires Inv(w, st, Do(e, k), b, abs) && Direct(w.code0, st.p, Do(e, k))
    requires e.Repeat? && e.op.Plus? && Single(e.body)
    ensures Step(w.env, st) == Done(OVERFLOW, st.code) ||
            (Step(w.env, st) == Running(st1) && st1.d == st.d && BestIn(st1) == BestIn(st) &&
             CanTurn(w, st1, e, st.p + 3, k, b, abs, Blank))
  {
    hide Fetch, Step, Reps, StackOk, Boundary, Starts, Related, RangeOk, LaidOut, Saved, Direct, Located, LoopAt, Loops;
    var t := st.p + 3;
    InvInside(w, st, Do(e, k), b, abs);
    InvReps(w, st, Do(e, k), b, abs);
    PlusParts(w.code0, st.p, e, k);
    InvCanFail(w, st, Do(e, k), b, abs);
    DummyJumpStep(w, st, 3);
    var fp := FailPoint(true, 0, 0, st.low, st.high, Saved(st));
    st1 := st.(p := t + 3, stack := st.stack + [fp]);
    DummyPushed(w, st, st1, abs);
    AgainReps(w.code0, t, e, k);
    AgainLocated(w, st.p, t, e, k, st.d, b, st.low, st.high, st.info);
  }

  lemma AgainLocated(w: World, p: nat, t: nat, e: Re, k: Kont, d: nat, b: nat, low: nat, high: nat, info: seq<RegInfo>)
    requires Located(w, p, Do(e, k), d, b, low, high, info) && Reps(w.code0, t, Again(e, k)) && e.Repeat? && !e.op.Opt?
    ensures Located(w, t, Again(e, k), d, b, low, high, info) && Loops(Do(e, k)) == Loops(k)
  {
    hide Reps;
  }

  lemma AgainReps(code: seq<byte>, t: nat, e: Re, k: Kont)
    requires Starts(code, t) && e.Repeat? && LoopAt(e.body, code, t) && Reps(code, t + Len(e.body) + 6, k)
    ensures Reps(code, t, Again(e, k)) && Direct(code, t, Again(e, k))
  {
    hide Fetch, Boundary, Starts, LoopAt;
  }

  // ----- ends of groups -----

  /** A dummy pushed at the end of a group's alternatives. */
  lemma DummyMove(w: World, st: VState, k: Kont, b: nat, abs: seq<Abs>) returns (mv: Move)
    requires Inv(w, st, k, b, abs) && Direct(w.code0, st.p, k) && (k.Close? || k.Loop?)
    requires Fetch(w.code0, st.p).PushDummyFailure?
    ensures GoodMove(w, st, k, abs, mv)
  {
    hide Fetch, Step, Inv, GoodMove, Boundary, Starts, Related, RangeOk, Saved, Direct, PlayOf, Smaller, Rest;
    InvInside(w, st, k, b, abs);
    InvReps(w, st, k, b, abs);
    InvValid(w, st, k, b, abs);
    DummyStep(w, st);
    if Step(w.env, st).Done? {
      mv := OverflowMove(w, st, k, abs);
    } else {
      var fp := FailPoint(true, 0, 0, st.low, st.high, Saved(st));
      var st' := st.(p := st.p + 1, stack := st.stack + [fp]);
      OneStep(w.env, st);
      BehindDummy(w, st, st', k, b, abs);
      DummyPlay(w.code0, w.env.s, st.p, k, st.d);
      TryTaken(w, st.p, k, st.d, abs, Blank, false, st'.p, k, st.d);
      mv := LeadsTo(w, st, k, abs, 1, st', k, b, abs + [Blank]);
    }
  }

  lemma BehindDummy(w: World, st: VState, st': VState, k: Kont, b: nat, abs: seq<Abs>)
    requires Inv(w, st, k, b, abs) && Direct(w.code0, st.p, k) && (k.Close? || k.Loop?) && RangeOk(st)
    requires Fetch(w.code0, st.p).PushDummyFailure?
    requires st' == st.(p := st.p + 1, stack := st.stack + [FailPoint(true, 0, 0, st.low, st.high, Saved(st))])
    ensures Inv(w, st', k, b, abs + [Blank]) && Direct(w.code0, st'.p, k) && BestIn(st') == BestIn(st)
  {
    hide Fetch, StackOk, Boundary, Starts, Related, Saved, LoopAt, NumberedK, Flags, FitK;
    InvReps(w, st, k, b, abs);
    InvCanFail(w, st, k, b, abs);
    DummyPushed(w, st, st', abs);
    StartsNext(w.code0, st.p);
    StartAtMost(w.code0, st'.p);
    assert Direct(w.code0, st'.p, k);
  }

  lemma DummyPlay(code: seq<byte>, s: Subject, p: nat, k: Kont, d: nat)
    requires d <= |s.text| && (k.Close? || k.Loop?) && Direct(code, p, k) && Direct(code, p + 1, k)
    requires Fetch(code, p).PushDummyFailure?
    ensures PlayOf(code, s, p, k, d) == Try(PlayOf(code, s, p + 1, k, d), Dead)
  {
    hide Fetch, CanPop, Reps, LoopAt;
  }

  /** The end of a group that is not repeated. */
  lemma CloseMove(w: World, st: VState, reg: nat, start: nat, k: Kont, b: nat, abs: seq<Abs>) returns (mv: Move)
    requires Inv(w, st, Close(reg, start, k), b, abs) && Direct(w.code0, st.p, Close(reg, start, k))
    requires !Fetch(w.code0, st.p).PushDummyFailure?
    ensures GoodMove(w, st, Close(reg, start, k), abs, mv)
  {
    hide Fetch, Step, Reps, StackOk, Boundary, Starts, Related, CloseGroup, PlayOf, PlaysOf;
    RepsStarts(w.code0, st.p, Close(reg, start, k));
    ClosePlay(w.code0, w.env.s, st.p, reg, start, k, st.d);
    var i := Fetch(w.code0, st.p);
    CloseKeepsFlags(w, st, k, i.reg, start);
    StopStep(w, st, k, i.reg, i.inner);
    OneStep(w.env, st);
    var st' := CloseGroup(st, i.reg).(p := st.p + 3);
    mv := To(1, st', k, b, abs);
  }

  /** The end of a repeated group. */
  lemma LoopMove(w: World, st: VState, e: Re, start: nat, k: Kont, b: nat, abs: seq<Abs>) returns (mv: Move)
    requires Inv(w, st, Loop(e, start, k), b, abs) && Direct(w.code0, st.p, Loop(e, start, k))
    requires !Fetch(w.code0, st.p).PushDummyFailure?
    ensures GoodMove(w, st, Loop(e, start, k), abs, mv)
  {
    hide Fetch, Step, Inv, GoodMove, Direct, Related, CloseGroup, PlayOf, CanPop, LeftGroup, Peeks, RangeOk;
    if start == st.d || Peeks(w.code0, st.p) {
      mv := LeaveLoopMove(w, st, e, start, k, b, abs);
    } else {
      var reg, st1 := LoopFlags(w, st, e, start, k, b, abs);
      mv := GoRoundMove(w, st, st1, e, start, k, b, abs);
    }
  }

  /** Leaving the group, on the way round its loop. */
  lemma LoopFlags(w: World, st: VState, e: Re, start: nat, k: Kont, b: nat, abs: seq<Abs>)
    returns (reg: byte, st1: VState)
    requires Inv(w, st, Loop(e, start, k), b, abs) && Direct(w.code0, st.p, Loop(e, start, k))
    requires !Fetch(w.code0, st.p).PushDummyFailure?
    ensures IsGroupLoop(e) && start <= st.d
    ensures 1 <= reg < |st.info| && reg == e.body.reg && RangeOk(CloseGroup(st, reg))
    ensures st1 == CloseGroup(st, reg).(p := st.p + 3) && LeftGroup(w, st, st1, k)
    ensures start < st.d && !Peeks(w.code0, st.p) ==> Step(w.env, st) == Running(st1)
  {
    hide Fetch, Step, Reps, StackOk, Boundary, Starts, Related, CloseGroup, LaidOut, CanPop, Peeks, LoopAt, NumberedK;
    var l := Loop(e, start, k);
    InvReps(w, st, l, b, abs);
    LoopOutside(e, start, k, b, w.nsub, st.d, st.low, st.high, st.info);
    var i := Fetch(w.code0, st.p);
    reg := i.reg;
    LoopFrames(e, start, k, b, w.nsub);
    CloseKeepsFlags(w, st, k, reg, start);
    st1 := CloseGroup(st, reg).(p := st.p + 3);
    if start < st.d && !Peeks(w.code0, st.p) {
      FullIterationStep(w, st, e, reg, i.inner);
    }
  }

  lemma LoopFrames(e: Re, start: nat, k: Kont, b: nat, nsub: nat)
    requires NumberedK(Loop(e, start, k), b, nsub)
    ensures IsGroupLoop(e) && FramesBelow(k, e.body.reg)
  {}

  /** Behind the loop after an iteration that matched nothing, or that looks so. */
  lemma LeaveLoopMove(w: World, st: VState, e: Re, start: nat, k: Kont, b: nat, abs: seq<Abs>) returns (mv: Move)
    requires Inv(w, st, Loop(e, start, k), b, abs) && Direct(w.code0, st.p, Loop(e, start, k))
    requires !Fetch(w.code0, st.p).PushDummyFailure? && (start == st.d || Peeks(w.code0, st.p))
    ensures GoodMove(w, st, Loop(e, start, k), abs, mv)
  {
    hide Fetch, Step, Steps, Inv, GoodMove, Direct, Related, CloseGroup, PlayOf, CanPop, Peeks, Smaller, Rest, Flags;
    var l := Loop(e, start, k);
    InvInside(w, st, l, b, abs);
    var reg, st1 := LoopFlags(w, st, e, start, k, b, abs);
    var st' := st1.(p := st.p + 6);
    LeaveLoopStep(w, st, st', e, reg, start, k, b, abs);
    if Step(w.env, st).Done? {
      mv := OverflowMove(w, st, l, abs);
    } else {
      LeaveLoopInv(w, st, st1, e, start, k, b, abs);
      LoopPlay(w.code0, w.env.s, st.p, e, start, k, st.d);
      OneStep(w.env, st);
      SamePlay(w, st.p, l, st.d, abs, st'.p, k);
      mv := LeadsTo(w, st, l, abs, 1, st', k, After(e, b), abs);
    }
  }

  lemma LeaveLoopStep(w: World, st: VState, st': VState, e: Re, reg: byte, start: nat, k: Kont, b: nat, abs: seq<Abs>)
    requires Inv(w, st, Loop(e, start, k), b, abs) && Direct(w.code0, st.p, Loop(e, start, k))
    requires !Fetch(w.code0, st.p).PushDummyFailure? && (start == st.d || Peeks(w.code0, st.p)) && IsGroupLoop(e)
    requires 1 <= reg < |st.info| && reg == e.body.reg && RangeOk(CloseGroup(st, reg))
    requires st' == CloseGroup(st, reg).(p := st.p + 6)
    ensures Step(w.env, st) == Done(OVERFLOW, st.code) || Step(w.env, st) == Running(st')
  {
    hide Fetch, Step, Reps, StackOk, Boundary, Starts, Related, CloseGroup, LaidOut, CanPop, Peeks, LoopAt, NumberedK;
    InvReps(w, st, Loop(e, start, k), b, abs);
    LoopHead(w.code0, st.p, e, start, k);
    EmptyIterationStep(w, st, e, k, reg, Fetch(w.code0, st.p).inner);
  }

  lemma LeaveLoopInv(w: World, st: VState, st1: VState, e: Re, start: nat, k: Kont, b: nat, abs: seq<Abs>)
    requires Inv(w, st, Loop(e, start, k), b, abs) && Direct(w.code0, st.p, Loop(e, start, k))
    requires !Fetch(w.code0, st.p).PushDummyFailure? && LeftGroup(w, st, st1, k)
    ensures Inv(w, st1.(p := st.p + 6), k, After(e, b), abs) && BestIn(st1) == BestIn(st)
  {
    hide Fetch, Reps, StackOk, Boundary, Starts, Related, CanPop, Peeks, LoopAt, Flags;
    LoopHead(w.code0, st.p, e, start, k);
    LoopLow(e, start, k, st.d, st.low, st.high, st.info);
    LoopAfter(e, b, e.body.reg);
  }

  /** The same play elsewhere, with less left to read. */
  lemma SamePlay(w: World, p: nat, k: Kont, d: nat, abs: seq<Abs>, p': nat, k': Kont)
    requires d <= |w.env.s.text| && Weight(k', d) < Weight(k, d) && Here(w, p, k, d) == Here(w, p', k', d)
    ensures Smaller(w, p, k, d, abs, p', k', d, abs) && Rest(w, p', k', d, abs) == Rest(w, p, k, d, abs)
  {
    hide Here, AbsPlay, PlaysOf, Visits;
  }

  /** From the closing jump of a repeated group back to its failure jump. */
  lemma GoRoundMove(w: World, st: VState, st1: VState, e: Re, start: nat, k: Kont, b: nat, abs: seq<Abs>)
    returns (mv: Move)
    requires Inv(w, st, Loop(e, start, k), b, abs) && Direct(w.code0, st.p, Loop(e, start, k))
    requires !Fetch(w.code0, st.p).PushDummyFailure? && start < st.d && !Peeks(w.code0, st.p)
    requires Step(w.env, st) == Running(st1) && LeftGroup(w, st, st1, k)
    ensures GoodMove(w, st, Loop(e, start, k), abs, mv)
  {
    hide Fetch, Step, Steps, Inv, GoodMove, Direct, CanPop, PlayOf, Smaller, Rest, LeftGroup;
    var l := Loop(e, start, k);
    InvInside(w, st, l, b, abs);
    LoopPlay(w.code0, w.env.s, st.p, e, start, k, st.d);
    var st2 := GoRoundStep(w, st, st1, e, start, k, b, abs);
    OneStep(w.env, st1);
    OneMore(w.env, st, st1, 1);
    assert Weight(Again(e, k), st.d) < Weight(l, st.d);
    var pop := CanPop(w.code0, st.p + 3);
    DropTaken(w, st.p, l, st.d, abs, pop, st2.p, Again(e, k));
    mv := LeadsTo(w, st, l, abs, 2, st2, Again(e, k), e.body.reg, Popped(pop, abs));
  }

  /** The state behind the end of a group, with the registers of the work outside. */
  ghost predicate LeftGroup(w: World, st: VState, st1: VState, k: Kont) {
    && st1 == st.(p := st.p + 3, info := st1.info, low := st1.low, high := st1.high)
    && |st1.info| == w.nsub + 1 && RangeBase(st1.low, st1.high, w.nsub)
    && Flags(k, st.d, st1.low, st1.high, st1.info)
    && (st1.low == st.low || st1.low == NO_LOWEST_ACTIVE_REG)
  }

  ghost function Popped(pop: bool, abs: seq<Abs>): seq<Abs> {
    if pop && |abs| > 0 then abs[..|abs| - 1] else abs
  }

  /** The closing jump. */
  lemma GoRoundStep(w: World, st: VState, st1: VState, e: Re, start: nat, k: Kont, b: nat, abs: seq<Abs>)
    returns (st2: VState)
    requires Inv(w, st, Loop(e, start, k), b, abs) && Direct(w.code0, st.p, Loop(e, start, k))
    requires !Fetch(w.code0, st.p).PushDummyFailure? && LeftGroup(w, st, st1, k)
    ensures |abs| > 0 && st.p >= Len(e.body)
    ensures Step(w.env, st1) == Running(st2) && st2.p == st.p - Len(e.body) && st2.d == st.d
    ensures BestIn(st2) == BestIn(st) && IsGroupLoop(e)
    ensures Inv(w, st2, Again(e, k), e.body.reg, Popped(CanPop(w.code0, st.p + 3), abs))
  {
    hide Fetch, Step, Reps, Boundary, Starts, Related, CanPop, LoopAt, StackOk, NumberedK, Flags;
    var t := st.p - Len(e.body);
    LoopHead(w.code0, st.p, e, start, k);
    LoopLow(e, start, k, st.d, st.low, st.high, st.info);
    StackCount(w, st.stack, abs);
    LoopOutside(e, start, k, b, w.nsub, st.d, st1.low, st1.high, st1.info);
    st2 := ClosingStep(w.code0, w.env, st1, e.body, t);
    AgainReps(w.code0, t, e, k);
    if CanPop(w.code0, st.p + 3) {
      var top := |abs| - 1;
      assert abs == abs[..top] + [abs[top]];
      StackDrop(w, st.stack, abs[..top], abs[top]);
    }
  }

  lemma LoopLow(e: Re, start: nat, k: Kont, d: nat, low: nat, high: nat, info: seq<RegInfo>)
    requires Flags(Loop(e, start, k), d, low, high, info)
    ensures IsGroupLoop(e) && low <= e.body.reg <= high && start <= d
  {}

  lemma LoopHead(code: seq<byte>, p: nat, e: Re, start: nat, k: Kont)
    requires Reps(code, p, Loop(e, start, k)) && Direct(code, p, Loop(e, start, k))
    requires !Fetch(code, p).PushDummyFailure?
    ensures p >= Len(e.body) && Starts(code, p - Len(e.body)) && LoopAt(e.body, code, p - Len(e.body))
    ensures Reps(code, p + 6, k)
  {
    hide Fetch, Boundary, Starts, LoopAt, Reps;
  }

  /** The numbers and flags of the work outside a repeated group. */
  lemma LoopOutside(e: Re, start: nat, k: Kont, b: nat, nsub: nat, d: nat, low: nat, high: nat, info: seq<RegInfo>)
    requires NumberedK(Loop(e, start, k), b, nsub)
    ensures IsGroupLoop(e) && 1 <= e.body.reg < b && NumberedK(Again(e, k), e.body.reg, nsub)
    ensures Flags(Again(e, k), d, low, high, info) == Flags(k, d, low, high, info)
  {
    LoopAfter(e, b, e.body.reg);
  }

  /** The newest choice dropped, if it is. */
  lemma DropTaken(w: World, p: nat, k: Kont, d: nat, abs: seq<Abs>, pop: bool, p': nat, k': Kont)
    requires d <= |w.env.s.text| && |abs| > 0 && Weight(k', d) < Weight(k, d)
    requires Here(w, p, k, d) == Dropping(pop, Here(w, p', k', d))
    ensures Smaller(w, p, k, d, abs, p', k', d, Popped(pop, abs))
    ensures Rest(w, p', k', d, Popped(pop, abs)) == Rest(w, p, k, d, abs)
  {
    hide Here, AbsPlay, PlaysOf;
    if pop { PlaysCut(w, abs, |abs| - 1); }
  }

  lemma LoopPlay(code: seq<byte>, s: Subject, p: nat, e: Re, start: nat, k: Kont, d: nat)
    requires d <= |s.text| && Direct(code, p, Loop(e, start, k)) && !Fetch(code, p).PushDummyFailure?
    ensures p >= Len(e.body)
    ensures PlayOf(code, s, p, Loop(e, start, k), d) ==
            if start == d || Peeks(code, p) then PlayOf(code, s, p + 6, k, d)
            else Dropping(CanPop(code, p + 3), PlayOf(code, s, p - Len(e.body), Again(e, k), d))
  {
    hide Fetch, CanPop, Reps, LoopAt;
  }

  lemma StackCount(w: World, stack: seq<FailPoint>, abs: seq<Abs>)
    requires StackOk(w, stack, abs)
    ensures |stack| == |abs|
  {}
}
