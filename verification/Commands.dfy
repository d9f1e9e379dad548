/** What each command of the compiled code does to the matcher, in terms of the
    code as compiled. */
module Commands {
  import opened Octets
  import opened RegexLang
  import opened Backtrack
  import opened Bytecode
  import opened Machine
  import opened Rewriting
  import opened Invariant
  import opened InvariantFacts
  import opened Choices
  import opened Plays
  import opened FailureStack

  // ----- single bytes and anchors -----

  function AfterLeaf(st: VState, e: Re, end: nat): VState
    requires RangeOk(st)
  {
    (if e.Bol? || e.Eol? then st else SetMatched(st)).(p := st.p + Len(e), d := end)
  }

  lemma LeafStep(code0: seq<byte>, env: Env, st: VState, e: Re)
    requires Whole(code0) && Related(code0, st.code) && Starts(code0, st.p)
    requires Leaf(e) && LaidOut(e, code0, st.p) && st.d <= |env.s.text| && RangeOk(st)
    requires e.Exact? ==> |e.cs| > 0
    ensures Step(env, st) ==
            if LeafEnd(env.s, e, st.d) < 0 then Fail(env, st)
            else Running(AfterLeaf(st, e, LeafEnd(env.s, e, st.d)))
  {
    hide Fetch, Boundary, CanPop, Fail;
    NoFetch(code0);
    FetchRelated(code0, st.code, st.p);
  }

  // ----- closing jumps -----

  /** Settling a closing jump, or running one already settled, goes back to the
      loop's failure jump and drops the newest failure point or not, as the
      compiled code alone decides. */
  lemma ClosingJump(code0: seq<byte>, env: Env, st: VState, off: int) returns (st': VState)
    requires Whole(code0) && Related(code0, st.code) && Starts(code0, st.p) && st.p < |code0|
    requires Fetch(code0, st.p) == MaybePopJump(off) && st.p + 3 + off >= 0
    requires Starts(code0, st.p + 6 + off)
    requires st.d <= |env.s.text| && |st.stack| > 0
    ensures Step(env, st) == Running(st') && Related(code0, st'.code)
    ensures st' == st.(code := st'.code, p := st.p + 3 + off,
              stack := if CanPop(code0, st.p) then st.stack[..|st.stack| - 1] else st.stack)
  {
    hide Fetch, Boundary, CanPop, Fail, Starts, Related;
    SameLength(code0, st.code);
    FetchRelated(code0, st.code, st.p);
    st' := st.(p := st.p + 3 + off,
      stack := if CanPop(code0, st.p) then st.stack[..|st.stack| - 1] else st.stack);
    if Fetch(st.code, st.p).MaybePopJump? {
      CanPopRelated(code0, st.code, st.p);
      SettleRelated(code0, st.code, st.p);
      st' := st'.(code := st.code[st.p := Settled(code0, st.p)]);
    }
  }

  /** The closing jump of a loop laid out at `t`. */
  lemma ClosingStep(code0: seq<byte>, env: Env, st: VState, body: Re, t: nat) returns (st': VState)
    requires Whole(code0) && Related(code0, st.code) && Starts(code0, t) && LoopAt(body, code0, t)
    requires st.p == t + 3 + Len(body) && st.d <= |env.s.text| && |st.stack| > 0
    ensures Step(env, st) == Running(st') && Related(code0, st'.code)
    ensures st' == st.(code := st'.code, p := t,
              stack := if CanPop(code0, st.p) then st.stack[..|st.stack| - 1] else st.stack)
  {
    hide Fetch, Boundary, CanPop, Fail, Starts, Related, Step;
    LoopStarts(body, code0, t);
    NoFetch(code0);
    StartAtMost(code0, st.p);
    st' := ClosingJump(code0, env, st, -(Len(body) + 6));
  }

  // ----- groups -----

  lemma {:induction false} LowBelow(k: Kont, d: nat, low: nat, high: nat, info: seq<RegInfo>, c: nat)
    requires Flags(k, d, low, high, info) && FramesBelow(k, c) && !NoFrames(k)
    ensures low < c
    decreases k
  {
    match k
    case Do(_, k') => LowBelow(k', d, low, high, info, c);
    case Again(_, k') => LowBelow(k', d, low, high, info, c);
    case Close(_, _, _) =>
    case Loop(_, _, _) =>
  }

  ghost predicate RangeBase(low: nat, high: nat, nsub: nat) {
    (low == NO_LOWEST_ACTIVE_REG && high == NO_HIGHEST_ACTIVE_REG) || (1 <= low <= nsub && high <= nsub)
  }

  /** Opening a group keeps the flags of those around it and adds its own. */
  lemma StartStep(w: World, st: VState, k: Kont, reg: byte, inner: byte) returns (st': VState)
    requires ValidWorld(w) && Related(w.code0, st.code) && Starts(w.code0, st.p) && st.d <= |w.env.s.text|
    requires Fetch(w.code0, st.p) == StartMemory(reg, inner) && 1 <= reg <= w.nsub
    requires |st.info| == w.nsub + 1 && RangeBase(st.low, st.high, w.nsub)
    requires Flags(k, st.d, st.low, st.high, st.info) && FramesBelow(k, reg)
    requires NoFrames(k) ==> st.low == NO_LOWEST_ACTIVE_REG || st.low <= reg
    ensures Step(w.env, st) == Running(st')
    ensures st' == st.(info := st'.info, low := st'.low, high := st'.high, p := st.p + 3)
    ensures |st'.info| == w.nsub + 1 && RangeBase(st'.low, st'.high, w.nsub)
    ensures FrameFlags(reg, st.d, st.d, st'.low, st'.high, st'.info)
    ensures Flags(k, st.d, st'.low, st'.high, st'.info)
  {
    hide Fetch, Boundary, CanPop, Fail;
    NoFetch(w.code0);
    FetchRelated(w.code0, st.code, st.p);
    st' := StepStart(st, reg).st;
    if !NoFrames(k) { LowBelow(k, st.d, st.low, st.high, st.info, reg); }
    FlagsMove(k, st.d, st.low, st.high, st.info, st'.low, st'.high, st'.info, reg);
  }

  /** Closing a group keeps the flags of those around it. */
  lemma CloseKeepsFlags(w: World, st: VState, k: Kont, reg: byte, start: nat)
    requires ValidWorld(w) && |st.info| == w.nsub + 1 && RangeBase(st.low, st.high, w.nsub)
    requires FrameFlags(reg, start, st.d, st.low, st.high, st.info) && 1 <= reg
    requires Flags(k, st.d, st.low, st.high, st.info) && FramesBelow(k, reg)
    ensures var st' := CloseGroup(st, reg);
      && |st'.info| == w.nsub + 1 && RangeBase(st'.low, st'.high, w.nsub)
      && Flags(k, st.d, st'.low, st'.high, st'.info)
      && (st'.low == st.low || st'.low == NO_LOWEST_ACTIVE_REG)
      && st' == st.(info := st'.info, low := st'.low, high := st'.high)
  {
    var st' := CloseGroup(st, reg);
    var info := st.info[reg := st.info[reg].(active := false)];
    var h := HighestActive(info, reg - 1);
    forall r: nat | st.low <= r <= st.high && r < reg && st.info[r].active
      ensures st'.low <= r <= st'.high && st'.info[r] == st.info[r]
    {
      assert info[r] == st.info[r];
      assert r <= h;
    }
    FlagsMove(k, st.d, st.low, st.high, st.info, st'.low, st'.high, st'.info, reg);
  }

  lemma RestoreSaved(st: VState, pat: nat)
    requires RangeOk(st)
    ensures Restore(st.info, FailPoint(false, pat, st.d, st.low, st.high, Saved(st))) == st.info
  {}

  /** The end of a group that is not repeated. */
  lemma StopStep(w: World, st: VState, k: Kont, reg: byte, inner: byte)
    requires ValidWorld(w) && Related(w.code0, st.code) && Starts(w.code0, st.p) && st.d <= |w.env.s.text|
    requires Fetch(w.code0, st.p) == StopMemory(reg, inner) && 1 <= reg < |st.info| && st.p >= 2
    requires Reps(w.code0, st.p + 3, k)
    ensures Step(w.env, st) == Running(CloseGroup(st, reg).(p := st.p + 3))
  {
    hide Fetch, Boundary, CanPop, Fail, CloseGroup, Direct, Reps, Related;
    NoFetch(w.code0);
    SameLength(w.code0, st.code);
    FetchRelated(w.code0, st.code, st.p);
    StartsNext(w.code0, st.p);
    HeadOfWork(w.code0, st.p + 3, k);
    if st.p + 3 < |w.code0| {
      FetchRelated(w.code0, st.code, st.p + 3);
    } else {
      NoFetch(st.code);
      StartAtMost(w.code0, st.p + 3);
    }
    assert LoopExit(st.code, st.p, reg) == -1;
  }

  /** At the end of a repeated group the matcher finds the way out of the loop. */
  lemma LoopExitFound(code0: seq<byte>, code: seq<byte>, e: Re, q: nat, reg: byte)
    requires Whole(code0) && Related(code0, code)
    requires IsGroupLoop(e) && e.body.reg == reg && q >= Len(e.body) && Starts(code0, q - Len(e.body))
    requires LoopAt(e.body, code0, q - Len(e.body))
    ensures LoopExit(code, q, reg) == q + 6
  {
    hide Fetch, Boundary, CanPop, Starts, Related;
    var t := q - Len(e.body);
    NoFetch(code0);
    LoopStarts(e.body, code0, t);
    StartAtMost(code0, t);
    StartAtMost(code0, t + 3);
    StartAtMost(code0, q + 3);
    FetchRelated(code0, code, t);
    FetchRelated(code0, code, t + 3);
    FetchRelated(code0, code, q + 3);
  }

  /** The byte two before an instruction is not overwritten. */
  lemma PeekKept(code0: seq<byte>, code: seq<byte>, p: nat)
    requires Related(code0, code) && Starts(code0, p) && 2 <= p < |code0|
    ensures |code| == |code0| && (PeekIsStart(code, p) <==> Peeks(code0, p))
  {
    hide Fetch;
    if Starts(code0, p - 2) && Fetch(code0, p - 2).MaybePopJump? { NothingInside(code0, 0, p - 2, p); }
  }

  /** The end of an iteration that consumed nothing, or is taken to have done so,
      leaves the loop. */
  lemma EmptyIterationStep(w: World, st: VState, e: Re, k: Kont, reg: byte, inner: byte)
    requires ValidWorld(w) && Related(w.code0, st.code) && Starts(w.code0, st.p) && st.d <= |w.env.s.text|
    requires Fetch(w.code0, st.p) == StopMemory(reg, inner) && 1 <= reg < |st.info| && st.p >= 2
    requires IsGroupLoop(e) && e.body.reg == reg && st.p >= Len(e.body)
    requires Starts(w.code0, st.p - Len(e.body)) && LoopAt(e.body, w.code0, st.p - Len(e.body))
    requires Reps(w.code0, st.p + 6, k) && RangeOk(CloseGroup(st, reg))
    requires !st.info[reg].matched || Peeks(w.code0, st.p)
    ensures Step(w.env, st) == Done(OVERFLOW, st.code) ||
            Step(w.env, st) == Running(CloseGroup(st, reg).(p := st.p + 6))
  {
    hide Fetch, Boundary, CanPop, CloseGroup, Direct, Reps, Related, Restore, AtLoopEnd, LoopExit, Saved;
    NoFetch(w.code0);
    SameLength(w.code0, st.code);
    FetchRelated(w.code0, st.code, st.p);
    PeekKept(w.code0, st.code, st.p);
    LoopExitFound(w.code0, st.code, e, st.p, reg);
    var st' := CloseGroup(st, reg);
    CloseGroupKeeps(st, reg);
    RestoreSaved(st', st.p + 6);
    NotAtLoopEnd(w, st.code, st.p + 6, k);
    var fp := FailPoint(false, st.p + 6, st.d, st'.low, st'.high, Saved(st'));
    var st'' := st'.(stack := st'.stack + [fp]);
    assert st''.stack[..|st''.stack| - 1] == st'.stack;
    assert Pop(st'') == st'.(p := st.p + 6);
  }

  /** The end of an iteration that consumed something goes on to the closing jump. */
  lemma FullIterationStep(w: World, st: VState, e: Re, reg: byte, inner: byte)
    requires ValidWorld(w) && Related(w.code0, st.code) && Starts(w.code0, st.p) && st.d <= |w.env.s.text|
    requires Fetch(w.code0, st.p) == StopMemory(reg, inner) && 1 <= reg < |st.info| && st.p >= 2
    requires st.info[reg].matched && !Peeks(w.code0, st.p)
    ensures Step(w.env, st) == Running(CloseGroup(st, reg).(p := st.p + 3))
  {
    hide Fetch, Boundary, CanPop, Fail, CloseGroup, LoopExit, Starts, Related;
    NoFetch(w.code0);
    StartAtMost(w.code0, st.p);
    FetchRelated(w.code0, st.code, st.p);
    PeekKept(w.code0, st.code, st.p);
  }

  // ----- failure points -----

  lemma DummyStep(w: World, st: VState)
    requires ValidWorld(w) && Related(w.code0, st.code) && Starts(w.code0, st.p) && st.d <= |w.env.s.text|
    requires Fetch(w.code0, st.p) == PushDummyFailure && RangeOk(st)
    ensures Step(w.env, st) == Done(OVERFLOW, st.code) ||
      Step(w.env, st) == Running(st.(p := st.p + 1,
        stack := st.stack + [FailPoint(true, 0, 0, st.low, st.high, Saved(st))]))
  {
    hide Fetch, Boundary, CanPop, Fail;
    NoFetch(w.code0);
    FetchRelated(w.code0, st.code, st.p);
  }

  lemma DummyJumpStep(w: World, st: VState, off: nat)
    requires ValidWorld(w) && Related(w.code0, st.code) && Starts(w.code0, st.p) && st.d <= |w.env.s.text|
    requires Fetch(w.code0, st.p) == DummyFailureJump(off) && RangeOk(st)
    ensures Step(w.env, st) == Done(OVERFLOW, st.code) ||
      Step(w.env, st) == Running(st.(p := st.p + 3 + off,
        stack := st.stack + [FailPoint(true, 0, 0, st.low, st.high, Saved(st))]))
  {
    hide Fetch, Boundary, CanPop, Fail;
    NoFetch(w.code0);
    FetchRelated(w.code0, st.code, st.p);
  }

  lemma PastAltStep(w: World, st: VState, off: nat)
    requires ValidWorld(w) && Related(w.code0, st.code) && Starts(w.code0, st.p) && st.d <= |w.env.s.text|
    requires Fetch(w.code0, st.p) == JumpPastAlt(off)
    ensures Step(w.env, st) == Running(st.(p := st.p + 3 + off))
  {
    hide Fetch, Boundary, CanPop, Fail;
    NoFetch(w.code0);
    FetchRelated(w.code0, st.code, st.p);
  }

  lemma OnFailureStep(w: World, st: VState, off: nat)
    requires ValidWorld(w) && Related(w.code0, st.code) && Starts(w.code0, st.p) && st.d <= |w.env.s.text|
    requires Fetch(w.code0, st.p) == OnFailureJump(off) && RangeOk(Widened(w.code0, st))
    ensures var st' := Widened(w.code0, st);
      Step(w.env, st) == Done(OVERFLOW, st.code) ||
      Step(w.env, st) == Running(st'.(p := st.p + 3,
        stack := st.stack + [FailPoint(false, st.p + 3 + off, st.d, st'.low, st'.high, Saved(st'))]))
  {
    hide Fetch, Boundary, CanPop, Fail, Related;
    NoFetch(w.code0);
    SameLength(w.code0, st.code);
    FetchRelated(w.code0, st.code, st.p);
    StartsNext(w.code0, st.p);
    StartAtMost(w.code0, st.p + 3);
    if st.p + 3 < |w.code0| {
      FetchRelated(w.code0, st.code, st.p + 3);
    } else {
      NoFetch(st.code);
    }
  }

  /** Widening the range keeps the flags of the open groups. */
  lemma WidenedOk(w: World, st: VState, k: Kont, b: nat)
    requires ValidWorld(w) && |st.info| == w.nsub + 1 && RangeBase(st.low, st.high, w.nsub)
    requires Flags(k, st.d, st.low, st.high, st.info)
    requires Fetch(w.code0, st.p + 3).StartMemory? ==>
      var i := Fetch(w.code0, st.p + 3); 1 <= i.reg && i.reg + i.inner <= w.nsub && FramesBelow(k, i.reg)
    requires NoFrames(k) ==> st.low == NO_LOWEST_ACTIVE_REG || st.low <= b
    ensures var st' := Widened(w.code0, st);
      && RangeBase(st'.low, st'.high, w.nsub) && RangeOk(st')
      && st' == st.(low := st'.low, high := st'.high)
      && Flags(k, st.d, st'.low, st'.high, st.info)
      && (NoFrames(k) ==>
            (st'.low == NO_LOWEST_ACTIVE_REG || st'.low <= b ||
             (Fetch(w.code0, st.p + 3).StartMemory? && st'.low == Fetch(w.code0, st.p + 3).reg)))
  {
    hide Fetch;
    var st' := Widened(w.code0, st);
    var i := Fetch(w.code0, st.p + 3);
    if i.StartMemory? {
      FlagsMove(k, st.d, st.low, st.high, st.info, st'.low, st'.high, st.info, i.reg);
    }
  }
}
