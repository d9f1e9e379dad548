/** A closing jump drops a failure point of its own loop.

    Whenever a run comes to a closing jump, there is an earlier step at which it
    stood in front of that loop, at its failure jump or at the dummy jump before it,
    and since then there has always been something more on the stack than there was
    then.  So what the jump drops was put there since, and nothing that was there
    before is removed. */
module PopDiscipline {
  import opened Octets
  import opened RegexLang
  import opened Bytecode
  import opened Machine
  import opened Rewriting
  import opened Invariant
  import opened Layout
  import opened Nest
  import opened Plays
  import opened Moves
  import opened MatchTheorem
  import opened Twins

  /** A run on the compiled code `code0` from the state `st0`. */
  datatype Run = Run(code0: seq<byte>, env: Env, st0: VState)

  ghost function After(r: Run, n: nat): Status {
    Steps(r.env, r.st0, n)
  }

  ghost function StackAt(r: Run, n: nat): seq<FailPoint> {
    if After(r, n).Running? then After(r, n).st.stack else []
  }

  /** At `p` the run is in front of the loop at `t`. */
  ghost predicate Enters(code: seq<byte>, p: nat, t: nat) {
    p == t || (p + 3 == t && Fetch(code, p).DummyFailureJump?)
  }

  /** The loop at `t` was entered at step `m`, and up to step `n` there was always
      more on the stack than then. */
  ghost predicate Entered(r: Run, m: nat, n: nat, t: nat) {
    && m < n && After(r, m).Running? && Enters(r.code0, After(r, m).st.p, t)
    && forall j | m < j <= n :: After(r, j).Running? && StackAt(r, m) < StackAt(r, j)
  }

  /** The loops `ts` were entered at the steps `ms`, each inside of the one before,
      with less than `top` on the stack. */
  ghost predicate Chain(r: Run, n: nat, ts: seq<nat>, ms: seq<nat>, top: nat) {
    && |ms| == |ts|
    && (forall i | 0 <= i < |ts| :: Entered(r, ms[i], n, ts[i]) && |StackAt(r, ms[i])| < top)
    && forall i, j | 0 <= i < j < |ts| :: |StackAt(r, ms[i])| < |StackAt(r, ms[j])|
  }

  ghost function LoopsAt(r: Run, p: nat): seq<nat> {
    NestAt(r.code0, p).loops
  }

  /** The entries into the loops around the place, and around each failure point. */
  ghost predicate Tracked(r: Run, n: nat, ms: seq<nat>, mss: seq<seq<nat>>) {
    After(r, n).Running? &&
    var st := After(r, n).st;
    && Chain(r, n, LoopsAt(r, st.p), ms, |st.stack|) && |mss| == |st.stack|
    && forall i | 0 <= i < |st.stack| ::
         !st.stack[i].dummy ==> Chain(r, n, LoopsAt(r, st.stack[i].pat), mss[i], i)
  }

  // ----- chains -----

  lemma ChainMore(r: Run, n: nat, ts: seq<nat>, ms: seq<nat>, top: nat, top': nat)
    requires Chain(r, n, ts, ms, top) && top <= top'
    ensures Chain(r, n, ts, ms, top')
  {
    hide Entered, StackAt;
  }

  lemma ChainInner(r: Run, n: nat, ts: seq<nat>, t: nat, ms: seq<nat>, top: nat)
    requires Chain(r, n, ts + [t], ms, top)
    ensures |ms| == |ts| + 1 && Entered(r, ms[|ts|], n, t) && |StackAt(r, ms[|ts|])| < top
    ensures Chain(r, n, ts, ms[..|ts|], |StackAt(r, ms[|ts|])|)
  {
    hide Entered, StackAt;
    var all := ts + [t];
    assert all[|ts|] == t;
    assert forall i | 0 <= i < |ts| :: all[i] == ts[i];
  }

  /** One more step that leaves the lower part of the stack alone. */
  lemma ChainNext(r: Run, n: nat, ts: seq<nat>, ms: seq<nat>, top: nat)
    requires Chain(r, n, ts, ms, top) && After(r, n).Running? && After(r, n + 1).Running?
    requires top <= |StackAt(r, n)| && top <= |StackAt(r, n + 1)|
    requires StackAt(r, n + 1)[..top] == StackAt(r, n)[..top]
    ensures Chain(r, n + 1, ts, ms, top)
  {
    hide StackAt, After;
    forall i | 0 <= i < |ts|
      ensures Entered(r, ms[i], n + 1, ts[i])
    {
      assert Entered(r, ms[i], n, ts[i]);
      var low := StackAt(r, ms[i]);
      assert low < StackAt(r, n);
      assert low == StackAt(r, n)[..|low|] == StackAt(r, n + 1)[..|low|];
    }
  }

  /** The step enters another loop. */
  lemma ChainEnter(r: Run, n: nat, ts: seq<nat>, ms: seq<nat>, t: nat)
    requires After(r, n).Running? && After(r, n + 1).Running? && Enters(r.code0, After(r, n).st.p, t)
    requires Chain(r, n + 1, ts, ms, |StackAt(r, n)|) && StackAt(r, n) < StackAt(r, n + 1)
    ensures Chain(r, n + 1, ts + [t], ms + [n], |StackAt(r, n + 1)|)
  {
    hide StackAt, After, Enters;
    assert Entered(r, n, n + 1, t);
  }

  // ----- what a step does to the stack and the nesting -----

  /** Nothing; one more failure point; a closing jump; a failure, resumed at the point
      `at`; or a loop left at the end of its group. */
  datatype Shift = Same | Pushed | Closed | Failed(at: nat) | Left

  ghost predicate Shifts(code0: seq<byte>, st: VState, st': VState, sh: Shift) {
    var here, next := NestAt(code0, st.p).loops, NestAt(code0, st'.p).loops;
    match sh
    case Same => st'.stack == st.stack && next == here
    case Pushed =>
      && |st'.stack| == |st.stack| + 1 && st'.stack[..|st.stack|] == st.stack
      && (var fp := st'.stack[|st.stack|]; !fp.dummy ==> NestAt(code0, fp.pat).loops == here)
      && (next == here || exists t: nat :: Enters(code0, st.p, t) && next == here + [t])
    case Closed =>
      && here == next + [st'.p]
      && (st'.stack == st.stack || (|st.stack| > 0 && st'.stack == st.stack[..|st.stack| - 1]))
    case Failed(at) =>
      at < |st.stack| && !st.stack[at].dummy && st'.stack == st.stack[..at] && st'.p == st.stack[at].pat
    case Left => st'.stack == st.stack && next == Outer(here)
  }

  lemma {:induction false} FailedTo(env: Env, st: VState) returns (at: nat)
    requires Fail(env, st).Running?
    ensures at < |st.stack| && !st.stack[at].dummy
    ensures Fail(env, st).st.stack == st.stack[..at] && Fail(env, st).st.p == st.stack[at].pat
    decreases |st.stack|
  {
    hide AtLoopEnd, Restore;
    var top := |st.stack| - 1;
    if st.stack[top].dummy || AtLoopEnd(st.code, st.stack[top].pat) {
      at := FailedTo(env, Pop(st));
      assert st.stack[..top][..at] == st.stack[..at];
    } else {
      at := top;
    }
  }

  /** The code, compiled and wired, with its nesting. */
  ghost predicate Structured(code0: seq<byte>) {
    Wired(code0) && forall x: nat :: Starts(code0, x) ==> Nested(code0, x)
  }

  lemma CompiledStructured(e: Re, code: seq<byte>, nsub: nat)
    requires Compiled(e, code, nsub)
    ensures Structured(code) && NestAt(code, 0).loops == []
  {
    hide Wired, LaidOut, Nested;
    CodeWired(e, code);
    forall x: nat | Starts(code, x)
      ensures Nested(code, x)
    {
      CodeNested(e, code, x);
    }
  }

  lemma StepShift(code0: seq<byte>, nregs: nat, env: Env, st: VState) returns (sh: Shift)
    requires Structured(code0) && Grounded(code0, nregs, st) && Step(env, st).Running?
    ensures Shifts(code0, st, Step(env, st).st, sh)
  {
    hide Fetch, Starts, Related, Wired, CanPop, Fail, Push, StepStop, StepMaybePop, StepOnFailure, NestAt;
    hide StackGrounded;
    SameLength(code0, st.code);
    StartAtMost(code0, st.p);
    assert Nested(code0, st.p);
    if Step(env, st) == Fail(env, st) {
      var at := FailedTo(env, st);
      sh := Failed(at);
    } else if st.p == |code0| {
      var at := FailedTo(env, st.(hasBest := true, best := st.d));
      sh := Failed(at);
    } else if Fetch(code0, st.p).MaybePopJump? {
      TwinClosing(code0, nregs, env, st);
      sh := Closed;
    } else {
      sh := PlainShift(code0, nregs, env, st);
    }
  }

  lemma PlainShift(code0: seq<byte>, nregs: nat, env: Env, st: VState) returns (sh: Shift)
    requires Structured(code0) && Grounded(code0, nregs, st) && Step(env, st).Running?
    requires st.p < |code0| == |st.code| && st.d <= |env.s.text| && Nested(code0, st.p)
    requires !Fetch(code0, st.p).MaybePopJump? && Step(env, st) != Fail(env, st)
    ensures Shifts(code0, st, Step(env, st).st, sh)
  {
    hide Fetch, Starts, Related, Wired, CanPop, Fail, StepStop, StepMaybePop, StepOnFailure, NestAt, StackGrounded;
    WiredWhole(code0);
    FetchRelated(code0, st.code, st.p);
    NotSettled(code0, st.p);
    sh := Same;
    match Fetch(st.code, st.p) {
      case StopMemory(reg, _) => sh := StopShift(code0, nregs, env, st, reg);
      case OnFailureJump(off) =>
        OnFailureShift(code0, nregs, env, st, off);
        sh := Pushed;
      case DummyFailureJump(off) =>
        var t := st.p + 3;
        assert Enters(code0, st.p, t);
        sh := Pushed;
      case PushDummyFailure => sh := Pushed;
      case _ =>
    }
  }

  lemma NotSettled(code0: seq<byte>, p: nat)
    requires Wired(code0) && Starts(code0, p)
    ensures !Fetch(code0, p).Jump? && !Fetch(code0, p).PopFailureJump?
  {
    hide Fetch, Starts;
    assert Sound(code0, p);
  }

  lemma OnFailureShift(code0: seq<byte>, nregs: nat, env: Env, st: VState, off: int)
    requires Structured(code0) && Grounded(code0, nregs, st) && st.p < |code0| && Nested(code0, st.p)
    requires Fetch(code0, st.p) == OnFailureJump(off) && StepOnFailure(env, st, off).Running?
    ensures Shifts(code0, st, StepOnFailure(env, st, off).st, Pushed)
  {
    hide Fetch, Starts, Related, Wired, NestAt, StackGrounded;
    assert Enters(code0, st.p, st.p);
  }

  /** The end of a group: on to the next command, or out of its loop. */
  lemma StopShift(code0: seq<byte>, nregs: nat, env: Env, st: VState, reg: byte) returns (sh: Shift)
    requires Structured(code0) && Grounded(code0, nregs, st) && st.p < |code0| == |st.code| && Nested(code0, st.p)
    requires Fetch(st.code, st.p).StopMemory? && Fetch(code0, st.p) == Fetch(st.code, st.p)
    requires StepStop(env, st, reg).Running?
    ensures Shifts(code0, st, StepStop(env, st, reg).st, sh)
  {
    hide Fetch, Starts, Related, Wired, LoopExit, Fail, NestAt, StackGrounded, Nested;
    var st', exit := CloseGroup(st, reg), LoopExit(st.code, st.p, reg);
    StopNest(code0, st.p);
    if (!st.info[reg].matched || PeekIsStart(st.code, st.p)) && exit >= 0 {
      ExitNest(code0, st.code, st.p, reg);
      var st'' := Push(env, st', false, exit, st.d).st;
      var at := FailedTo(env, st'');
      if at == |st.stack| {
        assert st''.stack[..at] == st.stack;
        sh := Left;
      } else {
        assert st''.stack[..at] == st.stack[..at];
        sh := Failed(at);
      }
    } else {
      sh := Same;
    }
  }

  lemma StopNest(code0: seq<byte>, p: nat)
    requires Nested(code0, p) && Fetch(code0, p).StopMemory?
    ensures NestAt(code0, p + 3).loops == NestAt(code0, p).loops
  {
    hide Fetch, NestAt;
  }

  lemma ExitNest(code0: seq<byte>, code: seq<byte>, p: nat, reg: byte)
    requires Structured(code0) && Related(code0, code) && Starts(code0, p) && p < |code0| == |code|
    requires Fetch(code0, p).StopMemory? && Fetch(code, p).StopMemory? && LoopExit(code, p, reg) >= 0
    ensures NestAt(code0, LoopExit(code, p, reg)).loops == Outer(NestAt(code0, p).loops)
  {
    hide Fetch, Starts, Related, NestAt;
    StopNest(code0, p);
    WiredWhole(code0);
    FetchGrounded(code0, code, p);
    NoFetch(code);
    StartAtMost(code0, p + 3);
    assert Nested(code0, p + 3);
    FetchGrounded(code0, code, p + 3);
    FetchRelated(code0, code, p + 3);
    var t := p + 6 + Fetch(code, p + 3).off;
    StartAtMost(code0, t);
    FetchGrounded(code0, code, t);
    FetchRelated(code0, code, t);
    assert Nested(code0, t);
    var n := NestAt(code0, t).loops;
    assert Outer(n + [t]) == n;
  }

  // ----- every run -----

  /** The entries after one more step. */
  lemma TrackStep(r: Run, n: nat, ms: seq<nat>, mss: seq<seq<nat>>, sh: Shift) returns (ms': seq<nat>, mss': seq<seq<nat>>)
    requires Tracked(r, n, ms, mss) && After(r, n + 1).Running?
    requires Shifts(r.code0, After(r, n).st, After(r, n + 1).st, sh)
    ensures Tracked(r, n + 1, ms', mss')
  {
    hide After, Chain, NestAt, Enters;
    var st, st' := After(r, n).st, After(r, n + 1).st;
    var top := |st.stack|;
    match sh
    case Same =>
      KeepPoints(r, n, ms, mss, top);
      ChainNext(r, n, LoopsAt(r, st.p), ms, top);
      ms', mss' := ms, mss;
    case Left =>
      KeepPoints(r, n, ms, mss, top);
      ChainNext(r, n, LoopsAt(r, st.p), ms, top);
      ms' := ChainOuter(r, n + 1, LoopsAt(r, st.p), ms, top);
      mss' := mss;
    case Pushed => ms', mss' := TrackPush(r, n, ms, mss);
    case Closed => ms', mss' := TrackClose(r, n, ms, mss);
    case Failed(at) =>
      KeepPoints(r, n, ms, mss, at);
      ChainNext(r, n, LoopsAt(r, st.stack[at].pat), mss[at], at);
      ms', mss' := mss[at], mss[..at];
  }

  /** The points that stay keep their entries. */
  lemma KeepPoints(r: Run, n: nat, ms: seq<nat>, mss: seq<seq<nat>>, top: nat)
    requires Tracked(r, n, ms, mss) && After(r, n + 1).Running?
    requires top <= |StackAt(r, n)| && top <= |StackAt(r, n + 1)| && StackAt(r, n + 1)[..top] == StackAt(r, n)[..top]
    ensures forall i | 0 <= i < top ::
      !StackAt(r, n + 1)[i].dummy ==> Chain(r, n + 1, LoopsAt(r, StackAt(r, n + 1)[i].pat), mss[i], i)
  {
    hide After, Chain, NestAt, LoopsAt;
    forall i | 0 <= i < top && !StackAt(r, n + 1)[i].dummy
      ensures Chain(r, n + 1, LoopsAt(r, StackAt(r, n + 1)[i].pat), mss[i], i)
    {
      assert StackAt(r, n + 1)[i] == StackAt(r, n + 1)[..top][i] == StackAt(r, n)[i];
      assert StackAt(r, n + 1)[..top][..i] == StackAt(r, n + 1)[..i] && StackAt(r, n)[..top][..i] == StackAt(r, n)[..i];
      ChainNext(r, n, LoopsAt(r, StackAt(r, n)[i].pat), mss[i], i);
    }
  }

  lemma ChainOuter(r: Run, n: nat, ts: seq<nat>, ms: seq<nat>, top: nat) returns (ms': seq<nat>)
    requires Chain(r, n, ts, ms, top)
    ensures Chain(r, n, Outer(ts), ms', top)
  {
    hide Entered, StackAt;
    ms' := ms[..|Outer(ts)|];
  }

  lemma TrackPush(r: Run, n: nat, ms: seq<nat>, mss: seq<seq<nat>>) returns (ms': seq<nat>, mss': seq<seq<nat>>)
    requires Tracked(r, n, ms, mss) && After(r, n + 1).Running?
    requires Shifts(r.code0, After(r, n).st, After(r, n + 1).st, Pushed)
    ensures Tracked(r, n + 1, ms', mss')
  {
    hide After, Chain, NestAt, Enters;
    var st, st' := After(r, n).st, After(r, n + 1).st;
    var top, ts := |st.stack|, LoopsAt(r, st.p);
    KeepPoints(r, n, ms, mss, top);
    ChainNext(r, n, ts, ms, top);
    ms', mss' := ms, mss + [ms];
    if LoopsAt(r, st'.p) == ts {
      ChainMore(r, n + 1, ts, ms, top, top + 1);
    } else {
      var t: nat :| Enters(r.code0, st.p, t) && LoopsAt(r, st'.p) == ts + [t];
      assert st.stack < st'.stack;
      ChainEnter(r, n, ts, ms, t);
      ms' := ms + [n];
    }
  }

  lemma TrackClose(r: Run, n: nat, ms: seq<nat>, mss: seq<seq<nat>>) returns (ms': seq<nat>, mss': seq<seq<nat>>)
    requires Tracked(r, n, ms, mss) && After(r, n + 1).Running?
    requires Shifts(r.code0, After(r, n).st, After(r, n + 1).st, Closed)
    ensures Tracked(r, n + 1, ms', mss')
  {
    hide After, Chain, NestAt;
    var st, st' := After(r, n).st, After(r, n + 1).st;
    var top, ts := |st'.stack|, LoopsAt(r, st'.p);
    KeepPoints(r, n, ms, mss, top);
    ChainInner(r, n, ts, st'.p, ms, |st.stack|);
    var h := |StackAt(r, ms[|ts|])|;
    ms', mss' := ms[..|ts|], mss[..top];
    assert h <= top;
    assert st'.stack[..h] == st.stack[..h];
    ChainNext(r, n, ts, ms', h);
    ChainMore(r, n + 1, ts, ms', h, top);
  }

  /** Along every run the entries can be told. */
  lemma {:induction false} Track(r: Run, nregs: nat, n: nat) returns (ms: seq<nat>, mss: seq<seq<nat>>)
    requires Structured(r.code0) && NestAt(r.code0, r.st0.p).loops == [] && r.st0.stack == []
    requires Grounded(r.code0, nregs, r.st0) && After(r, n).Running?
    ensures Tracked(r, n, ms, mss) && Grounded(r.code0, nregs, After(r, n).st)
    decreases n
  {
    hide Step, Grounded, Structured, NestAt, Chain, Shifts;
    if n == 0 {
      ms, mss := [], [];
      assert Chain(r, 0, [], [], 0) by { ChainNone(r); }
    } else {
      Before(r, n - 1);
      ms, mss := Track(r, nregs, n - 1);
      var st := After(r, n - 1).st;
      StepGroundedNext(r, nregs, st);
      var sh := StepShift(r.code0, nregs, r.env, st);
      ms, mss := TrackStep(r, n - 1, ms, mss, sh);
    }
  }

  lemma ChainNone(r: Run)
    ensures Chain(r, 0, [], [], 0)
  {}

  lemma Before(r: Run, n: nat)
    requires After(r, n + 1).Running?
    ensures After(r, n).Running? && Step(r.env, After(r, n).st) == After(r, n + 1)
  {
    hide Step;
    if !After(r, n).Running? {
      StoppedStays(r.env, r.st0, n);
    } else {
      Next(r, n);
    }
  }

  lemma {:induction false} StoppedStays(env: Env, st: VState, n: nat)
    requires !Steps(env, st, n).Running?
    ensures Steps(env, st, n + 1) == Steps(env, st, n)
    decreases n
  {
    hide Step;
    if n > 0 && Step(env, st).Running? { StoppedStays(env, Step(env, st).st, n - 1); }
  }

  lemma StepGroundedNext(r: Run, nregs: nat, st: VState)
    requires Structured(r.code0) && Grounded(r.code0, nregs, st) && Step(r.env, st).Running?
    ensures Grounded(r.code0, nregs, Step(r.env, st).st)
  {
    hide Step, Grounded, Wired, Nested;
    StepGrounded(r.code0, r.env, st, nregs);
  }

  // ----- closing jumps -----

  /** At step `n` the run is at the closing jump of the loop at `t`. */
  ghost predicate AtClosing(r: Run, n: nat, t: nat) {
    && After(r, n).Running?
    && Fetch(r.code0, After(r, n).st.p).MaybePopJump?
    && t == After(r, n).st.p + 3 + Fetch(r.code0, After(r, n).st.p).off
  }

  /** The step goes back to the loop, and drops the newest failure point or not. */
  ghost predicate GoesRound(r: Run, n: nat, t: nat) {
    && After(r, n).Running? && After(r, n + 1).Running? && After(r, n + 1).st.p == t
    && StackAt(r, n + 1) ==
       if CanPop(r.code0, After(r, n).st.p) && |StackAt(r, n)| > 0 then StackAt(r, n)[..|StackAt(r, n)| - 1]
       else StackAt(r, n)
  }

  /** The loop was entered at some step `m`, with more on the stack ever since than
      there was then; everything that was on it then is still there after the closing
      jump, and what the jump drops came later. */
  lemma PopsItsOwn(e: Re, code0: seq<byte>, nsub: nat, env: Env, code: seq<byte>, n: nat, t: nat) returns (m: nat)
    requires Compiled(e, code0, nsub) && Related(code0, code) && env.start <= |env.s.text|
    requires AtClosing(Run(code0, env, Entry(env, code, nsub)), n, t)
    ensures var r := Run(code0, env, Entry(env, code, nsub));
      Entered(r, m, n, t) && GoesRound(r, n, t) && StackAt(r, m) <= StackAt(r, n + 1)
  {
    hide Compiled, Related, Step, Structured, NestAt, Fetch, Entered, Grounded, Steps, Returns, GoesRound, StackAt;
    var r := Run(code0, env, Entry(env, code, nsub));
    CompiledStructured(e, code0, nsub);
    EntryTwin(code0, nsub, env, code, code);
    m := EnteredSince(r, nsub + 1, n, t);
    var end, out := MatchReturns(e, code0, nsub, env, code);
    OnTheWay(env, r.st0, n, After(r, n).st, end);
    PositionOk(env, After(r, n).st);
    Closes(r, nsub + 1, n, m, t);
  }

  lemma PositionOk(env: Env, st: VState)
    ensures !Step(env, st).Undefined? ==> st.d <= |env.s.text|
  {}

  /** The run, from a state with an empty stack and outside of all loops. */
  ghost predicate FromStart(r: Run, nregs: nat) {
    && Structured(r.code0) && NestAt(r.code0, r.st0.p).loops == [] && r.st0.stack == []
    && Grounded(r.code0, nregs, r.st0)
  }

  lemma EnteredSince(r: Run, nregs: nat, n: nat, t: nat) returns (m: nat)
    requires FromStart(r, nregs) && AtClosing(r, n, t)
    ensures Entered(r, m, n, t)
  {
    hide Step, Structured, NestAt, Fetch, CanPop, Chain, Entered, Grounded, After;
    var ms, mss := Track(r, nregs, n);
    ClosingNest(r, nregs, n, t);
    ChainInner(r, n, LoopsAt(r, t), t, ms, |After(r, n).st.stack|);
    m := ms[|LoopsAt(r, t)|];
  }

  lemma ClosingNest(r: Run, nregs: nat, n: nat, t: nat)
    requires Structured(r.code0) && AtClosing(r, n, t) && Grounded(r.code0, nregs, After(r, n).st)
    ensures LoopsAt(r, After(r, n).st.p) == LoopsAt(r, t) + [t]
  {
    hide Fetch, Starts, Related, Wired, StackGrounded, NestAt, After;
    assert Nested(r.code0, After(r, n).st.p);
  }

  lemma Closes(r: Run, nregs: nat, n: nat, m: nat, t: nat)
    requires FromStart(r, nregs) && AtClosing(r, n, t) && After(r, n).st.d <= |r.env.s.text| && Entered(r, m, n, t)
    ensures GoesRound(r, n, t) && StackAt(r, m) <= StackAt(r, n + 1)
  {
    hide Step, Structured, NestAt, Fetch, CanPop, Entered, Grounded, After, Chain;
    var _, _ := Track(r, nregs, n);
    StackLess(r, m, n, t);
    Next(r, n);
    ClosingStepped(r.code0, nregs, r.env, After(r, n).st, t);
  }

  lemma ClosingStepped(code0: seq<byte>, nregs: nat, env: Env, st: VState, t: nat)
    requires Structured(code0) && Grounded(code0, nregs, st) && st.d <= |env.s.text| && |st.stack| > 0
    requires Fetch(code0, st.p).MaybePopJump? && t == st.p + 3 + Fetch(code0, st.p).off
    ensures Step(env, st).Running? && Step(env, st).st.p == t
    ensures Step(env, st).st.stack == if CanPop(code0, st.p) then st.stack[..|st.stack| - 1] else st.stack
  {
    hide Fetch, Starts, Related, Wired, CanPop, StackGrounded, Step, Nested;
    StartAtMost(code0, st.p);
    NoFetch(code0);
    TwinClosing(code0, nregs, env, st);
  }

  lemma StackLess(r: Run, m: nat, n: nat, t: nat)
    requires Entered(r, m, n, t)
    ensures StackAt(r, m) < StackAt(r, n) && StackAt(r, m) <= StackAt(r, n)[..|StackAt(r, n)| - 1]
  {
    hide StackAt, After;
    var low, all := StackAt(r, m), StackAt(r, n);
    assert low < all;
    assert all[..|all| - 1][..|low|] == all[..|low|];
  }

  lemma Next(r: Run, n: nat)
    requires After(r, n).Running?
    ensures After(r, n + 1) == Step(r.env, After(r, n).st)
  {
    hide Step;
    StepsAdd(r.env, r.st0, n, After(r, n).st, 1);
    OneStep(r.env, After(r, n).st);
  }
}
