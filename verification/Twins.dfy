/** Rewriting is invisible.

    Two runs on the same compiled code, of which matching has overwritten different
    closing jumps, go through the same states but for the code, and return the same. */
module Twins {
  import opened Octets
  import opened RegexLang
  import opened Bytecode
  import opened Machine
  import opened Rewriting
  import opened Invariant
  import opened Layout
  import opened MatchTheorem

  /** The same state on another copy of the code. */
  ghost predicate Twin(code0: seq<byte>, nregs: nat, a: VState, b: VState) {
    a == b.(code := a.code) && Grounded(code0, nregs, a) && Related(code0, b.code)
  }

  ghost predicate SameStatus(code0: seq<byte>, nregs: nat, x: Status, y: Status) {
    match x
    case Running(a) => y.Running? && a == y.st.(code := a.code) && Related(code0, y.st.code)
    case Done(r, _) => y.Done? && y.result == r
    case Undefined => y.Undefined?
  }

  /** A jump settled or not: one of the three forms of the same closing jump. */
  ghost predicate Closing(i: Instr, off: int) {
    i == Jump(off) || i == PopFailureJump(off) || i == MaybePopJump(off)
  }

  /** The two copies read alike, except at closing jumps. */
  lemma TwinFetch(code0: seq<byte>, a: seq<byte>, b: seq<byte>, p: nat)
    requires Wired(code0) && Related(code0, a) && Related(code0, b) && Starts(code0, p)
    ensures |a| == |b| == |code0|
    ensures Fetch(a, p) == Fetch(b, p) ||
            (p < |code0| && Fetch(code0, p).MaybePopJump? && Closing(Fetch(a, p), Fetch(code0, p).off)
             && Closing(Fetch(b, p), Fetch(code0, p).off))
  {
    hide Fetch, Starts, Related, CanPop;
    SameLength(code0, a);
    SameLength(code0, b);
    StartAtMost(code0, p);
    if p < |code0| {
      FetchRelated(code0, a, p);
      FetchRelated(code0, b, p);
    } else {
      NoFetch(a);
      NoFetch(b);
    }
  }

  /** Jumps back to a failure jump are the closing jumps, settled or not. */
  lemma LoopEnds(code0: seq<byte>, a: seq<byte>, p: nat)
    requires Wired(code0) && Related(code0, a) && Starts(code0, p)
    ensures AtLoopEnd(a, p) <==> p < |code0| && Fetch(code0, p).MaybePopJump?
  {
    hide Fetch, Starts, Related, CanPop;
    SameLength(code0, a);
    StartAtMost(code0, p);
    NoFetch(a);
    if p < |code0| {
      assert Sound(code0, p);
      FetchRelated(code0, a, p);
      if Fetch(code0, p).MaybePopJump? {
        var t := p + 3 + Fetch(code0, p).off;
        NoFetch(code0);
        StartAtMost(code0, t);
        FetchRelated(code0, a, t);
      }
    }
  }

  lemma TwinLoopEnd(code0: seq<byte>, a: seq<byte>, b: seq<byte>, p: nat)
    requires Wired(code0) && Related(code0, a) && Related(code0, b) && Starts(code0, p)
    ensures AtLoopEnd(a, p) == AtLoopEnd(b, p)
  {
    hide Fetch, Starts, Related, Wired, AtLoopEnd;
    LoopEnds(code0, a, p);
    LoopEnds(code0, b, p);
  }

  lemma {:induction false} TwinFail(code0: seq<byte>, nregs: nat, env: Env, a: VState, b: VState)
    requires Wired(code0) && a == b.(code := a.code) && Related(code0, a.code) && Related(code0, b.code)
    requires StackGrounded(code0, nregs, a.stack)
    ensures SameStatus(code0, nregs, Fail(env, a), Fail(env, b))
    decreases |a.stack|
  {
    hide Starts, Related, Wired, AtLoopEnd, Restore;
    if |a.stack| > 0 {
      var fp := a.stack[|a.stack| - 1];
      assert fp in a.stack && PointGrounded(code0, nregs, fp);
      if !fp.dummy { TwinLoopEnd(code0, a.code, b.code, fp.pat); }
      if fp.dummy || AtLoopEnd(a.code, fp.pat) { TwinFail(code0, nregs, env, Pop(a), Pop(b)); }
    }
  }

  /** The exit of a group that must leave its loop is the same. */
  lemma TwinExit(code0: seq<byte>, a: seq<byte>, b: seq<byte>, p: nat, reg: byte)
    requires Wired(code0) && Related(code0, a) && Related(code0, b) && Starts(code0, p) && Fetch(a, p).StopMemory?
    ensures LoopExit(a, p, reg) == LoopExit(b, p, reg)
  {
    hide Fetch, Starts, Related, Wired;
    TwinFetch(code0, a, b, p);
    StartAtMost(code0, p);
    NoFetch(a);
    FetchGrounded(code0, a, p);
    TwinFetch(code0, a, b, p + 3);
    StartAtMost(code0, p + 3);
    if p + 3 < |code0| {
      FetchGrounded(code0, a, p + 3);
      FetchGrounded(code0, b, p + 3);
      var i := Fetch(a, p + 3);
      if i.Jump? || i.PopFailureJump? || i.MaybePopJump? || i.DummyFailureJump? {
        var t := p + 6 + i.off;
        TwinFetch(code0, a, b, t);
        StartAtMost(code0, t);
        if Fetch(a, t).OnFailureJump? {
          NoFetch(a);
          FetchGrounded(code0, a, t);
          TwinFetch(code0, a, b, t + 3);
        }
      }
    } else {
      NoFetch(b);
    }
  }

  /** The byte two before a `stop_memory` is never overwritten. */
  lemma TwinPeek(code0: seq<byte>, a: seq<byte>, b: seq<byte>, p: nat)
    requires Wired(code0) && Related(code0, a) && Related(code0, b) && Starts(code0, p) && 2 <= p <= |code0|
    ensures |a| == |b| == |code0| && a[p - 2] == b[p - 2]
  {
    hide Fetch;
    if Starts(code0, p - 2) && Fetch(code0, p - 2).MaybePopJump? { NothingInside(code0, 0, p - 2, p); }
  }

  lemma TwinStop(code0: seq<byte>, nregs: nat, env: Env, a: VState, b: VState, reg: byte)
    requires Wired(code0) && Twin(code0, nregs, a, b) && a.p < |code0| && Fetch(a.code, a.p).StopMemory?
    ensures SameStatus(code0, nregs, StepStop(env, a, reg), StepStop(env, b, reg))
  {
    hide Fetch, Starts, Related, Wired, LoopExit, Fail, StackGrounded;
    SameLength(code0, a.code);
    SameLength(code0, b.code);
    if 0 < reg < |a.info| && a.p >= 2 {
      TwinPeek(code0, a.code, b.code, a.p);
      TwinExit(code0, a.code, b.code, a.p, reg);
      ExitLands(code0, a.code, a.p, reg);
      var a', b', exit := CloseGroup(a, reg), CloseGroup(b, reg), LoopExit(a.code, a.p, reg);
      assert a' == b'.(code := a'.code);
      if exit >= 0 && Push(env, a', false, exit, a.d).Running? {
        PushGrounded(code0, env, a', false, exit, a.d, nregs);
        TwinFail(code0, nregs, env, Push(env, a', false, exit, a.d).st, Push(env, b', false, exit, b.d).st);
      }
    }
  }

  /** What settling, or having settled, a closing jump does. */
  lemma TwinClosing(code0: seq<byte>, nregs: nat, env: Env, a: VState)
    requires Wired(code0) && Grounded(code0, nregs, a) && a.p < |code0| && Fetch(code0, a.p).MaybePopJump?
    requires a.d <= |env.s.text|
    ensures var t := a.p + 3 + Fetch(code0, a.p).off;
      var x := Step(env, a);
      if CanPop(code0, a.p) && |a.stack| == 0 then x.Undefined?
      else
        && x.Running? && Related(code0, x.st.code) && t >= 0
        && x.st == a.(code := x.st.code, p := t,
                      stack := if CanPop(code0, a.p) then a.stack[..|a.stack| - 1] else a.stack)
  {
    hide Fetch, Starts, Related, Wired, CanPop, StackGrounded;
    WiredWhole(code0);
    FetchRelated(code0, a.code, a.p);
    SameLength(code0, a.code);
    FetchGrounded(code0, a.code, a.p);
    var off := Fetch(code0, a.p).off;
    if Fetch(a.code, a.p).MaybePopJump? {
      StartsNext(code0, a.p + 3 + off);
      ClosingKept(code0, a.code, a.p, off);
      SettleRelated(code0, a.code, a.p);
    }
  }

  lemma WiredWhole(code: seq<byte>)
    requires Wired(code)
    ensures Whole(code)
  {}

  /** A step does the same to both. */
  lemma TwinStep(code0: seq<byte>, nregs: nat, env: Env, a: VState, b: VState)
    requires Wired(code0) && Twin(code0, nregs, a, b)
    ensures SameStatus(code0, nregs, Step(env, a), Step(env, b))
  {
    hide Fetch, Starts, Related, Wired, CanPop, Fail, Push, StepStop, StackGrounded;
    TwinFetch(code0, a.code, b.code, a.p);
    StartAtMost(code0, a.p);
    TwinFail(code0, nregs, env, a, b);
    if a.d > |env.s.text| {
    } else if a.p == |code0| {
      TwinFail(code0, nregs, env, a.(hasBest := true, best := a.d), b.(hasBest := true, best := b.d));
    } else if Fetch(code0, a.p).MaybePopJump? {
      TwinClosing(code0, nregs, env, a);
      TwinClosing(code0, nregs, env, b);
    } else {
      TwinPlain(code0, nregs, env, a, b);
    }
  }

  lemma TwinPlain(code0: seq<byte>, nregs: nat, env: Env, a: VState, b: VState)
    requires Wired(code0) && Twin(code0, nregs, a, b) && a.p < |code0| == |a.code| == |b.code| && a.d <= |env.s.text|
    requires Fetch(a.code, a.p) == Fetch(b.code, a.p) && !Fetch(code0, a.p).MaybePopJump?
    ensures SameStatus(code0, nregs, Step(env, a), Step(env, b))
  {
    hide Fetch, Starts, Related, Wired, CanPop, Fail, StepStop, StackGrounded, StepMaybePop;
    TwinFail(code0, nregs, env, a, b);
    WiredWhole(code0);
    FetchRelated(code0, a.code, a.p);
    match Fetch(a.code, a.p) {
      case StopMemory(reg, _) => TwinStop(code0, nregs, env, a, b, reg);
      case OnFailureJump(off) => TwinOnFailure(code0, nregs, env, a, b, off);
      case _ =>
    }
  }

  lemma TwinOnFailure(code0: seq<byte>, nregs: nat, env: Env, a: VState, b: VState, off: int)
    requires Wired(code0) && Twin(code0, nregs, a, b) && a.p < |code0| && Fetch(a.code, a.p) == OnFailureJump(off)
    ensures SameStatus(code0, nregs, StepOnFailure(env, a, off), StepOnFailure(env, b, off))
  {
    hide Fetch, Starts, Related, Wired, StackGrounded;
    FetchGrounded(code0, a.code, a.p);
    TwinFetch(code0, a.code, b.code, a.p + 3);
  }

  lemma {:induction false} TwinSteps(code0: seq<byte>, nregs: nat, env: Env, a: VState, b: VState, n: nat)
    requires Wired(code0) && Twin(code0, nregs, a, b)
    ensures SameStatus(code0, nregs, Steps(env, a, n), Steps(env, b, n))
    decreases n
  {
    hide Step, Related, Wired, Grounded;
    if n > 0 {
      TwinStep(code0, nregs, env, a, b);
      if Step(env, a).Running? {
        StepGrounded(code0, env, a, nregs);
        TwinSteps(code0, nregs, env, Step(env, a).st, Step(env, b).st, n - 1);
      }
    } else {
      TwinRelated(code0, nregs, a, b);
    }
  }

  lemma TwinRelated(code0: seq<byte>, nregs: nat, a: VState, b: VState)
    requires Twin(code0, nregs, a, b)
    ensures SameStatus(code0, nregs, Running(a), Running(b))
  {}

  /** Matching returns the same whatever earlier matching has overwritten. */
  lemma RewritingInvisible(e: Re, code0: seq<byte>, nsub: nat, env: Env, a: seq<byte>, b: seq<byte>,
                           ra: int, a': seq<byte>, rb: int, b': seq<byte>)
    requires Compiled(e, code0, nsub) && Related(code0, a) && Related(code0, b)
    requires RunsTo(env, nsub, a, ra, a') && RunsTo(env, nsub, b, rb, b')
    ensures ra == rb
  {
    hide Compiled, Related, Wired, Step;
    WiredOf(e, code0, nsub);
    var sa, sb := Entry(env, a, nsub), Entry(env, b, nsub);
    EntryTwin(code0, nsub, env, a, b);
    var m: nat :| Steps(env, sa, m) == Done(ra, a');
    TwinSteps(code0, nsub + 1, env, sa, sb, m);
    var out := Steps(env, sb, m);
    assert out == Done(ra, out.code);
    RunsToOne(env, nsub, b, rb, b', ra, out.code);
  }

  lemma WiredOf(e: Re, code: seq<byte>, nsub: nat)
    requires Compiled(e, code, nsub)
    ensures Wired(code)
  {
    hide Wired, LaidOut;
    CodeWired(e, code);
  }

  lemma EntryTwin(code0: seq<byte>, nsub: nat, env: Env, a: seq<byte>, b: seq<byte>)
    requires Related(code0, a) && Related(code0, b)
    ensures Twin(code0, nsub + 1, Entry(env, a, nsub), Entry(env, b, nsub))
  {
    hide Related;
    StartAtZero(code0);
  }
}
