/** `re_match_2` on two strings, with its variables and its in-place rewriting of
    the code.

    Each command is a method that takes the machine of module `Machine`, run on the
    concatenation of the two strings, through one step.  A position is a pointer
    into one of the strings, and `inFirst` says which string's end `dend` is. */
module Matcher {
  import opened Octets
  import opened RegexLang
  import opened Bytecode
  import opened Machine
  import opened Rewriting
  import opened Layout
  import opened Plays
  import opened MatchTheorem
  import opened Longest

  datatype Ptr = In1(off: nat) | In2(off: nat)

  datatype Record = Record(dummy: bool, pat: nat, str: Ptr, low: nat, high: nat, saved: seq<RegInfo>)

  /** The offset in the concatenation. */
  function At(size1: nat, q: Ptr): nat {
    match q
    case In1(o) => o
    case In2(o) => size1 + o
  }

  function Next(q: Ptr): Ptr {
    match q
    case In1(o) => In1(o + 1)
    case In2(o) => In2(o + 1)
  }

  function PointOf(size1: nat, r: Record): FailPoint {
    FailPoint(r.dummy, r.pat, At(size1, r.str), r.low, r.high, r.saved)
  }

  function Points(size1: nat, stack: seq<Record>): (r: seq<FailPoint>)
    ensures |r| == |stack| && forall i | 0 <= i < |stack| :: r[i] == PointOf(size1, stack[i])
  {
    seq(|stack|, i requires 0 <= i < |stack| => PointOf(size1, stack[i]))
  }

  /** A position between commands: in the first string only if it is not empty,
      and never at the very start of the second when it is not. */
  predicate PtrOk(size1: nat, size2: nat, q: Ptr) {
    match q
    case In1(o) => 0 < size1 && o <= size1
    case In2(o) => o <= size2 && (o > 0 || size1 == 0)
  }

  // ----- facts about the machine -----

  /** What failing depends on. */
  predicate SameFail(a: VState, b: VState) {
    a.stack == b.stack && a.code == b.code && a.info == b.info && a.hasBest == b.hasBest && a.best == b.best
  }

  lemma Differs(text: seq<byte>, d: nat, cs: seq<byte>, k: nat)
    requires k < |cs| && d + k < |text| && text[d + k] != cs[k]
    ensures !(d + |cs| <= |text| && text[d..d + |cs|] == cs)
  {
    if d + |cs| <= |text| { assert text[d..d + |cs|][k] != cs[k]; }
  }

  lemma SameBytes(text: seq<byte>, d: nat, cs: seq<byte>)
    requires d + |cs| <= |text| && forall i | 0 <= i < |cs| :: text[d + i] == cs[i]
    ensures text[d..d + |cs|] == cs
  {}

  /** Past a `stop_memory`, by the group with its flags put back. */
  lemma StopUnfold(env: Env, st: VState, reg: byte)
    requires !StepStop(env, st, reg).Undefined?
    ensures 0 < reg < |st.info| && 2 <= st.p <= |st.code|
    ensures var st', exit := CloseGroup(st, reg), LoopExit(st.code, st.p, reg);
      if (!st.info[reg].matched || PeekIsStart(st.code, st.p)) && exit >= 0
      then
        && StepStop(env, st, reg) == PushThenFail(env, st', exit)
        && (|st'.stack| < env.limit ==> RangeOk(st'))
      else StepStop(env, st, reg) == Running(st'.(p := st.p + 3))
  {
    hide LoopExit, Fail, CloseGroup;
    CloseGroupKeeps(st, reg);
  }

  lemma MaybePopUnfold(st: VState, off: int)
    requires st.p < |st.code| && !StepMaybePop(st, off).Undefined?
    ensures st.p + 3 + off >= 0 && (CanPop(st.code, st.p) ==> |st.stack| > 0)
    ensures StepMaybePop(st, off) ==
      if CanPop(st.code, st.p) then StepPopJump(st.(code := st.code[st.p := POP_FAILURE_JUMP]), off)
      else JumpTo(st.(code := st.code[st.p := JUMP]), st.p + 3 + off)
  {
    hide CanPop;
  }

  lemma PtrWithin(size1: nat, size2: nat, q: Ptr)
    requires PtrOk(size1, size2, q)
    ensures q.off <= if q.In1? then size1 else size2
    ensures At(size1, q) <= size1 + size2
  {}

  lemma NextOk(size1: nat, size2: nat, q: Ptr)
    requires q.off < if q.In1? then size1 else size2
    ensures PtrOk(size1, size2, Next(q)) && Next(q).In1? == q.In1? && At(size1, Next(q)) == At(size1, q) + 1
  {}

  /** A bit of a map, as the matcher tests it. */
  lemma TestedBit(code: seq<byte>, at: nat, bits: seq<byte>, c: byte)
    requires at + |bits| <= |code| && forall k | 0 <= k < |bits| :: code[at + k] == bits[k]
    ensures InMap(bits, c) <==> c < |bits| * 8 && Bit(code[at + c / 8], c % 8)
  {
    hide Bit;
  }

  lemma {:induction false} FailIgnores(env: Env, a: VState, b: VState)
    requires SameFail(a, b)
    ensures Fail(env, a) == Fail(env, b)
    decreases |a.stack|
  {
    hide AtLoopEnd;
    if |a.stack| > 0 {
      var fp := a.stack[|a.stack| - 1];
      if fp.dummy || AtLoopEnd(a.code, fp.pat) { FailIgnores(env, Pop(a), Pop(b)); }
    }
  }

  /** The opcode at a place tells the instruction there. */
  lemma Opcodes(code: seq<byte>, p: nat)
    requires Fetch(code, p) != Bad
    ensures p < |code| && p + Width(Fetch(code, p)) <= |code|
    ensures match Fetch(code, p)
            case ExactN(cs) =>
              && code[p] == EXACTN && code[p + 1] == |cs| > 0
              && forall k | 0 <= k < |cs| :: code[p + 2 + k] == cs[k]
            case AnyChar => code[p] == ANYCHAR
            case Bracket(neg, bits) =>
              && code[p] == (if neg then CHARSET_NOT else CHARSET) && code[p + 1] == |bits|
              && forall k | 0 <= k < |bits| :: code[p + 2 + k] == bits[k]
            case StartMemory(reg, inner) => code[p] == START_MEMORY && code[p + 1] == reg && code[p + 2] == inner
            case StopMemory(reg, inner) => code[p] == STOP_MEMORY && code[p + 1] == reg && code[p + 2] == inner
            case BegLine => code[p] == BEGLINE
            case EndLine => code[p] == ENDLINE
            case PushDummyFailure => code[p] == PUSH_DUMMY_FAILURE
            case Jump(off) => code[p] == JUMP && Number(code[p + 1], code[p + 2]) == off
            case JumpPastAlt(off) => code[p] == JUMP_PAST_ALT && Number(code[p + 1], code[p + 2]) == off
            case OnFailureJump(off) => code[p] == ON_FAILURE_JUMP && Number(code[p + 1], code[p + 2]) == off
            case PopFailureJump(off) => code[p] == POP_FAILURE_JUMP && Number(code[p + 1], code[p + 2]) == off
            case MaybePopJump(off) => code[p] == MAYBE_POP_JUMP && Number(code[p + 1], code[p + 2]) == off
            case DummyFailureJump(off) => code[p] == DUMMY_FAILURE_JUMP && Number(code[p + 1], code[p + 2]) == off
  {
    hide Number;
  }

  lemma TopGrounded(code0: seq<byte>, nregs: nat, points: seq<FailPoint>)
    requires StackGrounded(code0, nregs, points) && |points| > 0
    ensures PointGrounded(code0, nregs, points[|points| - 1])
    ensures StackGrounded(code0, nregs, points[..|points| - 1])
  {
    hide PointGrounded;
    assert points[|points| - 1] in points;
    assert forall fp | fp in points[..|points| - 1] :: fp in points;
  }

  lemma PointsPop(size1: nat, stack: seq<Record>)
    requires |stack| > 0
    ensures Points(size1, stack[..|stack| - 1]) == Points(size1, stack)[..|stack| - 1]
  {}

  lemma PointsPush(size1: nat, stack: seq<Record>, r: Record)
    ensures Points(size1, stack + [r]) == Points(size1, stack) + [PointOf(size1, r)]
  {}

  /** The command at a place, case by case. */
  lemma StepUnfold(env: Env, st: VState)
    requires st.d <= |env.s.text| && st.p < |st.code|
    ensures var i, text, p, d := Fetch(st.code, st.p), env.s.text, st.p, st.d;
      && (i.AnyChar? ==>
            Step(env, st) == if d < |text| && text[d] != 0 then Consume(st, 1, p + 1) else Fail(env, st))
      && (i.Bracket? ==>
            Step(env, st) == if d < |text| && i.neg != InMap(i.bits, text[d])
                             then Consume(st, 1, p + 2 + |i.bits|) else Fail(env, st))
      && (i.BegLine? ==> Step(env, st) == if d == 0 && !env.s.notBol then JumpTo(st, p + 1) else Fail(env, st))
      && (i.EndLine? ==> Step(env, st) == if d == |text| && !env.s.notEol then JumpTo(st, p + 1) else Fail(env, st))
      && (i.StartMemory? ==> Step(env, st) == StepStart(st, i.reg))
      && (i.StopMemory? ==> Step(env, st) == StepStop(env, st, i.reg))
      && (i.Jump? ==> Step(env, st) == JumpTo(st, p + 3 + i.off))
      && (i.JumpPastAlt? ==> Step(env, st) == JumpTo(st, p + 3 + i.off))
      && (i.OnFailureJump? ==> Step(env, st) == StepOnFailure(env, st, i.off))
      && (i.PopFailureJump? ==> Step(env, st) == StepPopJump(st, i.off))
      && (i.MaybePopJump? ==> Step(env, st) == StepMaybePop(st, i.off))
      && (i.DummyFailureJump? ==> Step(env, st) == StepDummyJump(env, st, i.off))
      && (i.PushDummyFailure? ==> Step(env, st) == StepPushDummy(env, st))
  {
    hide Fetch, Fail, Consume, JumpTo, StepStart, StepStop, StepOnFailure, StepPopJump, StepMaybePop;
    hide StepDummyJump, InMap;
  }

  lemma ConsumeDefined(st: VState, n: nat, p: nat)
    requires !Consume(st, n, p).Undefined?
    ensures RangeOk(st)
  {}

  /** Consuming from the same position after a switch to the second string. */
  lemma ConsumeSame(a: VState, b: VState, n: nat, p: nat)
    requires a == b
    ensures Consume(a, n, p) == Consume(b, n, p)
  {}

  lemma HighestDown(info: seq<RegInfo>, r: nat)
    requires 0 < r < |info| && !info[r].active
    ensures HighestActive(info, r) == HighestActive(info, r - 1)
  {}

  lemma HighestStops(info: seq<RegInfo>, r: nat)
    requires r < |info| && (r == 0 || info[r].active)
    ensures HighestActive(info, r) == r
  {}

  /** Leaving a loop: push the place behind it and fail. */
  function PushThenFail(env: Env, st: VState, exit: nat): Status {
    match Push(env, st, false, exit, st.d)
    case Running(st') => Fail(env, st')
    case other => other
  }

  lemma PushDefined(env: Env, st: VState, pat: nat, str: nat)
    ensures !Push(env, st, false, pat, str).Undefined? && |st.stack| < env.limit ==> RangeOk(st)
  {}

  lemma DummyDefined(env: Env, st: VState)
    ensures !StepPushDummy(env, st).Undefined? && |st.stack| < env.limit ==> RangeOk(st)
    ensures forall off :: !StepDummyJump(env, st, off).Undefined? && |st.stack| < env.limit ==> RangeOk(st)
  {}

  lemma WidenedKeeps(st: VState)
    ensures var st' := Widened(st.code, st); st' == st.(low := st'.low, high := st'.high)
  {
    hide Fetch;
  }

  lemma OnFailureUnfold(env: Env, st: VState, off: int)
    ensures StepOnFailure(env, st, off) ==
      match Push(env, Widened(st.code, st), false, st.p + 3 + off, st.d)
      case Running(st'') => Running(st''.(p := st.p + 3))
      case other => other
  {
    hide Fetch, Push;
  }

  lemma AtEndStep(env: Env, st: VState)
    requires st.d <= |env.s.text| && st.p == |st.code|
    ensures Step(env, st) == AtEnd(env, st)
  {}

  /** The first instruction of a loop body, and whether `c` cannot begin it. */
  predicate BodyWithout(body: Instr, c: byte) {
    match body
    case ExactN(cs) => |cs| > 0 && cs[0] != c
    case Bracket(neg, bits) => neg == (c < |bits| * 8 % 256 && Bit(bits[c / 8], c % 8))
    case _ => false
  }

  lemma CanPopUnfold(code: seq<byte>, x: nat)
    requires Fetch(code, x).MaybePopJump? && x + 6 + Fetch(code, x).off >= 0
    ensures var p2 := SkipGroups(code, x + 3);
      CanPop(code, x) ==
        (p2 == |code| ||
         (Fetch(code, p2).ExactN? && |Fetch(code, p2).cs| > 0 &&
          BodyWithout(Fetch(code, x + 6 + Fetch(code, x).off), Fetch(code, p2).cs[0])))
  {
    hide Fetch, SkipGroups, Bit;
  }

  class Matcher {
    const buffer: array<byte>
    const used: nat
    const string1: seq<byte>
    const string2: seq<byte>
    const notBol: bool
    const notEol: bool
    const pos: nat
    const limit: nat
    const info: array<RegInfo>
    ghost const code0: seq<byte>

    var p: nat
    var d: Ptr
    var inFirst: bool
    var stack: seq<Record>
    var low: nat
    var high: nat
    var bestSet: bool
    var matchEnd: Ptr

    ghost predicate Static() {
      && used <= buffer.Length && |code0| == used && Wired(code0)
      && (|string2| == 0 ==> |string1| == 0)
    }

    ghost function Environment(): Env {
      Env(Subject(string1 + string2, notBol, notEol), pos, limit)
    }

    ghost function Code(): (c: seq<byte>)
      requires used <= buffer.Length
      reads buffer
      ensures |c| == used && forall i | 0 <= i < used :: c[i] == buffer[i]
    {
      buffer[..used]
    }

    /** The state of the machine the variables stand for. */
    ghost function View(): VState
      requires used <= buffer.Length
      reads this, buffer, info
    {
      VState(Code(), p, At(|string1|, d), Points(|string1|, stack), low, high, info[..], bestSet, At(|string1|, matchEnd))
    }

    predicate PtrFits(q: Ptr) {
      PtrOk(|string1|, |string2|, q)
    }

    ghost predicate StackFits()
      reads this
    {
      && (forall r | r in stack :: !r.dummy ==> PtrFits(r.str))
      && (bestSet ==> PtrFits(matchEnd))
    }

    /** The position and the end of its string go together. */
    ghost predicate Pointers()
      reads this
    {
      PtrFits(d) && inFirst == d.In1? && StackFits()
    }

    /** Between commands. */
    ghost predicate Ready()
      reads this, buffer, info
    {
      && Static() && Pointers()
      && Grounded(code0, info.Length, View()) && Ordered(Points(|string1|, stack), At(|string1|, d))
    }

    /** When a match fails: `dend` is the end of the second string if a position
        in it is saved. */
    ghost predicate CanFail()
      reads this, buffer, info
    {
      && Static() && StackFits() && Related(code0, Code())
      && StackGrounded(code0, info.Length, Points(|string1|, stack))
      && Ordered(Points(|string1|, stack), |string1| + |string2|)
      && (inFirst ==> forall r | r in stack :: !r.dummy ==> r.str.In1?)
    }

    /** A step of the machine came out as the matcher did. */
    ghost predicate Shows(s: Status, more: bool, result: int)
      requires used <= buffer.Length
      reads this, buffer, info
    {
      if more then s == Running(View()) else s == Done(result, Code())
    }

    lemma ReadyToFail()
      requires Ready()
      ensures CanFail()
    {
      hide Related, StackGrounded, Wired;
      var points := Points(|string1|, stack);
      forall r | r in stack && !r.dummy && inFirst
        ensures r.str.In1?
      {
        var i :| 0 <= i < |stack| && stack[i] == r;
        assert points[i] == PointOf(|string1|, r);
        assert points[i].str <= At(|string1|, d);
      }
    }

    // ----- the data -----

    /** PREFETCH: a character to look at, in the second string if the first is
        exhausted. */
    method Prefetch() returns (ok: bool)
      requires inFirst == d.In1? && (d.In1? ==> d.off <= |string1|) && (d.In2? ==> d.off <= |string2|)
      modifies this`d, this`inFirst
      ensures At(|string1|, d) == old(At(|string1|, d))
      ensures ok <==> At(|string1|, d) < |string1 + string2|
      ensures inFirst == d.In1? && (inFirst ==> old(inFirst))
      ensures ok ==> d.off < if d.In1? then |string1| else |string2|
    {
      while d == if inFirst then In1(|string1|) else In2(|string2|)
        invariant inFirst == d.In1? && (inFirst ==> old(inFirst))
        invariant At(|string1|, d) == old(At(|string1|, d))
        invariant (d.In1? ==> d.off <= |string1|) && (d.In2? ==> d.off <= |string2|)
        decreases inFirst
      {
        if !inFirst { return false; }
        d := In2(0);
        inFirst := false;
      }
      return true;
    }

    function Deref(): (c: byte)
      requires d.off < if d.In1? then |string1| else |string2|
      reads this
      ensures c == (string1 + string2)[At(|string1|, d)]
    {
      if d.In1? then string1[d.off] else string2[d.off]
    }

    /** SET_REGS_MATCHED. */
    method SetRegsMatched()
      requires used <= buffer.Length && RangeOk(View())
      modifies info
      ensures View() == SetMatched(old(View()))
    {
      var r := low;
      while r <= high
        invariant low <= r && (low <= high ==> r <= high + 1)
        invariant forall i | 0 <= i < info.Length ::
          info[i] == if low <= i < r && i <= high then old(info[i]).(matched := true) else old(info[i])
        decreases high + 1 - r
      {
        info[r] := info[r].(matched := true);
        r := r + 1;
      }
      assert info[..] == SetMatched(old(View())).info;
    }

    // ----- the failure stack -----

    /** PUSH_FAILURE_POINT; false when there is no room. */
    method PushFailurePoint(dummy: bool, pat: nat, str: Ptr) returns (ok: bool)
      requires used <= buffer.Length && (|stack| < limit ==> RangeOk(View()))
      requires !dummy ==> PtrFits(str)
      modifies this`stack
      ensures ok ==> Push(Environment(), old(View()), dummy, pat, At(|string1|, str)) == Running(View())
      ensures !ok ==> Push(Environment(), old(View()), dummy, pat, At(|string1|, str)) == Done(OVERFLOW, Code())
      ensures old(StackFits()) ==> StackFits()
    {
      if |stack| >= limit { return false; }
      var saved := [];
      var r := low;
      while r <= high
        invariant low <= r && (low <= high ==> r <= high + 1) && (low > high ==> r == low && saved == [])
        invariant low <= high ==> saved == info[low..r]
        decreases high + 1 - r
      {
        saved := saved + [info[r]];
        r := r + 1;
      }
      var record := Record(dummy, pat, str, low, high, saved);
      PointsPush(|string1|, stack, record);
      stack := stack + [record];
      return true;
    }

    /** POP_FAILURE_POINT. */
    method PopFailurePoint() returns (dummy: bool)
      requires used <= buffer.Length && |stack| > 0
      requires PointGrounded(code0, info.Length, PointOf(|string1|, stack[|stack| - 1]))
      modifies this`stack, this`p, this`d, this`low, this`high, info
      ensures View() == Pop(old(View())) && dummy == old(stack)[|old(stack)| - 1].dummy
      ensures stack == old(stack)[..|old(stack)| - 1]
      ensures p == old(stack)[|old(stack)| - 1].pat
      ensures !dummy ==> d == old(stack)[|old(stack)| - 1].str
    {
      hide Starts;
      var top := stack[|stack| - 1];
      PointsPop(|string1|, stack);
      stack := stack[..|stack| - 1];
      if !top.dummy { d := top.str; }
      p := top.pat;
      high := top.high;
      low := top.low;
      RestoreRegs(top);
      return top.dummy;
    }

    /** Put the saved registers back, from the highest down. */
    method RestoreRegs(top: Record)
      requires top.low <= top.high ==> top.high < info.Length && |top.saved| == top.high + 1 - top.low
      modifies info
      ensures info[..] == Restore(old(info[..]), PointOf(|string1|, top))
    {
      if top.low <= top.high {
        var r: int := top.high;
        while r >= top.low
          invariant top.low - 1 <= r <= top.high
          invariant forall i | 0 <= i < info.Length ::
            info[i] == if r < i <= top.high then top.saved[i - top.low] else old(info[i])
        {
          info[r] := top.saved[r - top.low];
          r := r - 1;
        }
      }
      RestoredBy(old(info[..]), info[..], PointOf(|string1|, top));
    }

    /** Does the code at `p` jump back to the failure jump of a loop? */
    method EndsLoop() returns (b: bool)
      requires Static() && Related(code0, Code()) && Starts(code0, p)
      ensures b == AtLoopEnd(Code(), p)
    {
      hide Fetch, Starts, Related, Wired, Number;
      StartAtMost(code0, p);
      NoFetch(Code());
      if p >= used { return false; }
      FetchGrounded(code0, Code(), p);
      Opcodes(Code(), p);
      var op := buffer[p];
      if op == MAYBE_POP_JUMP || op == POP_FAILURE_JUMP || op == JUMP {
        var t := p + 3 + Number(buffer[p + 1], buffer[p + 2]);
        LoopStart(t);
        return buffer[t] == ON_FAILURE_JUMP;
      }
      return false;
    }

    /** A closing jump leads to a failure jump that reads as compiled. */
    lemma LoopStart(t: nat)
      requires Static() && Related(code0, Code()) && Starts(code0, t) && Fetch(code0, t).OnFailureJump?
      ensures t + 3 <= used && Fetch(Code(), t) == Fetch(code0, t) && buffer[t] == ON_FAILURE_JUMP
      ensures Number(buffer[t + 1], buffer[t + 2]) == Fetch(code0, t).off
      ensures Starts(code0, t + 3) && Lands(code0, t + 3 + Fetch(code0, t).off)
    {
      hide Fetch, Starts, Related, Wired, Number;
      StartAtMost(code0, t);
      NoFetch(code0);
      FetchSame(code0, Code(), t);
      FetchGrounded(code0, Code(), t);
      Opcodes(Code(), t);
    }

    /** One failure point off the stack, with everything kept that failing needs. */
    method PopOne() returns (dummy: bool)
      requires CanFail() && |stack| > 0
      modifies this`stack, this`p, this`d, this`low, this`high, info
      ensures CanFail() && View() == Pop(old(View()))
      ensures dummy == old(View().stack)[|stack|].dummy && |stack| == old(|stack|) - 1
      ensures p == old(View().stack)[|stack|].pat
      ensures !dummy ==> PtrFits(d) && Starts(code0, p) && (inFirst ==> d.In1?)
    {
      hide Starts, Related, Wired, Restore, Ordered, StackGrounded;
      ghost var points := Points(|string1|, stack);
      ghost var top := points[|stack| - 1];
      assert stack[|stack| - 1] in stack;
      TopGrounded(code0, info.Length, points);
      dummy := PopFailurePoint();
      PointsPop(|string1|, old(stack));
      OrderedTail(points, |string1| + |string2|);
    }

    /** The code at label `fail`. */
    method Backtrack(ghost st0: VState) returns (more: bool, result: int)
      requires CanFail() && SameFail(st0, View())
      modifies this, info
      ensures Shows(Fail(Environment(), st0), more, result) && (more ==> Pointers())
    {
      hide Starts, Related, Wired, Restore, AtLoopEnd, StackGrounded, Ordered, Fail, Pop, SameFail, PtrOk;
      FailIgnores(Environment(), st0, View());
      while |stack| > 0
        invariant CanFail() && Fail(Environment(), View()) == Fail(Environment(), st0)
        decreases |stack|
      {
        FailUnfold(Environment(), View());
        var dummy := PopOne();
        if dummy { continue; }
        var again := EndsLoop();
        if again { continue; }
        if d.In1? { inFirst := true; }
        return true, 0;
      }
      FailUnfold(Environment(), View());
      if bestSet {
        result := BestMatch();
        return false, result;
      }
      return false, NO_MATCH;
    }

    /** `restore_best_regs`, and the length returned. */
    method BestMatch() returns (result: int)
      requires bestSet && StackFits()
      modifies this`d, this`inFirst
      ensures result == At(|string1|, matchEnd) - pos
    {
      d := matchEnd;
      inFirst := d.In1?;
      return Matched();
    }

    /** The length from the start of the match to `d`. */
    function Matched(): int
      reads this
    {
      d.off - pos + if inFirst then 0 else |string1|
    }

    // ----- commands -----

    /** The end of the pattern. */
    method AtPatternEnd() returns (more: bool, result: int)
      requires Ready() && p == used
      modifies this, info
      ensures Shows(AtEnd(Environment(), old(View())), more, result) && (more ==> Pointers())
    {
      hide Starts, Related, Wired, StackGrounded, Ordered, Fail;
      ReadyToFail();
      ghost var st0 := View();
      if d != In2(|string2|) {
        if |stack| > 0 {
          var samePart := matchEnd.In1? == inFirst;
          if !bestSet || (samePart && d.off > matchEnd.off) || (!samePart && !inFirst) {
            bestSet := true;
            matchEnd := d;
          }
          more, result := Backtrack(View());
          return;
        } else if bestSet {
          result := BestMatch();
          return false, result;
        }
      }
      return false, Matched();
    }

    /** The comparing loop of `exactn`. */
    method MatchBytes(ghost cs: seq<byte>) returns (ok: bool)
      requires Static() && PtrFits(d) && inFirst == d.In1?
      requires p + 2 + |cs| <= used && buffer[p + 1] == |cs| > 0
      requires forall k | 0 <= k < |cs| :: buffer[p + 2 + k] == cs[k]
      modifies this`p, this`d, this`inFirst
      ensures inFirst ==> old(inFirst)
      ensures var text, d0 := string1 + string2, old(At(|string1|, d));
        && ok == (d0 + |cs| <= |text| && text[d0..d0 + |cs|] == cs)
        && (ok ==> At(|string1|, d) == d0 + |cs| && p == old(p) + 2 + |cs| && PtrFits(d) && inFirst == d.In1?)
    {
      hide Wired, Related, PtrOk, At, Next;
      ghost var d0, p0, k, text := At(|string1|, d), p, 0, string1 + string2;
      var mcnt := buffer[p + 1];
      PtrWithin(|string1|, |string2|, d);
      p := p + 2;
      while true
        invariant PtrFits(d) && inFirst == d.In1? && (inFirst ==> old(inFirst))
        invariant 0 <= k < |cs| && mcnt == |cs| - k && p == p0 + 2 + k
        invariant At(|string1|, d) == d0 + k <= |text| && forall i | 0 <= i < k :: text[d0 + i] == cs[i]
        decreases mcnt
      {
        PtrWithin(|string1|, |string2|, d);
        ok := Prefetch();
        if !ok { return; }
        if Deref() != buffer[p] {
          Differs(text, d0, cs, k);
          return false;
        }
        NextOk(|string1|, |string2|, d);
        d := Next(d);
        p := p + 1;
        k := k + 1;
        mcnt := mcnt - 1;
        if mcnt == 0 { break; }
      }
      SameBytes(text, d0, cs);
      return true;
    }

    method ExactN(ghost cs: seq<byte>) returns (more: bool, result: int)
      requires Ready() && Fetch(Code(), p) == Instr.ExactN(cs) && !Step(Environment(), View()).Undefined?
      modifies this, info
      ensures Shows(Step(Environment(), old(View())), more, result) && (more ==> Pointers())
    {
      hide Fetch, Starts, Related, Wired, StackGrounded, Ordered, Fail, Step;
      ReadyToFail();
      Opcodes(Code(), p);
      ghost var st0 := View();
      ExactStep(Environment(), st0, cs);
      var ok := MatchBytes(cs);
      if !ok {
        more, result := Backtrack(st0);
        return;
      }
      SetRegsMatched();
      return true, 0;
    }

    // ----- one character -----

    /** Take the character at `d` into the match. */
    method TakeChar(width: nat)
      requires Static() && StackFits() && RangeOk(View()) && inFirst == d.In1?
      requires d.off < if d.In1? then |string1| else |string2|
      modifies this`p, this`d, info
      ensures Running(View()) == Consume(old(View()), 1, old(p) + width) && Pointers()
    {
      SetRegsMatched();
      d := Next(d);
      p := p + width;
    }

    method AnyChar() returns (more: bool, result: int)
      requires Ready() && Fetch(Code(), p) == Instr.AnyChar && !Step(Environment(), View()).Undefined?
      modifies this, info
      ensures Shows(Step(Environment(), old(View())), more, result) && (more ==> Pointers())
    {
      hide Fetch, Starts, Related, Wired, StackGrounded, Ordered, Fail, Step, Consume;
      ReadyToFail();
      Opcodes(Code(), p);
      ghost var st0 := View();
      StepUnfold(Environment(), st0);
      var ok := Prefetch();
      if !ok || Deref() == 0 {
        more, result := Backtrack(st0);
        return;
      }
      ConsumeDefined(st0, 1, p + 1);
      ConsumeSame(st0, View(), 1, p + 1);
      TakeChar(1);
      return true, 0;
    }

    /** Is there a byte, and does the set match it? */
    method SetMatches(ghost neg: bool, ghost bits: seq<byte>) returns (ok: bool)
      requires p + 2 + |bits| <= used <= buffer.Length && buffer[p + 1] == |bits|
      requires buffer[p] == if neg then CHARSET_NOT else CHARSET
      requires forall k | 0 <= k < |bits| :: buffer[p + 2 + k] == bits[k]
      requires inFirst == d.In1? && (d.In1? ==> d.off <= |string1|) && (d.In2? ==> d.off <= |string2|)
      modifies this`d, this`inFirst
      ensures At(|string1|, d) == old(At(|string1|, d))
      ensures var text, at := string1 + string2, At(|string1|, d);
        ok <==> at < |text| && neg != InMap(bits, text[at])
      ensures inFirst == d.In1? && (inFirst ==> old(inFirst))
      ensures ok ==> d.off < if d.In1? then |string1| else |string2|
    {
      hide Bit, InMap;
      var not := buffer[p] == CHARSET_NOT;
      ok := Prefetch();
      if !ok { return; }
      var c, bytes: nat := Deref(), buffer[p + 1];
      TestedBit(Code(), p + 2, bits, c);
      if c < bytes * 8 && Bit(buffer[p + 2 + c / 8], c % 8) { not := !not; }
      return not;
    }

    method CharSet(ghost bits: seq<byte>, ghost neg: bool) returns (more: bool, result: int)
      requires Ready() && Fetch(Code(), p) == Instr.Bracket(neg, bits) && !Step(Environment(), View()).Undefined?
      modifies this, info
      ensures Shows(Step(Environment(), old(View())), more, result) && (more ==> Pointers())
    {
      hide Fetch, Starts, Related, Wired, StackGrounded, Ordered, Fail, Step, Consume, InMap;
      ReadyToFail();
      Opcodes(Code(), p);
      ghost var st0 := View();
      StepUnfold(Environment(), st0);
      var bytes: nat := buffer[p + 1];
      var ok := SetMatches(neg, bits);
      if !ok {
        more, result := Backtrack(st0);
        return;
      }
      ConsumeDefined(st0, 1, p + 2 + |bits|);
      ConsumeSame(st0, View(), 1, p + 2 + |bits|);
      TakeChar(2 + bytes);
      return true, 0;
    }

    // ----- anchors -----

    method BegLine() returns (more: bool, result: int)
      requires Ready() && Fetch(Code(), p) == Instr.BegLine
      modifies this, info
      ensures Shows(Step(Environment(), old(View())), more, result) && (more ==> Pointers())
    {
      hide Fetch, Starts, Related, Wired, StackGrounded, Ordered, Fail, Step;
      ReadyToFail();
      Opcodes(Code(), p);
      StepUnfold(Environment(), View());
      if d == (if |string1| > 0 then In1(0) else In2(0)) || |string2| == 0 {
        if !notBol {
          p := p + 1;
          return true, 0;
        }
      }
      more, result := Backtrack(View());
    }

    method EndLine() returns (more: bool, result: int)
      requires Ready() && Fetch(Code(), p) == Instr.EndLine
      modifies this, info
      ensures Shows(Step(Environment(), old(View())), more, result) && (more ==> Pointers())
    {
      hide Fetch, Starts, Related, Wired, StackGrounded, Ordered, Fail, Step;
      ReadyToFail();
      Opcodes(Code(), p);
      StepUnfold(Environment(), View());
      if d == In2(|string2|) {
        if !notEol {
          p := p + 1;
          return true, 0;
        }
      }
      more, result := Backtrack(View());
    }

    // ----- groups -----

    /** A group becomes active, with nothing matched, and ends the active range. */
    method Activate(r: byte)
      requires used <= buffer.Length && r < info.Length
      modifies this`low, this`high, info
      ensures var st := old(View());
        View() == st.(info := st.info[r := RegInfo(true, false, st.d)], high := r,
                      low := if st.low == NO_LOWEST_ACTIVE_REG then r else st.low)
    {
      ghost var was := info[..];
      info[r] := RegInfo(true, false, At(|string1|, d));
      assert info[..] == was[r := RegInfo(true, false, At(|string1|, d))];
      high := r;
      if low == NO_LOWEST_ACTIVE_REG { low := r; }
    }

    method StartMemory(ghost reg: byte, ghost inner: byte) returns (more: bool, result: int)
      requires Ready() && Fetch(Code(), p) == Instr.StartMemory(reg, inner) && !Step(Environment(), View()).Undefined?
      modifies this, info
      ensures Shows(Step(Environment(), old(View())), more, result) && more && Pointers()
    {
      hide Fetch, Starts, Related, Wired, StackGrounded, Ordered, Fail, Step;
      Opcodes(Code(), p);
      StepUnfold(Environment(), View());
      Activate(buffer[p + 1]);
      p := p + 3;
      return true, 0;
    }

    /** A group is no longer active; find the highest group that is. */
    method Deactivate(r0: byte)
      requires used <= buffer.Length && 0 < r0 < info.Length
      modifies this`low, this`high, info
      ensures View() == CloseGroup(old(View()), r0)
    {
      hide HighestActive;
      ghost var was := info[..];
      info[r0] := info[r0].(active := false);
      ghost var now := was[r0 := was[r0].(active := false)];
      assert info[..] == now;
      if low == high {
        low := NO_LOWEST_ACTIVE_REG;
        high := NO_HIGHEST_ACTIVE_REG;
      } else {
        var r := r0 - 1;
        while r > 0 && !info[r].active
          invariant 0 <= r < r0 && info[..] == now && low == old(low)
          invariant HighestActive(now, r) == HighestActive(now, r0 - 1)
        {
          HighestDown(now, r);
          r := r - 1;
        }
        HighestStops(now, r);
        if r == 0 {
          low := NO_LOWEST_ACTIVE_REG;
          high := NO_HIGHEST_ACTIVE_REG;
        } else {
          high := r;
        }
      }
    }

    /** Where a group that closes at `p` would leave its loop for, or -1. */
    method ExitPlace(reg: byte) returns (exit: int)
      requires Static() && Related(code0, Code()) && Starts(code0, p) && Fetch(Code(), p).StopMemory?
      requires buffer[p + 1] == reg
      ensures exit == LoopExit(Code(), p, reg)
    {
      hide Fetch, Starts, Related, Wired, Number;
      StartAtMost(code0, p);
      NoFetch(Code());
      FetchGrounded(code0, Code(), p);
      StartAtMost(code0, p + 3);
      if p + 3 >= used { return -1; }
      FetchGrounded(code0, Code(), p + 3);
      Opcodes(Code(), p + 3);
      var mcnt := 0;
      var op := buffer[p + 3];
      if op == POP_FAILURE_JUMP || op == MAYBE_POP_JUMP || op == JUMP || op == DUMMY_FAILURE_JUMP {
        mcnt := Number(buffer[p + 4], buffer[p + 5]);
      }
      if mcnt >= 0 { return -1; }
      var t := p + 6 + mcnt;
      LoopStart(t);
      FetchGrounded(code0, Code(), t + 3);
      Opcodes(Code(), t + 3);
      if buffer[t] == ON_FAILURE_JUMP && buffer[t + 3] == START_MEMORY && buffer[t + 4] == reg {
        LandsAtLeast(t + 3 + Number(buffer[t + 1], buffer[t + 2]));
        return t + 3 + Number(buffer[t + 1], buffer[t + 2]);
      }
      return -1;
    }

    lemma LandsAtLeast(t: int)
      requires Lands(code0, t)
      ensures t >= 0
    {}

    method StopMemory(ghost reg: byte, ghost inner: byte) returns (more: bool, result: int)
      requires Ready() && Fetch(Code(), p) == Instr.StopMemory(reg, inner) && !Step(Environment(), View()).Undefined?
      modifies this, info
      ensures Shows(Step(Environment(), old(View())), more, result) && (more ==> Pointers())
    {
      hide Fetch, Starts, Related, Wired, StackGrounded, Ordered, Fail, Step, StepStop, LoopExit, CloseGroup;
      hide PushThenFail, RangeOk;
      ReadyToFail();
      Opcodes(Code(), p);
      ghost var st0 := View();
      StepUnfold(Environment(), st0);
      StopUnfold(Environment(), st0, reg);
      CloseGroupKeeps(st0, reg);
      var r := buffer[p + 1];
      Deactivate(r);
      more, result := PastGroup(r, st0);
    }

    /** On behind the end of a group, or out of its loop. */
    method PastGroup(r: byte, ghost st0: VState) returns (more: bool, result: int)
      requires CanFail() && Pointers() && Ordered(Points(|string1|, stack), At(|string1|, d))
      requires Starts(code0, p) && Fetch(Code(), p).StopMemory? && 2 <= p < used && buffer[p + 1] == r
      requires !StepStop(Environment(), st0, r).Undefined? && View() == CloseGroup(st0, r) && st0.code == Code()
      requires st0.p == p && r < info.Length && info[r].matched == st0.info[r].matched
      modifies this, info
      ensures Shows(StepStop(Environment(), st0, r), more, result) && (more ==> Pointers())
    {
      hide Fetch, Starts, Related, Wired, StackGrounded, Ordered, Fail, StepStop, LoopExit, CloseGroup, PushThenFail;
      StopUnfold(Environment(), st0, r);
      ExitLands(code0, Code(), p, r);
      var exit := ExitPlace(r);
      if (!info[r].matched || buffer[p - 2] == START_MEMORY) && exit >= 0 {
        more, result := LeaveLoop(exit);
        return;
      }
      p := p + 3;
      return true, 0;
    }

    /** Push the place behind the loop, and fail to it. */
    method LeaveLoop(exit: nat) returns (more: bool, result: int)
      requires CanFail() && PtrFits(d) && (inFirst ==> d.In1?) && Lands(code0, exit)
      requires Ordered(Points(|string1|, stack), At(|string1|, d))
      requires |stack| < limit ==> RangeOk(View())
      modifies this, info
      ensures Shows(PushThenFail(Environment(), old(View()), exit), more, result) && (more ==> Pointers())
    {
      hide Starts, Related, Wired, Fail, Push;
      ghost var st0 := View();
      var ok := PushFailurePoint(false, exit, d);
      if !ok { return false, OVERFLOW; }
      PushGrounded(code0, Environment(), st0, false, exit, st0.d, info.Length);
      PushOrdered(Environment(), st0, false, exit, st0.d);
      more, result := Backtrack(View());
    }

    // ----- jumps -----

    /** Take the jump whose offset is behind `p`. */
    method TakeJump(ghost off: int)
      requires used <= buffer.Length && p + 3 <= used
      requires off == Number(buffer[p + 1], buffer[p + 2]) && p + 3 + off >= 0
      modifies this`p
      ensures JumpTo(old(View()), old(p) + 3 + off) == Running(View())
    {
      hide Number;
      p := p + 3 + Number(buffer[p + 1], buffer[p + 2]);
    }

    /** The active range as it will be after the group ahead has begun. */
    method WidenRange()
      requires used <= buffer.Length && p + 3 <= used && (p + 3 < used ==> Fetch(Code(), p + 3) != Bad)
      modifies this`low, this`high
      ensures View() == Widened(old(Code()), old(View()))
    {
      hide Fetch;
      NoFetch(Code());
      var p1 := p + 3;
      if p1 < used { Opcodes(Code(), p1); }
      if p1 < used && buffer[p1] == Bytecode.START_MEMORY {
        var reg: nat := buffer[p1 + 1];
        high := reg + buffer[p1 + 2];
        if low == NO_LOWEST_ACTIVE_REG { low := buffer[p1 + 1]; }
      }
    }

    method OnFailureJump(ghost off: int) returns (more: bool, result: int)
      requires Ready() && Fetch(Code(), p) == Instr.OnFailureJump(off) && !Step(Environment(), View()).Undefined?
      modifies this, info
      ensures Shows(Step(Environment(), old(View())), more, result) && (more ==> Pointers())
    {
      hide Fetch, Starts, Related, Wired, StackGrounded, Ordered, Step, Push, Number, Widened, Grounded;
      ghost var st0 := View();
      AtFailureJump(off);
      StepUnfold(Environment(), st0);
      OnFailureUnfold(Environment(), st0, off);
      WidenedKeeps(st0);
      WidenRange();
      PushDefined(Environment(), View(), p + 3 + off, At(|string1|, d));
      var ok := PushFailurePoint(false, p + 3 + Number(buffer[p + 1], buffer[p + 2]), d);
      if !ok { return false, OVERFLOW; }
      p := p + 3;
      return true, 0;
    }

    lemma AtFailureJump(off: int)
      requires Ready() && Fetch(Code(), p) == Instr.OnFailureJump(off)
      ensures p + 3 <= used && off == Number(buffer[p + 1], buffer[p + 2]) && p + 3 + off >= 0
      ensures p + 3 < used ==> Fetch(Code(), p + 3) != Bad
    {
      hide Fetch, Starts, Related, Wired, StackGrounded, Ordered, Number;
      Opcodes(Code(), p);
      FetchGrounded(code0, Code(), p);
      LandsAtLeast(p + 3 + off);
      if p + 3 < used { FetchGrounded(code0, Code(), p + 3); }
    }

    method PushDummy() returns (more: bool, result: int)
      requires Ready() && Fetch(Code(), p) == PushDummyFailure && !Step(Environment(), View()).Undefined?
      modifies this, info
      ensures Shows(Step(Environment(), old(View())), more, result) && (more ==> Pointers())
    {
      hide Fetch, Starts, Related, Wired, StackGrounded, Ordered, Step, Push, Grounded;
      ghost var st0 := View();
      Opcodes(Code(), p);
      StepUnfold(Environment(), st0);
      DummyDefined(Environment(), st0);
      var ok := PushFailurePoint(true, 0, In1(0));
      if !ok { return false, OVERFLOW; }
      p := p + 1;
      return true, 0;
    }

    method DummyJump(ghost off: int) returns (more: bool, result: int)
      requires Ready() && Fetch(Code(), p) == DummyFailureJump(off) && !Step(Environment(), View()).Undefined?
      modifies this, info
      ensures Shows(Step(Environment(), old(View())), more, result) && (more ==> Pointers())
    {
      hide Fetch, Starts, Related, Wired, StackGrounded, Ordered, Step, Push, Number, JumpTo;
      ghost var st0 := View();
      Opcodes(Code(), p);
      FetchGrounded(code0, Code(), p);
      StepUnfold(Environment(), st0);
      DummyDefined(Environment(), st0);
      var ok := PushFailurePoint(true, 0, In1(0));
      if !ok { return false, OVERFLOW; }
      TakeJump(off);
      return true, 0;
    }

    method PlainJump(ghost off: int) returns (more: bool, result: int)
      requires Ready() && !Step(Environment(), View()).Undefined?
      requires Fetch(Code(), p) == Jump(off) || Fetch(Code(), p) == JumpPastAlt(off)
      modifies this, info
      ensures Shows(Step(Environment(), old(View())), more, result) && (more ==> Pointers())
    {
      hide Fetch, Starts, Related, Wired, StackGrounded, Ordered, Step, Number;
      Opcodes(Code(), p);
      StepUnfold(Environment(), View());
      TakeJump(off);
      return true, 0;
    }

    /** `pop_failure_jump`: drop the newest failure point and jump. */
    method PopJump(ghost off: int)
      requires used <= buffer.Length && StackFits() && |stack| > 0 && p + 3 <= used
      requires off == Number(buffer[p + 1], buffer[p + 2]) && p + 3 + off >= 0
      modifies this`p, this`stack
      ensures StepPopJump(old(View()), off) == Running(View()) && StackFits()
    {
      hide Number;
      PointsPop(|string1|, stack);
      stack := stack[..|stack| - 1];
      TakeJump(off);
    }

    method PopFailureJump(ghost off: int) returns (more: bool, result: int)
      requires Ready() && Fetch(Code(), p) == Instr.PopFailureJump(off) && !Step(Environment(), View()).Undefined?
      modifies this, info
      ensures Shows(Step(Environment(), old(View())), more, result) && (more ==> Pointers())
    {
      hide Fetch, Starts, Related, Wired, StackGrounded, Ordered, Step, Number;
      Opcodes(Code(), p);
      StepUnfold(Environment(), View());
      PopJump(off);
      return true, 0;
    }

    /** Skip the group commands from `p2` on. */
    method SkipOver(p1: nat) returns (p2: nat)
      requires Static() && Related(code0, Code()) && Starts(code0, p1)
      ensures p2 == SkipGroups(Code(), p1) && Starts(code0, p2) && p2 <= used
    {
      hide Fetch, Starts, Related, Wired;
      p2 := p1;
      StartAtMost(code0, p2);
      NoFetch(Code());
      if p2 < used { FetchGrounded(code0, Code(), p2); Opcodes(Code(), p2); }
      while p2 + 2 < used && (buffer[p2] == STOP_MEMORY || buffer[p2] == START_MEMORY)
        invariant Starts(code0, p2) && p2 <= used && SkipGroups(Code(), p2) == SkipGroups(Code(), p1)
        invariant p2 < used ==> Fetch(Code(), p2) != Bad && Starts(code0, p2 + Width(Fetch(Code(), p2)))
        decreases used - p2
      {
        Opcodes(Code(), p2);
        StartAtMost(code0, p2 + 3);
        p2 := p2 + 3;
        if p2 < used { FetchGrounded(code0, Code(), p2); }
      }
      if p2 < used { Opcodes(Code(), p2); }
    }

    /** Can the byte `c` begin the loop body at `b`, as `maybe_pop_jump` looks at it? */
    method BodyExcludes(b: nat, c: byte) returns (pop: bool)
      requires used <= buffer.Length && Fetch(Code(), b) != Bad
      ensures pop == BodyWithout(Fetch(Code(), b), c)
    {
      hide Fetch, Bit;
      Opcodes(Code(), b);
      if buffer[b] == EXACTN && buffer[b + 2] != c { return true; }
      if buffer[b] == CHARSET || buffer[b] == CHARSET_NOT {
        var not := buffer[b] == CHARSET_NOT;
        var bytes: nat := buffer[b + 1];
        if c < bytes * 8 % 256 && Bit(buffer[b + 2 + c / 8], c % 8) { not := !not; }
        return !not;
      }
      return false;
    }

    /** The choice made at a `maybe_pop_jump`. */
    method Decide(ghost off: int) returns (pop: bool)
      requires Static() && Related(code0, Code()) && Starts(code0, p) && p < used
      requires Fetch(Code(), p) == MaybePopJump(off)
      ensures pop == CanPop(Code(), p)
    {
      hide Fetch, Starts, Related, Wired, Number, BodyWithout;
      Opcodes(Code(), p);
      FetchGrounded(code0, Code(), p);
      var p2 := SkipOver(p + 3);
      CanPopUnfold(Code(), p);
      if p2 == used { return true; }
      FetchGrounded(code0, Code(), p2);
      Opcodes(Code(), p2);
      if buffer[p2] == EXACTN {
        var c := buffer[p2 + 2];
        var p1 := p + 3 + Number(buffer[p + 1], buffer[p + 2]);
        LoopStart(p1);
        FetchGrounded(code0, Code(), p1 + 3);
        pop := BodyExcludes(p1 + 3, c);
        return;
      }
      return false;
    }

    method MaybePop(ghost off: int) returns (more: bool, result: int)
      requires Ready() && Fetch(Code(), p) == MaybePopJump(off) && !Step(Environment(), View()).Undefined?
      modifies this, info, buffer
      ensures Shows(Step(Environment(), old(View())), more, result) && (more ==> Pointers())
      ensures buffer[used..] == old(buffer[used..])
    {
      hide Fetch, Starts, Related, Wired, StackGrounded, Ordered, Step, Number, CanPop;
      hide StepMaybePop, StepPopJump, JumpTo;
      ghost var st0 := View();
      Opcodes(Code(), p);
      StepUnfold(Environment(), st0);
      MaybePopUnfold(st0, off);
      var pop := Decide(off);
      buffer[p] := if pop then POP_FAILURE_JUMP else JUMP;
      assert Code() == st0.code[p := if pop then POP_FAILURE_JUMP else JUMP];
      if pop { PopJump(off); } else { TakeJump(off); }
      return true, 0;
    }

    // ----- the main loop -----

    /** One turn of the main loop. */
    method Command() returns (more: bool, result: int)
      requires Ready() && !Step(Environment(), View()).Undefined?
      modifies this, info, buffer
      ensures Shows(Step(Environment(), old(View())), more, result) && (more ==> Pointers())
      ensures buffer[used..] == old(buffer[used..])
    {
      hide Fetch, Related, Wired, StackGrounded, Ordered, Step, AtEnd, Starts;
      StartAtMost(code0, p);
      if p == used {
        AtEndStep(Environment(), View());
        more, result := AtPatternEnd();
        return;
      }
      FetchGrounded(code0, Code(), p);
      Opcodes(Code(), p);
      more, result := Dispatch(Fetch(Code(), p));
    }

    method Dispatch(ghost i: Instr) returns (more: bool, result: int)
      requires Ready() && !Step(Environment(), View()).Undefined? && p < used
      requires i == Fetch(Code(), p) != Bad
      modifies this, info, buffer
      ensures Shows(Step(Environment(), old(View())), more, result) && (more ==> Pointers())
      ensures buffer[used..] == old(buffer[used..])
    {
      hide Fetch, Step, Pointers, Grounded, Ordered, Wired, View, Number, Shows;
      Opcodes(Code(), p);
      var op := buffer[p];
      if op == EXACTN {
        more, result := ExactN(i.cs);
      } else if op == ANYCHAR {
        more, result := AnyChar();
      } else if op == CHARSET || op == CHARSET_NOT {
        more, result := CharSet(i.bits, i.neg);
      } else if op == Bytecode.START_MEMORY {
        more, result := StartMemory(i.reg, i.inner);
      } else if op == Bytecode.STOP_MEMORY {
        more, result := StopMemory(i.reg, i.inner);
      } else if op == BEGLINE {
        more, result := BegLine();
      } else if op == ENDLINE {
        more, result := EndLine();
      } else if op == ON_FAILURE_JUMP {
        more, result := OnFailureJump(i.off);
      } else if op == MAYBE_POP_JUMP {
        more, result := MaybePop(i.off);
      } else if op == POP_FAILURE_JUMP {
        more, result := PopFailureJump(i.off);
      } else if op == JUMP || op == JUMP_PAST_ALT {
        more, result := PlainJump(i.off);
      } else if op == DUMMY_FAILURE_JUMP {
        more, result := DummyJump(i.off);
      } else {
        more, result := PushDummy();
      }
    }

    /** The variables on entry.  A lone first string is moved to the second. */
    constructor (buffer: array<byte>, used: nat, nsub: nat, string1: seq<byte>, string2: seq<byte>,
                 notBol: bool, notEol: bool, pos: nat, limit: nat, ghost code0: seq<byte>)
      requires used <= buffer.Length && Wired(code0) && Related(code0, buffer[..used])
      requires pos <= |string1| + |string2|
      ensures Ready() && fresh(this) && fresh(info)
      ensures this.buffer == buffer && this.used == used && this.code0 == code0
      ensures Environment() == Env(Subject(string1 + string2, notBol, notEol), pos, limit)
      ensures View() == Entry(Environment(), Code(), nsub)
    {
      var s1, s2 := string1, string2;
      if |string2| == 0 { s1, s2 := [], string1; }
      assert s1 + s2 == string1 + string2;
      this.buffer, this.used, this.notBol, this.notEol, this.pos, this.limit := buffer, used, notBol, notEol, pos, limit;
      this.string1, this.string2, this.code0 := s1, s2, code0;
      p, low, high, stack := 0, NO_LOWEST_ACTIVE_REG, NO_HIGHEST_ACTIVE_REG, [];
      bestSet, matchEnd := false, In1(0);
      d := if |s1| > 0 && pos <= |s1| then In1(pos) else In2(pos - |s1|);
      inFirst := |s1| > 0 && pos <= |s1|;
      info := new RegInfo[nsub + 1](_ => UNSET);
      new;
      hide Related, Wired, Fetch;
      StartAtZero(code0);
      SameLength(code0, buffer[..used]);
      assert info[..] == seq(nsub + 1, _ => UNSET);
      assert Code() == buffer[..used];
    }

    /** The main loop. */
    method Loop(ghost e: Re, ghost nsub: nat) returns (result: int)
      requires Ready() && View() == Entry(Environment(), Code(), nsub) && Compiled(e, code0, nsub)
      modifies this, info, buffer
      ensures RunsTo(Environment(), nsub, old(Code()), result, Code()) && Related(code0, Code())
      ensures result == OVERFLOW || result == Returns(e, code0, Environment().s, pos)
      ensures Answers(e, code0, Environment().s, pos, result)
      ensures buffer[used..] == old(buffer[used..])
    {
      hide Step, Compiled, Related, Wired, Grounded, Ordered, Answers, Returns, Entry;
      ghost var st0, code, env := View(), Code(), Environment();
      EntryFacts(nsub);
      ghost var n, out := MatchCorrect(e, code0, nsub, env, code);
      ghost var k := 0;
      var more := true;
      while true
        invariant Ready() && Steps(env, st0, k) == Running(View())
        invariant Steps(env, st0, n) == out && out.Done? && Related(code0, out.code)
        invariant buffer[used..] == old(buffer[used..])
        invariant k <= n
        decreases n - k
      {
        OnTheWay(env, st0, k, View(), n);
        ghost var st := View();
        more, result := Command();
        if !more { break; }
        StepGrounded(code0, env, st, info.Length);
        StepOrdered(env, st);
        k := k + 1;
      }
    }

    lemma EntryFacts(nsub: nat)
      requires Ready() && View() == Entry(Environment(), Code(), nsub)
      ensures Related(code0, Code()) && pos <= |string1 + string2|
    {
      hide Related, Wired, Fetch;
      assert At(|string1|, d) == pos;
    }
  }

  lemma CompiledWired(e: Re, code: seq<byte>, nsub: nat)
    requires Compiled(e, code, nsub)
    ensures Wired(code)
  {
    hide Wired, LaidOut;
    CodeWired(e, code);
  }

  /** `re_match_2`: match the pattern at `pos` of the concatenation of two strings.

      The result and the rewriting of the code depend on the concatenation only,
      and the result is right. */
  method ReMatch2(buffer: array<byte>, used: nat, nsub: nat, string1: seq<byte>, string2: seq<byte>,
                  notBol: bool, notEol: bool, pos: int, limit: nat, ghost e: Re, ghost code0: seq<byte>)
    returns (result: int)
    requires used <= buffer.Length && Compiled(e, code0, nsub) && Related(code0, buffer[..used])
    modifies buffer
    ensures Related(code0, buffer[..used]) && buffer[used..] == old(buffer[used..])
    ensures var s := Subject(string1 + string2, notBol, notEol);
      if 0 <= pos <= |s.text| then
        && RunsTo(Env(s, pos, limit), nsub, old(buffer[..used]), result, buffer[..used])
        && (result == OVERFLOW || result == Returns(e, code0, s, pos)) && Answers(e, code0, s, pos, result)
      else result == NO_MATCH && buffer[..] == old(buffer[..])
  {
    hide Compiled, Related, Wired, RunsTo, Answers, Returns;
    if pos < 0 || pos > |string1| + |string2| { return NO_MATCH; }
    CompiledWired(e, code0, nsub);
    var m := new Matcher(buffer, used, nsub, string1, string2, notBol, notEol, pos, limit, code0);
    result := m.Loop(e, nsub);
  }

  lemma RestoredBy(before: seq<RegInfo>, after: seq<RegInfo>, fp: FailPoint)
    requires |after| == |before|
    requires fp.low <= fp.high ==> fp.high < |before| && |fp.saved| == fp.high + 1 - fp.low
    requires forall i | 0 <= i < |before| ::
      after[i] == if fp.low <= i <= fp.high then fp.saved[i - fp.low] else before[i]
    ensures after == Restore(before, fp)
  {}

  lemma ExactStep(env: Env, st: VState, cs: seq<byte>)
    requires Fetch(st.code, st.p) == ExactN(cs)
    requires st.d <= |env.s.text| && st.p < |st.code|
    ensures Step(env, st) ==
      if st.d + |cs| <= |env.s.text| && env.s.text[st.d..st.d + |cs|] == cs
      then Consume(st, |cs|, st.p + 2 + |cs|) else Fail(env, st)
  {
    hide Fetch, Fail;
  }

  lemma FetchSame(code0: seq<byte>, code: seq<byte>, t: nat)
    requires Wired(code0) && Related(code0, code) && Starts(code0, t) && Fetch(code0, t).OnFailureJump? && t < |code0|
    ensures Fetch(code, t) == Fetch(code0, t)
  {
    hide Fetch, Starts, Related;
    FetchRelated(code0, code, t);
  }
}
