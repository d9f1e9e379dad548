/** The matcher `re_match_2` as a state machine: one step is one turn of its
    main loop.

    The failure stack is a sequence of records; a limit on their number stands for
    the memory limit whose excess makes the matcher return -2.  Of the register
    information the two flags that steer control are kept, and where each group
    was last opened. */
module Machine {
  import opened Octets
  import opened RegexLang
  import opened Bytecode

  const NO_HIGHEST_ACTIVE_REG: nat := 256
  const NO_LOWEST_ACTIVE_REG: nat := 257

  const NO_MATCH: int := -1
  const OVERFLOW: int := -2

  /** `since` is the position at which `start_memory` last ran: while the group is
      open, the source's `regstart`. */
  datatype RegInfo = RegInfo(active: bool, matched: bool, since: nat)

  const UNSET: RegInfo := RegInfo(false, false, 0)

  /** What PUSH_FAILURE_POINT saves.  A dummy has no place in the pattern. */
  datatype FailPoint =
    FailPoint(dummy: bool, pat: nat, str: nat, low: nat, high: nat, saved: seq<RegInfo>)

  /** The matcher's variables.  `best` is the end of the best match so far. */
  datatype VState = VState(
    code: seq<byte>,
    p: nat,
    d: nat,
    stack: seq<FailPoint>,
    low: nat,
    high: nat,
    info: seq<RegInfo>,
    hasBest: bool,
    best: nat)

  datatype Env = Env(s: Subject, start: nat, limit: nat)

  /** `Undefined` is where the C program has no defined behaviour. */
  datatype Status =
    | Running(st: VState)
    | Done(result: int, code: seq<byte>)
    | Undefined

  // ----- the failure stack -----

  /** Every register in the active range has an entry. */
  predicate RangeOk(st: VState) {
    st.low <= st.high ==> st.high < |st.info|
  }

  function Saved(st: VState): seq<RegInfo>
    requires RangeOk(st)
  {
    if st.low <= st.high then st.info[st.low..st.high + 1] else []
  }

  function Push(env: Env, st: VState, dummy: bool, pat: int, str: nat): Status {
    if |st.stack| >= env.limit then Done(OVERFLOW, st.code)
    else if !RangeOk(st) || pat < 0 then Undefined
    else Running(st.(stack := st.stack + [FailPoint(dummy, pat, str, st.low, st.high, Saved(st))]))
  }

  function Restore(info: seq<RegInfo>, fp: FailPoint): seq<RegInfo> {
    if fp.low <= fp.high && fp.high < |info| && |fp.saved| == fp.high + 1 - fp.low
    then info[..fp.low] + fp.saved + info[fp.high + 1..]
    else info
  }

  /** POP_FAILURE_POINT into the matcher's own variables. */
  function Pop(st: VState): VState
    requires |st.stack| > 0
  {
    var fp := st.stack[|st.stack| - 1];
    st.(stack := st.stack[..|st.stack| - 1],
        p := fp.pat,
        d := if fp.dummy then st.d else fp.str,
        low := fp.low,
        high := fp.high,
        info := Restore(st.info, fp))
  }

  /** Does the code at `p` jump back to a failure jump? */
  predicate AtLoopEnd(code: seq<byte>, p: nat) {
    match Fetch(code, p)
    case Jump(off) => p + 3 + off >= 0 && Fetch(code, p + 3 + off).OnFailureJump?
    case MaybePopJump(off) => p + 3 + off >= 0 && Fetch(code, p + 3 + off).OnFailureJump?
    case PopFailureJump(off) => p + 3 + off >= 0 && Fetch(code, p + 3 + off).OnFailureJump?
    case _ => false
  }

  /** The code at label `fail`: take the newest failure point that is not a dummy
      and does not sit at the end of a loop. */
  function Fail(env: Env, st: VState): Status
    decreases |st.stack|
  {
    if |st.stack| == 0 then
      Done(if st.hasBest then st.best - env.start else NO_MATCH, st.code)
    else
      var fp := st.stack[|st.stack| - 1];
      var st' := Pop(st);
      if fp.dummy || AtLoopEnd(st.code, fp.pat) then Fail(env, st') else Running(st')
  }

  lemma FailUnfold(env: Env, st: VState)
    ensures |st.stack| == 0 ==> Fail(env, st) == Done(if st.hasBest then st.best - env.start else NO_MATCH, st.code)
    ensures |st.stack| > 0 ==>
      var fp := st.stack[|st.stack| - 1];
      Fail(env, st) == if fp.dummy || AtLoopEnd(st.code, fp.pat) then Fail(env, Pop(st)) else Running(Pop(st))
  {
    hide AtLoopEnd, Pop;
  }

  // ----- single commands -----

  /** SET_REGS_MATCHED. */
  function SetMatched(st: VState): VState
    requires RangeOk(st)
  {
    st.(info := seq(|st.info|, r requires 0 <= r < |st.info| =>
      if st.low <= r <= st.high then st.info[r].(matched := true) else st.info[r]))
  }

  /** Consume `n` bytes and go on at `p`. */
  function Consume(st: VState, n: nat, p: nat): Status {
    if !RangeOk(st) then Undefined else Running(SetMatched(st).(d := st.d + n, p := p))
  }

  function JumpTo(st: VState, p: int): Status {
    if p < 0 then Undefined else Running(st.(p := p))
  }

  /** End of the pattern: accept, or keep the match if it is the longest so far
      and look for more. */
  function AtEnd(env: Env, st: VState): Status {
    if st.d == |env.s.text| then Done(st.d - env.start, st.code)
    else if |st.stack| > 0 then
      Fail(env, if !st.hasBest || st.d > st.best then st.(hasBest := true, best := st.d) else st)
    else if st.hasBest then Done(st.best - env.start, st.code)
    else Done(st.d - env.start, st.code)
  }

  function StepStart(st: VState, reg: byte): Status {
    if reg >= |st.info| then Undefined else
    Running(st.(
      info := st.info[reg := RegInfo(true, false, st.d)],
      high := reg,
      low := if st.low == NO_LOWEST_ACTIVE_REG then reg else st.low,
      p := st.p + 3))
  }

  /** The scan for the new highest active register; 0 means none. */
  function HighestActive(info: seq<RegInfo>, r: nat): (h: nat)
    requires r < |info|
    ensures h <= r
    ensures forall i :: h < i <= r ==> !info[i].active
    ensures h > 0 ==> info[h].active
  {
    if r == 0 || info[r].active then r else HighestActive(info, r - 1)
  }

  function CloseGroup(st: VState, reg: byte): VState
    requires 0 < reg < |st.info|
  {
    var info := st.info[reg := st.info[reg].(active := false)];
    var r := HighestActive(info, reg - 1);
    if st.low == st.high || r == 0
    then st.(info := info, low := NO_LOWEST_ACTIVE_REG, high := NO_HIGHEST_ACTIVE_REG)
    else st.(info := info, high := r)
  }

  /** Where control goes when the group just closed at `p` must leave the loop it
      is the body of: -1 when the next command does not close such a loop. */
  function LoopExit(code: seq<byte>, p: nat, reg: byte): int {
    var off :=
      match Fetch(code, p + 3)
      case Jump(n) => n
      case PopFailureJump(n) => n
      case MaybePopJump(n) => n
      case DummyFailureJump(n) => n
      case _ => 0;
    var t := p + 6 + off;
    if off < 0 <= t && Fetch(code, t).OnFailureJump? && Fetch(code, t + 3).StartMemory?
       && Fetch(code, t + 3).reg == reg && t + 3 + Fetch(code, t).off >= 0
    then t + 3 + Fetch(code, t).off
    else -1
  }

  /** The byte the matcher takes for the opcode before a `stop_memory` at `p`. */
  predicate PeekIsStart(code: seq<byte>, p: nat)
    requires 2 <= p <= |code| + 1
  {
    code[p - 2] == START_MEMORY
  }

  function StepStop(env: Env, st: VState, reg: byte): Status {
    if reg == 0 || reg >= |st.info| || st.p < 2 || st.p > |st.code| then Undefined else
    var st' := CloseGroup(st, reg);
    var exit := LoopExit(st.code, st.p, reg);
    if (!st.info[reg].matched || PeekIsStart(st.code, st.p)) && exit >= 0 then
      match Push(env, st', false, exit, st.d)
      case Running(st'') => Fail(env, st'')
      case other => other
    else Running(st'.(p := st.p + 3))
  }

  /** The active range a failure jump at `p` saves: a group right behind it is
      counted in. */
  function Widened(code: seq<byte>, st: VState): VState {
    match Fetch(code, st.p + 3)
    case StartMemory(reg, inner) =>
      st.(high := reg + inner, low := if st.low == NO_LOWEST_ACTIVE_REG then reg else st.low)
    case _ => st
  }

  function StepOnFailure(env: Env, st: VState, off: int): Status {
    match Push(env, Widened(st.code, st), false, st.p + 3 + off, st.d)
    case Running(st'') => Running(st''.(p := st.p + 3))
    case other => other
  }

  function StepPopJump(st: VState, off: int): Status {
    if |st.stack| == 0 then Undefined
    else JumpTo(st.(stack := st.stack[..|st.stack| - 1]), st.p + 3 + off)
  }

  function StepMaybePop(st: VState, off: int): Status
    requires st.p < |st.code|
  {
    if CanPop(st.code, st.p)
    then StepPopJump(st.(code := st.code[st.p := POP_FAILURE_JUMP]), off)
    else JumpTo(st.(code := st.code[st.p := JUMP]), st.p + 3 + off)
  }

  function StepDummyJump(env: Env, st: VState, off: int): Status {
    match Push(env, st, true, 0, 0)
    case Running(st') => JumpTo(st', st.p + 3 + off)
    case other => other
  }

  function StepPushDummy(env: Env, st: VState): Status {
    match Push(env, st, true, 0, 0)
    case Running(st') => JumpTo(st', st.p + 1)
    case other => other
  }

  // ----- one step -----

  function Step(env: Env, st: VState): Status {
    if st.d > |env.s.text| then Undefined
    else if st.p == |st.code| then AtEnd(env, st)
    else
      var text := env.s.text;
      match Fetch(st.code, st.p)
      case ExactN(cs) =>
        if st.d + |cs| <= |text| && text[st.d..st.d + |cs|] == cs
        then Consume(st, |cs|, st.p + 2 + |cs|) else Fail(env, st)
      case AnyChar =>
        if st.d < |text| && text[st.d] != 0 then Consume(st, 1, st.p + 1) else Fail(env, st)
      case Bracket(neg, bits) =>
        if st.d < |text| && neg != InMap(bits, text[st.d])
        then Consume(st, 1, st.p + 2 + |bits|) else Fail(env, st)
      case BegLine => if st.d == 0 && !env.s.notBol then JumpTo(st, st.p + 1) else Fail(env, st)
      case EndLine =>
        if st.d == |text| && !env.s.notEol then JumpTo(st, st.p + 1) else Fail(env, st)
      case StartMemory(reg, _) => StepStart(st, reg)
      case StopMemory(reg, _) => StepStop(env, st, reg)
      case Jump(off) => JumpTo(st, st.p + 3 + off)
      case JumpPastAlt(off) => JumpTo(st, st.p + 3 + off)
      case OnFailureJump(off) => StepOnFailure(env, st, off)
      case PopFailureJump(off) => StepPopJump(st, off)
      case MaybePopJump(off) => StepMaybePop(st, off)
      case DummyFailureJump(off) => StepDummyJump(env, st, off)
      case PushDummyFailure => StepPushDummy(env, st)
      case Bad => Undefined
  }

  function Steps(env: Env, st: VState, n: nat): Status
    decreases n
  {
    if n == 0 then Running(st) else
    match Step(env, st)
    case Running(st') => Steps(env, st', n - 1)
    case other => other
  }

  /** The matcher's variables on entry. */
  function Entry(env: Env, code: seq<byte>, nsub: nat): VState {
    VState(code, 0, env.start, [], NO_LOWEST_ACTIVE_REG, NO_HIGHEST_ACTIVE_REG,
           seq(nsub + 1, _ => UNSET), false, 0)
  }

  lemma {:induction false} StepsAdd(env: Env, st: VState, m: nat, st': VState, n: nat)
    requires Steps(env, st, m) == Running(st')
    ensures Steps(env, st, m + n) == Steps(env, st', n)
    decreases m
  {
    hide Step;
    if m > 0 {
      StepsAdd(env, Step(env, st).st, m - 1, st', n);
    }
  }

  lemma CloseGroupKeeps(st: VState, reg: byte)
    requires 0 < reg < |st.info|
    ensures var st' := CloseGroup(st, reg);
      && st' == st.(info := st'.info, low := st'.low, high := st'.high) && |st'.info| == |st.info|
      && st'.info[reg].matched == st.info[reg].matched
  {}

  /** The end of a group: nothing is active when its range was the group alone, or no
      group with a lower number is; else the highest is the last of those. */
  lemma CloseGroupRange(st: VState, reg: byte)
    requires 0 < reg < |st.info|
    ensures var st' := CloseGroup(st, reg);
      && st'.info == st.info[reg := st.info[reg].(active := false)]
      && if st.low == st.high || forall r | 1 <= r < reg :: !st.info[r].active
         then st'.low == NO_LOWEST_ACTIVE_REG && st'.high == NO_HIGHEST_ACTIVE_REG
         else st'.low == st.low && 1 <= st'.high < reg && st.info[st'.high].active
              && forall r | st'.high < r < reg :: !st.info[r].active
  {
    hide HighestActive;
    var info := st.info[reg := st.info[reg].(active := false)];
    assert forall r | 0 <= r < reg :: info[r] == st.info[r];
    var h := HighestActive(info, reg - 1);
    if h > 0 { assert st.info[h].active; }
  }

  /** A match up to the end of the text is returned at once, whatever is on the stack. */
  lemma WholeTextAccepted(env: Env, st: VState)
    requires st.p == |st.code| && st.d == |env.s.text|
    ensures Step(env, st) == Done(|env.s.text| - env.start, st.code)
  {
    hide Fail;
  }

  /** Short of it, with nothing left to try, the best match before is returned, and the
      one in hand only when there was none. */
  lemma LastAccepted(env: Env, st: VState)
    requires st.p == |st.code| && st.d < |env.s.text| && st.stack == []
    ensures Step(env, st) == Done((if st.hasBest then st.best else st.d) - env.start, st.code)
  {
    hide Fail;
  }
}
