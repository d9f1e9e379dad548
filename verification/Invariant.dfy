/** What holds of the matcher between commands: the place in the code stands for
    a stack of pending work, the register flags agree with that work, and every
    failure point does the same for the state it will restore. */
module Invariant {
  import opened Octets
  import opened RegexLang
  import opened Backtrack
  import opened Bytecode
  import opened Machine
  import opened Rewriting

  // ----- the place in the code -----

  ghost function StopAddr(code: seq<byte>, p: nat): nat {
    if Fetch(code, p).PushDummyFailure? then p + 1 else p
  }

  /** The code at `p` ends the group `reg`. */
  ghost predicate ClosesAt(code: seq<byte>, p: nat, reg: nat) {
    var q := StopAddr(code, p);
    q >= 2 && Fetch(code, q).StopMemory? && Fetch(code, q).reg == reg
  }

  ghost predicate IsGroupLoop(e: Re) {
    e.Repeat? && e.body.Group?
  }

  /** Running the code from `p` does the work `k`. */
  ghost predicate Reps(code: seq<byte>, p: nat, k: Kont)
    decreases k, |code| - p, 1
  {
    Starts(code, p) &&
    (Direct(code, p, k) ||
     (Fetch(code, p).JumpPastAlt? && Fetch(code, p).off >= 0 &&
      Reps(code, p + 3 + Fetch(code, p).off, k)))
  }

  /** As `Reps`, with no jump from the end of an alternative in front. */
  ghost predicate Direct(code: seq<byte>, p: nat, k: Kont)
    decreases k, |code| - p, 0
  {
    match k
    case Halt => p == |code|
    case Do(e, k') => LaidOut(e, code, p) && Reps(code, p + Len(e), k')
    case Again(e, k') =>
      e.Repeat? && LoopAt(e.body, code, p) && Reps(code, p + Len(e.body) + 6, k')
    case Close(reg, _, k') =>
      ClosesAt(code, p, reg) && Reps(code, StopAddr(code, p) + 3, k')
    case Loop(e, _, k') =>
      var q := StopAddr(code, p);
      && IsGroupLoop(e) && ClosesAt(code, p, e.body.reg)
      && q >= Len(e.body) && Starts(code, q - Len(e.body)) && LoopAt(e.body, code, q - Len(e.body))
      && Reps(code, q + 6, k')
  }

  // ----- group numbers -----

  /** Groups are numbered upwards from at least `b`, inner ones after outer ones. */
  ghost predicate Numbered(e: Re, b: nat)
    decreases e
  {
    match e
    case Cat(l, r) => Numbered(l, b) && Numbered(r, After(l, b))
    case Alt(l, r) => Numbered(l, b) && Numbered(r, After(l, b))
    case Group(reg, inner, body) =>
      b <= reg && Numbered(body, reg + 1) && After(body, reg + 1) <= reg + 1 + inner
    case Repeat(_, body) => Numbered(body, b)
    case _ => true
  }

  /** The first number free after the groups of `e`. */
  ghost function After(e: Re, b: nat): nat {
    match e
    case Cat(l, r) => After(r, After(l, b))
    case Alt(l, r) => After(r, After(l, b))
    case Group(reg, inner, _) => reg + 1 + inner
    case Repeat(_, body) => After(body, b)
    case _ => b
  }

  ghost predicate NoFrames(k: Kont) {
    match k
    case Halt => true
    case Do(_, k') => NoFrames(k')
    case Again(_, k') => NoFrames(k')
    case Close(_, _, _) => false
    case Loop(_, _, _) => false
  }

  /** Every open group has a number below `c`. */
  ghost predicate FramesBelow(k: Kont, c: nat) {
    match k
    case Halt => true
    case Do(_, k') => FramesBelow(k', c)
    case Again(_, k') => FramesBelow(k', c)
    case Close(reg, _, k') => reg < c && FramesBelow(k', c)
    case Loop(e, _, k') => IsGroupLoop(e) && e.body.reg < c && FramesBelow(k', c)
  }

  /** The groups still to be opened are numbered upwards from at least `b`, and
      above the groups that are open around them. */
  ghost predicate NumberedK(k: Kont, b: nat, nsub: nat) {
    match k
    case Halt => b <= nsub + 1
    case Do(e, k') => Numbered(e, b) && FramesBelow(k', b) && NumberedK(k', After(e, b), nsub)
    case Again(e, k') => Numbered(e, b) && FramesBelow(k', b) && NumberedK(k', After(e, b), nsub)
    case Close(reg, _, k') => 1 <= reg < b && FramesBelow(k', reg) && NumberedK(k', b, nsub)
    case Loop(e, _, k') =>
      && IsGroupLoop(e) && 1 <= e.body.reg < b <= After(e, b) && Numbered(e, e.body.reg)
      && FramesBelow(k', e.body.reg) && NumberedK(k', After(e, b), nsub)
  }

  // ----- register flags -----

  ghost predicate FrameFlags(reg: nat, start: nat, d: nat, low: nat, high: nat, info: seq<RegInfo>) {
    && low <= reg <= high && reg < |info| && start <= d
    && info[reg].active && info[reg].since == start && (info[reg].matched <==> start < d)
  }

  /** Every open group is active, inside the active range, was opened where its
      register says, and is marked as having matched something exactly when input
      was consumed since. */
  ghost predicate Flags(k: Kont, d: nat, low: nat, high: nat, info: seq<RegInfo>) {
    match k
    case Halt => true
    case Do(_, k') => Flags(k', d, low, high, info)
    case Again(_, k') => Flags(k', d, low, high, info)
    case Close(reg, start, k') =>
      FrameFlags(reg, start, d, low, high, info) && Flags(k', d, low, high, info)
    case Loop(e, start, k') =>
      && IsGroupLoop(e) && FrameFlags(e.body.reg, start, d, low, high, info)
      && Flags(k', d, low, high, info)
  }

  /** The active range is empty or made of real registers; with no group open it
      does not begin after the next group. */
  ghost predicate Range(k: Kont, b: nat, low: nat, high: nat, nsub: nat) {
    && ((low == NO_LOWEST_ACTIVE_REG && high == NO_HIGHEST_ACTIVE_REG) || (1 <= low <= nsub && high <= nsub))
    && (NoFrames(k) ==> low == NO_LOWEST_ACTIVE_REG || low <= b)
  }

  // ----- the failure stack -----

  /** Repeated groups entered and not left. */
  ghost function Loops(k: Kont): nat {
    match k
    case Halt => 0
    case Do(_, k') => Loops(k')
    case Again(_, k') => Loops(k')
    case Close(_, _, k') => Loops(k')
    case Loop(_, _, k') => 1 + Loops(k')
  }

  /** Maps have at most 256 bits, and loops have groups or single bytes as bodies. */
  ghost predicate Fit(e: Re) {
    match e
    case Cat(l, r) => Fit(l) && Fit(r)
    case Alt(l, r) => Fit(l) && Fit(r)
    case Group(_, _, body) => Fit(body)
    case Exact(cs) => |cs| > 0
    case Charset(_, bits) => |bits| <= 32
    case Repeat(_, body) =>
      && Fit(body) && (body.Group? || Single(body))
    case _ => true
  }

  ghost predicate FitK(k: Kont) {
    match k
    case Halt => true
    case Do(e, k') => Fit(e) && FitK(k')
    case Again(e, k') => e.Repeat? && !e.op.Opt? && Fit(e) && FitK(k')
    case Close(_, _, k') => FitK(k')
    case Loop(e, _, k') => IsGroupLoop(e) && !e.op.Opt? && Fit(e) && FitK(k')
  }

  lemma {:induction false} FitIsShaped(e: Re)
    requires Fit(e)
    ensures Shaped(e)
  {
    match e
    case Cat(l, r) => FitIsShaped(l); FitIsShaped(r);
    case Alt(l, r) => FitIsShaped(l); FitIsShaped(r);
    case Group(_, _, body) => FitIsShaped(body);
    case Repeat(_, body) => FitIsShaped(body);
    case _ =>
  }

  /** The work a failure point stands for, at its place; dummies stand for none. */
  datatype Abs = Blank | Point(p: nat, k: Kont, d: nat, b: nat)

  /** A closed group whose next command is a loop's closing jump is not taken for
      an empty one by the peek at the byte two before. */
  ghost predicate PeekSafe(code: seq<byte>) {
    forall x: nat {:trigger Starts(code, x)} ::
      Starts(code, x) && x >= 2 && Fetch(code, x).StopMemory? && Fetch(code, x + 3).MaybePopJump? ==>
      code[x - 2] != START_MEMORY
  }

  /** The byte that follows the loop closed at `x` cannot begin its body, when the
      choice at `x` is to drop a failure point on account of that byte. */
  ghost predicate ExcludesNext(code: seq<byte>, x: nat)
    requires Fetch(code, x).MaybePopJump? && CanPop(code, x)
  {
    var p2 := SkipGroups(code, x + 3);
    p2 == |code| ||
    match Fetch(code, x + 6 + Fetch(code, x).off)
    case Bracket(neg, bits) => neg == InMap(bits, Fetch(code, p2).cs[0])
    case _ => true
  }

  /** No full map of 32 bytes is taken for an empty one where the choice matters. */
  ghost predicate PopSafe(code: seq<byte>) {
    forall x: nat {:trigger Starts(code, x)} ::
      Starts(code, x) && Fetch(code, x).MaybePopJump? && CanPop(code, x) ==> ExcludesNext(code, x)
  }

  /** The fixed surroundings of a run: the code as compiled, the subject, and the
      number of groups. */
  datatype World = World(code0: seq<byte>, env: Env, nsub: nat)

  ghost predicate ValidWorld(w: World) {
    Whole(w.code0) && w.nsub <= 255 && w.env.start <= |w.env.s.text|
  }

  /** The work `k` at code place `p` and position `d`, with registers to match. */
  ghost predicate Located(w: World, p: nat, k: Kont, d: nat, b: nat, low: nat, high: nat,
                          info: seq<RegInfo>)
  {
    && w.env.start <= d <= |w.env.s.text| && Reps(w.code0, p, k) && FitK(k)
    && NumberedK(k, b, w.nsub) && b >= 1 && Range(k, b, low, high, w.nsub)
    && |info| == w.nsub + 1 && Flags(k, d, low, high, info)
  }

  function Blanks(n: nat): seq<RegInfo> {
    seq(n, _ => UNSET)
  }

  ghost predicate PointOk(w: World, fp: FailPoint, a: Abs, height: nat) {
    match a
    case Blank => fp.dummy
    case Point(p, k, d, b) =>
      && !fp.dummy && fp.pat == p && fp.str == d && Loops(k) <= height
      && (fp.low <= fp.high ==> |fp.saved| == fp.high + 1 - fp.low)
      && Located(w, p, k, d, b, fp.low, fp.high, Restore(Blanks(w.nsub + 1), fp))
  }

  ghost predicate StackOk(w: World, stack: seq<FailPoint>, abs: seq<Abs>) {
    |stack| == |abs| && forall i | 0 <= i < |stack| :: PointOk(w, stack[i], abs[i], i)
  }

  ghost predicate BestOk(w: World, st: VState) {
    st.hasBest ==> w.env.start <= st.best <= |w.env.s.text|
  }

  ghost predicate Inv(w: World, st: VState, k: Kont, b: nat, abs: seq<Abs>) {
    && ValidWorld(w) && Related(w.code0, st.code)
    && Located(w, st.p, k, st.d, b, st.low, st.high, st.info)
    && Loops(k) <= |st.stack| && StackOk(w, st.stack, abs) && BestOk(w, st)
  }
}
