/** Patterns for which a few failure points suffice, whatever the length of the text.

    Where a closing jump settles to a pop, a turn of its loop leaves the failure stack
    as high as it found it.  When all do, the height of the stack is bounded by a number
    that depends on the place in the code only: the failure points pushed on the way
    there from its front.  Whether they do is said of the tree: behind each loop nothing
    is left but ends of groups, or there is a byte that the body cannot take. */
module FixedRoom {
  import opened Octets
  import opened RegexLang
  import opened Bytecode
  import opened Machine
  import opened Rewriting
  import opened Invariant
  import opened Layout
  import opened Closings
  import opened MatchTheorem
  import opened PopDiscipline
  import opened Twins
  import opened Room

  // ----- the height of a place -----

  function Puts(i: Instr): nat {
    if i.OnFailureJump? || i.PushDummyFailure? then 1 else 0
  }

  /** Failure points pushed from `a` up to `p`, no jump taken. */
  ghost function Tally(code: seq<byte>, a: nat, p: nat): nat
    decreases p - a
  {
    if a >= p || Fetch(code, a) == Bad then 0
    else Puts(Fetch(code, a)) + Tally(code, a + Width(Fetch(code, a)), p)
  }

  ghost function Height(code: seq<byte>, p: nat): nat {
    Tally(code, 0, p)
  }

  lemma {:induction false} TallyNext(code: seq<byte>, a: nat, p: nat)
    requires Boundary(code, a, p) && Fetch(code, p) != Bad
    ensures Tally(code, a, p + Width(Fetch(code, p))) == Tally(code, a, p) + Puts(Fetch(code, p))
    decreases p - a
  {
    hide Fetch, Puts;
    if a < p {
      TallyNext(code, a + Width(Fetch(code, a)), p);
    } else {
      var q := p + Width(Fetch(code, p));
      assert Tally(code, q, q) == 0;
    }
  }

  lemma HeightNext(code: seq<byte>, p: nat)
    requires Starts(code, p) && Fetch(code, p) != Bad
    ensures Height(code, p + Width(Fetch(code, p))) == Height(code, p) + Puts(Fetch(code, p))
  {
    hide Fetch, Tally;
    TallyNext(code, 0, p);
  }

  lemma {:induction false} TallyGrows(code: seq<byte>, a: nat, p: nat, q: nat)
    requires p <= q
    ensures Tally(code, a, p) <= Tally(code, a, q)
    decreases p - a
  {
    hide Fetch, Puts;
    if a < p && Fetch(code, a) != Bad { TallyGrows(code, a + Width(Fetch(code, a)), p, q); }
  }

  lemma HeightGrows(code: seq<byte>, p: nat, q: nat)
    requires p <= q
    ensures Height(code, p) <= Height(code, q)
  {
    hide Tally;
    TallyGrows(code, 0, p, q);
  }

  // ----- code in which no loop piles up failure points -----

  /** The jump at `x` goes to a place high enough. */
  ghost predicate Even(code: seq<byte>, x: nat) {
    match Fetch(code, x)
    case MaybePopJump(off) => CanPop(code, x) && x + 3 + off >= 0 && Height(code, x) <= Height(code, x + 3 + off) + 1
    case DummyFailureJump(off) => x + 3 + off >= 0 && Height(code, x) < Height(code, x + 3 + off)
    case _ => true
  }

  ghost predicate Steady(code: seq<byte>) {
    Wired(code) && forall x: nat :: Starts(code, x) ==> Even(code, x)
  }

  /** The group closed at `x` is what a loop is over. */
  ghost predicate ClosesRound(code: seq<byte>, x: nat) {
    Fetch(code, x).StopMemory? && LoopExit(code, x, Fetch(code, x).reg) >= 0
  }

  /** Room for all that is pushed in one passage through the code, and one more where
      the end of a group may leave its loop. */
  ghost predicate Roomy(code: seq<byte>, limit: nat) {
    && Height(code, |code|) <= limit
    && forall x: nat :: Starts(code, x) && ClosesRound(code, x) ==> Height(code, x) < limit
  }

  /** A failure point is no higher than its place allows. */
  ghost predicate PointLow(code0: seq<byte>, fp: FailPoint, i: nat) {
    !fp.dummy ==> i <= Height(code0, fp.pat)
  }

  ghost predicate StackLow(code0: seq<byte>, stack: seq<FailPoint>) {
    forall i | 0 <= i < |stack| :: PointLow(code0, stack[i], i)
  }

  ghost predicate Low(code0: seq<byte>, st: VState) {
    |st.stack| <= Height(code0, st.p) && StackLow(code0, st.stack)
  }

  lemma StackCut(code0: seq<byte>, stack: seq<FailPoint>, m: nat)
    requires StackLow(code0, stack) && m <= |stack|
    ensures StackLow(code0, stack[..m])
  {
    hide PointLow;
  }

  lemma StackAdd(code0: seq<byte>, stack: seq<FailPoint>, fp: FailPoint)
    requires StackLow(code0, stack) && PointLow(code0, fp, |stack|)
    ensures StackLow(code0, stack + [fp])
  {
    hide PointLow;
  }

  lemma {:induction false} FailLow(code0: seq<byte>, env: Env, st: VState)
    requires StackLow(code0, st.stack) && Fail(env, st).Running?
    ensures Low(code0, Fail(env, st).st)
    decreases |st.stack|
  {
    hide AtLoopEnd, Height, Restore;
    var top := |st.stack| - 1;
    var fp := st.stack[top];
    assert PointLow(code0, fp, top);
    StackCut(code0, st.stack, top);
    if fp.dummy || AtLoopEnd(st.code, fp.pat) { FailLow(code0, env, Pop(st)); }
  }

  /** On to a place at least as high, with no more failure points. */
  lemma LowOn(code0: seq<byte>, st: VState, st': VState)
    requires Low(code0, st) && st'.stack == st.stack && st.p <= st'.p
    ensures Low(code0, st')
  {
    hide Height, StackLow;
    HeightGrows(code0, st.p, st'.p);
  }

  /** Every step keeps the stack low. */
  lemma StepLow(code0: seq<byte>, nregs: nat, env: Env, st: VState)
    requires Steady(code0) && Grounded(code0, nregs, st) && Low(code0, st) && Step(env, st).Running?
    ensures Low(code0, Step(env, st).st)
  {
    hide Fetch, Starts, Related, Wired, CanPop, Fail, Push, StepStop, StepMaybePop, StepOnFailure, Height, StackLow, Even;
    hide StackGrounded;
    SameLength(code0, st.code);
    StartAtMost(code0, st.p);
    if Step(env, st) == Fail(env, st) {
      FailLow(code0, env, st);
    } else if st.p == |code0| {
      FailLow(code0, env, st.(hasBest := true, best := st.d));
    } else if Fetch(code0, st.p).MaybePopJump? {
      ClosingLow(code0, nregs, env, st);
    } else {
      PlainLow(code0, nregs, env, st);
    }
  }

  lemma ClosingLow(code0: seq<byte>, nregs: nat, env: Env, st: VState)
    requires Steady(code0) && Grounded(code0, nregs, st) && Low(code0, st) && Step(env, st).Running?
    requires st.p < |code0| && Fetch(code0, st.p).MaybePopJump? && st.d <= |env.s.text|
    ensures Low(code0, Step(env, st).st)
  {
    hide Fetch, Starts, Related, Wired, CanPop, StackGrounded, Step, StackLow, Height;
    assert Even(code0, st.p);
    TwinClosing(code0, nregs, env, st);
    StackCut(code0, st.stack, |st.stack| - 1);
  }

  lemma PlainLow(code0: seq<byte>, nregs: nat, env: Env, st: VState)
    requires Steady(code0) && Grounded(code0, nregs, st) && Low(code0, st) && Step(env, st).Running?
    requires st.p < |code0| == |st.code| && st.d <= |env.s.text|
    requires !Fetch(code0, st.p).MaybePopJump? && Step(env, st) != Fail(env, st)
    ensures Low(code0, Step(env, st).st)
  {
    hide Fetch, Starts, Related, Wired, CanPop, Fail, Push, StepStop, StepMaybePop, StepOnFailure, Height, StackLow;
    hide StackGrounded, Low, Even;
    WiredWhole(code0);
    FetchRelated(code0, st.code, st.p);
    FetchGrounded(code0, st.code, st.p);
    NotSettled(code0, st.p);
    assert Even(code0, st.p);
    var st' := Step(env, st).st;
    match Fetch(st.code, st.p) {
      case StopMemory(reg, _) => StopLow(code0, nregs, env, st, reg);
      case OnFailureJump(off) => OnFailureLow(code0, nregs, env, st, off);
      case DummyFailureJump(off) => DummyLow(code0, env, st, off);
      case PushDummyFailure => DummyOnLow(code0, env, st);
      case ExactN(_) => LowOn(code0, st, st');
      case AnyChar => LowOn(code0, st, st');
      case Bracket(_, _) => LowOn(code0, st, st');
      case StartMemory(_, _) => LowOn(code0, st, st');
      case JumpPastAlt(_) => LowOn(code0, st, st');
      case BegLine => LowOn(code0, st, st');
      case EndLine => LowOn(code0, st, st');
    }
  }

  lemma OnFailureLow(code0: seq<byte>, nregs: nat, env: Env, st: VState, off: int)
    requires Grounded(code0, nregs, st) && Low(code0, st) && off >= 0
    requires Fetch(code0, st.p) == OnFailureJump(off) && StepOnFailure(env, st, off).Running?
    ensures Low(code0, StepOnFailure(env, st, off).st)
  {
    hide Fetch, Starts, Related, Height, StackLow, StackGrounded;
    HeightNext(code0, st.p);
    HeightGrows(code0, st.p, st.p + 3 + off);
    var st' := StepOnFailure(env, st, off).st;
    StackAdd(code0, st.stack, st'.stack[|st.stack|]);
  }

  lemma DummyLow(code0: seq<byte>, env: Env, st: VState, off: int)
    requires Low(code0, st) && Fetch(code0, st.p) == DummyFailureJump(off) && Even(code0, st.p)
    requires StepDummyJump(env, st, off).Running?
    ensures Low(code0, StepDummyJump(env, st, off).st)
  {
    hide Fetch, Height, StackLow;
    var st' := StepDummyJump(env, st, off).st;
    StackAdd(code0, st.stack, st'.stack[|st.stack|]);
  }

  lemma DummyOnLow(code0: seq<byte>, env: Env, st: VState)
    requires Starts(code0, st.p) && Low(code0, st) && Fetch(code0, st.p).PushDummyFailure?
    requires StepPushDummy(env, st).Running?
    ensures Low(code0, StepPushDummy(env, st).st)
  {
    hide Fetch, Height, StackLow, Starts;
    HeightNext(code0, st.p);
    var st' := StepPushDummy(env, st).st;
    StackAdd(code0, st.stack, st'.stack[|st.stack|]);
  }

  lemma StopLow(code0: seq<byte>, nregs: nat, env: Env, st: VState, reg: byte)
    requires Steady(code0) && Grounded(code0, nregs, st) && Low(code0, st) && st.p < |code0| == |st.code|
    requires Fetch(st.code, st.p).StopMemory? && Fetch(code0, st.p).StopMemory? && StepStop(env, st, reg).Running?
    ensures Low(code0, StepStop(env, st, reg).st)
  {
    hide Fetch, Starts, Related, Wired, LoopExit, Fail, Height, StackLow, StackGrounded, CloseGroup, Low;
    CloseGroupKeeps(st, reg);
    var st', exit := CloseGroup(st, reg), LoopExit(st.code, st.p, reg);
    if (!st.info[reg].matched || PeekIsStart(st.code, st.p)) && exit >= 0 {
      ExitBehind(code0, st.code, st.p, reg);
      var x := Push(env, st', false, exit, st.d);
      ExitLow(code0, st, x.st.stack[|st.stack|], exit);
      FailLow(code0, env, x.st);
    } else {
      LowOn(code0, st, st'.(p := st.p + 3));
    }
  }

  lemma ExitLow(code0: seq<byte>, st: VState, fp: FailPoint, exit: nat)
    requires Low(code0, st) && st.p <= exit && fp.pat == exit
    ensures StackLow(code0, st.stack + [fp])
  {
    hide Height, StackLow;
    HeightGrows(code0, st.p, exit);
    StackAdd(code0, st.stack, fp);
  }

  /** The way out of a loop leads on. */
  lemma ExitBehind(code0: seq<byte>, code: seq<byte>, p: nat, reg: byte)
    requires Wired(code0) && Related(code0, code) && Starts(code0, p) && p < |code0| == |code|
    requires Fetch(code0, p).StopMemory? && Fetch(code, p).StopMemory? && LoopExit(code, p, reg) >= 0
    ensures LoopExit(code, p, reg) == p + 6 && Fetch(code0, p + 3).MaybePopJump?
  {
    hide Fetch, Starts, Related, Wired;
    WiredWhole(code0);
    FetchGrounded(code0, code, p);
    NoFetch(code);
    StartAtMost(code0, p + 3);
    FetchGrounded(code0, code, p + 3);
    FetchRelated(code0, code, p + 3);
    NotSettled(code0, p + 3);
    var t := p + 6 + Fetch(code, p + 3).off;
    StartAtMost(code0, t);
    FetchGrounded(code0, code, t);
    FetchRelated(code0, code, t);
  }

  // ----- every run -----

  /** Where something is to be pushed there is room. */
  lemma HasRoom(code0: seq<byte>, nregs: nat, st: VState, limit: nat)
    requires Steady(code0) && Roomy(code0, limit) && Grounded(code0, nregs, st) && Low(code0, st)
    requires Pushes(st.code, st.p)
    ensures |st.stack| < limit
  {
    hide Fetch, Starts, Related, Wired, Height, StackLow, StackGrounded, LoopExit, Even;
    InCode(st.code, st.p);
    SameLength(code0, st.code);
    WiredWhole(code0);
    FetchRelated(code0, st.code, st.p);
    FetchGrounded(code0, st.code, st.p);
    assert Even(code0, st.p);
    match Fetch(st.code, st.p) {
      case StopMemory(reg, _) =>
        SelfRelated(code0);
        TwinExit(code0, st.code, code0, st.p, reg);
        assert ClosesRound(code0, st.p);
      case DummyFailureJump(off) =>
        StartAtMost(code0, st.p + 3 + off);
        DummyRoom(code0, st.p, off);
        HeightGrows(code0, st.p + 3 + off, |code0|);
      case OnFailureJump(_) => PassRoom(code0, st.p);
      case PushDummyFailure => PassRoom(code0, st.p);
    }
  }

  lemma PassRoom(code: seq<byte>, x: nat)
    requires Starts(code, x) && Fetch(code, x) != Bad && Puts(Fetch(code, x)) == 1
    ensures Height(code, x) < Height(code, |code|)
  {
    hide Fetch, Starts, Height, Puts;
    HeightNext(code, x);
    StartsNext(code, x);
    StartAtMost(code, x + Width(Fetch(code, x)));
    HeightGrows(code, x + Width(Fetch(code, x)), |code|);
  }

  lemma DummyRoom(code: seq<byte>, x: nat, off: int)
    requires Even(code, x) && Fetch(code, x) == DummyFailureJump(off)
    ensures x + 3 + off >= 0 && Height(code, x) < Height(code, x + 3 + off)
  {
    hide Fetch, Height;
  }

  lemma {:induction false} RunLow(code0: seq<byte>, nsub: nat, env: Env, st: VState, n: nat)
    requires Steady(code0) && Roomy(code0, env.limit) && Grounded(code0, nsub + 1, st) && Low(code0, st)
    requires Late(env.start, st) && Steps(env, st, n).Done?
    ensures Steps(env, st, n).result != OVERFLOW
    decreases n
  {
    hide Step, Wired, Even, Grounded, Roomy, Late, Low, Pushes;
    StepLate(env, st);
    if Step(env, st).Running? {
      StepLow(code0, nsub + 1, env, st);
      StepGrounded(code0, env, st, nsub + 1);
      RunLow(code0, nsub, env, Step(env, st).st, n - 1);
    } else if Pushes(st.code, st.p) {
      HasRoom(code0, nsub + 1, st, env.limit);
    }
  }

  lemma EntryLow(code0: seq<byte>, nsub: nat, env: Env, code: seq<byte>)
    ensures Low(code0, Entry(env, code, nsub)) && Late(env.start, Entry(env, code, nsub))
  {
    hide Height;
  }

  /** No run of such code overflows, on any text. */
  lemma SteadyRuns(code0: seq<byte>, nsub: nat, env: Env, code: seq<byte>, result: int, code': seq<byte>)
    requires Steady(code0) && Roomy(code0, env.limit) && Related(code0, code) && RunsTo(env, nsub, code, result, code')
    ensures result != OVERFLOW
  {
    hide Steady, Roomy, Related, Step, Entry, Low, Late, Grounded;
    EntryTwin(code0, nsub, env, code, code);
    EntryLow(code0, nsub, env, code);
    var n: nat :| Steps(env, Entry(env, code, nsub), n) == Done(result, code');
    RunLow(code0, nsub, env, Entry(env, code, nsub), n);
  }

  // ----- the tree -----

  /** What comes behind a part of the pattern: nothing but group commands to the end,
      a literal that begins with a byte, or something else. */
  datatype Next = Finish | Byte(c: byte) | Other

  /** What comes first in `e`, with `n` behind it. */
  function Ahead(e: Re, n: Next): Next {
    match e
    case Empty => n
    case Exact(cs) => if |cs| > 0 then Byte(cs[0]) else Other
    case Cat(l, r) => Ahead(l, Ahead(r, n))
    case Group(_, _, body) => if body.Alt? then Other else Ahead(body, n)
    case _ => Other
  }

  /** With `n` behind it the loop over `body` takes what it can: nothing is left but
      the end, or a byte that `body` does not begin with.  A complemented list whose map
      is full, of 32 bytes, does not count. */
  predicate Drops(body: Re, n: Next) {
    match n
    case Finish => true
    case Byte(c) =>
      (match body
       case Exact(cs) => |cs| > 0 && cs[0] != c
       case Charset(neg, bits) => if |bits| == 32 then !neg else neg == InMap(bits, c)
       case _ => false)
    case Other => false
  }

  /** Failure points pushed in one passage. */
  function Splits(e: Re): nat {
    match e
    case Cat(l, r) => Splits(l) + Splits(r)
    case Alt(l, r) => 1 + Splits(l) + Splits(r)
    case Group(_, _, body) => Splits(body) + if body.Alt? then 1 else 0
    case Repeat(_, body) => 1 + Splits(body)
    case _ => 0
  }

  /** Every loop of `e`, with `n` behind it, takes what it can, and has no choice
      inside. */
  predicate Greedy(e: Re, n: Next) {
    match e
    case Cat(l, r) => Greedy(l, Ahead(r, n)) && Greedy(r, n)
    case Alt(l, r) => Greedy(l, Other) && Greedy(r, n)
    case Group(_, _, body) => Greedy(body, if body.Alt? then Other else n)
    case Repeat(op, body) => if op.Opt? then Greedy(body, n) else Splits(body) == 0 && Drops(body, n)
    case _ => true
  }

  /** A group is repeated by `*` or `+`. */
  predicate RepeatsGroup(e: Re) {
    match e
    case Cat(l, r) => RepeatsGroup(l) || RepeatsGroup(r)
    case Alt(l, r) => RepeatsGroup(l) || RepeatsGroup(r)
    case Group(_, _, body) => RepeatsGroup(body)
    case Repeat(op, body) => (!op.Opt? && body.Group?) || RepeatsGroup(body)
    case _ => false
  }

  /** The failure points that suffice. */
  function Fixed(e: Re): nat {
    Splits(e) + if RepeatsGroup(e) then 1 else 0
  }

  // ----- its heights -----

  /** The code of a part pushes its forks. */
  lemma {:induction false} Climbs(e: Re, code: seq<byte>, p: nat)
    requires LaidOut(e, code, p) && Starts(code, p)
    ensures Height(code, p + Len(e)) == Height(code, p) + Splits(e)
    decreases e, 1
  {
    hide Fetch, Boundary, Starts, LaidOut, LoopAt, Height;
    match e
    case Empty => assert p + Len(e) == p;
    case Cat(l, r) =>
      CatLaidOut(l, r, code, p);
      LaidOutStarts(l, code, p);
      Climbs(l, code, p);
      Climbs(r, code, p + Len(l));
      assert p + Len(l) + Len(r) == p + Len(e);
    case Alt(_, _) => AltClimbs(e, code, p);
    case Group(_, _, _) => GroupClimbs(e, code, p);
    case Repeat(_, _) => RepeatClimbs(e, code, p);
    case _ => LeafClimbs(e, code, p);
  }

  lemma SplitsOf(e: Re)
    ensures e.Alt? ==> Splits(e) == 1 + Splits(e.l) + Splits(e.r)
    ensures e.Group? ==> Splits(e) == Splits(e.body) + if e.body.Alt? then 1 else 0
    ensures e.Repeat? ==> Splits(e) == 1 + Splits(e.body)
  {}

  lemma LeafClimbs(e: Re, code: seq<byte>, p: nat)
    requires LaidOut(e, code, p) && Starts(code, p) && (e.Exact? || e.Any? || e.Charset? || e.Bol? || e.Eol?)
    ensures Height(code, p + Len(e)) == Height(code, p)
  {
    hide Fetch, Boundary, Starts, Height;
    HeightNext(code, p);
  }

  lemma {:induction false} AltClimbs(e: Re, code: seq<byte>, p: nat)
    requires e.Alt? && LaidOut(e, code, p) && Starts(code, p)
    ensures Height(code, p + Len(e)) == Height(code, p) + Splits(e)
    decreases e, 0
  {
    hide Fetch, Boundary, Starts, LaidOut, Height, Splits;
    SplitsOf(e);
    AltLen(e);
    AltStarts(e, code, p);
    AltParts(code, p, e);
    var q := p + 3 + Len(e.l);
    HeightNext(code, p);
    Climbs(e.l, code, p + 3);
    HeightNext(code, q);
    Climbs(e.r, code, q + 3);
  }

  lemma {:induction false} GroupClimbs(e: Re, code: seq<byte>, p: nat)
    requires e.Group? && LaidOut(e, code, p) && Starts(code, p)
    ensures Height(code, p + Len(e)) == Height(code, p) + Splits(e)
    decreases e, 0
  {
    hide Fetch, Boundary, Starts, LaidOut, Height, Splits, Len;
    SplitsOf(e);
    GroupStarts(e, code, p);
    GroupParts(e, code, p);
    GroupLen(e);
    HeightNext(code, p);
    Climbs(e.body, code, p + 3);
    GroupEndClimbs(e, code, p + 3 + Len(e.body));
  }

  lemma GroupEndClimbs(e: Re, code: seq<byte>, m: nat)
    requires e.Group? && Starts(code, m) && (e.body.Alt? ==> Fetch(code, m).PushDummyFailure?)
    requires Fetch(code, if e.body.Alt? then m + 1 else m).StopMemory?
    ensures Height(code, m + if e.body.Alt? then 4 else 3) == Height(code, m) + if e.body.Alt? then 1 else 0
  {
    hide Fetch, Boundary, Starts, Height;
    HeightNext(code, m);
    if e.body.Alt? {
      StartsNext(code, m);
      HeightNext(code, m + 1);
    }
  }

  /** From in front of a loop to behind it. */
  lemma {:induction false} LoopClimbs(body: Re, code: seq<byte>, t: nat)
    requires LoopAt(body, code, t) && Starts(code, t)
    ensures Height(code, t + 3) == Height(code, t) + 1
    ensures Height(code, t + 3 + Len(body)) == Height(code, t + 6 + Len(body)) == Height(code, t) + 1 + Splits(body)
    decreases body, 2
  {
    hide Fetch, Boundary, Starts, LaidOut, LoopAt, Height;
    LoopStarts(body, code, t);
    LoopParts(body, code, t);
    HeightNext(code, t);
    Climbs(body, code, t + 3);
    HeightNext(code, t + 3 + Len(body));
  }

  lemma {:induction false} RepeatClimbs(e: Re, code: seq<byte>, p: nat)
    requires e.Repeat? && LaidOut(e, code, p) && Starts(code, p)
    ensures Height(code, p + Len(e)) == Height(code, p) + Splits(e)
    decreases e, 0
  {
    hide Fetch, Boundary, Starts, LaidOut, LoopAt, Height, Splits, Len;
    SplitsOf(e);
    RepeatParts(e, code, p);
    RepeatLen(e);
    match e.op
    case Star => LoopClimbs(e.body, code, p);
    case Plus =>
      StartsNext(code, p);
      HeightNext(code, p);
      LoopClimbs(e.body, code, p + 3);
    case Opt =>
      StartsNext(code, p);
      HeightNext(code, p);
      Climbs(e.body, code, p + 3);
  }

  // ----- what follows a loop -----

  /** What is found behind the group commands at `q`. */
  ghost predicate Follows(code: seq<byte>, q: nat, n: Next) {
    var p2 := SkipGroups(code, q);
    match n
    case Finish => p2 == |code|
    case Byte(c) => Fetch(code, p2).ExactN? && |Fetch(code, p2).cs| > 0 && Fetch(code, p2).cs[0] == c
    case Other => true
  }

  lemma SkipsOne(code: seq<byte>, p: nat)
    ensures SkipGroups(code, p) ==
            if Fetch(code, p).StartMemory? || Fetch(code, p).StopMemory? then SkipGroups(code, p + 3) else p
  {
    hide Fetch;
  }

  lemma {:induction false} AheadFollows(e: Re, n: Next, code: seq<byte>, p: nat)
    requires LaidOut(e, code, p) && Follows(code, p + Len(e), n)
    ensures Follows(code, p, Ahead(e, n))
    decreases e
  {
    hide Fetch, LaidOut, SkipGroups, Follows;
    match e
    case Empty => assert p + Len(e) == p;
    case Exact(cs) =>
      OtherFollows(code, p);
      if |cs| > 0 { ExactFollows(cs, code, p); }
    case Cat(l, r) =>
      CatLaidOut(l, r, code, p);
      assert p + Len(l) + Len(r) == p + Len(e);
      AheadFollows(r, n, code, p + Len(l));
      AheadFollows(l, Ahead(r, n), code, p);
    case Group(_, _, body) =>
      GroupParts(e, code, p);
      GroupLen(e);
      if body.Alt? {
        OtherFollows(code, p);
      } else {
        SkipFollows(code, p + 3 + Len(body), n);
        AheadFollows(body, n, code, p + 3);
        SkipFollows(code, p, Ahead(body, n));
      }
    case _ => OtherFollows(code, p);
  }

  lemma OtherFollows(code: seq<byte>, p: nat)
    ensures Follows(code, p, Other)
  {}

  lemma ExactFollows(cs: seq<byte>, code: seq<byte>, p: nat)
    requires LaidOut(Exact(cs), code, p) && |cs| > 0
    ensures Follows(code, p, Byte(cs[0]))
  {
    hide Fetch;
    SkipsOne(code, p);
  }

  lemma SkipFollows(code: seq<byte>, p: nat, n: Next)
    requires Fetch(code, p).StartMemory? || Fetch(code, p).StopMemory?
    requires Follows(code, p + 3, n)
    ensures Follows(code, p, n)
  {
    hide Fetch, SkipGroups;
    SkipsOne(code, p);
  }

  /** The closing jump at `x`, of a loop over `body`, settles to a pop. */
  lemma DropsPops(body: Re, n: Next, code: seq<byte>, t: nat, x: nat)
    requires LoopAt(body, code, t) && x == t + 3 + Len(body) && Drops(body, n) && Follows(code, x + 3, n)
    requires Fit(body)
    ensures CanPop(code, x)
  {
    hide Fetch, LaidOut, SkipGroups, LoopAt, Bit, Len;
    LoopParts(body, code, t);
    assert x + 6 - (Len(body) + 6) == t + 3;
    if n.Byte? {
      match body
      case Exact(cs) => ExactFetch(cs, code, t + 3);
      case Charset(neg, bits) =>
        SetFetch(neg, bits, code, t + 3);
        Cut(bits, n.c);
    }
  }

  lemma ExactFetch(cs: seq<byte>, code: seq<byte>, p: nat)
    requires LaidOut(Exact(cs), code, p)
    ensures Fetch(code, p) == ExactN(cs)
  {}

  lemma SetFetch(neg: bool, bits: seq<byte>, code: seq<byte>, p: nat)
    requires LaidOut(Charset(neg, bits), code, p)
    ensures Fetch(code, p) == Bracket(neg, bits)
  {}

  /** The count of bits, cut to a byte. */
  lemma Cut(bits: seq<byte>, c: byte)
    requires |bits| <= 32
    ensures c < |bits| * 8 % 256 && Bit(bits[c / 8], c % 8) <==> |bits| < 32 && InMap(bits, c)
  {
    hide Bit;
  }

  lemma {:induction false} NoSplitsGreedy(e: Re, n: Next)
    requires Splits(e) == 0
    ensures Greedy(e, n)
    decreases e
  {
    match e
    case Cat(l, r) =>
      NoSplitsGreedy(l, Ahead(r, n));
      NoSplitsGreedy(r, n);
    case Group(_, _, body) => NoSplitsGreedy(body, if body.Alt? then Other else n);
    case _ =>
  }

  /** What follows a part. */
  lemma PartGreedy(c: Re, pc: nat, e: Re, q: nat, n: Next, code: seq<byte>) returns (m: Next)
    requires PartAt(c, pc, e, q) && LaidOut(e, code, q) && Greedy(e, n) && Follows(code, q + Len(e), n)
    ensures Greedy(c, m) && Follows(code, pc + Len(c), m)
  {
    hide Fetch, LaidOut, Follows, Greedy, Len;
    match e
    case Cat(_, _) => m := CatGreedy(c, pc, e, q, n, code);
    case Alt(_, _) => m := AltGreedy(c, pc, e, q, n, code);
    case Group(_, _, _) => m := GroupGreedy(c, pc, e, q, n, code);
    case Repeat(_, _) => m := RepeatGreedy(c, pc, e, q, n, code);
  }

  lemma CatGreedy(c: Re, pc: nat, e: Re, q: nat, n: Next, code: seq<byte>) returns (m: Next)
    requires e.Cat?
    requires PartAt(c, pc, e, q) && LaidOut(e, code, q) && Greedy(e, n) && Follows(code, q + Len(e), n)
    ensures Greedy(c, m) && Follows(code, pc + Len(c), m)
  {
    hide Fetch, LaidOut, Follows;
    CatLaidOut(e.l, e.r, code, q);
    assert q + Len(e.l) + Len(e.r) == q + Len(e);
    AheadFollows(e.r, n, code, q + Len(e.l));
    m := if c == e.l && pc == q then Ahead(e.r, n) else n;
  }

  lemma AltGreedy(c: Re, pc: nat, e: Re, q: nat, n: Next, code: seq<byte>) returns (m: Next)
    requires e.Alt?
    requires PartAt(c, pc, e, q) && LaidOut(e, code, q) && Greedy(e, n) && Follows(code, q + Len(e), n)
    ensures Greedy(c, m) && Follows(code, pc + Len(c), m)
  {
    hide Fetch, LaidOut, Follows;
    AltLen(e);
    OtherFollows(code, pc + Len(c));
    m := if c == e.l && pc == q + 3 then Other else n;
  }

  lemma GroupGreedy(c: Re, pc: nat, e: Re, q: nat, n: Next, code: seq<byte>) returns (m: Next)
    requires e.Group?
    requires PartAt(c, pc, e, q) && LaidOut(e, code, q) && Greedy(e, n) && Follows(code, q + Len(e), n)
    ensures Greedy(c, m) && Follows(code, pc + Len(c), m)
  {
    hide Fetch, LaidOut, Follows;
    GroupParts(e, code, q);
    GroupLen(e);
    OtherFollows(code, pc + Len(c));
    m := if e.body.Alt? then Other else n;
    if !e.body.Alt? { SkipFollows(code, q + 3 + Len(e.body), n); }
  }

  lemma RepeatGreedy(c: Re, pc: nat, e: Re, q: nat, n: Next, code: seq<byte>) returns (m: Next)
    requires e.Repeat?
    requires PartAt(c, pc, e, q) && LaidOut(e, code, q) && Greedy(e, n) && Follows(code, q + Len(e), n)
    ensures Greedy(c, m) && Follows(code, pc + Len(c), m)
  {
    hide Fetch, LaidOut, Follows;
    RepeatLen(e);
    OtherFollows(code, pc + Len(c));
    m := if e.op.Opt? then n else Other;
    if !e.op.Opt? { NoSplitsGreedy(e.body, Other); }
  }

  /** Every closing jump of a greedy pattern pops, and goes back one down at most. */
  lemma {:induction false} GreedyCloses(e: Re, n: Next, code: seq<byte>, q: nat, x: nat)
    requires Fit(e) && Greedy(e, n) && LaidOut(e, code, q) && Starts(code, q) && Follows(code, q + Len(e), n)
    requires Starts(code, x) && q <= x < q + Len(e) && Fetch(code, x).MaybePopJump?
    ensures Even(code, x)
    decreases e
  {
    hide Fetch, Boundary, Starts, LaidOut, LoopAt, Owns, Len, Fit, Follows, Greedy, Even;
    if Owns(e, q, x) {
      LoopEven(e, n, code, q, x);
    } else {
      var c, pc := Descend(e, code, q, x);
      PartFit(c, pc, e, q);
      var m := PartGreedy(c, pc, e, q, n, code);
      GreedyCloses(c, m, code, pc, x);
    }
  }

  lemma LoopEven(e: Re, n: Next, code: seq<byte>, q: nat, x: nat)
    requires Fit(e) && Greedy(e, n) && LaidOut(e, code, q) && Starts(code, q) && Follows(code, q + Len(e), n)
    requires Fetch(code, x).MaybePopJump? && Owns(e, q, x)
    ensures Even(code, x)
  {
    hide Fetch, Starts, Boundary, LaidOut, LoopAt, Follows, CanPop, Height;
    var t := ClosedLoop(e, code, q, x);
    RepeatLen(e);
    LoopParts(e.body, code, t);
    LoopClimbs(e.body, code, t);
    LoopPlace(e, code, q, t, x);
    DropsPops(e.body, n, code, t, x);
    assert x + 3 - (Len(e.body) + 6) == t;
  }

  lemma LoopPlace(e: Re, code: seq<byte>, q: nat, t: nat, x: nat)
    requires e.Repeat? && !e.op.Opt? && Owns(e, q, x) && LaidOut(e, code, q) && Fetch(code, x).MaybePopJump?
    requires x == t + 3 + Len(e.body)
    ensures x + 3 == q + Len(e)
  {
    hide Fetch, LaidOut, LoopAt;
    RepeatParts(e, code, q);
    RepeatLen(e);
    LoopParts(e.body, code, if e.op.Plus? then q + 3 else q);
  }

  /** The first turn of a `+` enters its loop behind the failure jump. */
  lemma DummyEven(e: Re, code: seq<byte>, x: nat)
    requires Fit(e) && LaidOut(e, code, 0) && Len(e) == |code| && Starts(code, x) && Fetch(code, x).DummyFailureJump?
    ensures Even(code, x)
  {
    hide Fetch, Boundary, Starts, LaidOut, LoopAt, Owns, Len, Fit, EndOk;
    StartAtZero(code);
    NoFetch(code);
    StartAtMost(code, x);
    var n, p := Owner(e, code, 0, x);
    PlusEven(n, code, p, x);
  }

  lemma PlusEven(n: Re, code: seq<byte>, p: nat, x: nat)
    requires LaidOut(n, code, p) && Starts(code, p) && Owns(n, p, x) && Fetch(code, x).DummyFailureJump?
    ensures Even(code, x)
  {
    hide Fetch, Boundary, Starts, LaidOut, LoopAt, Even;
    match n
    case Alt(_, _) => AltParts(code, p, n); assert false;
    case Group(_, _, _) => GroupParts(n, code, p); assert false;
    case Repeat(op, body) =>
      RepeatParts(n, code, p);
      if op.Plus? {
        LoopParts(body, code, p + 3);
        EntryEven(body, code, p);
      } else {
        if op.Star? { LoopParts(body, code, p); }
        assert false;
      }
    case _ => LeafPlain(n, code, p); assert false;
  }

  lemma EntryEven(body: Re, code: seq<byte>, p: nat)
    requires Starts(code, p) && Fetch(code, p) == DummyFailureJump(3) && LoopAt(body, code, p + 3)
    ensures Even(code, p)
  {
    hide Fetch, Boundary, Starts, LaidOut, LoopAt, Height;
    StartsNext(code, p);
    HeightNext(code, p);
    LoopClimbs(body, code, p + 3);
  }

  lemma LeafPlain(e: Re, code: seq<byte>, p: nat)
    requires LaidOut(e, code, p) && (e.Exact? || e.Any? || e.Charset? || e.Bol? || e.Eol?)
    ensures !Fetch(code, p).DummyFailureJump?
  {
    hide Fetch;
  }

  lemma GreedySteady(e: Re, code: seq<byte>)
    requires Fit(e) && LaidOut(e, code, 0) && Len(e) == |code| && Greedy(e, Finish)
    ensures Steady(code)
  {
    hide Fetch, Boundary, Starts, LaidOut, Len, Fit, Wired, Greedy, Follows, Even;
    CodeWired(e, code);
    StartAtZero(code);
    EndFollows(code);
    forall x: nat | Starts(code, x)
      ensures Even(code, x)
    {
      StartAtMost(code, x);
      NoFetch(code);
      if Fetch(code, x).MaybePopJump? {
        GreedyCloses(e, Finish, code, 0, x);
      } else if Fetch(code, x).DummyFailureJump? {
        DummyEven(e, code, x);
      } else {
        PlainEven(code, x);
      }
    }
  }

  lemma PlainEven(code: seq<byte>, x: nat)
    requires !Fetch(code, x).MaybePopJump? && !Fetch(code, x).DummyFailureJump?
    ensures Even(code, x)
  {
    hide Fetch;
  }

  lemma EndFollows(code: seq<byte>)
    ensures Follows(code, |code|, Finish)
  {
    SkipsOne(code, |code|);
  }

  // ----- the room for it -----

  lemma {:induction false} RepeatsInside(n: Re, e: Re)
    requires Inside(n, e) && RepeatsGroup(n)
    ensures RepeatsGroup(e)
  {
    if n != e {
      match e
      case Cat(l, r) => if Inside(n, l) { RepeatsInside(n, l); } else { RepeatsInside(n, r); }
      case Alt(l, r) => if Inside(n, l) { RepeatsInside(n, l); } else { RepeatsInside(n, r); }
      case Group(_, _, body) => RepeatsInside(n, body);
      case Repeat(_, body) => RepeatsInside(n, body);
    }
  }

  lemma RoundRepeats(e: Re, code: seq<byte>, x: nat)
    requires Fit(e) && LaidOut(e, code, 0) && Len(e) == |code| && Starts(code, x) && ClosesRound(code, x)
    ensures RepeatsGroup(e)
  {
    hide Fetch, Boundary, Starts, LaidOut, LoopAt, Owns, Fit, LoopExit, Wired, EndOk, RepeatsGroup;
    CodeWired(e, code);
    SelfRelated(code);
    NoFetch(code);
    StartAtMost(code, x);
    ExitBehind(code, code, x, Fetch(code, x).reg);
    StartsNext(code, x);
    StartAtMost(code, x + 3);
    StartAtZero(code);
    ClosingBefore(e, code, x);
    var n, p := Owner(e, code, 0, x + 3);
    InsideFit(n, e);
    LoopRepeats(n, code, p, x);
    RepeatsInside(n, e);
  }

  lemma LoopRepeats(n: Re, code: seq<byte>, p: nat, x: nat)
    requires Fit(n) && LaidOut(n, code, p) && Starts(code, p) && Owns(n, p, x + 3) && Fetch(code, x).StopMemory?
    requires ClosesBehind(code, x)
    ensures RepeatsGroup(n)
  {
    hide Fetch, Boundary, Starts, LaidOut, LoopAt;
    var t := ClosedLoop(n, code, p, x + 3);
    LoopParts(n.body, code, t);
    assert x + 6 - (Len(n.body) + 6) == t;
    if !n.body.Group? { LeafByte(n.body, code, t + 3); }
  }

  lemma FixedRoomy(e: Re, code: seq<byte>, limit: nat)
    requires Fit(e) && LaidOut(e, code, 0) && Len(e) == |code| && Fixed(e) <= limit
    ensures Roomy(code, limit)
  {
    hide Fetch, Boundary, Starts, LaidOut, Len, Fit, ClosesRound, Splits, RepeatsGroup, Height;
    StartAtZero(code);
    Climbs(e, code, 0);
    assert Height(code, 0) == 0 by { AtFront(code); }
    forall x: nat | Starts(code, x) && ClosesRound(code, x)
      ensures Height(code, x) < limit
    {
      RoundRepeats(e, code, x);
      StartAtMost(code, x);
      HeightGrows(code, x, |code|);
    }
  }

  lemma AtFront(code: seq<byte>)
    ensures Height(code, 0) == 0
  {}

  /** With room for its forks, no run of a greedy pattern overflows, however long the
      text, from whatever start, on whatever copy of the code. */
  lemma FixedRuns(e: Re, code0: seq<byte>, nsub: nat, env: Env, code: seq<byte>, result: int, code': seq<byte>)
    requires Compiled(e, code0, nsub) && Greedy(e, Finish) && Fixed(e) <= env.limit
    requires Related(code0, code) && RunsTo(env, nsub, code, result, code')
    ensures result != OVERFLOW
  {
    hide Related, RunsTo, LaidOut, Len, Fit, Greedy, Steady, Roomy, Fixed, Numbered;
    GreedySteady(e, code0);
    FixedRoomy(e, code0, env.limit);
    SteadyRuns(code0, nsub, env, code, result, code');
  }
}
