/** The flags of the groups a run is inside of.

    After every step of every run, each group whose code the place is inside of is in
    the active range, is active, and is marked as having matched something exactly
    when input was consumed since its `start_memory` was run.  Each failure point has
    saved flags for which that holds too. */
module GroupFlags {
  import opened Octets
  import opened RegexLang
  import opened Backtrack
  import opened Bytecode
  import opened Machine
  import opened Rewriting
  import opened Invariant
  import opened InvariantFacts
  import opened Layout
  import opened Closings
  import opened Nest
  import opened Plays
  import opened MatchTheorem
  import opened PopDiscipline
  import opened Twins

  // ----- group numbers rise through the code -----

  /** The number of the first group that begins at `p` or behind; 256 if none does. */
  ghost function NextReg(code: seq<byte>, p: nat): (r: nat)
    ensures r <= 256
    decreases |code| - p
  {
    match Fetch(code, p)
    case Bad => 256
    case StartMemory(reg, _) => reg
    case i => NextReg(code, p + Width(i))
  }

  /** At the beginning of a group only greater numbers are to come. */
  ghost predicate RisesAt(code: seq<byte>, x: nat) {
    match Fetch(code, x)
    case StartMemory(reg, _) => 1 <= reg < NextReg(code, x + 3)
    case _ => true
  }

  /** From `q` to `z` it is so, and there all numbers are at least `b`. */
  ghost predicate RisesTo(code: seq<byte>, q: nat, z: nat, b: nat) {
    b <= NextReg(code, q) && forall x: nat | Starts(code, x) && q <= x < z :: RisesAt(code, x)
  }

  lemma StepReg(code: seq<byte>, x: nat)
    requires Starts(code, x) && Fetch(code, x) != Bad && !Fetch(code, x).StartMemory?
    ensures NextReg(code, x) == NextReg(code, x + Width(Fetch(code, x))) && RisesAt(code, x)
  {
    hide Fetch;
  }

  /** One instruction that begins no group, in front. */
  lemma RiseOver(code: seq<byte>, x: nat, z: nat, b: nat)
    requires Starts(code, x) && Fetch(code, x) != Bad && !Fetch(code, x).StartMemory?
    requires RisesTo(code, x + Width(Fetch(code, x)), z, b)
    ensures RisesTo(code, x, z, b)
  {
    hide Fetch, Starts, RisesAt;
    StepReg(code, x);
    forall y: nat | Starts(code, y) && x <= y < z
      ensures RisesAt(code, y)
    {
      Outside(code, x, y);
    }
  }

  /** Two stretches. */
  lemma RiseJoin(code: seq<byte>, q: nat, m: nat, z: nat, b: nat, c: nat)
    requires RisesTo(code, q, m, b) && RisesTo(code, m, z, c)
    ensures RisesTo(code, q, z, b)
  {
    hide RisesAt, Starts;
  }

  /** The code of a part of the pattern, numbered from `b` on, before code numbered
      from behind it. */
  lemma {:induction false} PartRises(e: Re, code: seq<byte>, q: nat, b: nat)
    requires LaidOut(e, code, q) && Starts(code, q) && Numbered(e, b) && 1 <= b
    requires Invariant.After(e, b) <= NextReg(code, q + Len(e))
    ensures RisesTo(code, q, q + Len(e), b)
    decreases e, 1
  {
    hide Fetch, Boundary, Starts, LaidOut, LoopAt, RisesAt, NextReg;
    match e
    case Empty => assert q + Len(e) == q;
    case Cat(l, r) =>
      CatLaidOut(l, r, code, q);
      LaidOutStarts(l, code, q);
      AfterGrows(l, b);
      PartRises(r, code, q + Len(l), Invariant.After(l, b));
      PartRises(l, code, q, b);
      RiseJoin(code, q, q + Len(l), q + Len(e), b, Invariant.After(l, b));
    case Alt(_, _) => AltRises(e, code, q, b);
    case Group(_, _, _) => GroupRises(e, code, q, b);
    case Repeat(_, _) => RepeatRises(e, code, q, b);
    case _ => LeafRises(e, code, q, b);
  }

  lemma NoRise(code: seq<byte>, z: nat, b: nat)
    requires b <= NextReg(code, z)
    ensures RisesTo(code, z, z, b)
  {}

  lemma LeafRises(e: Re, code: seq<byte>, q: nat, b: nat)
    requires LaidOut(e, code, q) && Starts(code, q) && b <= NextReg(code, q + Len(e))
    requires e.Exact? || e.Any? || e.Charset? || e.Bol? || e.Eol?
    ensures RisesTo(code, q, q + Len(e), b)
  {
    hide Fetch, Boundary, Starts, RisesTo, NextReg;
    NoRise(code, q + Len(e), b);
    RiseOver(code, q, q + Len(e), b);
  }

  lemma {:induction false} AltRises(e: Re, code: seq<byte>, q: nat, b: nat)
    requires e.Alt? && LaidOut(e, code, q) && Starts(code, q) && Numbered(e, b) && 1 <= b
    requires Invariant.After(e, b) <= NextReg(code, q + Len(e))
    ensures RisesTo(code, q, q + Len(e), b)
    decreases e, 0
  {
    hide Fetch, Boundary, Starts, LaidOut, LoopAt, RisesTo, NextReg, Len;
    AltLen(e);
    var l, r, m, z, c := e.l, e.r, q + 3 + Len(e.l), q + Len(e), Invariant.After(e.l, b);
    AltStarts(e, code, q);
    AltParts(code, q, e);
    AfterGrows(l, b);
    PartRises(r, code, m + 3, c);
    RiseOver(code, m, z, c);
    RisesFrom(code, m, z, c);
    PartRises(l, code, q + 3, b);
    RiseJoin(code, q + 3, m, z, b, c);
    RiseOver(code, q, z, b);
  }

  lemma RisesFrom(code: seq<byte>, q: nat, z: nat, b: nat)
    requires RisesTo(code, q, z, b)
    ensures b <= NextReg(code, q)
  {}

  lemma {:induction false} GroupRises(e: Re, code: seq<byte>, q: nat, b: nat)
    requires e.Group? && LaidOut(e, code, q) && Starts(code, q) && Numbered(e, b) && 1 <= b
    requires Invariant.After(e, b) <= NextReg(code, q + Len(e))
    ensures RisesTo(code, q, q + Len(e), b)
    decreases e, 0
  {
    hide Fetch, Boundary, Starts, LaidOut, LoopAt, RisesTo, NextReg, Len;
    GroupLen(e);
    var body, m, z, c := e.body, q + 3 + Len(e.body), q + Len(e), e.reg + 1 + e.inner;
    GroupStarts(e, code, q);
    GroupParts(e, code, q);
    NoRise(code, z, c);
    if body.Alt? {
      StartsNext(code, m);
      RiseOver(code, m + 1, z, c);
    }
    RiseOver(code, m, z, c);
    RisesFrom(code, m, z, c);
    PartRises(body, code, q + 3, e.reg + 1);
    RiseJoin(code, q + 3, m, z, e.reg + 1, c);
    RiseStart(code, q, z, b, e.reg);
  }

  /** The beginning of a group in front. */
  lemma RiseStart(code: seq<byte>, x: nat, z: nat, b: nat, reg: nat)
    requires Starts(code, x) && Fetch(code, x).StartMemory? && Fetch(code, x).reg == reg && 1 <= b <= reg
    requires RisesTo(code, x + 3, z, reg + 1)
    ensures RisesTo(code, x, z, b)
  {
    hide Fetch, Starts;
    forall y: nat | Starts(code, y) && x <= y < z
      ensures RisesAt(code, y)
    {
      Outside(code, x, y);
    }
  }

  lemma {:induction false} LoopRises(body: Re, code: seq<byte>, t: nat, b: nat)
    requires LoopAt(body, code, t) && Starts(code, t) && Numbered(body, b) && 1 <= b
    requires Invariant.After(body, b) <= NextReg(code, t + 6 + Len(body))
    ensures RisesTo(code, t, t + 6 + Len(body), b)
    decreases body, 2
  {
    hide Fetch, Boundary, Starts, LaidOut, LoopAt, RisesTo, NextReg;
    var m, z, c := t + 3 + Len(body), t + 6 + Len(body), Invariant.After(body, b);
    LoopStarts(body, code, t);
    LoopParts(body, code, t);
    NoRise(code, z, c);
    RiseOver(code, m, z, c);
    RisesFrom(code, m, z, c);
    PartRises(body, code, t + 3, b);
    RiseJoin(code, t + 3, m, z, b, c);
    RiseOver(code, t, z, b);
  }

  lemma {:induction false} RepeatRises(e: Re, code: seq<byte>, q: nat, b: nat)
    requires e.Repeat? && LaidOut(e, code, q) && Starts(code, q) && Numbered(e, b) && 1 <= b
    requires Invariant.After(e, b) <= NextReg(code, q + Len(e))
    ensures RisesTo(code, q, q + Len(e), b)
    decreases e, 0
  {
    hide Fetch, Boundary, Starts, LaidOut, LoopAt, RisesTo, NextReg, Len;
    RepeatParts(e, code, q);
    RepeatLen(e);
    match e.op
    case Star => LoopRises(e.body, code, q, b);
    case Plus =>
      StartsNext(code, q);
      LoopRises(e.body, code, q + 3, b);
      RiseOver(code, q, q + Len(e), b);
    case Opt =>
      StartsNext(code, q);
      PartRises(e.body, code, q + 3, b);
      RiseOver(code, q, q + Len(e), b);
  }

  ghost predicate Rises(code: seq<byte>) {
    forall x: nat :: Starts(code, x) ==> RisesAt(code, x)
  }

  lemma CodeRises(e: Re, code: seq<byte>, nsub: nat)
    requires Compiled(e, code, nsub)
    ensures Rises(code) && NestAt(code, 0).groups == []
  {
    hide Fetch, Boundary, LaidOut, Numbered, Invariant.After, RisesAt, NextReg, Fit;
    StartAtZero(code);
    EndReg(code);
    PartRises(e, code, 0, 1);
    forall x: nat | Starts(code, x)
      ensures RisesAt(code, x)
    {}
  }

  lemma EndReg(code: seq<byte>)
    ensures NextReg(code, |code|) == 256 && RisesAt(code, |code|)
  {}

  /** Going on only makes it greater. */
  lemma {:induction false} NextRegGrows(code: seq<byte>, p: nat, q: nat)
    requires Rises(code) && Starts(code, p) && Starts(code, q) && p <= q
    ensures NextReg(code, p) <= NextReg(code, q)
    decreases q - p
  {
    hide Fetch, Starts, Boundary;
    if p < q {
      Outside2(code, p, q);
      var next := p + Width(Fetch(code, p));
      StartsNext(code, p);
      assert RisesAt(code, p);
      NextRegGrows(code, next, q);
    }
  }

  lemma Outside2(code: seq<byte>, p: nat, q: nat)
    requires Starts(code, p) && Starts(code, q) && p < q
    ensures Fetch(code, p) != Bad && p + Width(Fetch(code, p)) <= q
  {
    hide Fetch;
    NothingInside(code, 0, p, q);
  }

  /** Each group has a greater number than those around it. */
  ghost predicate Rising(gs: seq<nat>, b: nat) {
    && (forall i | 0 <= i < |gs| :: 1 <= gs[i] < b)
    && forall i, j | 0 <= i < j < |gs| :: gs[i] < gs[j]
  }

  /** Groups that are open have smaller numbers than those to come. */
  lemma {:induction false} ScanRises(code: seq<byte>, a: nat, p: nat, n: Nest)
    requires Rises(code) && Starts(code, a) && Starts(code, p) && a <= p && Rising(n.groups, NextReg(code, a))
    ensures Rising(Scan(code, a, p, n).groups, NextReg(code, p))
    decreases p - a
  {
    hide Fetch, Starts, Boundary, BeginsLoop, NextReg;
    if a < p {
      Outside2(code, a, p);
      StartsNext(code, a);
      assert RisesAt(code, a);
      PassedRises(code, a, n);
      ScanRises(code, a + Width(Fetch(code, a)), p, Passed(code, a, n));
    }
  }

  lemma PassedRises(code: seq<byte>, a: nat, n: Nest)
    requires RisesAt(code, a) && Fetch(code, a) != Bad && Rising(n.groups, NextReg(code, a))
    ensures Rising(Passed(code, a, n).groups, NextReg(code, a + Width(Fetch(code, a))))
  {
    hide Fetch, BeginsLoop;
  }

  lemma RisingHere(code0: seq<byte>, p: nat)
    requires Rises(code0) && Starts(code0, p)
    ensures Rising(NestAt(code0, p).groups, NextReg(code0, p))
  {
    hide Starts, Rising, Scan, Rises;
    StartAtZero(code0);
    var n := NestAt(code0, 0);
    FromNothing(code0, p);
    NoGroups(NextReg(code0, 0));
    ScanRises(code0, 0, p, n);
  }

  lemma FromNothing(code: seq<byte>, p: nat)
    ensures NestAt(code, 0).groups == [] && NestAt(code, p) == Scan(code, 0, p, NestAt(code, 0))
  {}

  lemma NoGroups(b: nat)
    ensures Rising([], b)
  {}

  // ----- the flags -----

  /** A group that is open is in the active range, active, and marked as matched
      exactly when something was consumed since its `start_memory` was run. */
  predicate Marked(reg: nat, d: nat, low: nat, high: nat, info: seq<RegInfo>) {
    && low <= reg <= high && reg < |info|
    && info[reg].active && info[reg].since <= d && (info[reg].matched <==> info[reg].since < d)
  }

  predicate AllMarked(gs: seq<nat>, d: nat, low: nat, high: nat, info: seq<RegInfo>) {
    forall reg | reg in gs :: Marked(reg, d, low, high, info)
  }

  /** Every group whose code the place is inside of is flagged rightly. */
  ghost predicate GroupsFlagged(code0: seq<byte>, st: VState) {
    AllMarked(NestAt(code0, st.p).groups, st.d, st.low, st.high, st.info)
  }

  /** Where a closing jump leads; any other place itself. */
  ghost function Head(code0: seq<byte>, p: nat): nat {
    if Fetch(code0, p).MaybePopJump? && p + 3 + Fetch(code0, p).off >= 0 then p + 3 + Fetch(code0, p).off else p
  }

  /** With no group open the active range does not begin behind the next group. */
  ghost predicate LowFits(code0: seq<byte>, p: nat, low: nat) {
    NestAt(code0, p).groups == [] ==> low == NO_LOWEST_ACTIVE_REG || low <= NextReg(code0, Head(code0, p))
  }

  ghost predicate FlagsFit(code0: seq<byte>, st: VState) {
    GroupsFlagged(code0, st) && LowFits(code0, st.p, st.low)
  }

  /** So it will be when the failure point is resumed. */
  ghost predicate PointFlagged(code0: seq<byte>, fp: FailPoint) {
    fp.dummy ||
    (LowFits(code0, fp.pat, fp.low) &&
     forall reg | reg in NestAt(code0, fp.pat).groups ::
       fp.low <= reg <= fp.high && reg - fp.low < |fp.saved| &&
       var i := fp.saved[reg - fp.low]; i.active && i.since <= fp.str && (i.matched <==> i.since < fp.str))
  }

  ghost predicate AllFlagged(code0: seq<byte>, st: VState) {
    FlagsFit(code0, st) && forall fp | fp in st.stack :: PointFlagged(code0, fp)
  }

  /** What is needed of the code. */
  ghost predicate Guarded(code0: seq<byte>) {
    forall x: nat {:trigger Starts(code0, x)} :: Starts(code0, x) ==>
      LeadsOpen(code0, x) &&
      (Fetch(code0, x) != Bad && Fetch(code0, x + Width(Fetch(code0, x))).MaybePopJump? ==> ClosesBehind(code0, x))
  }

  ghost predicate WellFormed(code0: seq<byte>) {
    Structured(code0) && Rises(code0) && Guarded(code0)
  }

  // ----- what keeps them -----

  lemma OpenHead(code0: seq<byte>, p: nat)
    requires Open(code0, p)
    ensures Head(code0, p) == p
  {
    hide Fetch;
  }

  /** Forward, with the groups the same. */
  lemma LowForward(code0: seq<byte>, p: nat, q: nat, low: nat)
    requires LowFits(code0, p, low) && NestAt(code0, q).groups == NestAt(code0, p).groups
    requires Rises(code0) && Starts(code0, p) && Starts(code0, q) && p <= q && Open(code0, p) && Open(code0, q)
    ensures LowFits(code0, q, low)
  {
    hide Fetch, Starts, NestAt, NextReg, Rises;
    OpenHead(code0, p);
    OpenHead(code0, q);
    NextRegGrows(code0, p, q);
  }

  /** Behind a command that takes a byte. */
  lemma LowConsume(code0: seq<byte>, p: nat, low: nat)
    requires LowFits(code0, p, low) && Rises(code0) && Guarded(code0) && Starts(code0, p) && Whole(code0)
    requires var i := Fetch(code0, p); i.ExactN? || i.AnyChar? || i.Bracket?
    requires NestAt(code0, p + Width(Fetch(code0, p))).groups == NestAt(code0, p).groups
    ensures LowFits(code0, p + Width(Fetch(code0, p)), low)
  {
    hide Fetch, Starts, NestAt, NextReg, Rises;
    var q := p + Width(Fetch(code0, p));
    StartsNext(code0, p);
    if Fetch(code0, q).MaybePopJump? {
      assert ClosesBehind(code0, p);
      OpenHead(code0, p);
      HeadReg(code0, p - 3);
    } else {
      LowForward(code0, p, q, low);
    }
  }

  lemma HeadReg(code0: seq<byte>, t: nat)
    ensures Fetch(code0, t).OnFailureJump? ==> NextReg(code0, t) == NextReg(code0, t + 3)
    ensures Fetch(code0, t).StartMemory? ==> NextReg(code0, t) == Fetch(code0, t).reg
  {
    hide Fetch;
  }

  /** Where the groups are the same nothing changes. */
  lemma MovedFlags(code0: seq<byte>, st: VState, st': VState)
    requires AllFlagged(code0, st) && st'.stack <= st.stack && LowFits(code0, st'.p, st'.low)
    requires NestAt(code0, st'.p).groups == NestAt(code0, st.p).groups
    requires st'.d == st.d && st'.low == st.low && st'.high == st.high && st'.info == st.info
    ensures AllFlagged(code0, st')
  {
    hide PointFlagged, NestAt, LowFits;
    assert forall fp | fp in st'.stack :: fp in st.stack;
  }

  lemma ConsumeFlags(code0: seq<byte>, st: VState, n: nat, p: nat)
    requires AllFlagged(code0, st) && n > 0 && NestAt(code0, p).groups == NestAt(code0, st.p).groups
    requires LowFits(code0, p, st.low) && Consume(st, n, p).Running?
    ensures AllFlagged(code0, Consume(st, n, p).st)
  {
    hide PointFlagged, NestAt, LowFits;
  }

  /** A failure point pushed with the range and the flags as they are. */
  lemma PushFlags(code0: seq<byte>, env: Env, st: VState, dummy: bool, pat: int, str: nat)
    requires AllFlagged(code0, st) && Push(env, st, dummy, pat, str).Running?
    requires !dummy ==>
      NestAt(code0, pat).groups == NestAt(code0, st.p).groups && str == st.d && LowFits(code0, pat, st.low)
    ensures AllFlagged(code0, Push(env, st, dummy, pat, str).st)
  {
    hide NestAt, LowFits;
    var fp := FailPoint(dummy, pat, str, st.low, st.high, Saved(st));
    forall reg | !dummy && reg in NestAt(code0, fp.pat).groups
      ensures fp.low <= reg <= fp.high && reg - fp.low < |fp.saved| && fp.saved[reg - fp.low] == st.info[reg]
    {
      assert Marked(reg, st.d, st.low, st.high, st.info);
    }
    assert PointFlagged(code0, fp);
  }

  /** The groups that are open stay in a range made wider. */
  lemma WidenedFlags(code0: seq<byte>, st: VState, code: seq<byte>)
    requires AllFlagged(code0, st) && Rising(NestAt(code0, st.p).groups, NextReg(code0, st.p + 3))
    requires Open(code0, st.p) && NextReg(code0, st.p) == NextReg(code0, st.p + 3)
    requires Fetch(code, st.p + 3).StartMemory? ==> NextReg(code0, st.p + 3) == Fetch(code, st.p + 3).reg
    ensures AllFlagged(code0, Widened(code, st))
  {
    hide NestAt, PointFlagged, Fetch, NextReg;
    OpenHead(code0, st.p);
    var wide := Widened(code, st);
    forall reg | reg in NestAt(code0, st.p).groups
      ensures Marked(reg, st.d, wide.low, wide.high, st.info)
    {
      assert Marked(reg, st.d, st.low, st.high, st.info);
    }
  }

  /** Failing brings back what was saved. */
  lemma {:induction false} FailFlags(code0: seq<byte>, nregs: nat, env: Env, st: VState)
    requires |st.info| == nregs && StackGrounded(code0, nregs, st.stack) && Fail(env, st).Running?
    requires forall fp | fp in st.stack :: PointFlagged(code0, fp)
    ensures AllFlagged(code0, Fail(env, st).st)
    decreases |st.stack|
  {
    hide AtLoopEnd, NestAt, Starts, LowFits;
    var top := |st.stack| - 1;
    var fp, st' := st.stack[top], Pop(st);
    assert fp in st.stack;
    assert PointGrounded(code0, nregs, fp) && PointFlagged(code0, fp);
    assert forall x | x in st'.stack :: x in st.stack;
    if fp.dummy || AtLoopEnd(st.code, fp.pat) {
      FailFlags(code0, nregs, env, st');
    } else {
      forall reg | reg in NestAt(code0, fp.pat).groups
        ensures Marked(reg, st'.d, st'.low, st'.high, st'.info)
      {
        assert st'.info[reg] == fp.saved[reg - fp.low];
      }
    }
  }

  /** A group is opened inside of those that are open. */
  lemma StartFlags(code0: seq<byte>, st: VState, reg: byte)
    requires AllFlagged(code0, st) && StepStart(st, reg).Running?
    requires NestAt(code0, st.p + 3).groups == NestAt(code0, st.p).groups + [reg]
    requires Rising(NestAt(code0, st.p).groups, reg) && Open(code0, st.p) && NextReg(code0, st.p) == reg
    ensures AllFlagged(code0, StepStart(st, reg).st)
  {
    hide NestAt, PointFlagged, NextReg;
    OpenHead(code0, st.p);
    var gs, st' := NestAt(code0, st.p).groups, StepStart(st, reg).st;
    forall r | r in gs
      ensures Marked(r, st'.d, st'.low, st'.high, st'.info)
    {
      assert Marked(r, st.d, st.low, st.high, st.info);
      assert st'.info[r] == st.info[r];
    }
    if |gs| > 0 { assert Marked(gs[0], st.d, st.low, st.high, st.info); }
    assert Marked(reg, st'.d, st'.low, st'.high, st'.info);
  }

  /** The innermost group is closed: those around it stay active and in range. */
  lemma CloseFlags(gs: seq<nat>, st: VState, reg: byte, b: nat)
    requires Rising(gs + [reg], b) && reg < |st.info| && AllMarked(gs + [reg], st.d, st.low, st.high, st.info)
    ensures 1 <= reg < b && st.low <= reg
    ensures var st' := CloseGroup(st, reg);
      && AllMarked(gs, st'.d, st'.low, st'.high, st'.info) && (st'.low == st.low || st'.low == NO_LOWEST_ACTIVE_REG)
  {
    var all := gs + [reg];
    assert all[|gs|] == reg;
    var st' := CloseGroup(st, reg);
    var info := st.info[reg := st.info[reg].(active := false)];
    var h := HighestActive(info, reg - 1);
    assert Marked(reg, st.d, st.low, st.high, st.info);
    forall r | r in gs
      ensures Marked(r, st'.d, st'.low, st'.high, st'.info)
    {
      var i :| 0 <= i < |gs| && gs[i] == r;
      assert all[i] == r;
      assert Marked(r, st.d, st.low, st.high, st.info);
      assert info[r] == st.info[r] && r <= h;
    }
  }

  // ----- one step -----

  /** Every step keeps the flags right. */
  lemma StepFlags(code0: seq<byte>, nregs: nat, env: Env, st: VState)
    requires WellFormed(code0) && Grounded(code0, nregs, st) && AllFlagged(code0, st) && Step(env, st).Running?
    ensures AllFlagged(code0, Step(env, st).st)
  {
    hide Fetch, Starts, Related, Wired, CanPop, Fail, Push, StepStop, StepMaybePop, StepOnFailure, NestAt;
    hide StackGrounded, PointFlagged, Rises, Guarded, FlagsFit;
    SameLength(code0, st.code);
    StartAtMost(code0, st.p);
    assert Nested(code0, st.p);
    if Step(env, st) == Fail(env, st) {
      FailFlags(code0, nregs, env, st);
    } else if st.p == |code0| {
      FailFlags(code0, nregs, env, st.(hasBest := true, best := st.d));
    } else if Fetch(code0, st.p).MaybePopJump? {
      ClosingFlags(code0, nregs, env, st);
    } else {
      PlainFlags(code0, nregs, env, st);
    }
  }

  lemma ClosingFlags(code0: seq<byte>, nregs: nat, env: Env, st: VState)
    requires Structured(code0) && Grounded(code0, nregs, st) && AllFlagged(code0, st) && Step(env, st).Running?
    requires st.p < |code0| && Fetch(code0, st.p).MaybePopJump? && st.d <= |env.s.text|
    ensures AllFlagged(code0, Step(env, st).st)
  {
    hide Fetch, Starts, Related, Wired, CanPop, NestAt, StackGrounded, PointFlagged, Step, NextReg;
    TwinClosing(code0, nregs, env, st);
    WiredWhole(code0);
    SelfRelated(code0);
    FetchGrounded(code0, code0, st.p);
    assert Nested(code0, st.p);
    OpenHead(code0, Step(env, st).st.p);
    MovedFlags(code0, st, Step(env, st).st);
  }

  /** At the start of a group. */
  lemma StartsFlags(code0: seq<byte>, st: VState, reg: byte)
    requires WellFormed(code0) && AllFlagged(code0, st) && Nested(code0, st.p) && Starts(code0, st.p)
    requires Fetch(code0, st.p).StartMemory? && Fetch(code0, st.p).reg == reg && StepStart(st, reg).Running?
    ensures AllFlagged(code0, StepStart(st, reg).st)
  {
    hide Fetch, Starts, NestAt, AllFlagged, StepStart, Rises, Rising, LowFits, NextReg;
    StartsNext(code0, st.p);
    RisingHere(code0, st.p);
    HeadReg(code0, st.p);
    StartFlags(code0, st, reg);
  }

  lemma PlainFlags(code0: seq<byte>, nregs: nat, env: Env, st: VState)
    requires WellFormed(code0) && Grounded(code0, nregs, st) && AllFlagged(code0, st) && Step(env, st).Running?
    requires st.p < |code0| == |st.code| && st.d <= |env.s.text| && Nested(code0, st.p)
    requires !Fetch(code0, st.p).MaybePopJump? && Step(env, st) != Fail(env, st)
    ensures AllFlagged(code0, Step(env, st).st)
  {
    hide Fetch, Starts, Related, Wired, CanPop, Fail, Push, StepStop, StepMaybePop, StepOnFailure, NestAt;
    hide StackGrounded, PointFlagged, AllFlagged, Consume, StepStart, Rises, Rising, LowFits, NextReg;
    hide ClosesBehind;
    WiredWhole(code0);
    FetchRelated(code0, st.code, st.p);
    FetchGrounded(code0, st.code, st.p);
    NotSettled(code0, st.p);
    StartsNext(code0, st.p);
    assert LeadsOpen(code0, st.p);
    LowHere(code0, st);
    match Fetch(st.code, st.p) {
      case ExactN(cs) =>
        LiteralFilled(st.code, st.p);
        LowConsume(code0, st.p, st.low);
        ConsumeFlags(code0, st, |cs|, st.p + 2 + |cs|);
      case AnyChar =>
        LowConsume(code0, st.p, st.low);
        ConsumeFlags(code0, st, 1, st.p + 1);
      case Bracket(_, bits) =>
        LowConsume(code0, st.p, st.low);
        ConsumeFlags(code0, st, 1, st.p + 2 + |bits|);
      case StartMemory(reg, _) =>
        StartsFlags(code0, st, reg);
      case StopMemory(reg, _) => StopFlags(code0, nregs, env, st, reg);
      case OnFailureJump(off) => OnFailureFlags(code0, nregs, env, st, off);
      case DummyFailureJump(off) => DummyFlags(code0, env, st, st.p + 3 + off);
      case PushDummyFailure => DummyFlags(code0, env, st, st.p + 1);
      case JumpPastAlt(off) => JumpFlags(code0, st, st.p + 3 + off);
      case BegLine => JumpFlags(code0, st, st.p + 1);
      case EndLine => JumpFlags(code0, st, st.p + 1);
    }
  }

  lemma LowHere(code0: seq<byte>, st: VState)
    requires AllFlagged(code0, st)
    ensures LowFits(code0, st.p, st.low)
  {
    hide PointFlagged;
  }

  lemma LiteralFilled(code: seq<byte>, p: nat)
    ensures Fetch(code, p).ExactN? ==> |Fetch(code, p).cs| > 0
  {}

  lemma JumpFlags(code0: seq<byte>, st: VState, p: nat)
    requires AllFlagged(code0, st) && NestAt(code0, p).groups == NestAt(code0, st.p).groups
    requires Rises(code0) && Starts(code0, st.p) && Starts(code0, p) && st.p <= p && Open(code0, st.p) && Open(code0, p)
    ensures AllFlagged(code0, st.(p := p))
  {
    hide NestAt, PointFlagged, LowFits, Starts, Rises;
    LowForward(code0, st.p, p, st.low);
    MovedFlags(code0, st, st.(p := p));
  }

  lemma DummyFlags(code0: seq<byte>, env: Env, st: VState, p: nat)
    requires AllFlagged(code0, st) && NestAt(code0, p).groups == NestAt(code0, st.p).groups
    requires Rises(code0) && Starts(code0, st.p) && Starts(code0, p) && st.p <= p && Open(code0, st.p) && Open(code0, p)
    requires Push(env, st, true, 0, 0).Running?
    ensures var st' := Push(env, st, true, 0, 0).st; AllFlagged(code0, st'.(p := p))
  {
    hide NestAt, PointFlagged, AllFlagged, Starts, Rises;
    PushFlags(code0, env, st, true, 0, 0);
    JumpFlags(code0, Push(env, st, true, 0, 0).st, p);
  }

  lemma OnFailureFlags(code0: seq<byte>, nregs: nat, env: Env, st: VState, off: int)
    requires WellFormed(code0) && Grounded(code0, nregs, st) && AllFlagged(code0, st) && Nested(code0, st.p)
    requires st.p < |code0| == |st.code| && Fetch(code0, st.p) == OnFailureJump(off) && LeadsOpen(code0, st.p)
    requires Starts(code0, st.p + 3) && off >= 0 && Starts(code0, st.p + 3 + off)
    requires StepOnFailure(env, st, off).Running?
    ensures AllFlagged(code0, StepOnFailure(env, st, off).st)
  {
    hide Fetch, Starts, Related, Wired, Push, NestAt, StackGrounded, PointFlagged, AllFlagged, Rises, Rising;
    hide LowFits, NextReg, ClosesBehind;
    HeadReg(code0, st.p);
    RisingHere(code0, st.p);
    StartBehind(code0, st.code, st.p + 3);
    WidenedFlags(code0, st, st.code);
    var wide := Widened(st.code, st);
    LowHere(code0, wide);
    LowForward(code0, st.p, st.p + 3 + off, wide.low);
    PushFlags(code0, env, wide, false, st.p + 3 + off, st.d);
    PushOnly(env, wide, st.p + 3 + off, st.d);
    JumpFlags(code0, Push(env, wide, false, st.p + 3 + off, st.d).st, st.p + 3);
  }

  lemma PushOnly(env: Env, st: VState, pat: int, str: nat)
    ensures var x := Push(env, st, false, pat, str); x.Running? ==> x.st == st.(stack := x.st.stack)
  {}

  /** A group that begins at a place is the next one there. */
  lemma StartBehind(code0: seq<byte>, code: seq<byte>, p: nat)
    requires Wired(code0) && Related(code0, code) && Starts(code0, p) && |code| == |code0|
    ensures Fetch(code, p).StartMemory? ==> NextReg(code0, p) == Fetch(code, p).reg
  {
    hide Fetch, Starts, Related, Wired, NextReg;
    NoFetch(code);
    StartAtMost(code0, p);
    if Fetch(code, p).StartMemory? {
      WiredWhole(code0);
      FetchRelated(code0, code, p);
      HeadReg(code0, p);
    }
  }

  /** Behind the end of a group, the range begins no later than the next group, or
      than the group itself where it may be entered again. */
  lemma StopLow(code0: seq<byte>, p: nat, low: nat, reg: byte)
    requires WellFormed(code0) && Starts(code0, p) && Fetch(code0, p).StopMemory? && Fetch(code0, p).reg == reg
    requires low == NO_LOWEST_ACTIVE_REG || low <= reg < NextReg(code0, p)
    ensures LowFits(code0, p + 3, low)
  {
    hide Fetch, Starts, Wired, NestAt, NextReg, Rises;
    StartsNext(code0, p);
    if Fetch(code0, p + 3).MaybePopJump? {
      assert ClosesBehind(code0, p);
      HeadReg(code0, p + 6 + Fetch(code0, p + 3).off);
      HeadReg(code0, p + 9 + Fetch(code0, p + 3).off);
    } else {
      OpenHead(code0, p + 3);
      NextRegGrows(code0, p, p + 3);
    }
  }

  lemma StopFlags(code0: seq<byte>, nregs: nat, env: Env, st: VState, reg: byte)
    requires WellFormed(code0) && Grounded(code0, nregs, st) && AllFlagged(code0, st) && Nested(code0, st.p)
    requires st.p < |code0| == |st.code| && Fetch(st.code, st.p) == Fetch(code0, st.p) && Fetch(st.code, st.p).StopMemory?
    requires Fetch(st.code, st.p).reg == reg && Starts(code0, st.p + 3) && StepStop(env, st, reg).Running?
    ensures AllFlagged(code0, StepStop(env, st, reg).st)
  {
    hide Fetch, Starts, Related, Wired, LoopExit, Fail, NestAt, PointFlagged, Rises, Rising, CloseGroup;
    hide AllMarked, Push, LowFits, NextReg, Guarded, StackGrounded;
    RisingHere(code0, st.p);
    var gs := NestAt(code0, st.p + 3).groups;
    CloseFlags(gs, st, reg, NextReg(code0, st.p));
    CloseGroupKeeps(st, reg);
    var st', exit := CloseGroup(st, reg), LoopExit(st.code, st.p, reg);
    StopLow(code0, st.p, st'.low, reg);
    var here := st'.(p := st.p + 3);
    assert AllFlagged(code0, here);
    if (!st.info[reg].matched || PeekIsStart(st.code, st.p)) && exit >= 0 {
      ExitFlags(code0, nregs, env, st, st', reg);
    }
  }

  /** Out of the loop, over a failure point pushed and taken at once. */
  lemma ExitFlags(code0: seq<byte>, nregs: nat, env: Env, st: VState, st': VState, reg: byte)
    requires WellFormed(code0) && Grounded(code0, nregs, st) && st' == st.(info := st'.info, low := st'.low, high := st'.high)
    requires AllFlagged(code0, st'.(p := st.p + 3)) && |st'.info| == nregs
    requires st.p < |code0| == |st.code| && Fetch(st.code, st.p) == Fetch(code0, st.p) && Fetch(st.code, st.p).StopMemory?
    requires LoopExit(st.code, st.p, reg) >= 0
    ensures var x := Push(env, st', false, LoopExit(st.code, st.p, reg), st.d);
      x.Running? && Fail(env, x.st).Running? ==> AllFlagged(code0, Fail(env, x.st).st)
  {
    hide Fetch, Starts, Related, Wired, LoopExit, Fail, NestAt, PointFlagged, Rises, Push, LowFits, NextReg;
    hide Guarded, FlagsFit;
    var exit, here := LoopExit(st.code, st.p, reg), st'.(p := st.p + 3);
    ExitGroups(code0, st.code, st.p, reg);
    LowHere(code0, here);
    ExitLow(code0, st.code, st.p, reg, st'.low);
    var x := Push(env, st', false, exit, st.d);
    if x.Running? && Fail(env, x.st).Running? {
      SamePush(env, st', here, exit, st.d);
      PushFlags(code0, env, here, false, exit, st.d);
      FetchGrounded(code0, st.code, st.p);
      ExitLands(code0, st.code, st.p, reg);
      PushGrounded(code0, env, st', false, exit, st.d, nregs);
      FailFlags(code0, nregs, env, x.st);
    }
  }

  lemma SamePush(env: Env, st: VState, st': VState, pat: int, str: nat)
    requires st' == st.(p := st'.p)
    ensures var x, y := Push(env, st, false, pat, str), Push(env, st', false, pat, str);
      x.Running? ==> y.Running? && y.st.stack == x.st.stack && y.st == st'.(stack := y.st.stack) && x.st == st.(stack := x.st.stack)
  {}

  /** The closing jump behind the end of a group, on the code as it is. */
  lemma ExitPlaces(code0: seq<byte>, code: seq<byte>, p: nat, reg: byte) returns (t: nat)
    requires Structured(code0) && Related(code0, code) && Starts(code0, p) && p < |code0| == |code|
    requires Fetch(code0, p).StopMemory? && Fetch(code, p).StopMemory? && LoopExit(code, p, reg) >= 0
    ensures Starts(code0, p + 3) && Fetch(code0, p + 3).MaybePopJump? && Starts(code0, t) && t < |code0|
    ensures t == p + 6 + Fetch(code0, p + 3).off && Fetch(code0, t).OnFailureJump? && Fetch(code0, t).off >= 0
    ensures LoopExit(code, p, reg) == t + 3 + Fetch(code0, t).off == p + 6 && Starts(code0, p + 6)
  {
    hide Fetch, Starts, Related, NestAt, Nested;
    WiredWhole(code0);
    FetchGrounded(code0, code, p);
    NoFetch(code);
    StartAtMost(code0, p + 3);
    FetchGrounded(code0, code, p + 3);
    FetchRelated(code0, code, p + 3);
    t := p + 6 + Fetch(code, p + 3).off;
    StartAtMost(code0, t);
    FetchGrounded(code0, code, t);
    FetchRelated(code0, code, t);
    StartsNext(code0, p + 3);
  }

  /** Out of a loop the groups are those behind the end of its group. */
  lemma ExitGroups(code0: seq<byte>, code: seq<byte>, p: nat, reg: byte)
    requires Structured(code0) && Related(code0, code) && Starts(code0, p) && p < |code0| == |code|
    requires Fetch(code0, p).StopMemory? && Fetch(code, p).StopMemory? && LoopExit(code, p, reg) >= 0
    ensures NestAt(code0, LoopExit(code, p, reg)).groups == NestAt(code0, p + 3).groups
  {
    hide Fetch, Starts, Related, NestAt, Wired;
    var t := ExitPlaces(code0, code, p, reg);
    assert Nested(code0, p + 3);
    assert Nested(code0, t);
  }

  lemma ExitLow(code0: seq<byte>, code: seq<byte>, p: nat, reg: byte, low: nat)
    requires WellFormed(code0) && Related(code0, code) && Starts(code0, p) && p < |code0| == |code|
    requires Fetch(code0, p).StopMemory? && Fetch(code, p).StopMemory? && LoopExit(code, p, reg) >= 0
    requires LowFits(code0, p + 3, low)
    ensures LowFits(code0, LoopExit(code, p, reg), low)
  {
    hide Fetch, Starts, Related, NestAt, Wired, NextReg, Rises, LoopExit;
    var t := ExitPlaces(code0, code, p, reg);
    ExitGroups(code0, code, p, reg);
    assert LeadsOpen(code0, t);
    OpenHead(code0, p + 6);
    NextRegGrows(code0, t, p + 6);
  }

  // ----- every run -----

  lemma {:induction false} RunFlags(code0: seq<byte>, nregs: nat, env: Env, st: VState, n: nat)
    requires WellFormed(code0) && Grounded(code0, nregs, st) && AllFlagged(code0, st) && Steps(env, st, n).Running?
    ensures Grounded(code0, nregs, Steps(env, st, n).st) && AllFlagged(code0, Steps(env, st, n).st)
    decreases n
  {
    hide Step, Structured, Rises, Grounded, AllFlagged, Guarded;
    if n > 0 {
      StructuredWired(code0);
      StepFlags(code0, nregs, env, st);
      StepGrounded(code0, env, st, nregs);
      RunFlags(code0, nregs, env, Step(env, st).st, n - 1);
    }
  }

  lemma StructuredWired(code0: seq<byte>)
    requires Structured(code0)
    ensures Wired(code0)
  {}

  lemma CompiledWellFormed(e: Re, code0: seq<byte>, nsub: nat)
    requires Compiled(e, code0, nsub)
    ensures WellFormed(code0) && NestAt(code0, 0).groups == []
  {
    hide Structured, Rises, NestAt, LaidOut, Numbered, Invariant.After, Fit, LeadsOpen, ClosesBehind, Fetch, Boundary;
    CompiledStructured(e, code0, nsub);
    CodeRises(e, code0, nsub);
    forall x: nat | Starts(code0, x)
      ensures LeadsOpen(code0, x)
      ensures Fetch(code0, x) != Bad && Fetch(code0, x + Width(Fetch(code0, x))).MaybePopJump? ==> ClosesBehind(code0, x)
    {
      CodeOpen(e, code0, x);
      if Fetch(code0, x) != Bad && Fetch(code0, x + Width(Fetch(code0, x))).MaybePopJump? { ClosingBefore(e, code0, x); }
    }
  }

  lemma EntryFlags(code0: seq<byte>, nsub: nat, env: Env, code: seq<byte>)
    requires NestAt(code0, 0).groups == []
    ensures AllFlagged(code0, Entry(env, code, nsub))
  {
    hide NestAt;
  }

  /** In every run of a compiled pattern, after any number of steps, every group whose
      code the place is inside of is flagged rightly, as it will be when a failure
      point is resumed. */
  lemma AlwaysFlagged(e: Re, code0: seq<byte>, nsub: nat, env: Env, code: seq<byte>, n: nat)
    requires Compiled(e, code0, nsub) && Related(code0, code) && env.start <= |env.s.text|
    requires Steps(env, Entry(env, code, nsub), n).Running?
    ensures var st := Steps(env, Entry(env, code, nsub), n).st;
      GroupsFlagged(code0, st) && forall fp | fp in st.stack :: PointFlagged(code0, fp)
  {
    hide Compiled, Step, Steps, Structured, Rises, Guarded, GroupsFlagged, PointFlagged, Grounded, NestAt, Entry;
    CompiledWellFormed(e, code0, nsub);
    EntryTwin(code0, nsub, env, code, code);
    EntryFlags(code0, nsub, env, code);
    RunFlags(code0, nsub + 1, env, Entry(env, code, nsub), n);
  }
}
