/** How much room the failure stack needs.

    Every step keeps the number of failure points, and a measure of what the run may
    still push, below a bound computed from the lengths of the text and of the code
    and the number of groups.  The measure goes down whenever something is pushed: it
    counts the code ahead, once more for each group the place is inside of that has
    matched something, since its loop may be run again, and as often as there can be
    groups for each byte of the text ahead. */
module Room {
  import opened Octets
  import opened RegexLang
  import opened Bytecode
  import opened Machine
  import opened Rewriting
  import opened Invariant
  import opened Layout
  import opened Closings
  import opened Nest
  import opened Plays
  import opened MatchTheorem
  import opened PopDiscipline
  import opened GroupFlags
  import opened Twins

  /** Room for a text of `size` bytes, code of `len` bytes and `nsub` groups. */
  function Enough(size: nat, len: nat, nsub: nat): nat {
    len * (1 + size * (nsub + 1))
  }

  // ----- the measure -----

  /** Of the groups `gs`, those that have matched something. */
  function Matched(gs: seq<nat>, info: seq<RegInfo>): nat {
    if |gs| == 0 then 0
    else
      var g := gs[|gs| - 1];
      Matched(gs[..|gs| - 1], info) + if g < |info| && info[g].matched then 1 else 0
  }

  lemma {:induction false} MatchedFew(gs: seq<nat>, info: seq<RegInfo>)
    ensures Matched(gs, info) <= |gs|
  {
    if |gs| > 0 { MatchedFew(gs[..|gs| - 1], info); }
  }

  lemma {:induction false} MatchedSame(gs: seq<nat>, info: seq<RegInfo>, info': seq<RegInfo>)
    requires forall g | g in gs :: g < |info| && g < |info'| && info[g].matched == info'[g].matched
    ensures Matched(gs, info) == Matched(gs, info')
  {
    if |gs| > 0 {
      assert gs[|gs| - 1] in gs;
      MatchedSame(gs[..|gs| - 1], info, info');
    }
  }

  lemma MatchedSnoc(gs: seq<nat>, reg: nat, info: seq<RegInfo>)
    ensures Matched(gs + [reg], info) == Matched(gs, info) + if reg < |info| && info[reg].matched then 1 else 0
  {
    assert (gs + [reg])[..|gs|] == gs;
  }

  /** Groups that rise and have registers are no more than there are registers. */
  lemma {:induction false} RisingFew(gs: seq<nat>, b: nat)
    requires Rising(gs, b) && b >= 1
    ensures |gs| <= b - 1
    decreases |gs|
  {
    if |gs| > 0 {
      var n := |gs| - 1;
      assert forall i | 0 <= i < n :: gs[i] < gs[n];
      RisingFew(gs[..n], gs[n]);
    }
  }

  /** A closing jump is to go back. */
  ghost function Back(code0: seq<byte>, p: nat): nat {
    if Fetch(code0, p).MaybePopJump? then 1 else 0
  }

  /** What may be pushed by going through `len` bytes of code from `p`, and `units`
      times through all of it. */
  function Worth(len: nat, p: nat, units: nat): int {
    len - p + len * units
  }

  lemma WorthLess(len: nat, p: nat, units: nat, p': nat, units': nat)
    requires p <= len && units' <= units
    ensures Worth(len, p', units') + (p' - p) <= Worth(len, p, units)
    ensures units' < units ==> Worth(len, p', units') <= Worth(len, p, units)
  {
    LessTimes(len, units', units);
    if units' < units {
      LessTimes(len, units' + 1, units);
      assert len * (units' + 1) == len * units' + len;
    }
  }

  /** Times through all of the code for bytes of the text still to come. */
  function Through(left: nat, nsub: nat): nat {
    left * (nsub + 1)
  }

  /** From a state of the matcher, on a text of `size` bytes with `nsub` groups. */
  ghost function Units(code0: seq<byte>, size: nat, nsub: nat, st: VState): nat
    requires st.d <= size
  {
    Matched(NestAt(code0, st.p).groups, st.info) + Back(code0, st.p) + Through(size - st.d, nsub)
  }

  ghost function PointUnits(code0: seq<byte>, size: nat, nsub: nat, fp: FailPoint): nat
    requires fp.str <= size
  {
    Matched(NestAt(code0, fp.pat).groups, Restore(Unset(nsub + 1), fp)) + Through(size - fp.str, nsub)
  }

  function Unset(n: nat): (info: seq<RegInfo>)
    ensures |info| == n
  {
    seq(n, _ => UNSET)
  }

  ghost predicate PointFits(code0: seq<byte>, size: nat, nsub: nat, fp: FailPoint, i: nat, h: nat) {
    !fp.dummy ==> fp.str <= size && i + Worth(|code0|, fp.pat, PointUnits(code0, size, nsub, fp)) <= h
  }

  ghost predicate PointsFit(code0: seq<byte>, size: nat, nsub: nat, stack: seq<FailPoint>, h: nat) {
    forall i | 0 <= i < |stack| :: PointFits(code0, size, nsub, stack[i], i, h)
  }

  /** The stack, with what may come, fits. */
  ghost predicate Fits(code0: seq<byte>, size: nat, nsub: nat, st: VState, h: nat) {
    && st.d <= size && |st.stack| + Worth(|code0|, st.p, Units(code0, size, nsub, st)) <= h
    && PointsFit(code0, size, nsub, st.stack, h)
  }

  /** All that is known of a state of a run. */
  ghost predicate Sane(code0: seq<byte>, nsub: nat, st: VState) {
    Grounded(code0, nsub + 1, st) && AllFlagged(code0, st)
  }

  // ----- one step -----

  lemma PointsCut(code0: seq<byte>, size: nat, nsub: nat, stack: seq<FailPoint>, h: nat, m: nat)
    requires PointsFit(code0, size, nsub, stack, h) && m <= |stack|
    ensures PointsFit(code0, size, nsub, stack[..m], h)
  {
    hide PointFits;
  }

  lemma PointsAdd(code0: seq<byte>, size: nat, nsub: nat, stack: seq<FailPoint>, fp: FailPoint, h: nat)
    requires PointsFit(code0, size, nsub, stack, h) && PointFits(code0, size, nsub, fp, |stack|, h)
    ensures PointsFit(code0, size, nsub, stack + [fp], h)
  {
    hide PointFits;
  }

  /** A step to a place at least as far on, with no more failure points, or with one
      more and further on; or back, for a unit. */
  lemma FitsNext(code0: seq<byte>, size: nat, nsub: nat, st: VState, st': VState, h: nat)
    requires Fits(code0, size, nsub, st, h) && st'.d <= size && PointsFit(code0, size, nsub, st'.stack, h)
    requires st.p <= |code0|
    requires var u, u' := Units(code0, size, nsub, st), Units(code0, size, nsub, st');
      || (u' <= u && st.p + |st'.stack| <= st'.p + |st.stack|)
      || (u' < u && |st'.stack| <= |st.stack|)
    ensures Fits(code0, size, nsub, st', h)
  {
    hide Units, PointsFit, Worth;
    WorthLess(|code0|, st.p, Units(code0, size, nsub, st), st'.p, Units(code0, size, nsub, st'));
  }

  /** Saved and restored, the groups count as before. */
  lemma PointMatched(code0: seq<byte>, nregs: nat, fp: FailPoint, info: seq<RegInfo>)
    requires !fp.dummy && PointGrounded(code0, nregs, fp) && PointFlagged(code0, fp) && |info| == nregs
    ensures var gs := NestAt(code0, fp.pat).groups;
      Matched(gs, Restore(info, fp)) == Matched(gs, Restore(Unset(nregs), fp))
  {
    hide NestAt, Starts, LowFits;
    var gs, a, b := NestAt(code0, fp.pat).groups, Restore(info, fp), Restore(Unset(nregs), fp);
    forall g | g in gs
      ensures g < |a| && g < |b| && a[g].matched == b[g].matched
    {
      assert a[g] == fp.saved[g - fp.low] == b[g];
    }
    MatchedSame(gs, a, b);
  }

  /** A point just pushed at a place from which as much may come as from there. */
  lemma PushedFits(code0: seq<byte>, size: nat, nsub: nat, st: VState, fp: FailPoint, h: nat)
    requires Fits(code0, size, nsub, st, h) && |st.info| == nsub + 1 && RangeOk(st) && st.p <= fp.pat && st.p <= |code0|
    requires fp == FailPoint(false, fp.pat, st.d, st.low, st.high, Saved(st))
    requires AllMarked(NestAt(code0, fp.pat).groups, st.d, st.low, st.high, st.info)
    requires Matched(NestAt(code0, fp.pat).groups, st.info) <= Matched(NestAt(code0, st.p).groups, st.info)
    ensures PointFits(code0, size, nsub, fp, |st.stack|, h)
  {
    hide NestAt, PointsFit, Worth;
    var gs, b := NestAt(code0, fp.pat).groups, Restore(Unset(nsub + 1), fp);
    forall g | g in gs
      ensures g < |b| && g < |st.info| && b[g].matched == st.info[g].matched
    {
      assert Marked(g, st.d, st.low, st.high, st.info);
    }
    MatchedSame(gs, st.info, b);
    WorthLess(|code0|, st.p, Units(code0, size, nsub, st), fp.pat, PointUnits(code0, size, nsub, fp));
  }

  lemma {:induction false} FailFits(code0: seq<byte>, size: nat, nsub: nat, env: Env, st: VState, h: nat)
    requires Wired(code0) && Related(code0, st.code) && |st.info| == nsub + 1
    requires StackGrounded(code0, nsub + 1, st.stack) && PointsFit(code0, size, nsub, st.stack, h)
    requires (forall fp | fp in st.stack :: PointFlagged(code0, fp)) && Fail(env, st).Running?
    ensures Fits(code0, size, nsub, Fail(env, st).st, h)
    decreases |st.stack|
  {
    hide AtLoopEnd, NestAt, Starts, Worth, Related, Wired, PointFlagged, Fetch, Matched;
    var top := |st.stack| - 1;
    var fp, st' := st.stack[top], Pop(st);
    assert fp in st.stack;
    assert PointGrounded(code0, nsub + 1, fp);
    assert forall x | x in st'.stack :: x in st.stack;
    PointsCut(code0, size, nsub, st.stack, h, top);
    if fp.dummy || AtLoopEnd(st.code, fp.pat) {
      FailFits(code0, size, nsub, env, st', h);
    } else {
      LoopEnds(code0, st.code, fp.pat);
      assert PointFits(code0, size, nsub, fp, top, h);
      ResumedFits(code0, size, nsub, st, fp, h);
    }
  }

  /** A failure point resumed. */
  lemma ResumedFits(code0: seq<byte>, size: nat, nsub: nat, st: VState, fp: FailPoint, h: nat)
    requires |st.stack| > 0 && fp == st.stack[|st.stack| - 1] && !fp.dummy && |st.info| == nsub + 1
    requires PointGrounded(code0, nsub + 1, fp) && PointFlagged(code0, fp)
    requires !(fp.pat < |code0| && Fetch(code0, fp.pat).MaybePopJump?)
    requires PointFits(code0, size, nsub, fp, |st.stack| - 1, h) && PointsFit(code0, size, nsub, Pop(st).stack, h)
    ensures Fits(code0, size, nsub, Pop(st), h)
  {
    hide NestAt, Starts, Worth, PointFlagged, Fetch, Matched, PointsFit, Restore;
    NotBack(code0, fp.pat);
    PointMatched(code0, nsub + 1, fp, st.info);
  }

  lemma NotBack(code0: seq<byte>, p: nat)
    ensures !(p < |code0| && Fetch(code0, p).MaybePopJump?) ==> Back(code0, p) == 0
    ensures Open(code0, p) ==> Back(code0, p) == 0
  {}

  /** Every step keeps it so. */
  lemma StepFits(code0: seq<byte>, nsub: nat, env: Env, st: VState, h: nat)
    requires WellFormed(code0) && Sane(code0, nsub, st) && Fits(code0, |env.s.text|, nsub, st, h)
    requires Step(env, st).Running?
    ensures Fits(code0, |env.s.text|, nsub, Step(env, st).st, h)
  {
    hide Fetch, Starts, Related, Wired, CanPop, Fail, Push, StepStop, StepMaybePop, StepOnFailure, NestAt;
    hide StackGrounded, PointFlagged, Rises, Guarded, FlagsFit, PointsFit, Units, Worth;
    var size := |env.s.text|;
    SameLength(code0, st.code);
    StartAtMost(code0, st.p);
    StructuredWired(code0);
    assert Nested(code0, st.p);
    if Step(env, st) == Fail(env, st) {
      FailFits(code0, size, nsub, env, st, h);
    } else if st.p == |code0| {
      FailFits(code0, size, nsub, env, st.(hasBest := true, best := st.d), h);
    } else if Fetch(code0, st.p).MaybePopJump? {
      ClosingFits(code0, nsub, env, st, h);
    } else {
      PlainFits(code0, nsub, env, st, h);
    }
  }

  lemma ClosingFits(code0: seq<byte>, nsub: nat, env: Env, st: VState, h: nat)
    requires Structured(code0) && Sane(code0, nsub, st) && Fits(code0, |env.s.text|, nsub, st, h)
    requires Step(env, st).Running? && st.p < |code0| && Fetch(code0, st.p).MaybePopJump?
    ensures Fits(code0, |env.s.text|, nsub, Step(env, st).st, h)
  {
    hide Fetch, Starts, Related, Wired, CanPop, NestAt, StackGrounded, AllFlagged, Step, PointsFit, Worth, Matched;
    TwinClosing(code0, nsub + 1, env, st);
    WiredWhole(code0);
    SelfRelated(code0);
    FetchGrounded(code0, code0, st.p);
    assert Nested(code0, st.p);
    var st' := Step(env, st).st;
    NotBack(code0, st'.p);
    if |st.stack| > 0 { PointsCut(code0, |env.s.text|, nsub, st.stack, h, |st.stack| - 1); }
    FitsNext(code0, |env.s.text|, nsub, st, st', h);
  }

  lemma PlainFits(code0: seq<byte>, nsub: nat, env: Env, st: VState, h: nat)
    requires WellFormed(code0) && Sane(code0, nsub, st) && Fits(code0, |env.s.text|, nsub, st, h) && Step(env, st).Running?
    requires st.p < |code0| == |st.code| && st.d <= |env.s.text| && Nested(code0, st.p)
    requires !Fetch(code0, st.p).MaybePopJump? && Step(env, st) != Fail(env, st)
    ensures Fits(code0, |env.s.text|, nsub, Step(env, st).st, h)
  {
    hide Fetch, Starts, Related, Wired, CanPop, Fail, Push, StepStop, StepMaybePop, StepOnFailure, NestAt;
    hide StackGrounded, PointFlagged, AllFlagged, Consume, StepStart, Rises, Rising, ClosesBehind, Fits;
    hide Guarded;
    WiredWhole(code0);
    FetchRelated(code0, st.code, st.p);
    FetchGrounded(code0, st.code, st.p);
    NotSettled(code0, st.p);
    StartsNext(code0, st.p);
    OpenAhead(code0, st.p);
    match Fetch(st.code, st.p) {
      case ExactN(cs) =>
        LiteralFilled(st.code, st.p);
        ConsumeFits(code0, nsub, env, st, |cs|, st.p + 2 + |cs|, h);
      case AnyChar => ConsumeFits(code0, nsub, env, st, 1, st.p + 1, h);
      case Bracket(_, bits) => ConsumeFits(code0, nsub, env, st, 1, st.p + 2 + |bits|, h);
      case StartMemory(reg, _) => StartFits(code0, nsub, env, st, reg, h);
      case StopMemory(reg, _) => StopFits(code0, nsub, env, st, reg, h);
      case OnFailureJump(off) => OnFailureFits(code0, nsub, env, st, off, h);
      case DummyFailureJump(off) => DummyFits(code0, nsub, env, st, st.p + 3 + off, h);
      case PushDummyFailure => DummyFits(code0, nsub, env, st, st.p + 1, h);
      case JumpPastAlt(off) => JumpFits(code0, nsub, env, st, st.p + 3 + off, h);
      case BegLine => JumpFits(code0, nsub, env, st, st.p + 1, h);
      case EndLine => JumpFits(code0, nsub, env, st, st.p + 1, h);
    }
  }

  lemma OpenAhead(code0: seq<byte>, p: nat)
    requires Guarded(code0) && Starts(code0, p)
    ensures LeadsOpen(code0, p)
  {
    hide Starts, LeadsOpen, ClosesBehind, Fetch;
  }

  lemma JumpFits(code0: seq<byte>, nsub: nat, env: Env, st: VState, p: nat, h: nat)
    requires Fits(code0, |env.s.text|, nsub, st, h) && st.p <= p && st.p <= |code0| && Open(code0, p)
    requires NestAt(code0, p).groups == NestAt(code0, st.p).groups
    ensures Fits(code0, |env.s.text|, nsub, st.(p := p), h)
  {
    hide NestAt, PointsFit, Worth, Matched, Fetch;
    NotBack(code0, p);
    FitsNext(code0, |env.s.text|, nsub, st, st.(p := p), h);
  }

  lemma DummyFits(code0: seq<byte>, nsub: nat, env: Env, st: VState, p: nat, h: nat)
    requires Fits(code0, |env.s.text|, nsub, st, h) && st.p < p && st.p <= |code0| && Open(code0, p)
    requires NestAt(code0, p).groups == NestAt(code0, st.p).groups && Push(env, st, true, 0, 0).Running?
    ensures var st' := Push(env, st, true, 0, 0).st; Fits(code0, |env.s.text|, nsub, st'.(p := p), h)
  {
    hide NestAt, PointsFit, Worth, Matched, Fetch;
    NotBack(code0, p);
    var st' := Push(env, st, true, 0, 0).st;
    PointsAdd(code0, |env.s.text|, nsub, st.stack, st'.stack[|st.stack|], h);
    FitsNext(code0, |env.s.text|, nsub, st, st'.(p := p), h);
  }

  /** A byte pays for all groups around it, and for a closing jump behind it. */
  lemma ConsumeFits(code0: seq<byte>, nsub: nat, env: Env, st: VState, n: nat, p: nat, h: nat)
    requires WellFormed(code0) && Sane(code0, nsub, st) && Fits(code0, |env.s.text|, nsub, st, h)
    requires n > 0 && st.p < p && st.d + n <= |env.s.text| && st.p <= |code0|
    requires NestAt(code0, p).groups == NestAt(code0, st.p).groups && Consume(st, n, p).Running?
    ensures Fits(code0, |env.s.text|, nsub, Consume(st, n, p).st, h)
  {
    hide NestAt, PointsFit, Worth, Matched, Fetch, Starts, Rises, Guarded, Structured, StackGrounded, Related;
    hide PointFlagged;
    var size, gs, st' := |env.s.text|, NestAt(code0, p).groups, Consume(st, n, p).st;
    RisingHere(code0, st.p);
    GroupsFew(code0, nsub, st);
    MatchedFew(gs, st'.info);
    OneByte(size, st.d, n, nsub + 1);
    FitsNext(code0, size, nsub, st, st', h);
  }

  lemma OneByte(size: nat, d: nat, n: nat, k: nat)
    requires n > 0 && d + n <= size
    ensures (size - (d + n)) * k + k <= (size - d) * k
  {
    assert (size - d) * k == (size - (d + n)) * k + k + (n - 1) * k;
  }

  lemma GroupsFew(code0: seq<byte>, nsub: nat, st: VState)
    requires FlagsFit(code0, st) && |st.info| == nsub + 1 && Rising(NestAt(code0, st.p).groups, NextReg(code0, st.p))
    ensures |NestAt(code0, st.p).groups| <= nsub
  {
    hide NestAt, NextReg, LowFits;
    var gs := NestAt(code0, st.p).groups;
    forall i | 0 <= i < |gs|
      ensures gs[i] < nsub + 1
    {
      assert Marked(gs[i], st.d, st.low, st.high, st.info);
    }
    RisingFew(gs, nsub + 1);
  }

  lemma StartFits(code0: seq<byte>, nsub: nat, env: Env, st: VState, reg: byte, h: nat)
    requires WellFormed(code0) && Sane(code0, nsub, st) && Fits(code0, |env.s.text|, nsub, st, h)
    requires st.p <= |code0| && Fetch(code0, st.p).StartMemory? && Fetch(code0, st.p).reg == reg
    requires NestAt(code0, st.p + 3).groups == NestAt(code0, st.p).groups + [reg] && Open(code0, st.p + 3)
    requires StepStart(st, reg).Running?
    ensures Fits(code0, |env.s.text|, nsub, StepStart(st, reg).st, h)
  {
    hide NestAt, PointsFit, Worth, Matched, Fetch, Starts, Rises, Guarded, Structured, StackGrounded, Related;
    hide PointFlagged, NextReg;
    var gs, st' := NestAt(code0, st.p).groups, StepStart(st, reg).st;
    RisingHere(code0, st.p);
    HeadReg(code0, st.p);
    NotBack(code0, st.p + 3);
    forall g | g in gs
      ensures g < |st.info| && g < |st'.info| && st.info[g].matched == st'.info[g].matched
    {
      assert Marked(g, st.d, st.low, st.high, st.info);
    }
    MatchedSame(gs, st.info, st'.info);
    MatchedSnoc(gs, reg, st'.info);
    FitsNext(code0, |env.s.text|, nsub, st, st', h);
  }

  lemma OnFailureFits(code0: seq<byte>, nsub: nat, env: Env, st: VState, off: int, h: nat)
    requires WellFormed(code0) && Sane(code0, nsub, st) && Fits(code0, |env.s.text|, nsub, st, h)
    requires st.p < |code0| == |st.code| && Fetch(code0, st.p) == OnFailureJump(off) && off >= 0 && Nested(code0, st.p)
    requires LeadsOpen(code0, st.p) && Starts(code0, st.p + 3) && StepOnFailure(env, st, off).Running?
    ensures Fits(code0, |env.s.text|, nsub, StepOnFailure(env, st, off).st, h)
  {
    hide NestAt, PointsFit, Worth, Matched, Fetch, Starts, Rises, Structured, StackGrounded, Related;
    hide PointFlagged, NextReg, Rising, FlagsFit, LowFits, ClosesBehind;
    var size, wide, pat := |env.s.text|, Widened(st.code, st), st.p + 3 + off;
    HeadReg(code0, st.p);
    RisingHere(code0, st.p);
    StructuredWired(code0);
    StartBehind(code0, st.code, st.p + 3);
    WidenedFlags(code0, st, st.code);
    WideFits(code0, size, nsub, st, st.code, h);
    MarkedHere(code0, wide);
    var st' := Push(env, wide, false, pat, st.d).st;
    var fp := st'.stack[|st.stack|];
    PushedFits(code0, size, nsub, wide, fp, h);
    PointsAdd(code0, size, nsub, st.stack, fp, h);
    NotBack(code0, st.p + 3);
    FitsNext(code0, size, nsub, wide, st'.(p := st.p + 3), h);
  }

  lemma WideFits(code0: seq<byte>, size: nat, nsub: nat, st: VState, code: seq<byte>, h: nat)
    requires Fits(code0, size, nsub, st, h)
    ensures Fits(code0, size, nsub, Widened(code, st), h)
    ensures var wide := Widened(code, st); wide == st.(low := wide.low, high := wide.high)
  {
    hide Fetch, NestAt, Matched, Worth, PointsFit;
  }

  lemma MarkedHere(code0: seq<byte>, st: VState)
    requires AllFlagged(code0, st)
    ensures AllMarked(NestAt(code0, st.p).groups, st.d, st.low, st.high, st.info)
  {
    hide PointFlagged, NestAt;
  }

  /** The end of a group that has matched something pays for the closing jump. */
  lemma StopFits(code0: seq<byte>, nsub: nat, env: Env, st: VState, reg: byte, h: nat)
    requires WellFormed(code0) && Sane(code0, nsub, st) && Fits(code0, |env.s.text|, nsub, st, h) && Nested(code0, st.p)
    requires st.p < |code0| == |st.code| && Fetch(st.code, st.p) == Fetch(code0, st.p) && Fetch(st.code, st.p).StopMemory?
    requires Fetch(st.code, st.p).reg == reg && Starts(code0, st.p + 3) && StepStop(env, st, reg).Running?
    ensures Fits(code0, |env.s.text|, nsub, StepStop(env, st, reg).st, h)
  {
    hide Fetch, Starts, Related, Wired, LoopExit, Fail, NestAt, PointFlagged, Rises, Rising, CloseGroup;
    hide AllMarked, Push, LowFits, NextReg, StackGrounded, PointsFit, Worth, Matched;
    var gs, st', exit := NestAt(code0, st.p + 3).groups, CloseGroup(st, reg), LoopExit(st.code, st.p, reg);
    CloseGroupKeeps(st, reg);
    RisingHere(code0, st.p);
    CloseFlags(gs, st, reg, NextReg(code0, st.p));
    CloseMatched(gs, st, reg);
    MatchedSnoc(gs, reg, st.info);
    if (!st.info[reg].matched || PeekIsStart(st.code, st.p)) && exit >= 0 {
      ExitFits(code0, nsub, env, st, st', reg, h);
    } else {
      if Back(code0, st.p + 3) == 1 { ExitThere(code0, st.code, st.p, reg); }
      FitsNext(code0, |env.s.text|, nsub, st, st'.(p := st.p + 3), h);
    }
  }

  lemma CloseMatched(gs: seq<nat>, st: VState, reg: byte)
    requires 0 < reg < |st.info| && AllMarked(gs + [reg], st.d, st.low, st.high, st.info)
    ensures Matched(gs, CloseGroup(st, reg).info) == Matched(gs, st.info)
  {
    hide Matched;
    var st' := CloseGroup(st, reg);
    forall g | g in gs
      ensures g < |st.info| && g < |st'.info| && st'.info[g].matched == st.info[g].matched
    {
      assert g in gs + [reg];
      assert Marked(g, st.d, st.low, st.high, st.info);
    }
    MatchedSame(gs, st'.info, st.info);
  }

  /** At the end of the group of a loop there is a way out. */
  lemma ExitThere(code0: seq<byte>, code: seq<byte>, p: nat, reg: byte)
    requires WellFormed(code0) && Related(code0, code) && |code| == |code0| && Starts(code0, p) && p < |code0|
    requires Fetch(code0, p).StopMemory? && Fetch(code0, p).reg == reg && Back(code0, p + 3) == 1 && Starts(code0, p + 3)
    ensures LoopExit(code, p, reg) >= 0
  {
    hide Fetch, Starts, Related, Rises, Nested;
    WiredWhole(code0);
    NoFetch(code0);
    StartAtMost(code0, p + 3);
    assert ClosesBehind(code0, p);
    SelfRelated(code0);
    FetchGrounded(code0, code0, p + 3);
    FetchRelated(code0, code, p + 3);
    var t := p + 6 + Fetch(code0, p + 3).off;
    StartAtMost(code0, t);
    FetchRelated(code0, code, t);
    StartsNext(code0, t);
    StartAtMost(code0, t + 3);
    FetchRelated(code0, code, t + 3);
  }

  lemma ExitFits(code0: seq<byte>, nsub: nat, env: Env, st: VState, st': VState, reg: byte, h: nat)
    requires WellFormed(code0) && Sane(code0, nsub, st) && Fits(code0, |env.s.text|, nsub, st, h) && Nested(code0, st.p)
    requires st' == st.(info := st'.info, low := st'.low, high := st'.high) && |st'.info| == nsub + 1
    requires var gs := NestAt(code0, st.p + 3).groups;
      && AllMarked(gs, st'.d, st'.low, st'.high, st'.info)
      && Matched(gs, st'.info) <= Matched(NestAt(code0, st.p).groups, st.info)
    requires st'.low == NO_LOWEST_ACTIVE_REG || st'.low <= reg < NextReg(code0, st.p)
    requires st.p < |code0| == |st.code| && Fetch(st.code, st.p) == Fetch(code0, st.p) && Fetch(st.code, st.p).StopMemory?
    requires Fetch(code0, st.p).reg == reg && LoopExit(st.code, st.p, reg) >= 0
    ensures var x := Push(env, st', false, LoopExit(st.code, st.p, reg), st.d);
      x.Running? && Fail(env, x.st).Running? ==> Fits(code0, |env.s.text|, nsub, Fail(env, x.st).st, h)
  {
    hide Fetch, Starts, Related, LoopExit, Fail, NestAt, PointFlagged, Rises, AllMarked, LowFits, NextReg;
    hide PointsFit, Worth, Matched, Guarded, Nested, Wired;
    var size, exit, here := |env.s.text|, LoopExit(st.code, st.p, reg), st'.(p := st.p + 3);
    var x := Push(env, st', false, exit, st.d);
    if x.Running? && Fail(env, x.st).Running? {
      StructuredWired(code0);
      var t := ExitPlaces(code0, st.code, st.p, reg);
      ExitGroups(code0, st.code, st.p, reg);
      StopLow(code0, st.p, st'.low, reg);
      ExitLow(code0, st.code, st.p, reg, st'.low);
      var fp := x.st.stack[|st.stack|];
      ExitPoint(code0, size, nsub, st, st', fp, h);
      PointsAdd(code0, size, nsub, st.stack, fp, h);
      FetchGrounded(code0, st.code, st.p);
      ExitLands(code0, st.code, st.p, reg);
      PushGrounded(code0, env, st', false, exit, st.d, nsub + 1);
      ExitFlagged(code0, st', fp);
      FailFits(code0, size, nsub, env, x.st, h);
    }
  }

  lemma ExitFlagged(code0: seq<byte>, st: VState, fp: FailPoint)
    requires RangeOk(st) && fp == FailPoint(false, fp.pat, st.d, st.low, st.high, Saved(st)) && LowFits(code0, fp.pat, st.low)
    requires AllMarked(NestAt(code0, fp.pat).groups, st.d, st.low, st.high, st.info)
    ensures PointFlagged(code0, fp)
  {
    hide NestAt, LowFits;
    forall reg | reg in NestAt(code0, fp.pat).groups
      ensures fp.low <= reg <= fp.high && reg - fp.low < |fp.saved| && fp.saved[reg - fp.low] == st.info[reg]
    {
      assert Marked(reg, st.d, st.low, st.high, st.info);
    }
  }

  lemma ExitPoint(code0: seq<byte>, size: nat, nsub: nat, st: VState, st': VState, fp: FailPoint, h: nat)
    requires Fits(code0, size, nsub, st, h) && |st'.info| == nsub + 1 && RangeOk(st') && st.p <= fp.pat && st.p <= |code0|
    requires st'.d == st.d && fp == FailPoint(false, fp.pat, st.d, st'.low, st'.high, Saved(st'))
    requires AllMarked(NestAt(code0, fp.pat).groups, st.d, st'.low, st'.high, st'.info)
    requires Matched(NestAt(code0, fp.pat).groups, st'.info) <= Matched(NestAt(code0, st.p).groups, st.info)
    ensures PointFits(code0, size, nsub, fp, |st.stack|, h)
  {
    hide NestAt, PointsFit, Worth;
    var gs, b := NestAt(code0, fp.pat).groups, Restore(Unset(nsub + 1), fp);
    forall g | g in gs
      ensures g < |b| && g < |st'.info| && b[g].matched == st'.info[g].matched
    {
      assert Marked(g, st.d, st'.low, st'.high, st'.info);
    }
    MatchedSame(gs, st'.info, b);
    WorthLess(|code0|, st.p, Units(code0, size, nsub, st), fp.pat, PointUnits(code0, size, nsub, fp));
  }

  // ----- no overflow -----

  /** Nothing goes back before the start of the run. */
  ghost predicate Late(start: nat, st: VState) {
    && start <= st.d && (st.hasBest ==> start <= st.best)
    && forall fp | fp in st.stack :: !fp.dummy ==> start <= fp.str
  }

  lemma {:induction false} FailLate(env: Env, st: VState)
    requires Late(env.start, st)
    ensures match Fail(env, st)
            case Running(st') => Late(env.start, st')
            case Done(result, _) => result != OVERFLOW
            case Undefined => true
    decreases |st.stack|
  {
    hide AtLoopEnd, Restore;
    if |st.stack| > 0 {
      var top, st' := |st.stack| - 1, Pop(st);
      assert st.stack[top] in st.stack;
      assert forall x | x in st'.stack :: x in st.stack;
      if st.stack[top].dummy || AtLoopEnd(st.code, st.stack[top].pat) { FailLate(env, st'); }
    }
  }

  lemma PushLate(env: Env, st: VState, dummy: bool, pat: int, str: nat)
    requires Late(env.start, st) && (dummy || env.start <= str)
    ensures match Push(env, st, dummy, pat, str)
            case Running(st') => Late(env.start, st') && st' == st.(stack := st'.stack)
            case Done(result, _) => |st.stack| >= env.limit
            case Undefined => true
  {}

  lemma StopLate(env: Env, st: VState, reg: byte)
    requires Late(env.start, st)
    ensures match StepStop(env, st, reg)
            case Running(st') => Late(env.start, st')
            case Done(result, _) => result == OVERFLOW ==> |st.stack| >= env.limit && LoopExit(st.code, st.p, reg) >= 0
            case Undefined => true
  {
    hide LoopExit, Fail, Push, CloseGroup;
    if 0 < reg < |st.info| && 2 <= st.p <= |st.code| {
      CloseGroupKeeps(st, reg);
      var st', exit := CloseGroup(st, reg), LoopExit(st.code, st.p, reg);
      PushLate(env, st', false, exit, st.d);
      var x := Push(env, st', false, exit, st.d);
      if x.Running? { FailLate(env, x.st); }
    }
  }

  lemma OnFailureLate(env: Env, st: VState, off: int)
    requires Late(env.start, st)
    ensures match StepOnFailure(env, st, off)
            case Running(st') => Late(env.start, st')
            case Done(result, _) => |st.stack| >= env.limit
            case Undefined => true
  {
    hide Fetch, Push;
    PushLate(env, Widened(st.code, st), false, st.p + 3 + off, st.d);
  }

  /** The instruction at `p` pushes a failure point, or may. */
  predicate Pushes(code: seq<byte>, p: nat) {
    match Fetch(code, p)
    case OnFailureJump(_) => true
    case DummyFailureJump(_) => true
    case PushDummyFailure => true
    case StopMemory(reg, _) => LoopExit(code, p, reg) >= 0
    case _ => false
  }

  /** A run overflows only with its stack full, in front of an instruction that pushes. */
  lemma StepLate(env: Env, st: VState)
    requires Late(env.start, st)
    ensures match Step(env, st)
            case Running(st') => Late(env.start, st')
            case Done(result, _) => result == OVERFLOW ==> |st.stack| >= env.limit && Pushes(st.code, st.p)
            case Undefined => true
  {
    hide Fetch, CanPop, Fail, StepStop, StepOnFailure, Push, LoopExit;
    if st.d <= |env.s.text| {
      FailLate(env, st);
      if st.p == |st.code| {
        FailLate(env, st.(hasBest := true, best := st.d));
      } else {
        PushLate(env, st, true, 0, 0);
        match Fetch(st.code, st.p) {
          case StopMemory(reg, _) => StopLate(env, st, reg);
          case OnFailureJump(off) => OnFailureLate(env, st, off);
          case _ => PlainLate(env, st);
        }
      }
    }
  }

  lemma InCode(code: seq<byte>, p: nat)
    ensures Fetch(code, p) != Bad ==> p < |code|
    ensures Pushes(code, p) ==> p < |code|
  {
    hide LoopExit;
  }

  lemma PlainLate(env: Env, st: VState)
    requires Late(env.start, st) && st.d <= |env.s.text| && st.p != |st.code|
    requires !Fetch(st.code, st.p).StopMemory? && !Fetch(st.code, st.p).OnFailureJump?
    ensures match Step(env, st)
            case Running(st') => Late(env.start, st')
            case Done(result, _) => result == OVERFLOW ==> |st.stack| >= env.limit && Pushes(st.code, st.p)
            case Undefined => true
  {
    hide Fetch, CanPop, Fail, StepStop, StepOnFailure, Push, LoopExit;
    FailLate(env, st);
    PushLate(env, st, true, 0, 0);
  }

  /** A step that has room does not overflow. */
  lemma RoomHere(code0: seq<byte>, size: nat, nsub: nat, st: VState, h: nat)
    requires Fits(code0, size, nsub, st, h) && st.p < |code0|
    ensures |st.stack| < h
  {
    hide NestAt, Matched, PointsFit, Fetch;
    var u := Units(code0, size, nsub, st);
    assert |code0| * u >= 0;
  }

  /** A run that has enough room does not overflow. */
  lemma {:induction false} RunFits(code0: seq<byte>, nsub: nat, env: Env, st: VState, h: nat, n: nat)
    requires WellFormed(code0) && Sane(code0, nsub, st) && Fits(code0, |env.s.text|, nsub, st, h) && h <= env.limit
    requires Late(env.start, st) && Steps(env, st, n).Done?
    ensures Steps(env, st, n).result != OVERFLOW
    decreases n
  {
    hide Step, Structured, Rises, Grounded, AllFlagged, Guarded, Fits, Late, Pushes;
    StepLate(env, st);
    InCode(st.code, st.p);
    GroundedLength(code0, nsub + 1, st);
    if Step(env, st).Running? {
      StructuredWired(code0);
      StepFits(code0, nsub, env, st, h);
      StepFlags(code0, nsub + 1, env, st);
      StepGrounded(code0, env, st, nsub + 1);
      RunFits(code0, nsub, env, Step(env, st).st, h, n - 1);
    } else if st.p < |code0| {
      RoomHere(code0, |env.s.text|, nsub, st, h);
    }
  }

  lemma GroundedLength(code0: seq<byte>, nregs: nat, st: VState)
    requires Grounded(code0, nregs, st)
    ensures |st.code| == |code0|
  {
    SameLength(code0, st.code);
  }

  lemma EntryFits(code0: seq<byte>, nsub: nat, env: Env, code: seq<byte>)
    requires NestAt(code0, 0).groups == [] && !Fetch(code0, 0).MaybePopJump? && env.start <= |env.s.text|
    ensures Fits(code0, |env.s.text|, nsub, Entry(env, code, nsub), Enough(|env.s.text|, |code0|, nsub))
    ensures Late(env.start, Entry(env, code, nsub))
  {
    hide NestAt, Fetch;
    var size, k, st := |env.s.text|, nsub + 1, Entry(env, code, nsub);
    var u := (size - env.start) * k;
    assert size * k == u + env.start * k;
    assert Units(code0, size, nsub, st) == u;
    LessTimes(|code0|, u, size * k);
    assert |code0| * (1 + size * k) == |code0| + |code0| * (size * k);
  }

  /** With room for that many failure points no call overflows, whatever was
      overwritten before it. */
  lemma NoOverflow(e: Re, code0: seq<byte>, nsub: nat, env: Env, code: seq<byte>, result: int, code': seq<byte>)
    requires Compiled(e, code0, nsub) && Related(code0, code) && env.start <= |env.s.text|
    requires Enough(|env.s.text|, |code0|, nsub) <= env.limit && RunsTo(env, nsub, code, result, code')
    ensures result != OVERFLOW
  {
    hide Compiled, Related, Step, Entry, Fits, Late, Enough, WellFormed, NestAt, Grounded, AllFlagged;
    CompiledWellFormed(e, code0, nsub);
    EntryTwin(code0, nsub, env, code, code);
    EntryFlags(code0, nsub, env, code);
    FirstOpen(e, code0, nsub);
    EntryFits(code0, nsub, env, code);
    var n: nat :| Steps(env, Entry(env, code, nsub), n) == Done(result, code');
    RunFits(code0, nsub, env, Entry(env, code, nsub), Enough(|env.s.text|, |code0|, nsub), n);
  }

  lemma FirstOpen(e: Re, code0: seq<byte>, nsub: nat)
    requires Compiled(e, code0, nsub)
    ensures !Fetch(code0, 0).MaybePopJump?
  {
    hide Fetch, LaidOut;
    NoFetch(code0);
    if Len(e) > 0 { HeadOpen(e, code0, 0); }
  }

  /** That much room is enough for all calls of a search. */
  lemma EnoughRoom(e: Re, code0: seq<byte>, nsub: nat, s: Subject, first: nat, limit: nat)
    requires Compiled(e, code0, nsub) && Enough(|s.text|, |code0|, nsub) <= limit
    ensures !RunsOut(e, code0, nsub, s, first, limit)
  {
    hide Compiled, Related, RunsTo, Returns, Enough;
    forall start: nat, code: seq<byte>, code': seq<byte> |
      first <= start <= |s.text| && Related(code0, code) && RunsTo(Env(s, start, limit), nsub, code, OVERFLOW, code')
      ensures false
    {
      NoOverflow(e, code0, nsub, Env(s, start, limit), code, OVERFLOW, code');
    }
  }

  /** Every run ends. */
  lemma RunOf(e: Re, code0: seq<byte>, nsub: nat, env: Env, code: seq<byte>) returns (result: int, code': seq<byte>)
    requires Compiled(e, code0, nsub) && Related(code0, code) && env.start <= |env.s.text|
    ensures RunsTo(env, nsub, code, result, code')
  {
    hide Compiled, Related, Step, Entry, Returns;
    var n, out := MatchReturns(e, code0, nsub, env, code);
    result, code' := out.result, out.code;
    assert out == Done(result, code');
  }
}
