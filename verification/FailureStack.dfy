/** Failing: the newest failure point that is not a dummy restores a state in
    which the invariant holds again. */
module FailureStack {
  import opened Octets
  import opened RegexLang
  import opened Backtrack
  import opened Bytecode
  import opened Machine
  import opened Rewriting
  import opened Invariant
  import opened InvariantFacts
  import opened Choices

  /** A new failure point stands for the work at its place. */
  lemma PushedPointOk(w: World, st: VState, pat: nat, k: Kont, b: nat, height: nat)
    requires Located(w, pat, k, st.d, b, st.low, st.high, st.info) && w.nsub <= 255
    requires Loops(k) <= height
    ensures RangeOk(st)
    ensures PointOk(w, FailPoint(false, pat, st.d, st.low, st.high, Saved(st)), Point(pat, k, st.d, b), height)
  {
    hide Reps, FitK, NumberedK, Flags, Restore, Saved;
    FlagsBelow(k, st.d, st.low, st.high, st.info);
    SavedRange(w, st, pat, k, b);
    var fp := FailPoint(false, pat, st.d, st.low, st.high, Saved(st));
    var pad := Restore(Blanks(w.nsub + 1), fp);
    FlagsMove(k, st.d, st.low, st.high, st.info, st.low, st.high, pad, |st.info|);
  }

  /** What a failure point saves is the active range. */
  lemma SavedRange(w: World, st: VState, pat: nat, k: Kont, b: nat)
    requires |st.info| == w.nsub + 1 && w.nsub <= 255 && Range(k, b, st.low, st.high, w.nsub)
    ensures RangeOk(st) && (st.low <= st.high ==> |Saved(st)| == st.high + 1 - st.low)
    ensures var pad := Restore(Blanks(w.nsub + 1), FailPoint(false, pat, st.d, st.low, st.high, Saved(st)));
      |pad| == w.nsub + 1 && forall r: nat | st.low <= r <= st.high && r < |st.info| :: pad[r] == st.info[r]
  {}

  /** Restoring a failure point brings back what it was pushed for. */
  lemma RestoredOk(w: World, fp: FailPoint, a: Abs, height: nat, info: seq<RegInfo>)
    requires PointOk(w, fp, a, height) && a.Point? && |info| == w.nsub + 1
    ensures Located(w, fp.pat, a.k, a.d, a.b, fp.low, fp.high, Restore(info, fp))
  {
    hide Reps, FitK, NumberedK, Flags;
    var pad := Restore(Blanks(w.nsub + 1), fp);
    FlagsBelow(a.k, a.d, fp.low, fp.high, pad);
    FlagsMove(a.k, a.d, fp.low, fp.high, pad, fp.low, fp.high, Restore(info, fp), |info|);
  }

  /** A failure point never sits at the end of a loop. */
  lemma NotAtLoopEnd(w: World, code: seq<byte>, p: nat, k: Kont)
    requires Whole(w.code0) && Related(w.code0, code) && Reps(w.code0, p, k)
    ensures !AtLoopEnd(code, p)
  {
    hide Fetch, Boundary, CanPop;
    HeadOfWork(w.code0, p, k);
    if p < |code| {
      FetchRelated(w.code0, code, p);
    } else {
      NoFetch(code);
    }
  }

  /** What the matcher needs of its state to fail. */
  ghost predicate CanFail(w: World, st: VState, abs: seq<Abs>) {
    && ValidWorld(w) && Related(w.code0, st.code) && |st.info| == w.nsub + 1
    && StackOk(w, st.stack, abs) && BestOk(w, st)
  }

  lemma InvCanFail(w: World, st: VState, k: Kont, b: nat, abs: seq<Abs>)
    requires Inv(w, st, k, b, abs)
    ensures CanFail(w, st, abs) && RangeOk(st)
  {}

  /** Failing either ends the run, with only dummies on the stack, or resumes at
      the newest point, with only dummies above it. */
  lemma {:induction false} FailResumes(w: World, st: VState, abs: seq<Abs>) returns (m: nat)
    requires CanFail(w, st, abs)
    ensures !Fail(w.env, st).Undefined?
    ensures Fail(w.env, st).Done? ==>
      && (forall i | 0 <= i < |abs| :: abs[i] == Blank)
      && Fail(w.env, st) == Done(if st.hasBest then st.best - w.env.start else NO_MATCH, st.code)
    ensures Fail(w.env, st).Running? ==>
      var st' := Fail(w.env, st).st;
      && m < |abs| && abs[m].Point?
      && (forall i | m < i < |abs| :: abs[i] == Blank)
      && st'.hasBest == st.hasBest && st'.best == st.best && st'.p == abs[m].p && st'.d == abs[m].d
      && Inv(w, st', abs[m].k, abs[m].b, abs[..m])
    decreases |st.stack|
  {
    hide CanFail, Inv, Fail, Pop, AtLoopEnd;
    m := 0;
    StackSize(w, st, abs);
    FailUnfold(w.env, st);
    if |st.stack| > 0 {
      var top := |st.stack| - 1;
      TopPoint(w, st, abs);
      if abs[top].Blank? {
        m := FailResumes(w, Pop(st), abs[..top]);
        assert Fail(w.env, st).Running? ==> abs[..top][..m] == abs[..m];
      } else {
        m := top;
        PointResumed(w, st, abs);
      }
    }
  }

  lemma StackSize(w: World, st: VState, abs: seq<Abs>)
    requires CanFail(w, st, abs)
    ensures |st.stack| == |abs|
  {
    hide PointOk, Related, Whole;
  }

  lemma TopPoint(w: World, st: VState, abs: seq<Abs>)
    requires CanFail(w, st, abs) && |st.stack| == |abs| > 0
    ensures var top := |abs| - 1;
      && st.stack[top].dummy == abs[top].Blank? && CanFail(w, Pop(st), abs[..top])
      && Pop(st).stack == st.stack[..top] && Pop(st).hasBest == st.hasBest && Pop(st).best == st.best
      && Pop(st).code == st.code
  {
    hide Located, Related, Whole, Restore, Loops;
    var top := |abs| - 1;
    RestoreKeepsLength(st.info, st.stack[top]);
    assert PointOk(w, st.stack[top], abs[top], top);
    forall i | 0 <= i < top
      ensures PointOk(w, st.stack[i], abs[..top][i], i)
    {
      assert PointOk(w, st.stack[i], abs[i], i);
    }
  }

  /** A point that is not a dummy is where the run goes on. */
  lemma PointResumed(w: World, st: VState, abs: seq<Abs>)
    requires CanFail(w, st, abs) && |st.stack| == |abs| > 0 && abs[|abs| - 1].Point?
    ensures var top := |abs| - 1;
      var st', a := Pop(st), abs[top];
      && !AtLoopEnd(st.code, st.stack[top].pat) && st'.p == a.p && st'.d == a.d
      && Inv(w, st', a.k, a.b, abs[..top])
  {
    hide Reps, NumberedK, Flags, FitK, Restore, AtLoopEnd, Related, Whole;
    var top := |abs| - 1;
    TopPoint(w, st, abs);
    assert PointOk(w, st.stack[top], abs[top], top);
    NotAtLoopEnd(w, st.code, st.stack[top].pat, abs[top].k);
    RestoredOk(w, st.stack[top], abs[top], top, st.info);
  }

  lemma RestoreKeepsLength(info: seq<RegInfo>, fp: FailPoint)
    ensures |Restore(info, fp)| == |info|
  {}

  /** A failure point pushed right in front of a group brings back the flags of the
      group and of all groups inside it, whatever has become of them since. */
  lemma GroupSaved(env: Env, st: VState, reg: byte, inner: byte, info: seq<RegInfo>, g: nat)
    requires Fetch(st.code, st.p).OnFailureJump? && Fetch(st.code, st.p + 3) == StartMemory(reg, inner)
    requires st.low == NO_LOWEST_ACTIVE_REG || st.low <= reg
    requires Step(env, st).Running? && |info| == |st.info| && reg <= g <= reg + inner
    ensures var stack := Step(env, st).st.stack;
      |stack| == |st.stack| + 1 && g < |info| && g < |Restore(info, stack[|st.stack|])| &&
      Restore(info, stack[|st.stack|])[g] == st.info[g]
  {
    hide Fetch, Restore, Fail;
    assert st.p < |st.code| by { InFront(st.code, st.p); }
    var fp := Step(env, st).st.stack[|st.stack|];
    SavedBack(info, st.info, fp, g);
  }

  lemma InFront(code: seq<byte>, p: nat)
    requires Fetch(code, p) != Bad
    ensures p < |code|
  {}

  lemma SavedBack(info: seq<RegInfo>, was: seq<RegInfo>, fp: FailPoint, g: nat)
    requires fp.low <= g <= fp.high < |info| == |was| && fp.saved == was[fp.low..fp.high + 1]
    ensures |Restore(info, fp)| == |info| && Restore(info, fp)[g] == was[g]
  {}
}
