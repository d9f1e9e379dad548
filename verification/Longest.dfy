/** What re_match_2 returns, against the matches there are.

    It returns the length of a match, always; some match, when there is one and the
    code is safe; and the longest, exactly unless the last end visited is longer than
    all before it and comes with no failure point left, or an end beyond all of them
    was dropped. */
module Longest {
  import opened Octets
  import opened RegexLang
  import opened Backtrack
  import opened Bytecode
  import opened Machine
  import opened Rewriting
  import opened Invariant
  import opened Plays
  import opened Moves
  import opened MatchTheorem
  import opened Verdict
  import opened Outcome

  lemma {:induction false} BestIs(best: Best, seen: seq<Visit>)
    ensures var b := BestOf(best, seen);
      && (b.Best? <==> best.Best? || |seen| > 0)
      && (best.Best? ==> best.at <= b.at)
      && (forall y | y in seen :: y.at <= b.at)
      && (b.Best? ==> b == best || exists y | y in seen :: y.at == b.at)
    decreases |seen|
  {
    if |seen| > 0 {
      var better := Better(best, seen[0].at);
      BestIs(better, seen[1..]);
      assert seen == [seen[0]] + seen[1..];
    }
  }

  /** The last end is longer than all before it, and nothing is left there. */
  predicate Overtaken(v: seq<Visit>, size: nat) {
    |v| >= 2 &&
    var last := v[|v| - 1];
    last.left == 0 && last.at != size && forall i | 0 <= i < |v| - 1 :: v[i].at < last.at
  }

  /** The answer is the end of one visited, the greatest unless that happens. */
  lemma AnswerIs(start: nat, size: nat, v: seq<Visit>)
    requires |v| > 0 && Passing(v[..|v| - 1], size) && forall y | y in v :: start <= y.at <= size
    ensures var end := start + Answer(start, size, NoBest, v);
      && (exists y | y in v :: y.at == end)
      && ((forall y | y in v :: y.at <= end) <==> !Overtaken(v, size))
  {
    var n := |v| - 1;
    var front, last := v[..n], v[n];
    assert v == front + [last];
    AnswerAfter(start, size, NoBest, front, [last]);
    AnswerLast(start, size, BestOf(NoBest, front), last);
    BestIs(NoBest, front);
    assert forall y | y in front :: y in v;
    forall y | y in v
      ensures y in front || y == last
    {}
    if Overtaken(v, size) {
      forall y | y in front
        ensures y.at < last.at
      {}
    } else if n > 0 && last.left == 0 && last.at != size {
      var i :| 0 <= i < n && v[i].at >= last.at;
      assert v[i] in front;
    }
  }

  lemma AnswerLast(start: nat, size: nat, best: Best, last: Visit)
    ensures Answer(start, size, best, [last]) ==
            if last.at == size then size - start
            else if last.left == 0 then (if best.NoBest? then last.at else best.at) - start
            else Better(best, last.at).at - start
  {}

  /** The ends a run comes to, and the matches. */
  lemma VisitFacts(e: Re, code: seq<byte>, nsub: nat, s: Subject, start: nat)
    requires Compiled(e, code, nsub) && start <= |s.text|
    ensures var v := AllVisits(e, code, s, start);
      && (|v| > 0 ==> Passing(v[..|v| - 1], |s.text|))
      && (forall y | y in v :: Match(e, s, start, y.at) && start <= y.at <= |s.text|)
      && (Safe(code) ==> forall x: nat :: Match(e, s, start, x) ==> Visited(v, Tame(code), x))
  {
    hide Compiled, PlayOf, LaidOut, PeekSafe, PopSafe, Tame, Fair, Visits, Match, Visited, Reachable, StackNice;
    CompiledParts(e, code, nsub);
    var t, v := PlayOf(code, s, 0, Do(e, Halt), start), AllVisits(e, code, s, start);
    WholePlay(e, code, s, start);
    VisitsSound(t, [], |s.text|);
    forall x: nat
      ensures Reachable(t, [], x) ==> Match(e, s, start, x)
      ensures Match(e, s, start, x) ==> start <= x <= |s.text|
      ensures Safe(code) && Match(e, s, start, x) ==> Visited(v, Tame(code), x)
    {
      ReachableOnly(t, x);
      MatchBound(e, s, start, x);
      if Safe(code) && Match(e, s, start, x) { MatchVisited(e, code, s, start, x); }
    }
  }

  lemma CompiledParts(e: Re, code: seq<byte>, nsub: nat)
    requires Compiled(e, code, nsub)
    ensures Fit(e) && LaidOut(e, code, 0) && Len(e) == |code|
  {}

  lemma MatchBound(e: Re, s: Subject, i: nat, j: nat)
    ensures Match(e, s, i, j) ==> i <= j <= |s.text|
  {}

  lemma ReachableOnly(t: Play, x: nat)
    ensures Reachable(t, [], x) <==> Reaches(t, x)
  {}

  lemma MatchVisited(e: Re, code: seq<byte>, s: Subject, start: nat, x: nat)
    requires Fit(e) && LaidOut(e, code, 0) && Len(e) == |code| && Safe(code) && Match(e, s, start, x) && start <= |s.text|
    ensures Visited(AllVisits(e, code, s, start), Tame(code), x)
  {
    hide PlayOf, LaidOut, PeekSafe, PopSafe, Tame, Fair, Visits, Match, Visited, Reachable, Bounded, Holds;
    var t, size := PlayOf(code, s, 0, Do(e, Halt), start), |s.text|;
    WholePlay(e, code, s, start);
    PlayHolds(code, s, 0, Do(e, Halt), start);
    forall y: nat | Reaches(t, y)
      ensures y <= size
    {
      MatchBound(e, s, start, y);
    }
    BoundedIf(t, size);
    MatchBound(e, s, start, x);
    ReachableOnly(t, x);
    assert Loops(Do(e, Halt)) == 0 && StackNice([], size, Tame(code));
    VisitsCover(t, [], size, Tame(code), x);
  }

  /** What is returned is a match, and -1 means none when the code is safe. */
  lemma ReturnsRight(e: Re, code: seq<byte>, nsub: nat, s: Subject, start: nat)
    requires Compiled(e, code, nsub) && start <= |s.text|
    ensures var r := Returns(e, code, s, start);
      && (r == NO_MATCH || (r >= 0 && Match(e, s, start, start + r)))
      && (Safe(code) && r == NO_MATCH ==> forall j: nat :: !Match(e, s, start, j))
  {
    hide Compiled, AllVisits, Match, Safe, Tame;
    VisitFacts(e, code, nsub, s, start);
    var v := AllVisits(e, code, s, start);
    if |v| > 0 {
      AnswerIs(start, |s.text|, v);
    } else {
      forall j: nat | Safe(code)
        ensures !Match(e, s, start, j)
      {
        assert !Visited(v, Tame(code), j);
      }
    }
  }

  /** What a call at `start` may return. */
  ghost predicate Answers(e: Re, code0: seq<byte>, s: Subject, start: nat, result: int) {
    || result == OVERFLOW
    || (result >= 0 && Match(e, s, start, start + result))
    || (result == NO_MATCH && (Safe(code0) ==> forall j: nat :: !Match(e, s, start, j)))
  }

  /** The matcher stops, and its answer is right. */
  lemma MatchCorrect(e: Re, code0: seq<byte>, nsub: nat, env: Env, code: seq<byte>)
    returns (n: nat, out: Status)
    requires Compiled(e, code0, nsub) && Related(code0, code) && env.start <= |env.s.text|
    ensures Steps(env, Entry(env, code, nsub), n) == out && out.Done? && Related(code0, out.code)
    ensures out.result == OVERFLOW || out.result == Returns(e, code0, env.s, env.start)
    ensures Answers(e, code0, env.s, env.start, out.result)
  {
    hide Compiled, Step, Steps, Related, Returns, Match, Safe;
    n, out := MatchReturns(e, code0, nsub, env, code);
    ReturnsRight(e, code0, nsub, env.s, env.start);
  }

  /** No match from `start` is longer than `r`. */
  ghost predicate IsLongest(e: Re, s: Subject, start: nat, r: int) {
    forall j: nat :: Match(e, s, start, j) ==> j <= start + r
  }

  /** Some end in the play is beyond all that are visited: what leads there was
      dropped. */
  ghost predicate Dropped(t: Play, v: seq<Visit>) {
    exists x: nat :: Reaches(t, x) && forall y | y in v :: y.at < x
  }

  /** The length returned is the greatest exactly when the last end visited does not
      overtake the others with nothing left, and no end beyond all of them was dropped,
      which in tame code does not happen. */
  lemma LongestExactly(e: Re, code: seq<byte>, nsub: nat, s: Subject, start: nat)
    requires Compiled(e, code, nsub) && PeekSafe(code) && start <= |s.text| && Returns(e, code, s, start) >= 0
    ensures var t, v := PlayOf(code, s, 0, Do(e, Halt), start), AllVisits(e, code, s, start);
      && (IsLongest(e, s, start, Returns(e, code, s, start)) <==> !Overtaken(v, |s.text|) && !Dropped(t, v))
      && (PopSafe(code) && Tame(code) ==> !Dropped(t, v))
  {
    hide Compiled, AllVisits, PlayOf, Match, PeekSafe, PopSafe, Tame, Overtaken, Reaches, Fair, Fit, LaidOut;
    VisitFacts(e, code, nsub, s, start);
    CompiledParts(e, code, nsub);
    WholePlay(e, code, s, start);
    var t, v := PlayOf(code, s, 0, Do(e, Halt), start), AllVisits(e, code, s, start);
    AnswerIs(start, |s.text|, v);
    var end := start + Returns(e, code, s, start);
    if !Overtaken(v, |s.text|) && !Dropped(t, v) {
      forall j: nat | Match(e, s, start, j)
        ensures j <= end
      {
        assert Reaches(t, j);
      }
    }
    if IsLongest(e, s, start, end - start) {
      forall y | y in v
        ensures y.at <= end
      {
        assert Match(e, s, start, y.at);
      }
    }
    if PopSafe(code) && Tame(code) {
      forall x: nat | Reaches(t, x)
        ensures exists y | y in v :: y.at >= x
      {
        assert Visited(v, true, x);
      }
    }
  }
}
