/** What the matcher returns.

    `Compiled` gathers what the compiler guarantees; under it every run ends, and
    unless its stack ran out of room it returns a value that the pattern, its code,
    the text and the start determine: the answer to the ends that the play of the
    whole pattern comes to. */
module MatchTheorem {
  import opened Octets
  import opened RegexLang
  import opened Backtrack
  import opened Bytecode
  import opened Machine
  import opened Rewriting
  import opened Invariant
  import opened InvariantFacts
  import opened Plays
  import opened FailureStack
  import opened Moves
  import opened Simulation

  /** `code` is the compiled form of `e`, with `nsub` groups. */
  ghost predicate Compiled(e: Re, code: seq<byte>, nsub: nat) {
    && LaidOut(e, code, 0) && Len(e) == |code|
    && Fit(e) && Numbered(e, 1) && After(e, 1) <= nsub + 1 && nsub <= 255
  }

  /** A run of the matcher from its entry ends with `result`, leaving `code'`. */
  ghost predicate RunsTo(env: Env, nsub: nat, code: seq<byte>, result: int, code': seq<byte>) {
    exists n: nat :: Steps(env, Entry(env, code, nsub), n) == Done(result, code')
  }

  /** Some call at `first` or behind it, with no match found from there on before,
      runs out of room, on some state of the code. */
  ghost predicate RunsOut(e: Re, code0: seq<byte>, nsub: nat, s: Subject, first: nat, limit: nat) {
    exists start: nat, code: seq<byte>, code': seq<byte> ::
      && first <= start <= |s.text| && (forall i: nat | first <= i < start :: Returns(e, code0, s, i) < 0)
      && Related(code0, code) && RunsTo(Env(s, start, limit), nsub, code, OVERFLOW, code')
  }

  /** A run ends in one way only. */
  lemma RunsToOne(env: Env, nsub: nat, code: seq<byte>, r1: int, c1: seq<byte>, r2: int, c2: seq<byte>)
    requires RunsTo(env, nsub, code, r1, c1) && RunsTo(env, nsub, code, r2, c2)
    ensures r1 == r2 && c1 == c2
  {
    hide Step;
    var st := Entry(env, code, nsub);
    var m: nat :| Steps(env, st, m) == Done(r1, c1);
    var n: nat :| Steps(env, st, n) == Done(r2, c2);
    if m <= n { DoneStays(env, st, m, n); } else { DoneStays(env, st, n, m); }
  }

  lemma {:induction false} DoneStays(env: Env, st: VState, m: nat, n: nat)
    requires m <= n && Steps(env, st, m).Done?
    ensures Steps(env, st, n) == Steps(env, st, m)
    decreases m
  {
    hide Step;
    if m > 0 && Step(env, st).Running? { DoneStays(env, Step(env, st).st, m - 1, n - 1); }
  }

  lemma CompiledWhole(e: Re, code: seq<byte>, nsub: nat)
    requires Compiled(e, code, nsub)
    ensures Starts(code, 0) && Whole(code)
  {
    hide LaidOut, Fetch;
    LaidOutStarts(e, code, 0);
  }

  /** The pattern is pending work that the whole code does. */
  lemma EntryLocated(e: Re, w: World, code: seq<byte>)
    requires Compiled(e, w.code0, w.nsub) && ValidWorld(w) && Starts(w.code0, 0)
    ensures var st := Entry(w.env, code, w.nsub);
      Located(w, 0, Do(e, Halt), w.env.start, 1, st.low, st.high, st.info)
  {
    hide LaidOut, Fetch, Numbered, After;
    assert Reps(w.code0, Len(e), Halt);
    assert Reps(w.code0, 0, Do(e, Halt));
    var k, st := Do(e, Halt), Entry(w.env, code, w.nsub);
    assert NumberedK(k, 1, w.nsub);
    assert FitK(k);
    assert Range(k, 1, st.low, st.high, w.nsub);
    assert |st.info| == w.nsub + 1;
    assert Flags(k, st.d, st.low, st.high, st.info);
  }

  /** On entry the whole pattern is pending. */
  lemma EntryInv(e: Re, code0: seq<byte>, nsub: nat, env: Env, code: seq<byte>)
    requires Compiled(e, code0, nsub) && Related(code0, code) && env.start <= |env.s.text|
    ensures Inv(World(code0, env, nsub), Entry(env, code, nsub), Do(e, Halt), 1, [])
  {
    hide LaidOut, Fetch, Related, Numbered, After, Located;
    CompiledWhole(e, code0, nsub);
    var w := World(code0, env, nsub);
    EntryLocated(e, w, code);
    var st := Entry(env, code, nsub);
    assert StackOk(w, st.stack, []);
    assert Loops(Do(e, Halt)) == 0;
    assert BestOk(w, st) && ValidWorld(w);
  }

  lemma EntryRest(e: Re, w: World)
    requires w.env.start <= |w.env.s.text|
    ensures Rest(w, 0, Do(e, Halt), w.env.start, []) == AllVisits(e, w.code0, w.env.s, w.env.start)
  {
    hide PlayOf;
    assert PlaysOf(w, []) == [];
  }

  /** The matcher stops, and returns what the play of the pattern says, or -2. */
  lemma MatchReturns(e: Re, code0: seq<byte>, nsub: nat, env: Env, code: seq<byte>)
    returns (n: nat, out: Status)
    requires Compiled(e, code0, nsub) && Related(code0, code) && env.start <= |env.s.text|
    ensures Steps(env, Entry(env, code, nsub), n) == out && out.Done? && Related(code0, out.code)
    ensures out.result == OVERFLOW || out.result == Returns(e, code0, env.s, env.start)
  {
    hide Compiled, Step, Steps, Related, PlayOf, Inv, Rest, AllVisits;
    EntryInv(e, code0, nsub, env, code);
    EntryRest(e, World(code0, env, nsub));
    n, out := Run(World(code0, env, nsub), Entry(env, code, nsub), Do(e, Halt), 1, []);
  }

  /** Every run returns that. */
  lemma RunReturns(e: Re, code0: seq<byte>, nsub: nat, env: Env, code: seq<byte>, result: int, code': seq<byte>)
    requires Compiled(e, code0, nsub) && Related(code0, code) && env.start <= |env.s.text|
    requires RunsTo(env, nsub, code, result, code')
    ensures Related(code0, code')
    ensures result == OVERFLOW || result == Returns(e, code0, env.s, env.start)
  {
    hide Compiled, Related, Step, Entry, Returns;
    var n, out := MatchReturns(e, code0, nsub, env, code);
    assert out == Done(out.result, out.code);
    RunsToOne(env, nsub, code, result, code', out.result, out.code);
  }

  /** Up to the end of a run every step is defined, and the run ends once. */
  lemma {:induction false} OnTheWay(env: Env, st0: VState, k: nat, st: VState, n: nat)
    requires Steps(env, st0, k) == Running(st) && Steps(env, st0, n).Done?
    ensures k < n && !Step(env, st).Undefined?
    ensures Step(env, st).Done? ==> Step(env, st) == Steps(env, st0, n)
    ensures Steps(env, st0, k + 1) == Step(env, st)
    decreases k
  {
    hide Step;
    if k == 0 {
      OneStep(env, st);
    } else {
      OnTheWay(env, Step(env, st0).st, k - 1, st, n - 1);
    }
  }
}
