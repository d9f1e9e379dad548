/** A loop over one byte in front of a byte: how much room it needs.

    The pattern is `x*y`, `.*y`, `[...]*y` or `[^...]*y`.  One failure point is enough
    for every text, exactly when the body cannot take `y`, or takes nothing at all;
    otherwise any number of them is used up by a text long enough.  A complemented list
    that names a byte from 248 up is an exception: its map is full, and the matcher
    piles up failure points though the list does not take `y`. */
module OneLoop {
  import opened Octets
  import opened RegexLang
  import opened Bytecode
  import opened Machine
  import opened Rewriting
  import opened Invariant
  import opened Layout
  import opened MatchTheorem
  import opened Twins
  import opened Room
  import opened Plays
  import opened FixedRoom
  import opened Codegen
  import opened Ere
  import opened Parse
  import opened Compilation
  import opened Posix
  import opened Outcome
  import opened SafeSets
  import opened Literals

  /** A loop over `body`, then the byte `y`. */
  function LoopThen(body: Re, y: byte): Re {
    Cat(Repeat(Star, body), Exact([y]))
  }

  /** With room for one failure point or more no run overflows. */
  ghost predicate OneSuffices(code0: seq<byte>) {
    forall s: Subject, start: nat, limit: nat, code: seq<byte>, code': seq<byte> ::
      start <= |s.text| && limit >= 1 && Related(code0, code) ==> !RunsTo(Env(s, start, limit), 0, code, OVERFLOW, code')
  }

  // ----- where everything is -----

  ghost predicate CodeIs(body: Re, y: byte, code0: seq<byte>) {
    Single(body) && Compiled(LoopThen(body, y), code0, 0)
  }

  lemma Places(body: Re, y: byte, code: seq<byte>)
    requires CodeIs(body, y, code)
    ensures var x := 3 + Len(body);
      && |code| == x + 6 && Wired(code) && Fetch(code, 0) == OnFailureJump(x)
      && LaidOut(body, code, 3) && LoopAt(body, code, 0)
      && Fetch(code, x) == MaybePopJump(-(x + 3)) && Fetch(code, x + 3) == ExactN([y])
      && Starts(code, 3) && Starts(code, x) && Starts(code, x + 3)
  {
    hide Fetch, Boundary, Starts, LoopAt, LaidOut, Fit, Numbered;
    var loop := Repeat(Star, body);
    CodeWired(LoopThen(body, y), code);
    StartAtZero(code);
    CatLaidOut(loop, Exact([y]), code, 0);
    RepeatParts(loop, code, 0);
    LoopParts(body, code, 0);
    LoopStarts(body, code, 0);
    assert Len(LoopThen(body, y)) == Len(body) + 6 + 3;
    ExactFetch([y], code, Len(body) + 6);
    StartsNext(code, 3 + Len(body));
  }

  /** The choice at the closing jump. */
  lemma Decision(body: Re, y: byte, code: seq<byte>)
    requires CodeIs(body, y, code)
    ensures CanPop(code, 3 + Len(body)) <==> Drops(body, Byte(y))
  {
    hide Fetch, Starts, LaidOut, SkipGroups, LoopAt, Bit, Wired;
    Places(body, y, code);
    var x := 3 + Len(body);
    SkipsOne(code, x + 3);
    assert x + 6 - (x + 3) == 3;
    BodyFetch(body, code, 3);
    if body.Charset? {
      MapFits(body, y, code);
      Cut(body.bits, y);
    }
  }

  lemma MapFits(body: Re, y: byte, code: seq<byte>)
    requires CodeIs(body, y, code)
    ensures body.Charset? ==> |body.bits| <= 32
  {
    hide LaidOut, Numbered;
    assert Fit(Repeat(Star, body)) && Fit(body);
  }

  lemma BodyFetch(body: Re, code: seq<byte>, p: nat)
    requires Single(body) && LaidOut(body, code, p)
    ensures Fetch(code, p) == match body
                              case Exact(cs) => ExactN(cs)
                              case Any => AnyChar
                              case Charset(neg, bits) => Bracket(neg, bits)
  {
    hide Fetch;
  }

  // ----- enough -----

  lemma DropsGreedy(body: Re, y: byte)
    requires Single(body) && Drops(body, Byte(y))
    ensures Greedy(LoopThen(body, y), Finish) && Fixed(LoopThen(body, y)) == 1
  {
    hide Drops;
    assert Ahead(Exact([y]), Finish) == Byte(y) && Splits(body) == 0 && !RepeatsGroup(body);
    var loop := Repeat(Star, body);
    assert Greedy(loop, Byte(y)) && Splits(loop) == 1 && !RepeatsGroup(loop);
    assert Greedy(Exact([y]), Finish) && Splits(Exact([y])) == 0 && !RepeatsGroup(Exact([y]));
  }

  /** A loop that takes what it can. */
  lemma DropsSuffices(body: Re, y: byte, code0: seq<byte>)
    requires CodeIs(body, y, code0) && Drops(body, Byte(y))
    ensures OneSuffices(code0)
  {
    hide Compiled, Related, RunsTo;
    var e := LoopThen(body, y);
    DropsGreedy(body, y);
    forall s: Subject, start: nat, limit: nat, code: seq<byte>, code': seq<byte> |
      start <= |s.text| && limit >= 1 && Related(code0, code)
      ensures !RunsTo(Env(s, start, limit), 0, code, OVERFLOW, code')
    {
      if RunsTo(Env(s, start, limit), 0, code, OVERFLOW, code') {
        FixedRuns(e, code0, 0, Env(s, start, limit), code, OVERFLOW, code');
      }
    }
  }

  /** The state in front of the loop with `k` bytes taken and as many failure points. */
  ghost predicate Turned(code0: seq<byte>, st: VState, d: nat, k: nat) {
    && Grounded(code0, 1, st) && st.p == 0 && st.d == d && |st.stack| == k
    && st.low == NO_LOWEST_ACTIVE_REG && st.high == NO_HIGHEST_ACTIVE_REG && !st.hasBest
  }

  lemma EntryTurned(code0: seq<byte>, env: Env, code: seq<byte>)
    requires Related(code0, code)
    ensures Turned(code0, Entry(env, code, 0), env.start, 0)
  {
    hide Related;
    EntryTwin(code0, 0, env, code, code);
  }

  /** The failure jump: one failure point more, or none left. */
  lemma Forked(body: Re, y: byte, code0: seq<byte>, env: Env, st: VState, k: nat)
    requires CodeIs(body, y, code0) && Turned(code0, st, st.d, k) && st.d <= |env.s.text|
    ensures if k >= env.limit then Step(env, st) == Done(OVERFLOW, st.code)
            else
              var fp := FailPoint(false, 6 + Len(body), st.d, st.low, st.high, []);
              Step(env, st) == Running(st.(p := 3, stack := st.stack + [fp]))
  {
    hide Fetch, Starts, Related, LaidOut, Wired, LoopAt, StackGrounded, Compiled;
    Places(body, y, code0);
    WiredWhole(code0);
    SameLength(code0, st.code);
    FetchRelated(code0, st.code, 0);
    FetchRelated(code0, st.code, 3);
    BodyFetch(body, code0, 3);
  }

  /** A byte the body takes, or none. */
  lemma Tried(body: Re, y: byte, code0: seq<byte>, env: Env, st: VState)
    requires CodeIs(body, y, code0) && Related(code0, st.code) && st.p == 3 && st.d <= |env.s.text|
    requires st.low == NO_LOWEST_ACTIVE_REG && st.high == NO_HIGHEST_ACTIVE_REG
    ensures Step(env, st) ==
            if st.d < |env.s.text| && Accepts(body, env.s.text[st.d])
            then Consume(st, 1, 3 + Len(body)) else Fail(env, st)
  {
    hide Fetch, Starts, Related, LaidOut, Wired, LoopAt, Compiled, Consume, Fail, InMap;
    Places(body, y, code0);
    WiredWhole(code0);
    SameLength(code0, st.code);
    FetchRelated(code0, st.code, 3);
    BodyFetch(body, code0, 3);
    if body.Exact? && st.d < |env.s.text| { OneByteIs(env.s.text, st.d, body.cs); }
  }

  lemma OneByteIs(text: seq<byte>, d: nat, cs: seq<byte>)
    requires d < |text| && |cs| == 1
    ensures text[d..d + 1] == cs <==> text[d] == cs[0]
  {}

  // ----- not enough -----

  /** One turn of a loop that is not dropped. */
  lemma TurnPiles(body: Re, y: byte, code0: seq<byte>, env: Env, st: VState, k: nat)
    requires CodeIs(body, y, code0) && !Drops(body, Byte(y)) && Turned(code0, st, st.d, k) && k < env.limit
    requires st.d < |env.s.text| && Accepts(body, env.s.text[st.d])
    ensures Steps(env, st, 3).Running? && Turned(code0, Steps(env, st, 3).st, st.d + 1, k + 1)
  {
    hide Fetch, Starts, Related, LaidOut, Wired, LoopAt, Compiled, Step, CanPop, Drops, Accepts, CodeIs, StackGrounded;
    Places(body, y, code0);
    Decision(body, y, code0);
    Forked(body, y, code0, env, st, k);
    var st1 := Step(env, st).st;
    StepGrounded(code0, env, st, 1);
    Tried(body, y, code0, env, st1);
    var st2 := Step(env, st1).st;
    StepGrounded(code0, env, st1, 1);
    TwinClosing(code0, 1, env, st2);
    var st3 := Step(env, st2).st;
    StepGrounded(code0, env, st2, 1);
    ThreeSteps(env, st, st1, st2, st3);
  }

  lemma ThreeSteps(env: Env, st: VState, st1: VState, st2: VState, st3: VState)
    requires Step(env, st) == Running(st1) && Step(env, st1) == Running(st2) && Step(env, st2) == Running(st3)
    ensures Steps(env, st, 3) == Running(st3)
  {
    hide Step;
    assert Steps(env, st2, 1) == Running(st3);
    assert Steps(env, st1, 2) == Running(st3);
  }

  /** As many turns as bytes, as many failure points. */
  lemma {:induction false} TurnsPile(body: Re, y: byte, code0: seq<byte>, env: Env, k: nat)
    requires CodeIs(body, y, code0) && !Drops(body, Byte(y)) && env.start == 0 && k <= env.limit && k <= |env.s.text|
    requires forall c | c in env.s.text :: Accepts(body, c)
    ensures var out := Steps(env, Entry(env, code0, 0), 3 * k);
      out.Running? && Turned(code0, out.st, k, k)
    decreases k
  {
    hide CodeIs, Drops, Accepts, Turned, Entry, Step;
    if k == 0 {
      SelfRelated(code0);
      EntryTurned(code0, env, code0);
    } else {
      TurnsPile(body, y, code0, env, k - 1);
      var st := Steps(env, Entry(env, code0, 0), 3 * (k - 1)).st;
      TurnedAt(code0, st, k - 1, k - 1);
      assert env.s.text[k - 1] in env.s.text;
      TurnPiles(body, y, code0, env, st, k - 1);
      StepsAdd(env, Entry(env, code0, 0), 3 * (k - 1), st, 3);
    }
  }

  lemma TurnedAt(code0: seq<byte>, st: VState, d: nat, k: nat)
    requires Turned(code0, st, d, k)
    ensures st.d == d
  {}

  /** As many bytes as there is room for, and the next turn overflows. */
  lemma PilesUp(body: Re, y: byte, code0: seq<byte>, c: byte, limit: nat) returns (code': seq<byte>)
    requires CodeIs(body, y, code0) && !Drops(body, Byte(y)) && Accepts(body, c)
    ensures RunsTo(Env(Subject(seq(limit, _ => c), false, false), 0, limit), 0, code0, OVERFLOW, code')
  {
    hide CodeIs, Drops, Accepts, Entry, Step, Grounded;
    var env := Env(Subject(seq(limit, _ => c), false, false), 0, limit);
    TurnsPile(body, y, code0, env, limit);
    var start := Entry(env, code0, 0);
    var st := Steps(env, start, 3 * limit).st;
    Forked(body, y, code0, env, st, limit);
    code' := st.code;
    StepsAdd(env, start, 3 * limit, st, 1);
    assert Steps(env, start, 3 * limit + 1) == Done(OVERFLOW, code');
  }

  // ----- nothing is taken -----

  /** A loop whose body takes no byte is left at once. */
  lemma IdleRuns(body: Re, y: byte, code0: seq<byte>, env: Env, code: seq<byte>) returns (result: int, code': seq<byte>)
    requires CodeIs(body, y, code0) && (forall c: byte :: !Accepts(body, c)) && env.limit >= 1
    requires Related(code0, code) && env.start <= |env.s.text|
    ensures RunsTo(env, 0, code, result, code') && result != OVERFLOW
  {
    hide Fetch, Starts, Related, LaidOut, Wired, LoopAt, Compiled, Step, Accepts, CodeIs, StackGrounded, Fail, Steps;
    var st := Entry(env, code, 0);
    EntryTurned(code0, env, code);
    Forked(body, y, code0, env, st, 0);
    var st1 := Step(env, st).st;
    Tried(body, y, code0, env, st1);
    assert Step(env, st1) == Fail(env, st1);
    var st2 := st.(p := 6 + Len(body));
    BackOut(body, y, code0, env, st, st1);
    result, code' := LastByte(body, y, code0, env, st2);
    var n: nat :| Steps(env, st2, n) == Done(result, code');
    StepFirst(env, st1, st2, n);
    StepFirst(env, st, st1, n + 1);
  }

  lemma StepFirst(env: Env, st: VState, st1: VState, n: nat)
    requires Step(env, st) == Running(st1)
    ensures Steps(env, st, n + 1) == Steps(env, st1, n)
  {
    hide Step;
  }

  /** Back to the failure point just pushed. */
  lemma BackOut(body: Re, y: byte, code0: seq<byte>, env: Env, st: VState, st1: VState)
    requires CodeIs(body, y, code0) && Turned(code0, st, st.d, 0)
    requires st1 == st.(p := 3, stack := st.stack + [FailPoint(false, 6 + Len(body), st.d, st.low, st.high, [])])
    ensures Fail(env, st1) == Running(st.(p := 6 + Len(body)))
  {
    hide Fetch, Starts, Related, LaidOut, LoopAt, Compiled, StackGrounded, AtLoopEnd, Restore, Pop, Fail, Len;
    NoLoopEnd(body, y, code0, st);
    FailUnfold(env, st1);
    PopBack(st, st1, 6 + Len(body));
  }

  lemma NoLoopEnd(body: Re, y: byte, code0: seq<byte>, st: VState)
    requires CodeIs(body, y, code0) && Related(code0, st.code)
    ensures !AtLoopEnd(st.code, 6 + Len(body))
  {
    hide Fetch, Starts, Related, LaidOut, Wired, LoopAt, Compiled, AtLoopEnd;
    Places(body, y, code0);
    LoopEnds(code0, st.code, 6 + Len(body));
  }

  lemma PopBack(st: VState, st1: VState, p: nat)
    requires st.low == NO_LOWEST_ACTIVE_REG && st.high == NO_HIGHEST_ACTIVE_REG && |st.stack| == 0
    requires st1 == st.(p := 3, stack := st.stack + [FailPoint(false, p, st.d, st.low, st.high, [])])
    ensures Pop(st1) == st.(p := p)
  {
    assert st1.stack[..0] == st.stack;
  }

  /** The byte behind the loop, with an empty stack. */
  lemma LastByte(body: Re, y: byte, code0: seq<byte>, env: Env, st: VState) returns (result: int, code': seq<byte>)
    requires CodeIs(body, y, code0) && Related(code0, st.code) && st.p == 6 + Len(body) && st.stack == [] && !st.hasBest
    requires env.start <= st.d <= |env.s.text| && st.low == NO_LOWEST_ACTIVE_REG && st.high == NO_HIGHEST_ACTIVE_REG
    ensures exists n: nat :: Steps(env, st, n) == Done(result, code')
    ensures result != OVERFLOW
  {
    hide Fetch, Starts, Related, LaidOut, Wired, LoopAt, Compiled, StackGrounded, Fail;
    Places(body, y, code0);
    WiredWhole(code0);
    SameLength(code0, st.code);
    FetchRelated(code0, st.code, st.p);
    FailUnfold(env, st);
    var out := Step(env, st);
    if out.Running? {
      assert Step(env, out.st).Done?;
      assert Steps(env, out.st, 1) == Step(env, out.st);
      result, code' := Step(env, out.st).result, Step(env, out.st).code;
      assert Steps(env, st, 2) == Done(result, code');
    } else {
      result, code' := out.result, out.code;
      assert Steps(env, st, 1) == Done(result, code');
    }
  }

  lemma IdleSuffices(body: Re, y: byte, code0: seq<byte>)
    requires CodeIs(body, y, code0) && forall c: byte :: !Accepts(body, c)
    ensures OneSuffices(code0)
  {
    hide CodeIs, Related, RunsTo, Accepts;
    forall s: Subject, start: nat, limit: nat, code: seq<byte>, code': seq<byte> |
      start <= |s.text| && limit >= 1 && Related(code0, code)
      ensures !RunsTo(Env(s, start, limit), 0, code, OVERFLOW, code')
    {
      var env := Env(s, start, limit);
      var r, c := IdleRuns(body, y, code0, env, code);
      if RunsTo(env, 0, code, OVERFLOW, code') { RunsToOne(env, 0, code, r, c, OVERFLOW, code'); }
    }
  }

  /** One failure point suffices exactly when the loop drops what it pushes, or takes
      no byte at all. */
  lemma OneSufficesExactly(body: Re, y: byte, code0: seq<byte>)
    requires Single(body) && Compiled(LoopThen(body, y), code0, 0)
    ensures OneSuffices(code0) <==> Drops(body, Byte(y)) || forall c: byte :: !Accepts(body, c)
  {
    hide Compiled, Drops, Accepts, RunsTo, Related;
    if Drops(body, Byte(y)) {
      DropsSuffices(body, y, code0);
    } else if c: byte :| Accepts(body, c) {
      var code' := PilesUp(body, y, code0, c, 1);
      SelfRelated(code0);
    } else {
      IdleSuffices(body, y, code0);
    }
  }

  // ----- lists -----

  /** `[...]*y` and `[^...]*y`: with a short map, one failure point suffices exactly when
      the list does not take `y`; with a full one, of 32 bytes, exactly when the list is
      not complemented, or takes nothing. */
  lemma ListRoom(neg: bool, bits: seq<byte>, y: byte, code0: seq<byte>)
    requires Compiled(LoopThen(Charset(neg, bits), y), code0, 0)
    ensures OneSuffices(code0) <==>
            if |bits| == 32 then !neg || forall c: byte :: InMap(bits, c) else neg == InMap(bits, y)
  {
    hide Compiled, InMap, OneSuffices;
    var body := Charset(neg, bits);
    OneSufficesExactly(body, y, code0);
    MapFits(body, y, code0);
    if |bits| < 32 {
      ShortMap(bits);
      assert Accepts(body, 255) <==> neg;
      if !neg && InMap(bits, y) { assert Accepts(body, y); }
    } else {
      assert (forall c: byte :: !Accepts(body, c)) <==> (forall c: byte :: neg == InMap(bits, c)) by {
        forall c: byte
          ensures Accepts(body, c) <==> neg != InMap(bits, c)
        {}
      }
    }
  }

  lemma ShortMap(bits: seq<byte>)
    requires |bits| < 32
    ensures !InMap(bits, 255)
  {}

  // ----- a byte -----

  /** The code of `x*y`. */
  function StarCode(x: byte, y: byte): seq<byte> {
    [14, 6, 0, 1, 1, x, 17, 247, 255, 1, 1, y]
  }

  lemma StarCompiled(x: byte, y: byte)
    ensures Compiled(LoopThen(Exact([x]), y), StarCode(x, y), 0)
  {
    hide Fit, Numbered, After;
    var code, body := StarCode(x, y), Exact([x]);
    assert code[5..6] == [x] && code[11..12] == [y];
    assert Number(247, 255) == -9;
    assert LaidOut(body, code, 3) && Len(body) == 3;
    assert LoopAt(body, code, 0);
    assert LaidOut(Repeat(Star, body), code, 0) && LaidOut(Exact([y]), code, 9);
    StarFits(x, y);
  }

  lemma StarFits(x: byte, y: byte)
    ensures var e := LoopThen(Exact([x]), y);
      Len(e) == 12 && Fit(e) && Numbered(e, 1) && After(e, 1) == 1
  {
    var body, loop := Exact([x]), Repeat(Star, Exact([x]));
    assert Fit(body) && Numbered(body, 1) && After(body, 1) == 1 && Len(body) == 3;
    assert Fit(loop) && Numbered(loop, 1) && After(loop, 1) == 1 && Len(loop) == 9;
  }

  /** For two different bytes no run of the code of `x*y` overflows, on any text, from
      any start, with room for one failure point, whatever was overwritten before. */
  lemma StarRuns(x: byte, y: byte, s: Subject, start: nat, limit: nat, code: seq<byte>, result: int, code': seq<byte>)
    requires x != y && start <= |s.text| && limit >= 1
    requires Related([14, 6, 0, 1, 1, x, 17, 247, 255, 1, 1, y], code)
    requires RunsTo(Env(s, start, limit), 0, code, result, code')
    ensures result != OVERFLOW
  {
    hide Related, RunsTo;
    StarExactly(x, y);
  }

  /** And for one byte twice some do, with room for one. */
  lemma StarExactly(x: byte, y: byte)
    ensures OneSuffices(StarCode(x, y)) <==> x != y
  {
    hide OneSuffices, Compiled, StarCode;
    StarCompiled(x, y);
    OneSufficesExactly(Exact([x]), y, StarCode(x, y));
    assert Accepts(Exact([x]), x);
  }

  // ----- regex_match -----

  /** With room for its forks `regex_match` does not run out of it on a greedy pattern,
      whatever the text. */
  lemma FixedAnswer(e: Ere, s: Subject, limit: nat)
    requires Supported(e) && |CodeOf(e)| <= MAX_CODE && Greedy(CoreOf(e), Finish) && Fixed(CoreOf(e)) <= limit
    ensures !NoRoom(e, s, limit)
  {
    hide Supported, CodeOf, CoreOf, Greedy, Fixed, Compiled, Related, RunsTo, Returns, MeansSame, Framed;
    CoreFacts(e);
    var core, code0, nsub := CoreOf(e), CodeOf(e), Parens(e);
    forall start: nat, code: seq<byte>, code': seq<byte> |
      start <= |s.text| && Related(code0, code) && RunsTo(Env(s, start, limit), nsub, code, OVERFLOW, code')
      ensures false
    {
      FixedRuns(core, code0, nsub, Env(s, start, limit), code, OVERFLOW, code');
    }
  }

  /** The expression `x*y`. */
  function StarThen(x: byte, y: byte): Ere {
    Then(Just(Iter(Lit(x), Star)), Lit(y))
  }

  lemma StarTokens(x: byte, y: byte)
    ensures Tokens(StarThen(x, y)) == [TLit(x), TOps([Star]), TLit(y)]
  {
    var a := Iter(Lit(x), Star);
    WrittenBehind(a);
    NoOps(Lit(x));
    assert Base(a) == Lit(x) && Ops(a) == [Star];
    assert Tokens(Just(a)) == [TLit(x), TOps([Star])];
  }

  lemma StarReads(x: byte, y: byte)
    ensures Tokens(StarThen(x, y)) == [TLit(x), TOps([Star]), TLit(y)]
    ensures CoreOf(StarThen(x, y)) == Cat(Cat(NOTHING, Repeat(Star, Exact([x]))), Exact([y]))
  {
    hide ReadAll;
    StarTokens(x, y);
    var l1 := Level([], NOTHING, Exact([x]), true, 1);
    var l2 := Level([], NOTHING, Repeat(Star, Exact([x])), false, 1);
    var l3 := Level([], Cat(NOTHING, Repeat(Star, Exact([x]))), Exact([y]), true, 1);
    assert Collapse([Star]) == Star;
    assert [TLit(x)] + [TOps([Star]), TLit(y)] == [TLit(x), TOps([Star]), TLit(y)];
    assert [TOps([Star])] + [TLit(y)] == [TOps([Star]), TLit(y)];
    assert [TLit(y)] + [] == [TLit(y)];
    ReadStep(InitCtx(), TLit(x), [TOps([Star]), TLit(y)], Ctx([], l1, 0));
    ReadStep(Ctx([], l1, 0), TOps([Star]), [TLit(y)], Ctx([], l2, 0));
    ReadStep(Ctx([], l2, 0), TLit(y), [], Ctx([], l3, 0));
    ReadAllDone(Ctx([], l3, 0));
  }

  /** What `x*y` compiles to. */
  lemma StarBytes(x: byte, y: byte)
    ensures CodeOf(StarThen(x, y)) == StarCode(x, y)
  {
    hide CoreOf, Bytes;
    StarReads(x, y);
    var loop := Repeat(Star, Exact([x]));
    LoopBytesAre(x);
    CatBytes(NOTHING, loop);
    CatBytes(Empty, Empty);
    CatBytes(Cat(NOTHING, loop), Exact([y]));
    ByteBytes(y);
    assert [] + Bytes(loop) == Bytes(loop);
    assert [14, 6, 0, 1, 1, x, 17, 247, 255] + [1, 1, y] == StarCode(x, y);
  }

  lemma CatBytes(l: Re, r: Re)
    ensures Bytes(Cat(l, r)) == Bytes(l) + Bytes(r) && Bytes(Empty) == []
  {}

  lemma ByteBytes(c: byte)
    ensures Bytes(Exact([c])) == [1, 1, c] && Len(Exact([c])) == 3
  {}

  lemma LoopBytesAre(x: byte)
    ensures Bytes(Repeat(Star, Exact([x]))) == [14, 6, 0, 1, 1, x, 17, 247, 255]
  {
    ByteBytes(x);
    var body := Exact([x]);
    assert Op1(14, 6) == [14, 6, 0] && Op1(17, -9) == [17, 247, 255];
    assert LoopBytes(body) == [14, 6, 0] + [1, 1, x] + [17, 247, 255];
  }

  /** `x*y`, for two different ordinary bytes, is found where there is a y; and one
      failure point is all that `regex_match` needs for that. */
  lemma StarAnswer(x: byte, y: byte, s: Subject, limit: nat)
    requires Ordinary(x) && Ordinary(y) && x != y && limit >= 1
    ensures var e := StarThen(x, y);
      && Supported(e) && Spelling(e) == [x, 42, y] && |CodeOf(e)| <= MAX_CODE
      && (Finds(e, s) <==> y in s.text) && !NoRoom(e, s, limit)
  {
    hide StarThen, CoreOf, CodeOf, Finds, NoRoom, Supported, Spelling, Ordinary, Safe, Greedy, Fixed;
    var e := StarThen(x, y);
    StarSpelled(x, y);
    FoundIsThere(e, s);
    StarOccurs(x, y, s);
    StarReads(x, y);
    StarGreedy(x, y);
    FixedAnswer(e, s, limit);
  }

  lemma StarGreedy(x: byte, y: byte)
    requires x != y
    ensures var r := Cat(Cat(NOTHING, Repeat(Star, Exact([x]))), Exact([y]));
      Greedy(r, Finish) && Fixed(r) == 1
  {
    var loop := Repeat(Star, Exact([x]));
    assert Ahead(Exact([y]), Finish) == Byte(y);
    assert Greedy(loop, Byte(y)) && Splits(loop) == 1 && !RepeatsGroup(loop);
    assert Greedy(NOTHING, Ahead(loop, Byte(y))) && Splits(NOTHING) == 0 && !RepeatsGroup(NOTHING);
    var front := Cat(NOTHING, loop);
    assert Greedy(front, Byte(y)) && Splits(front) == 1 && !RepeatsGroup(front);
    assert Greedy(Exact([y]), Finish) && Splits(Exact([y])) == 0 && !RepeatsGroup(Exact([y]));
  }

  lemma StarSpelled(x: byte, y: byte)
    requires Ordinary(x) && Ordinary(y)
    ensures var e := StarThen(x, y);
      Supported(e) && Parens(e) == 0 && LowSets(e) && Spelling(e) == [x, 42, y]
  {
    hide Spelling, Ordinary;
    var a := Iter(Lit(x), Star);
    RepeatedPiece(x, Star);
    LitPiece(y);
    JustFacts(a);
    Chained(Just(a), Lit(y));
    SpellsByte(y);
    assert [x, 42] + [y] == [x, 42, y];
  }

  lemma StarOccurs(x: byte, y: byte, s: Subject)
    ensures Occurs(StarThen(x, y), s) <==> y in s.text
  {
    hide Just;
    var e, a := StarThen(x, y), Iter(Lit(x), Star);
    if i: nat, j: nat :| Means(e, s, i, j) {
      assert Means(Then(Just(a), Lit(y)), s, i, j);
      var k: nat :| Means(Just(a), s, i, k) && Means(Lit(y), s, k, j);
      assert s.text[k] == y;
    }
    if y in s.text {
      var k: nat :| k < |s.text| && s.text[k] == y;
      RepeatedByte(x, Star, s, k, k);
      JustMeans(a, s, k, k);
      assert Means(Lit(y), s, k, k + 1);
      assert Means(e, s, k, k + 1);
      TheyOccur(e, s, k, k + 1);
    }
  }
}
