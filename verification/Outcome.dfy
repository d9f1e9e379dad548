/** What is returned, in terms of the language.

    The value a run returns is determined by the ends its play comes to; here it is
    compared with the matches there are. */
module Outcome {
  import opened Octets
  import opened RegexLang
  import opened Backtrack
  import opened Bytecode
  import opened Machine
  import opened Invariant
  import opened Plays
  import opened Moves
  import opened MatchTheorem
  import opened Verdict

  /** No operand byte is taken for an opcode, and no full map for an empty one. */
  ghost predicate Safe(code: seq<byte>) {
    PeekSafe(code) && PopSafe(code)
  }

  // ----- what is dropped is the play's own -----

  /** With `n` failure points of its own to begin with, the play never drops another. */
  predicate Holds(t: Play, n: nat) {
    match t
    case Dead => true
    case End(_) => true
    case Try(a, b) => Holds(a, n + 1) && Holds(b, n)
    case Drop(rest) => n > 0 && Holds(rest, n - 1)
  }

  lemma {:induction false} HoldsMore(t: Play, n: nat, m: nat)
    requires Holds(t, n) && n <= m
    ensures Holds(t, m)
  {
    match t
    case Try(a, b) => HoldsMore(a, n + 1, m + 1); HoldsMore(b, n, m);
    case Drop(rest) => HoldsMore(rest, n - 1, m - 1);
    case _ =>
  }

  lemma HoldsMark(dummy: bool, t: Play, n: nat)
    requires Holds(t, n)
    ensures Holds(Marking(dummy, t), n)
  {
    HoldsMore(t, n, n + 1);
  }

  /** A closing jump drops a failure point made since its loop was entered: the play
      of work drops no more than one of those below for each loop it is inside of. */
  lemma {:induction false} PlayHolds(code: seq<byte>, s: Subject, p: nat, k: Kont, d: nat)
    requires d <= |s.text|
    ensures Holds(PlayOf(code, s, p, k, d), Loops(k))
    decreases |s.text| - d, Weight(k, d), if p <= |code| then |code| - p else 0, 2
  {
    hide Fetch, Direct, CanPop;
    if Hops(code, p, k) {
      FetchInBounds(code, p);
      PlayHolds(code, s, p + 3 + Fetch(code, p).off, k, d);
    } else {
      match k
      case Halt =>
      case Close(_, _, k') =>
        var q := StopAddr(code, p);
        PlayHolds(code, s, q + 3, k', d);
        HoldsMark(q != p, PlayOf(code, s, q + 3, k', d), Loops(k'));
      case Loop(e, start, k') => LoopHolds(code, s, p, e, start, k', d);
      case Again(e, k') => AgainHolds(code, s, p, e, k', d);
      case Do(e, k') => DoHolds(code, s, p, e, k', d);
    }
  }

  lemma {:induction false} LoopHolds(code: seq<byte>, s: Subject, p: nat, e: Re, start: nat, k: Kont, d: nat)
    requires d <= |s.text| && !Hops(code, p, Loop(e, start, k))
    ensures Holds(PlayOf(code, s, p, Loop(e, start, k), d), 1 + Loops(k))
    decreases |s.text| - d, Weight(Loop(e, start, k), d), 0, 0
  {
    hide Fetch, Direct, CanPop;
    var q, n := StopAddr(code, p), Loops(k);
    if IsGroupLoop(e) && q >= Len(e.body) {
      if start == d || Peeks(code, q) {
        PlayHolds(code, s, q + 6, k, d);
        HoldsMore(PlayOf(code, s, q + 6, k, d), n, n + 1);
        HoldsMark(q != p, PlayOf(code, s, q + 6, k, d), n + 1);
      } else {
        var again := PlayOf(code, s, q - Len(e.body), Again(e, k), d);
        PlayHolds(code, s, q - Len(e.body), Again(e, k), d);
        HoldsMore(again, n, n + 1);
        HoldsMark(q != p, Dropping(CanPop(code, q + 3), again), n + 1);
      }
    }
  }

  lemma {:induction false} AgainHolds(code: seq<byte>, s: Subject, p: nat, e: Re, k: Kont, d: nat)
    requires d <= |s.text| && !Hops(code, p, Again(e, k))
    ensures Holds(PlayOf(code, s, p, Again(e, k), d), Loops(k))
    decreases |s.text| - d, Weight(Again(e, k), d), 0, 0
  {
    hide Fetch, Direct, CanPop, TurnPlay, Holds;
    if IsGroupLoop(e) {
      LoopWeight(e, d, k);
      assert Loops(Loop(e, d, k)) == 1 + Loops(k);
      PlayHolds(code, s, p + 6, Do(e.body.body, Loop(e, d, k)), d);
      PlayHolds(code, s, p + Len(e.body) + 6, k, d);
      HoldsTry(PlayOf(code, s, p + 6, Do(e.body.body, Loop(e, d, k)), d),
               PlayOf(code, s, p + Len(e.body) + 6, k, d), Loops(k));
    } else if e.Repeat? && Single(e.body) {
      TurnHolds(code, s, p, e, k, d);
      PlayHolds(code, s, p + Len(e.body) + 6, k, d);
      HoldsTry(TurnPlay(code, s, p, e, k, d), PlayOf(code, s, p + Len(e.body) + 6, k, d), Loops(k));
    } else {
      HoldsDead(Loops(k));
    }
  }

  lemma HoldsTry(a: Play, b: Play, n: nat)
    requires Holds(a, n + 1) && Holds(b, n)
    ensures Holds(Try(a, b), n)
  {}

  lemma HoldsDead(n: nat)
    ensures Holds(Dead, n)
  {}

  lemma {:induction false} TurnHolds(code: seq<byte>, s: Subject, t: nat, e: Re, k: Kont, d: nat)
    requires d <= |s.text| && e.Repeat? && Single(e.body)
    ensures Holds(TurnPlay(code, s, t, e, k, d), Loops(k) + 1)
    decreases |s.text| - d, 0, 0, 0
  {
    hide CanPop, PlayOf;
    if d < |s.text| && Accepts(e.body, s.text[d]) {
      PlayHolds(code, s, t, Again(e, k), d + 1);
      HoldsMore(PlayOf(code, s, t, Again(e, k), d + 1), Loops(k), Loops(k) + 1);
    }
  }

  lemma {:induction false} DoHolds(code: seq<byte>, s: Subject, p: nat, e: Re, k: Kont, d: nat)
    requires d <= |s.text|
    ensures Holds(DoPlay(code, s, p, e, k, d), Loops(k))
    decreases |s.text| - d, Size(e) + Weight(k, d), if p <= |code| then |code| - p else 0, 1
  {
    hide PlayOf, DoPlay, Holds, Loops, Weight, Size;
    match e
    case Cat(_, _) => CatHolds(code, s, p, e, k, d);
    case Alt(_, _) => AltHolds(code, s, p, e, k, d);
    case Group(_, _, _) => GroupHolds(code, s, p, e, k, d);
    case Repeat(_, _) => RepeatHolds(code, s, p, e, k, d);
    case _ => LeafHolds(code, s, p, e, k, d);
  }

  lemma {:induction false} CatHolds(code: seq<byte>, s: Subject, p: nat, e: Re, k: Kont, d: nat)
    requires d <= |s.text| && e.Cat?
    ensures Holds(DoPlay(code, s, p, e, k, d), Loops(k))
    decreases |s.text| - d, Size(e) + Weight(k, d), if p <= |code| then |code| - p else 0, 0
  {
    hide PlayOf, TurnPlay, CanPop, Holds;
    assert Weight(Do(e.r, k), d) == Size(e.r) + Weight(k, d) && Loops(Do(e.r, k)) == Loops(k);
    PlayHolds(code, s, p, Do(e.l, Do(e.r, k)), d);
  }

  lemma {:induction false} AltHolds(code: seq<byte>, s: Subject, p: nat, e: Re, k: Kont, d: nat)
    requires d <= |s.text| && e.Alt?
    ensures Holds(DoPlay(code, s, p, e, k, d), Loops(k))
    decreases |s.text| - d, Size(e) + Weight(k, d), if p <= |code| then |code| - p else 0, 0
  {
    hide PlayOf, TurnPlay, CanPop, Holds, Len;
    var n, a, b := Loops(k), PlayOf(code, s, p + 3, Do(e.l, k), d), PlayOf(code, s, p + 6 + Len(e.l), Do(e.r, k), d);
    PlayHolds(code, s, p + 3, Do(e.l, k), d);
    HoldsMore(a, n, n + 1);
    PlayHolds(code, s, p + 6 + Len(e.l), Do(e.r, k), d);
    HoldsTry(a, b, n);
  }

  lemma {:induction false} GroupHolds(code: seq<byte>, s: Subject, p: nat, e: Re, k: Kont, d: nat)
    requires d <= |s.text| && e.Group?
    ensures Holds(DoPlay(code, s, p, e, k, d), Loops(k))
    decreases |s.text| - d, Size(e) + Weight(k, d), if p <= |code| then |code| - p else 0, 0
  {
    hide PlayOf, TurnPlay, CanPop, Holds;
    var c := Close(e.reg, d, k);
    assert Weight(c, d) == 1 + Weight(k, d) && Loops(c) == Loops(k);
    PlayHolds(code, s, p + 3, Do(e.body, c), d);
  }

  lemma {:induction false} LeafHolds(code: seq<byte>, s: Subject, p: nat, e: Re, k: Kont, d: nat)
    requires d <= |s.text| && (e.Empty? || Leaf(e))
    ensures Holds(DoPlay(code, s, p, e, k, d), Loops(k))
    decreases |s.text| - d, Size(e) + Weight(k, d), if p <= |code| then |code| - p else 0, 0
  {
    hide PlayOf, TurnPlay, CanPop, Holds;
    HoldsDead(Loops(k));
    if e.Empty? {
      PlayHolds(code, s, p, k, d);
    } else {
      LeafEndBounds(s, e, d);
      if LeafEnd(s, e, d) >= 0 { PlayHolds(code, s, p + Len(e), k, LeafEnd(s, e, d)); }
    }
  }

  lemma {:induction false} RepeatHolds(code: seq<byte>, s: Subject, p: nat, e: Re, k: Kont, d: nat)
    requires d <= |s.text| && e.Repeat?
    ensures Holds(DoPlay(code, s, p, e, k, d), Loops(k))
    decreases |s.text| - d, Size(e) + Weight(k, d), if p <= |code| then |code| - p else 0, 0
  {
    hide PlayOf, TurnPlay, CanPop;
    var n, body := Loops(k), e.body;
    match e.op
    case Opt =>
      PlayHolds(code, s, p + 3, Do(body, k), d);
      HoldsMore(PlayOf(code, s, p + 3, Do(body, k), d), n, n + 1);
      PlayHolds(code, s, p + 3 + Len(body), k, d);
    case Star => PlayHolds(code, s, p, Again(e, k), d);
    case Plus =>
      if body.Group? {
        LoopWeight(e, d, k);
        assert Loops(Loop(e, d, k)) == n + 1;
        PlayHolds(code, s, p + 9, Do(body.body, Loop(e, d, k)), d);
      } else if Single(body) {
        TurnHolds(code, s, p + 3, e, k, d);
      }
  }

  ghost predicate StackHolds(stack: seq<Play>) {
    forall i | 0 <= i < |stack| :: Holds(stack[i], i)
  }

  lemma StackHoldsPush(stack: seq<Play>, t: Play)
    requires StackHolds(stack) && Holds(t, |stack|)
    ensures StackHolds(stack + [t])
  {}

  /** The same ends with more failure points below. */
  function Lifted(v: seq<Visit>, n: nat): seq<Visit> {
    seq(|v|, i requires 0 <= i < |v| => Visit(v[i].at, v[i].left + n))
  }

  predicate AtTextEnd(v: seq<Visit>, size: nat) {
    |v| > 0 && v[|v| - 1].at == size
  }

  /** Ends of a play on top of a stack: its own, and then those of the stack, all of
      it, unless the text is matched to its end. */
  function Continued(v: seq<Visit>, below: seq<Play>, size: nat): seq<Visit> {
    Lifted(v, |below|) + if AtTextEnd(v, size) then [] else Resume(below, size)
  }

  lemma ContinuedCons(x: Visit, w: seq<Visit>, below: seq<Play>, size: nat)
    requires x.at != size
    ensures Continued([x] + w, below, size) == [Visit(x.at, x.left + |below|)] + Continued(w, below, size)
  {
    hide Resume;
    assert Lifted([x] + w, |below|) == [Visit(x.at, x.left + |below|)] + Lifted(w, |below|);
    if |w| == 0 { assert ([x] + w)[0] == x; }
  }

  /** No failure point below is lost. */
  lemma {:induction false} OnTop(t: Play, own: seq<Play>, below: seq<Play>, size: nat)
    requires Holds(t, |own|) && StackHolds(own)
    ensures Visits(t, below + own, size) == Continued(Visits(t, own, size), below, size)
    decreases PlaySize(t) + Load(own), 1
  {
    hide Load, Resume, Continued;
    match t
    case Dead => ResumeOnTop(own, below, size);
    case End(at) => EndOnTop(at, own, below, size);
    case Try(a, b) =>
      LoadPush(own, b);
      StackHoldsPush(own, b);
      assert below + (own + [b]) == (below + own) + [b];
      OnTop(a, own + [b], below, size);
    case Drop(rest) =>
      LoadTop(own);
      assert (below + own)[..|below + own| - 1] == below + own[..|own| - 1];
      OnTop(rest, own[..|own| - 1], below, size);
  }

  lemma LoadTop(stack: seq<Play>)
    requires |stack| > 0
    ensures Load(stack) == Load(stack[..|stack| - 1]) + PlaySize(stack[|stack| - 1])
  {}

  lemma {:induction false} EndOnTop(at: nat, own: seq<Play>, below: seq<Play>, size: nat)
    requires StackHolds(own)
    ensures Visits(End(at), below + own, size) == Continued(Visits(End(at), own, size), below, size)
    decreases Load(own) + 1, 0
  {
    hide Load, Resume, Continued;
    var x := Visit(at, |own|);
    if at == size {
      AtEndContinued(x, below, size);
    } else {
      ResumeOnTop(own, below, size);
      ContinuedCons(x, Resume(own, size), below, size);
    }
  }

  lemma AtEndContinued(x: Visit, below: seq<Play>, size: nat)
    requires x.at == size
    ensures Continued([x] + [], below, size) == [Visit(x.at, x.left + |below|)] + []
  {}

  lemma {:induction false} ResumeOnTop(own: seq<Play>, below: seq<Play>, size: nat)
    requires StackHolds(own)
    ensures Resume(below + own, size) == Continued(Resume(own, size), below, size)
    decreases Load(own), 2
  {
    hide Load, Visits;
    if |own| > 0 {
      LoadTop(own);
      var top := own[|own| - 1];
      assert (below + own)[..|below + own| - 1] == below + own[..|own| - 1];
      OnTop(top, own[..|own| - 1], below, size);
    } else {
      assert below + own == below;
      assert Lifted([], |below|) == [];
    }
  }

  // ----- the ends come to -----

  ghost predicate Reachable(t: Play, stack: seq<Play>, x: nat) {
    Reaches(t, x) || InStack(stack, x)
  }

  ghost predicate InStack(stack: seq<Play>, x: nat) {
    exists i | 0 <= i < |stack| :: Reaches(stack[i], x)
  }

  lemma InStackPush(stack: seq<Play>, b: Play, x: nat)
    ensures InStack(stack + [b], x) <==> InStack(stack, x) || Reaches(b, x)
  {
    hide Reaches;
    var all := stack + [b];
    if InStack(stack, x) {
      var i :| 0 <= i < |stack| && Reaches(stack[i], x);
      assert all[i] == stack[i];
    }
    if Reaches(b, x) { assert all[|stack|] == b; }
    if InStack(all, x) {
      var i :| 0 <= i < |all| && Reaches(all[i], x);
      assert i < |stack| ==> stack[i] == all[i];
    }
  }

  /** Only what is reachable is visited; and all ends but the last let the run go on. */
  lemma {:induction false} VisitsSound(t: Play, stack: seq<Play>, size: nat)
    ensures var v := Visits(t, stack, size);
      && (forall y | y in v :: Reachable(t, stack, y.at))
      && (|v| > 0 ==> Passing(v[..|v| - 1], size))
    decreases PlaySize(t) + Load(stack), 1
  {
    hide Resume, Load, Reachable, InStack;
    match t
    case Dead =>
      ResumeSound(stack, size);
      forall y | y in Resume(stack, size)
        ensures Reachable(t, stack, y.at)
      {
        ReachableIs(t, stack, y.at);
      }
    case End(at) => EndSound(at, stack, size);
    case Try(a, b) =>
      LoadPush(stack, b);
      VisitsSound(a, stack + [b], size);
      forall y: nat | Reachable(a, stack + [b], y)
        ensures Reachable(t, stack, y)
      {
        InStackPush(stack, b, y);
        ReachableIs(t, stack, y);
        ReachableIs(a, stack + [b], y);
      }
    case Drop(rest) =>
      if |stack| > 0 {
        LoadTop(stack);
        var low := stack[..|stack| - 1];
        VisitsSound(rest, low, size);
        forall y: nat | Reachable(rest, low, y)
          ensures Reachable(t, stack, y)
        {
          StackTop(stack, y);
          ReachableIs(t, stack, y);
          ReachableIs(rest, low, y);
        }
      }
  }

  lemma ReachableIs(t: Play, stack: seq<Play>, x: nat)
    ensures Reachable(t, stack, x) <==> Reaches(t, x) || InStack(stack, x)
  {}

  lemma StackTop(stack: seq<Play>, x: nat)
    requires |stack| > 0
    ensures InStack(stack, x) <==> Reaches(stack[|stack| - 1], x) || InStack(stack[..|stack| - 1], x)
  {
    hide Reaches;
    assert stack[..|stack| - 1] + [stack[|stack| - 1]] == stack;
    InStackPush(stack[..|stack| - 1], stack[|stack| - 1], x);
  }

  lemma {:induction false} ResumeSound(stack: seq<Play>, size: nat)
    ensures var v := Resume(stack, size);
      && (forall y | y in v :: InStack(stack, y.at))
      && (|v| > 0 ==> Passing(v[..|v| - 1], size))
    decreases Load(stack), 2
  {
    hide Visits, Load, Reachable, InStack;
    if |stack| > 0 {
      LoadTop(stack);
      var top, low := stack[|stack| - 1], stack[..|stack| - 1];
      VisitsSound(top, low, size);
      forall y: nat | Reachable(top, low, y)
        ensures InStack(stack, y)
      {
        StackTop(stack, y);
        ReachableIs(top, low, y);
      }
    }
  }

  lemma {:induction false} EndSound(at: nat, stack: seq<Play>, size: nat)
    ensures var v := Visits(End(at), stack, size);
      && (forall y | y in v :: Reachable(End(at), stack, y.at))
      && (|v| > 0 ==> Passing(v[..|v| - 1], size))
    decreases Load(stack) + 1, 0
  {
    hide Resume, Load, InStack;
    var v, x := Visits(End(at), stack, size), Visit(at, |stack|);
    if at == size {
      assert v == [x];
    } else {
      ResumeSound(stack, size);
      var w := Resume(stack, size);
      assert v == [x] + w;
      if |w| > 0 {
        ResumeNone(stack, size);
        assert v[..|v| - 1] == [x] + w[..|w| - 1];
      }
    }
  }

  lemma ResumeNone(stack: seq<Play>, size: nat)
    ensures |Resume(stack, size)| > 0 ==> |stack| > 0
  {}

  // ----- no end is missed -----

  predicate Bounded(t: Play, size: nat) {
    match t
    case Dead => true
    case End(at) => at <= size
    case Try(a, b) => Bounded(a, size) && Bounded(b, size)
    case Drop(rest) => Bounded(rest, size)
  }

  lemma {:induction false} BoundedReach(t: Play, size: nat, x: nat)
    requires Bounded(t, size) && Reaches(t, x)
    ensures x <= size
  {
    match t
    case Try(a, b) => if Reaches(a, x) { BoundedReach(a, size, x); } else { BoundedReach(b, size, x); }
    case Drop(rest) => BoundedReach(rest, size, x);
    case _ =>
  }

  lemma {:induction false} BoundedIf(t: Play, size: nat)
    requires forall x: nat :: Reaches(t, x) ==> x <= size
    ensures Bounded(t, size)
  {
    match t
    case End(at) => assert Reaches(t, at);
    case Try(a, b) =>
      assert forall x: nat :: Reaches(a, x) || Reaches(b, x) ==> Reaches(t, x);
      BoundedIf(a, size);
      BoundedIf(b, size);
    case Drop(rest) =>
      assert forall x: nat :: Reaches(rest, x) ==> Reaches(t, x);
      BoundedIf(rest, size);
    case Dead =>
  }

  /** What is known of a play with `n` failure points of its own. */
  ghost predicate Nice(t: Play, n: nat, size: nat, tame: bool) {
    Holds(t, n) && Fair(t, tame) && Bounded(t, size)
  }

  ghost predicate StackNice(stack: seq<Play>, size: nat, tame: bool) {
    forall i | 0 <= i < |stack| :: Nice(stack[i], i, size, tame)
  }

  lemma NicePush(stack: seq<Play>, b: Play, size: nat, tame: bool)
    requires StackNice(stack, size, tame) && Nice(b, |stack|, size, tame)
    ensures StackNice(stack + [b], size, tame)
  {
    hide Nice;
  }

  /** Some end visited is as long as `x`, or, in code that is not tame, just some. */
  ghost predicate Visited(v: seq<Visit>, tame: bool, x: nat) {
    exists y | y in v :: tame ==> y.at >= x
  }

  lemma VisitedLess(v: seq<Visit>, tame: bool, x: nat, y: nat)
    requires Visited(v, tame, y) && (tame ==> x <= y)
    ensures Visited(v, tame, x)
  {}

  lemma VisitedLater(v0: Visit, w: seq<Visit>, tame: bool, x: nat)
    ensures Visited(w, tame, x) ==> Visited([v0] + w, tame, x)
    ensures v0.at >= x ==> Visited([v0] + w, tame, x)
  {
    if Visited(w, tame, x) {
      var z :| z in w && (tame ==> z.at >= x);
      assert z in [v0] + w;
    }
    assert v0 in [v0] + w;
  }

  /** Every end that can be reached is covered by one that is visited. */
  lemma {:induction false} VisitsCover(t: Play, stack: seq<Play>, size: nat, tame: bool, x: nat)
    requires Nice(t, |stack|, size, tame) && StackNice(stack, size, tame) && Reachable(t, stack, x) && x <= size
    ensures Visited(Visits(t, stack, size), tame, x)
    decreases PlaySize(t) + Load(stack), 1
  {
    hide Resume, Load, Reachable, InStack, Visited, Some, Covers, StackNice;
    ReachableIs(t, stack, x);
    match t
    case Dead => ResumeCover(stack, size, tame, x);
    case End(at) => EndCover(at, stack, size, tame, x);
    case Try(a, b) =>
      LoadPush(stack, b);
      if a.Drop? {
        assert PlaySize(a) == PlaySize(a.rest) + 1;
        TryDropCover(a.rest, b, stack, size, tame, x);
      } else {
        NicePush(stack, b, size, tame);
        InStackPush(stack, b, x);
        ReachableIs(a, stack + [b], x);
        VisitsCover(a, stack + [b], size, tame, x);
      }
    case Drop(rest) =>
      NiceTop(stack, size, tame);
      LoadTop(stack);
      var low := stack[..|stack| - 1];
      var y := SomeOf(rest, size);
      ReachableIs(rest, low, y);
      VisitsCover(rest, low, size, tame, y);
      VisitedLess(Visits(rest, low, size), tame, x, y);
  }

  lemma SomeOf(t: Play, size: nat) returns (y: nat)
    requires Some(t) && Bounded(t, size)
    ensures Reaches(t, y) && y <= size
  {
    y :| Reaches(t, y);
    BoundedReach(t, size, y);
  }

  lemma NiceTop(stack: seq<Play>, size: nat, tame: bool)
    requires StackNice(stack, size, tame) && |stack| > 0
    ensures StackNice(stack[..|stack| - 1], size, tame)
    ensures Nice(stack[|stack| - 1], |stack| - 1, size, tame)
  {
    hide Nice;
  }

  lemma {:induction false} TryDropCover(r: Play, b: Play, stack: seq<Play>, size: nat, tame: bool, x: nat)
    requires Nice(Try(Drop(r), b), |stack|, size, tame) && StackNice(stack, size, tame) && x <= size
    requires Reachable(Try(Drop(r), b), stack, x)
    ensures Visited(Visits(Try(Drop(r), b), stack, size), tame, x)
    decreases PlaySize(r) + Load(stack) + 1, 0
  {
    hide Resume, Load, Reachable, InStack, Visited, StackNice, Visits;
    ReachableIs(Try(Drop(r), b), stack, x);
    TryDropNice(r, b, |stack|, size, tame);
    TryTurn(true, r, b, stack, size);
    var y := x;
    if !Reaches(r, x) && !InStack(stack, x) {
      if Covers(r, b) { y :| x <= y && Reaches(r, y); BoundedReach(r, size, y); } else { y := SomeOf(r, size); }
    }
    ReachableIs(r, stack, y);
    VisitsCover(r, stack, size, tame, y);
    VisitedLess(Visits(r, stack, size), tame, x, y);
  }

  lemma TryDropNice(r: Play, b: Play, n: nat, size: nat, tame: bool)
    requires Nice(Try(Drop(r), b), n, size, tame)
    ensures Nice(r, n, size, tame) && (Covers(r, b) || (!tame && Some(r)))
  {
    hide Covers, Some;
    assert Holds(Drop(r), n + 1) && Bounded(Drop(r), size);
  }

  lemma {:induction false} ResumeCover(stack: seq<Play>, size: nat, tame: bool, x: nat)
    requires StackNice(stack, size, tame) && InStack(stack, x) && x <= size
    ensures Visited(Resume(stack, size), tame, x)
    decreases Load(stack), 2
  {
    hide Visits, Load, Reachable, Visited, StackNice, Nice;
    LoadTop(stack);
    NiceTop(stack, size, tame);
    StackTop(stack, x);
    var top, low := stack[|stack| - 1], stack[..|stack| - 1];
    ReachableIs(top, low, x);
    VisitsCover(top, low, size, tame, x);
  }

  lemma {:induction false} EndCover(at: nat, stack: seq<Play>, size: nat, tame: bool, x: nat)
    requires StackNice(stack, size, tame) && (at == x || InStack(stack, x)) && x <= size
    ensures Visited(Visits(End(at), stack, size), tame, x)
    decreases Load(stack) + 1, 0
  {
    hide Resume, Load, InStack, Visited, StackNice;
    var v0 := Visit(at, |stack|);
    var w := if at == size then [] else Resume(stack, size);
    if at != size && at != x { ResumeCover(stack, size, tame, x); }
    VisitedLater(v0, w, tame, x);
  }
}
