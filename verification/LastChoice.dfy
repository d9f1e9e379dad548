/** A pattern for which the match returned is always the longest.

    When the pattern ends in a group of alternatives that is not repeated, as `(u|uv)`
    does, the end of the group puts a dummy aside.  So there is always a failure point
    left at the end of the pattern, and no end come to is overlooked. */
module LastChoice {
  import opened Octets
  import opened RegexLang
  import opened Backtrack
  import opened Bytecode
  import opened Machine
  import opened Invariant
  import opened InvariantFacts
  import opened Layout
  import opened Plays
  import opened Choices
  import opened Moves
  import opened MatchTheorem
  import opened Verdict
  import opened Outcome
  import opened Longest
  import opened Ere
  import opened Parse
  import opened ParseOk
  import opened Compilation

  /** The pattern ends in a group of alternatives. */
  predicate EndsInChoice(e: Re) {
    match e
    case Cat(_, r) => EndsInChoice(r)
    case Group(_, _, body) => body.Alt?
    case _ => false
  }

  // ----- the code -----

  /** A choice at `x` has its other way no further than `last`. */
  ghost predicate ShortAt(code: seq<byte>, x: nat, last: int) {
    match Fetch(code, x)
    case OnFailureJump(off) => x + 3 + off <= last
    case JumpPastAlt(off) => x + 3 + off <= last
    case _ => true
  }

  /** The code ends with a dummy and the end of a group, and nothing leads past the
      dummy. */
  ghost predicate Tail(code: seq<byte>) {
    && |code| >= 4 && Starts(code, |code| - 4)
    && Fetch(code, |code| - 4).PushDummyFailure? && Fetch(code, |code| - 3).StopMemory?
    && forall x: nat {:trigger Starts(code, x)} :: Starts(code, x) && x < |code| - 4 ==> ShortAt(code, x, |code| - 4)
  }

  /** No part of the pattern leads past its own end. */
  lemma OwnedShort(n: Re, code: seq<byte>, p: nat, x: nat, last: int)
    requires LaidOut(n, code, p) && Owns(n, p, x) && p + Len(n) <= last
    ensures ShortAt(code, x, last)
  {
    hide Fetch, LaidOut, LoopAt, Len;
    match n
    case Alt(_, _) => AltShort(n, code, p, x, last);
    case Group(_, _, _) => GroupShort(n, code, p, x, last);
    case Repeat(_, _) => RepeatShort(n, code, p, x, last);
    case _ => LeafPlain(n, code, p);
  }

  lemma AltShort(n: Re, code: seq<byte>, p: nat, x: nat, last: int)
    requires n.Alt? && LaidOut(n, code, p) && Owns(n, p, x) && p + Len(n) <= last
    ensures ShortAt(code, x, last)
  {
    hide Fetch, LaidOut;
    AltParts(code, p, n);
    assert PastAlt(n.r) <= Len(n.r);
  }

  lemma GroupShort(n: Re, code: seq<byte>, p: nat, x: nat, last: int)
    requires n.Group? && LaidOut(n, code, p) && Owns(n, p, x)
    ensures ShortAt(code, x, last)
  {
    hide Fetch, LaidOut, Len;
    GroupParts(n, code, p);
  }

  lemma RepeatShort(n: Re, code: seq<byte>, p: nat, x: nat, last: int)
    requires n.Repeat? && LaidOut(n, code, p) && Owns(n, p, x) && p + Len(n) <= last
    ensures ShortAt(code, x, last)
  {
    hide Fetch, LaidOut, LoopAt;
    RepeatParts(n, code, p);
    if !n.op.Opt? { LoopParts(n.body, code, if n.op.Plus? then p + 3 else p); }
  }

  lemma LeafPlain(e: Re, code: seq<byte>, p: nat)
    requires LaidOut(e, code, p) && (e.Exact? || e.Any? || e.Charset? || e.Bol? || e.Eol?)
    ensures !Fetch(code, p).OnFailureJump? && !Fetch(code, p).JumpPastAlt?
  {
    hide Fetch;
  }

  lemma {:induction false} SpineTail(e: Re, code: seq<byte>, p: nat)
    requires EndsInChoice(e) && LaidOut(e, code, p) && Starts(code, p) && p + Len(e) == |code|
    ensures p + 4 <= |code| && Starts(code, |code| - 4)
    ensures Fetch(code, |code| - 4).PushDummyFailure? && Fetch(code, |code| - 3).StopMemory?
    ensures forall x: nat :: Starts(code, x) && p <= x < |code| - 4 ==> ShortAt(code, x, |code| - 4)
    decreases e, 1
  {
    hide Fetch, Boundary, Starts, LaidOut, ShortAt, Len;
    match e
    case Cat(_, _) => CatSpine(e, code, p);
    case Group(_, _, _) => GroupSpine(e, code, p);
  }

  lemma {:induction false} CatSpine(e: Re, code: seq<byte>, p: nat)
    requires e.Cat? && EndsInChoice(e) && LaidOut(e, code, p) && Starts(code, p) && p + Len(e) == |code|
    ensures p + 4 <= |code| && Starts(code, |code| - 4)
    ensures Fetch(code, |code| - 4).PushDummyFailure? && Fetch(code, |code| - 3).StopMemory?
    ensures forall x: nat :: Starts(code, x) && p <= x < |code| - 4 ==> ShortAt(code, x, |code| - 4)
    decreases e, 0
  {
    hide Fetch, Boundary, Starts, LaidOut, ShortAt, Owns;
    var l := e.l;
    CatLaidOut(l, e.r, code, p);
    LaidOutStarts(l, code, p);
    SpineTail(e.r, code, p + Len(l));
    forall x: nat | Starts(code, x) && p <= x < p + Len(l)
      ensures ShortAt(code, x, |code| - 4)
    {
      PartShort(l, code, p, x, |code| - 4);
    }
  }

  lemma PartShort(e: Re, code: seq<byte>, p: nat, x: nat, last: nat)
    requires LaidOut(e, code, p) && Starts(code, p) && Starts(code, x) && p <= x < p + Len(e) <= last
    ensures ShortAt(code, x, last)
  {
    hide Fetch, Boundary, Starts, LaidOut, ShortAt, Owns, Len;
    var n, q := Owner(e, code, p, x);
    OwnedShort(n, code, q, x, last);
  }

  lemma {:induction false} GroupSpine(e: Re, code: seq<byte>, p: nat)
    requires e.Group? && EndsInChoice(e) && LaidOut(e, code, p) && Starts(code, p) && p + Len(e) == |code|
    ensures p + 4 <= |code| && Starts(code, |code| - 4)
    ensures Fetch(code, |code| - 4).PushDummyFailure? && Fetch(code, |code| - 3).StopMemory?
    ensures forall x: nat :: Starts(code, x) && p <= x < |code| - 4 ==> ShortAt(code, x, |code| - 4)
    decreases e, 0
  {
    hide Fetch, Boundary, Starts, LaidOut, ShortAt;
    GroupStarts(e, code, p);
    GroupParts(e, code, p);
    forall x: nat | Starts(code, x) && p <= x < |code| - 4
      ensures ShortAt(code, x, |code| - 4)
    {
      Outside(code, p, x);
      if x == p { StartPlain(code, p); } else { PartShort(e.body, code, p + 3, x, |code| - 4); }
    }
  }

  lemma StartPlain(code: seq<byte>, p: nat)
    ensures Fetch(code, p).StartMemory? ==> forall last: int :: ShortAt(code, p, last)
  {
    hide Fetch;
  }

  lemma ChoiceTail(e: Re, code: seq<byte>)
    requires EndsInChoice(e) && LaidOut(e, code, 0) && Len(e) == |code|
    ensures Tail(code)
  {
    hide Fetch, Boundary, LaidOut, ShortAt;
    StartAtZero(code);
    SpineTail(e, code, 0);
  }

  /** Anything before the dummy leads to the dummy at most. */
  lemma Ahead(code: seq<byte>, x: nat)
    requires Tail(code) && Starts(code, x) && x <= |code| - 4
    requires Fetch(code, x) != Bad && !Fetch(code, x).PushDummyFailure?
    ensures x + Width(Fetch(code, x)) <= |code| - 4 && Starts(code, x + Width(Fetch(code, x)))
    ensures ShortAt(code, x, |code| - 4)
  {
    hide Fetch, ShortAt;
    NothingInside(code, 0, x, |code| - 4);
    StartsNext(code, x);
  }

  /** A group that ends before the dummy. */
  lemma StopAhead(code: seq<byte>, p: nat)
    requires Tail(code) && Starts(code, p) && p < |code| - 4 && Fetch(code, StopAddr(code, p)).StopMemory?
    ensures Starts(code, StopAddr(code, p)) && StopAddr(code, p) + 3 <= |code| - 4 && Starts(code, StopAddr(code, p) + 3)
  {
    hide Fetch, Tail, Starts, Boundary;
    var q := StopAddr(code, p);
    if q != p {
      StartsNext(code, p);
      DummyAhead(code, p);
    }
    Ahead(code, q);
  }

  lemma DummyAhead(code: seq<byte>, p: nat)
    requires Tail(code) && Starts(code, p) && p < |code| - 4 && Fetch(code, p).PushDummyFailure?
    ensures p + 1 <= |code| - 4
  {}

  /** In such code every loop is followed by more than group commands. */
  lemma TailTame(code: seq<byte>)
    requires Tail(code)
    ensures Tame(code)
  {
    hide Fetch, Starts, Boundary, SkipGroups;
    forall x: nat | Starts(code, x) && Fetch(code, x).MaybePopJump? && SkipGroups(code, x + 3) == |code|
      ensures false
    {
      StartAtMost(code, x);
      StartsNext(code, x);
      NoFetch(code);
      LoopBefore(code, x);
      SkipShort(code, x + 3);
    }
  }

  lemma LoopBefore(code: seq<byte>, x: nat)
    requires Tail(code) && Starts(code, x) && Fetch(code, x).MaybePopJump?
    ensures x + 3 <= |code| - 4
  {
    hide Fetch, ShortAt;
    StartsNext(code, |code| - 4);
    if x <= |code| - 4 { Ahead(code, x); } else { NothingInside(code, 0, |code| - 4, x); StopLast(code, x); }
  }

  lemma StopLast(code: seq<byte>, x: nat)
    requires |code| >= 4 && Fetch(code, |code| - 3).StopMemory? && x >= |code| - 3 && Starts(code, x) && Starts(code, |code| - 3)
    ensures !Fetch(code, x).MaybePopJump?
  {
    hide Fetch;
    NoFetch(code);
    if x > |code| - 3 { NothingInside(code, 0, |code| - 3, x); }
  }

  lemma {:induction false} SkipShort(code: seq<byte>, p: nat)
    requires Tail(code) && Starts(code, p) && p <= |code| - 4
    ensures SkipGroups(code, p) <= |code| - 4
    decreases |code| - p
  {
    hide Fetch, Starts, Boundary, ShortAt;
    if Fetch(code, p).StartMemory? || Fetch(code, p).StopMemory? {
      Ahead(code, p);
      SkipShort(code, p + 3);
    }
  }

  // ----- the play -----

  /** Every end comes with a choice just made. */
  predicate Marked(t: Play) {
    match t
    case Dead => true
    case End(_) => false
    case Try(a, b) => (a.End? || Marked(a)) && Marked(b)
    case Drop(rest) => Marked(rest)
  }

  lemma MarkedDrop(pop: bool, t: Play)
    requires Marked(t)
    ensures Marked(Dropping(pop, t))
  {}

  lemma MarkedMark(dummy: bool, t: Play)
    requires Marked(t)
    ensures Marked(Marking(dummy, t))
  {}

  /** Pending work before the dummy. */
  ghost predicate Ready(code: seq<byte>, p: nat, k: Kont) {
    Tail(code) && p <= |code| - 4 && Reps(code, p, k) && FitK(k)
  }

  lemma {:induction false} PlayMarked(code: seq<byte>, s: Subject, p: nat, k: Kont, d: nat)
    requires d <= |s.text| && Ready(code, p, k)
    ensures Marked(PlayOf(code, s, p, k, d))
    decreases |s.text| - d, Weight(k, d), |code| - p, 2
  {
    hide Fetch, Starts, Boundary, CanPop, PlayOf, LaidOut, LoopAt, Reps, Tail, Direct;
    RepsStarts(code, p, k);
    if !Direct(code, p, k) {
      RepsHop(code, p, k);
      Ahead(code, p);
      HopPlay(code, s, p, k, d);
      PlayMarked(code, s, p + 3 + Fetch(code, p).off, k, d);
    } else {
      match k
      case Halt => assert false by { HaltDirect(code, p); }
      case Close(reg, start, k') => CloseMarked(code, s, p, reg, start, k', d);
      case Loop(e, start, k') => LoopMarked(code, s, p, e, start, k', d);
      case Again(e, k') => AgainMarked(code, s, p, e, k', d);
      case Do(e, k') => DoMarked(code, s, p, e, k', d);
    }
  }

  lemma HaltDirect(code: seq<byte>, p: nat)
    requires Direct(code, p, Halt)
    ensures p == |code|
  {}

  /** At the end of a group: of the last one, where a dummy is put aside and the
      pattern is at its end, or of another. */
  lemma {:induction false} CloseMarked(code: seq<byte>, s: Subject, p: nat, reg: nat, start: nat, k: Kont, d: nat)
    requires d <= |s.text| && Ready(code, p, Close(reg, start, k)) && Direct(code, p, Close(reg, start, k))
    ensures Marked(PlayOf(code, s, p, Close(reg, start, k), d))
    decreases |s.text| - d, Weight(Close(reg, start, k), d), 0, 0
  {
    hide Fetch, Starts, Boundary, PlayOf, Reps, Tail;
    RepsStarts(code, p, Close(reg, start, k));
    ClosePlay(code, s, p, reg, start, k, d);
    var q := StopAddr(code, p);
    if p == |code| - 4 {
      LastStop(code);
      GroupsToEnd(code, |code|, s, k, d);
    } else {
      StopAhead(code, p);
      PlayMarked(code, s, q + 3, k, d);
      MarkedMark(q != p, PlayOf(code, s, q + 3, k, d));
    }
  }

  lemma LastStop(code: seq<byte>)
    requires Tail(code)
    ensures StopAddr(code, |code| - 4) == |code| - 3 && SkipGroups(code, |code|) == |code|
  {
    NoFetch(code);
    hide Fetch;
  }

  lemma {:induction false} LoopMarked(code: seq<byte>, s: Subject, p: nat, e: Re, start: nat, k: Kont, d: nat)
    requires d <= |s.text| && Ready(code, p, Loop(e, start, k)) && Direct(code, p, Loop(e, start, k))
    ensures Marked(PlayOf(code, s, p, Loop(e, start, k), d))
    decreases |s.text| - d, Weight(Loop(e, start, k), d), 0, 0
  {
    hide Fetch, Starts, Boundary, CanPop, PlayOf, LaidOut, LoopAt, Reps, Tail, Direct;
    RepsStarts(code, p, Loop(e, start, k));
    var q := LoopPlace(code, p, e, start, k);
    LoopPlays(code, s, p, e, start, k, d);
    LoopExplore(s, e, start, k, d);
    LoopAhead(code, p, q, e);
    if start == d || Peeks(code, q) {
      PlayMarked(code, s, q + 6, k, d);
      MarkedMark(q != p, PlayOf(code, s, q + 6, k, d));
    } else {
      var again := PlayOf(code, s, q - Len(e.body), Again(e, k), d);
      PlayMarked(code, s, q - Len(e.body), Again(e, k), d);
      MarkedDrop(CanPop(code, q + 3), again);
      MarkedMark(q != p, Dropping(CanPop(code, q + 3), again));
    }
  }

  /** The group of a loop is not the last. */
  lemma LoopAhead(code: seq<byte>, p: nat, q: nat, e: Re)
    requires e.Repeat? && e.body.Group?
    requires Tail(code) && Starts(code, p) && p <= |code| - 4 && q == StopAddr(code, p) && q >= Len(e.body)
    requires LoopAt(e.body, code, q - Len(e.body)) && Starts(code, q - Len(e.body))
    ensures q + 6 <= |code| - 4
  {
    hide Fetch, Starts, Boundary, LaidOut, LoopAt, Tail;
    var t := q - Len(e.body);
    LoopParts(e.body, code, t);
    LoopGroupEnd(code, t, e);
    LoopStarts(e.body, code, t);
    LoopBefore(code, q + 3);
  }

  lemma {:induction false} AgainMarked(code: seq<byte>, s: Subject, t: nat, e: Re, k: Kont, d: nat)
    requires d <= |s.text| && Ready(code, t, Again(e, k)) && Direct(code, t, Again(e, k))
    ensures Marked(PlayOf(code, s, t, Again(e, k), d))
    decreases |s.text| - d, Weight(Again(e, k), d), 0, 0
  {
    hide Fetch, Starts, Boundary, CanPop, PlayOf, LaidOut, LoopAt, Reps, Tail, TurnPlay;
    RepsStarts(code, t, Again(e, k));
    LoopRoom(code, t, e);
    var exit := t + Len(e.body) + 6;
    PlayMarked(code, s, exit, k, d);
    if e.body.Group? {
      AgainGroupPlay(code, s, t, e, k, d);
      LoopReps(code, t, e, d, k);
      FitLoop(e, d, k);
      assert Weight(Loop(e, d, k), d) == 1 + Weight(k, d);
      assert Size(e.body) == Size(e.body.body) + 2;
      PlayMarked(code, s, t + 6, Do(e.body.body, Loop(e, d, k)), d);
    } else {
      AgainBytePlay(code, s, t, e, k, d);
      TurnMarked(code, s, t, e, k, d);
    }
  }

  /** A loop from its failure jump on is before the dummy. */
  lemma LoopRoom(code: seq<byte>, t: nat, e: Re)
    requires Tail(code) && Starts(code, t) && t <= |code| - 4 && e.Repeat? && LoopAt(e.body, code, t)
    ensures t + Len(e.body) + 6 <= |code| - 4 && (e.body.Group? ==> t + 6 <= |code| - 4)
  {
    hide Fetch, Starts, Boundary, LaidOut, LoopAt, Tail;
    LoopParts(e.body, code, t);
    Ahead(code, t);
    OtherWay(code, t, |code| - 4);
  }

  lemma OtherWay(code: seq<byte>, x: nat, last: int)
    requires ShortAt(code, x, last)
    ensures Fetch(code, x).OnFailureJump? ==> x + 3 + Fetch(code, x).off <= last
  {
    hide Fetch;
  }

  lemma {:induction false} TurnMarked(code: seq<byte>, s: Subject, t: nat, e: Re, k: Kont, d: nat)
    requires d <= |s.text| && Ready(code, t, Again(e, k)) && e.Repeat? && Single(e.body)
    ensures Marked(TurnPlay(code, s, t, e, k, d))
    decreases |s.text| - d, 0, 0, 0
  {
    hide Fetch, CanPop, PlayOf, Reps, Tail;
    if d < |s.text| && Accepts(e.body, s.text[d]) {
      PlayMarked(code, s, t, Again(e, k), d + 1);
      MarkedDrop(CanPop(code, t + 3 + Len(e.body)), PlayOf(code, s, t, Again(e, k), d + 1));
    }
  }

  lemma {:induction false} DoMarked(code: seq<byte>, s: Subject, p: nat, e: Re, k: Kont, d: nat)
    requires d <= |s.text| && Ready(code, p, Do(e, k)) && Direct(code, p, Do(e, k))
    ensures Marked(PlayOf(code, s, p, Do(e, k), d))
    decreases |s.text| - d, Weight(Do(e, k), d), |code| - p, 1
  {
    hide Fetch, Starts, Boundary, PlayOf, LaidOut, LoopAt, Reps, Tail, DoPlay, Direct, FitK, Len, Marked;
    match e
    case Empty =>
      DoPlayed(code, s, p, e, k, d);
      EmptyRoom(code, p, k);
      PlayMarked(code, s, p, k, d);
    case Cat(_, _) => CatMarked(code, s, p, e, k, d);
    case Alt(_, _) => AltMarked(code, s, p, e, k, d);
    case Group(_, _, _) => GroupMarked(code, s, p, e, k, d);
    case Repeat(_, _) => RepeatMarked(code, s, p, e, k, d);
    case _ => LeafMarked(code, s, p, e, k, d);
  }

  lemma {:induction false} CatMarked(code: seq<byte>, s: Subject, p: nat, e: Re, k: Kont, d: nat)
    requires d <= |s.text| && Ready(code, p, Do(e, k)) && Direct(code, p, Do(e, k)) && e.Cat?
    ensures Marked(PlayOf(code, s, p, Do(e, k), d))
    decreases |s.text| - d, Size(e) + Weight(k, d), |code| - p, 0, 0
  {
    hide Fetch, Starts, Boundary, PlayOf, LaidOut, LoopAt, Reps, Tail, DoPlay, Direct, FitK, Len;
    RepsStarts(code, p, Do(e, k));
    DoPlayed(code, s, p, e, k, d);
    CatRoom(code, p, e.l, e.r, k);
    assert Weight(Do(e.r, k), d) == Size(e.r) + Weight(k, d);
    PlayMarked(code, s, p, Do(e.l, Do(e.r, k)), d);
  }

  lemma {:induction false} AltMarked(code: seq<byte>, s: Subject, p: nat, e: Re, k: Kont, d: nat)
    requires d <= |s.text| && Ready(code, p, Do(e, k)) && Direct(code, p, Do(e, k)) && e.Alt?
    ensures Marked(PlayOf(code, s, p, Do(e, k), d))
    decreases |s.text| - d, Size(e) + Weight(k, d), |code| - p, 0, 0
  {
    hide Fetch, Starts, Boundary, PlayOf, LaidOut, LoopAt, Reps, Tail, DoPlay, Direct, FitK, Len;
    RepsStarts(code, p, Do(e, k));
    DoPlayed(code, s, p, e, k, d);
    AltRoom(code, p, e, k);
    PlayMarked(code, s, p + 3, Do(e.l, k), d);
    PlayMarked(code, s, p + 6 + Len(e.l), Do(e.r, k), d);
    AltPlayed(code, s, p, e.l, e.r, k, d);
  }

  lemma {:induction false} GroupMarked(code: seq<byte>, s: Subject, p: nat, e: Re, k: Kont, d: nat)
    requires d <= |s.text| && Ready(code, p, Do(e, k)) && Direct(code, p, Do(e, k)) && e.Group?
    ensures Marked(PlayOf(code, s, p, Do(e, k), d))
    decreases |s.text| - d, Size(e) + Weight(k, d), |code| - p, 0, 0
  {
    hide Fetch, Starts, Boundary, PlayOf, LaidOut, LoopAt, Reps, Tail, DoPlay, Direct, FitK, Len;
    RepsStarts(code, p, Do(e, k));
    DoPlayed(code, s, p, e, k, d);
    GroupRoom(code, p, e, d, k);
    assert Weight(Close(e.reg, d, k), d) == 1 + Weight(k, d);
    PlayMarked(code, s, p + 3, Do(e.body, Close(e.reg, d, k)), d);
  }

  lemma AltPlayed(code: seq<byte>, s: Subject, p: nat, l: Re, r: Re, k: Kont, d: nat)
    requires d <= |s.text| && Marked(PlayOf(code, s, p + 3, Do(l, k), d))
    requires Marked(PlayOf(code, s, p + 6 + Len(l), Do(r, k), d))
    ensures Marked(DoPlay(code, s, p, Alt(l, r), k, d))
  {
    hide PlayOf;
  }

  lemma EmptyRoom(code: seq<byte>, p: nat, k: Kont)
    requires Ready(code, p, Do(Empty, k)) && Direct(code, p, Do(Empty, k))
    ensures Ready(code, p, k)
  {
    hide Fetch, Starts, Reps, Tail;
  }

  lemma CatRoom(code: seq<byte>, p: nat, l: Re, r: Re, k: Kont)
    requires Ready(code, p, Do(Cat(l, r), k)) && Direct(code, p, Do(Cat(l, r), k)) && Starts(code, p)
    ensures Ready(code, p, Do(l, Do(r, k)))
  {
    hide Fetch, Starts, Boundary, LaidOut, Reps, Tail;
    RepsCat(code, p, l, r, k);
    assert FitK(Do(r, k));
  }

  lemma AltRoom(code: seq<byte>, p: nat, e: Re, k: Kont)
    requires e.Alt? && Ready(code, p, Do(e, k)) && Direct(code, p, Do(e, k)) && Starts(code, p)
    ensures Ready(code, p + 3, Do(e.l, k)) && Ready(code, p + 6 + Len(e.l), Do(e.r, k))
  {
    hide Fetch, Starts, Boundary, LaidOut, Reps, Tail;
    AltParts(code, p, e);
    AltReps(code, p, e, k);
    Ahead(code, p);
    OtherWay(code, p, |code| - 4);
  }

  lemma GroupRoom(code: seq<byte>, p: nat, e: Re, d: nat, k: Kont)
    requires e.Group? && Ready(code, p, Do(e, k)) && Direct(code, p, Do(e, k)) && Starts(code, p)
    ensures Ready(code, p + 3, Do(e.body, Close(e.reg, d, k)))
  {
    hide Fetch, Starts, Boundary, LaidOut, Reps, Tail;
    GroupParts(e, code, p);
    Ahead(code, p);
    RepsClose(code, p, e, d, k);
    assert FitK(Close(e.reg, d, k));
  }

  lemma {:induction false} LeafMarked(code: seq<byte>, s: Subject, p: nat, e: Re, k: Kont, d: nat)
    requires d <= |s.text| && Ready(code, p, Do(e, k)) && Direct(code, p, Do(e, k)) && Leaf(e)
    ensures Marked(PlayOf(code, s, p, Do(e, k), d))
    decreases |s.text| - d, Weight(Do(e, k), d), 0, 0
  {
    hide Fetch, Starts, Boundary, PlayOf, LaidOut, Reps, Tail;
    RepsStarts(code, p, Do(e, k));
    LeafEndBounds(s, e, d);
    LeafPlay(code, s, p, e, k, d);
    LeafPlace(e, code, p);
    Ahead(code, p);
    if LeafEnd(s, e, d) >= 0 { PlayMarked(code, s, p + Len(e), k, LeafEnd(s, e, d)); }
  }

  lemma LeafPlace(e: Re, code: seq<byte>, p: nat)
    requires Leaf(e) && LaidOut(e, code, p)
    ensures Fetch(code, p) != Bad && !Fetch(code, p).PushDummyFailure? && Width(Fetch(code, p)) == Len(e)
  {
    hide Fetch;
  }

  lemma {:induction false} RepeatMarked(code: seq<byte>, s: Subject, p: nat, e: Re, k: Kont, d: nat)
    requires d <= |s.text| && Ready(code, p, Do(e, k)) && Direct(code, p, Do(e, k)) && e.Repeat?
    ensures Marked(PlayOf(code, s, p, Do(e, k), d))
    decreases |s.text| - d, Size(e) + Weight(k, d), |code| - p, 0, 1
  {
    hide Fetch, Starts, Boundary, PlayOf, LaidOut, LoopAt, Reps, Tail, Turn, TurnPlay, Marked;
    match e.op
    case Opt => OptMarked(code, s, p, e, k, d);
    case Plus => PlusMarked(code, s, p, e, k, d);
    case Star =>
      RepsStarts(code, p, Do(e, k));
      DoPlayed(code, s, p, e, k, d);
      StarReps(code, p, e, k);
      PlayMarked(code, s, p, Again(e, k), d);
  }

  lemma {:induction false} OptMarked(code: seq<byte>, s: Subject, p: nat, e: Re, k: Kont, d: nat)
    requires d <= |s.text| && Ready(code, p, Do(e, k)) && Direct(code, p, Do(e, k)) && e.Repeat? && e.op.Opt?
    ensures Marked(PlayOf(code, s, p, Do(e, k), d))
    decreases |s.text| - d, Size(e) + Weight(k, d), |code| - p, 0, 0
  {
    hide Fetch, Starts, Boundary, PlayOf, LaidOut, LoopAt, Reps, Tail, Turn, TurnPlay;
    RepsStarts(code, p, Do(e, k));
    DoPlayed(code, s, p, e, k, d);
    RepeatParts(e, code, p);
    OptReps(code, p, e, k);
    Ahead(code, p);
    OtherWay(code, p, |code| - 4);
    PlayMarked(code, s, p + 3, Do(e.body, k), d);
    PlayMarked(code, s, p + 3 + Len(e.body), k, d);
  }

  lemma {:induction false} PlusMarked(code: seq<byte>, s: Subject, p: nat, e: Re, k: Kont, d: nat)
    requires d <= |s.text| && Ready(code, p, Do(e, k)) && Direct(code, p, Do(e, k)) && e.Repeat? && e.op.Plus?
    ensures Marked(PlayOf(code, s, p, Do(e, k), d))
    decreases |s.text| - d, Size(e) + Weight(k, d), |code| - p, 0, 0
  {
    hide Fetch, Starts, Boundary, PlayOf, LaidOut, LoopAt, Reps, Tail, Turn, TurnPlay;
    RepsStarts(code, p, Do(e, k));
    DoPlayed(code, s, p, e, k, d);
    RepeatParts(e, code, p);
    DoReps(code, p, e, k);
    PlusParts(code, p, e, k);
    Ahead(code, p);
    LoopRoom(code, p + 3, e);
    if e.body.Group? {
      LoopReps(code, p + 3, e, d, k);
      FitLoop(e, d, k);
      LoopWeight(e, d, k);
      PlayMarked(code, s, p + 9, Do(e.body.body, Loop(e, d, k)), d);
    } else {
      AgainReps(code, p + 3, e, k);
      TurnMarked(code, s, p + 3, e, k, d);
    }
  }

  // ----- the ends come to -----

  predicate StackMarked(stack: seq<Play>) {
    forall t | t in stack :: Marked(t)
  }

  /** With every end marked there is always something left. */
  lemma {:induction false} MarkedVisits(t: Play, stack: seq<Play>, size: nat)
    requires Marked(t) && StackMarked(stack)
    ensures forall v | v in Visits(t, stack, size) :: v.left > 0
    decreases PlaySize(t) + Load(stack), 1
  {
    hide Resume, Load;
    match t
    case Dead => MarkedResume(stack, size);
    case Try(a, b) =>
      LoadPush(stack, b);
      if a.End? {
        assert Visits(a, stack + [b], size) ==
          [Visit(a.at, |stack| + 1)] + if a.at == size then [] else Resume(stack + [b], size);
        MarkedResume(stack + [b], size);
      } else {
        MarkedVisits(a, stack + [b], size);
      }
    case Drop(rest) =>
      if |stack| > 0 {
        LoadTop(stack);
        MarkedVisits(rest, stack[..|stack| - 1], size);
      }
  }

  lemma {:induction false} MarkedResume(stack: seq<Play>, size: nat)
    requires StackMarked(stack)
    ensures forall v | v in Resume(stack, size) :: v.left > 0
    decreases Load(stack), 2
  {
    hide Visits, Load;
    if |stack| > 0 {
      LoadTop(stack);
      MarkedVisits(stack[|stack| - 1], stack[..|stack| - 1], size);
    }
  }

  /** In safe code a pattern that ends in a group of alternatives is always given its
      longest match. */
  lemma ChoiceLongest(e: Re, code: seq<byte>, nsub: nat, s: Subject, start: nat)
    requires Compiled(e, code, nsub) && Safe(code) && EndsInChoice(e) && start <= |s.text|
    ensures var r := Returns(e, code, s, start);
      if r == NO_MATCH then forall j: nat :: !Match(e, s, start, j)
      else r >= 0 && Match(e, s, start, start + r) && IsLongest(e, s, start, r)
  {
    hide Compiled, PeekSafe, PopSafe, Tame, Tail, PlayOf, LaidOut, Visits, Match, Returns, IsLongest, Reps;
    hide Fit, Dropped;
    CompiledParts(e, code, nsub);
    ChoiceTail(e, code);
    TailTame(code);
    WholeReps(e, code);
    TailRoom(code);
    PlayMarked(code, s, 0, Do(e, Halt), start);
    MarkedVisits(PlayOf(code, s, 0, Do(e, Halt), start), [], |s.text|);
    ReturnsRight(e, code, nsub, s, start);
    if Returns(e, code, s, start) >= 0 { LongestExactly(e, code, nsub, s, start); }
  }

  lemma TailRoom(code: seq<byte>)
    requires Tail(code)
    ensures 0 <= |code| - 4
  {}

  // ----- the expression -----

  /** What is read of an expression that ends in such a group ends in one too. */
  lemma ChoiceRead(l: Ere, a: Ere, b: Ere)
    requires Supported(Then(l, Paren(Or(a, b))))
    ensures EndsInChoice(CoreOf(Then(l, Paren(Or(a, b)))))
  {
    hide ReadAll, AtomRead, Follows, AltsMean, Match, Means, BranchRe, AltOf;
    var last := Paren(Or(a, b));
    var e := Then(l, last);
    ThenSupported(l, last);
    var ctx1 := ReadBranch(InitCtx(), l, Tokens(last) + []);
    var ctx2 := ReadParen(ctx1, Or(a, b), []);
    assert Tokens(e) == Tokens(l) + (Tokens(last) + []);
    assert [TOpen] + Tokens(Or(a, b)) + [TClose] + [] == Tokens(last) + [];
    ReadAllDone(ctx2);
    LastRead(ctx2);
  }

  lemma LastRead(ctx: Ctx)
    requires ctx.cur.alts == [] && EndsInChoice(ctx.cur.last)
    ensures EndsInChoice(Body(ctx))
  {}

  lemma ThenSupported(l: Ere, r: Ere)
    requires Supported(Then(l, r))
    ensures Branch(l) && Piece(r) && Parens(l) + Parens(r) <= MAX_REGNUM && NoOpsAhead(Tokens(r) + [])
    ensures r.Paren? ==> Alternatives(r.body) && Parens(r) == Parens(r.body) + 1
  {
    assert Branch(Then(l, r));
    HeadNotOps(r);
  }

  /** In safe code an expression that ends in a group of alternatives, not repeated,
      is always given its longest match. */
  lemma EndingInAlternatives(l: Ere, a: Ere, b: Ere, s: Subject, start: nat)
    requires var e := Then(l, Paren(Or(a, b)));
      Supported(e) && |CodeOf(e)| <= MAX_CODE && Safe(CodeOf(e)) && start <= |s.text|
    ensures var e := Then(l, Paren(Or(a, b)));
      var r := Returns(CoreOf(e), CodeOf(e), s, start);
      if r == NO_MATCH then forall j: nat :: !Means(e, s, start, j)
      else r >= 0 && Means(e, s, start, start + r) && forall j: nat :: Means(e, s, start, j) ==> j <= start + r
  {
    hide Supported, CoreOf, CodeOf, Compiled, Framed, Safe, Returns, Match, Means, EndsInChoice;
    var e := Then(l, Paren(Or(a, b)));
    ChoiceRead(l, a, b);
    CoreFacts(e);
    var core := CoreOf(e);
    ChoiceLongest(core, CodeOf(e), Parens(e), s, start);
    forall j: nat
      ensures Match(core, s, start, j) <==> Means(e, s, start, j)
    {}
  }
}
