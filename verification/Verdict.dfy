/** Plays and matches.

    What a play can come to is a match of the pattern, always; and every match,
    when no operand byte is taken for an opcode.  When every closing jump is settled
    rightly, playing it out comes to an end of the pattern if there is a match; and
    in code where no repeated group is followed by group commands only, to an end as
    long as any match. */
module Verdict {
  import opened Octets
  import opened RegexLang
  import opened Backtrack
  import opened Bytecode
  import opened Machine
  import opened Invariant
  import opened InvariantFacts
  import opened Plays
  import opened Choices
  import opened Moves
  import opened MatchTheorem

  ghost predicate Reaches(t: Play, x: nat) {
    match t
    case Dead => false
    case End(at) => at == x
    case Try(a, b) => Reaches(a, x) || Reaches(b, x)
    case Drop(rest) => Reaches(rest, x)
  }

  // ----- only matches are reached -----

  /** What a play reaches is a leaf of the search tree. */
  lemma {:induction false} PlaySound(code: seq<byte>, s: Subject, p: nat, k: Kont, d: nat, x: nat)
    requires d <= |s.text| && Reaches(PlayOf(code, s, p, k, d), x)
    ensures Finds(Explore(s, k, d), x)
    decreases |s.text| - d, Weight(k, d), if p <= |code| then |code| - p else 0, 2
  {
    hide Fetch, Direct, CanPop;
    if Hops(code, p, k) {
      FetchInBounds(code, p);
      PlaySound(code, s, p + 3 + Fetch(code, p).off, k, d, x);
    } else {
      match k
      case Halt =>
      case Close(_, _, k') => PlaySound(code, s, StopAddr(code, p) + 3, k', d, x);
      case Loop(e, start, k') =>
        var q := StopAddr(code, p);
        if start == d || Peeks(code, q) { LoopOutSound(code, s, q + 6, e, start, k', d, x); }
        else { PlaySound(code, s, q - Len(e.body), Again(e, k'), d, x); }
      case Again(e, k') =>
        AgainSound(code, s, p, e, k', d, x);
      case Do(e, k') => DoPlaySound(code, s, p, e, k', d, x);
    }
  }

  /** Leaving a loop after an iteration is a way the tree has too. */
  lemma {:induction false} AgainSound(code: seq<byte>, s: Subject, p: nat, e: Re, k: Kont, d: nat, x: nat)
    requires d <= |s.text| && !Hops(code, p, Again(e, k)) && Reaches(PlayOf(code, s, p, Again(e, k), d), x)
    ensures Finds(Explore(s, Again(e, k), d), x)
    decreases |s.text| - d, Weight(Again(e, k), d), if p <= |code| then |code| - p else 0, 1
  {
    hide Fetch, Direct, CanPop, Hops, TurnPlay, Turn;
    if Reaches(PlayOf(code, s, p + Len(e.body) + 6, k, d), x) {
      PlaySound(code, s, p + Len(e.body) + 6, k, d, x);
    } else if e.body.Group? {
      LoopWeight(e, d, k);
      PlaySound(code, s, p + 6, Do(e.body.body, Loop(e, d, k)), d, x);
    } else {
      TurnPlaySound(code, s, p, e, k, d, x);
    }
  }

  lemma {:induction false} LoopOutSound(code: seq<byte>, s: Subject, p: nat, e: Re, start: nat, k: Kont, d: nat, x: nat)
    requires d <= |s.text| && e.Repeat? && (e.body.Group? || Single(e.body))
    requires Reaches(PlayOf(code, s, p, k, d), x)
    ensures Finds(Explore(s, Loop(e, start, k), d), x)
    decreases |s.text| - d, Weight(Loop(e, start, k), d), 0, 0
  {
    hide PlayOf;
    PlaySound(code, s, p, k, d, x);
  }

  lemma {:induction false} TurnPlaySound(code: seq<byte>, s: Subject, t: nat, e: Re, k: Kont, d: nat, x: nat)
    requires d <= |s.text| && e.Repeat? && Single(e.body) && Reaches(TurnPlay(code, s, t, e, k, d), x)
    ensures Finds(Turn(s, e, k, d), x)
    decreases |s.text| - d, 0, 0, 0
  {
    hide CanPop;
    PlaySound(code, s, t, Again(e, k), d + 1, x);
  }

  lemma {:induction false} DoPlaySound(code: seq<byte>, s: Subject, p: nat, e: Re, k: Kont, d: nat, x: nat)
    requires d <= |s.text| && Reaches(DoPlay(code, s, p, e, k, d), x)
    ensures Finds(Explore(s, Do(e, k), d), x)
    decreases |s.text| - d, Weight(Do(e, k), d), if p <= |code| then |code| - p else 0, 1
  {
    hide PlayOf, Turn, TurnPlay;
    match e
    case Empty => PlaySound(code, s, p, k, d, x);
    case Cat(l, r) =>
      assert Weight(Do(r, k), d) == Size(r) + Weight(k, d);
      PlaySound(code, s, p, Do(l, Do(r, k)), d, x);
    case Alt(l, r) =>
      if Reaches(PlayOf(code, s, p + 3, Do(l, k), d), x) { PlaySound(code, s, p + 3, Do(l, k), d, x); }
      else { PlaySound(code, s, p + 6 + Len(l), Do(r, k), d, x); }
    case Group(reg, _, body) =>
      assert Weight(Close(reg, d, k), d) == 1 + Weight(k, d);
      PlaySound(code, s, p + 3, Do(body, Close(reg, d, k)), d, x);
    case Repeat(_, _) => RepeatPlaySound(code, s, p, e, k, d, x);
    case _ =>
      LeafEndBounds(s, e, d);
      LeafExplore(s, e, k, d);
      PlaySound(code, s, p + Len(e), k, LeafEnd(s, e, d), x);
  }

  lemma RepeatExplored(s: Subject, e: Re, k: Kont, d: nat)
    requires d <= |s.text| && e.Repeat?
    ensures var tree := Explore(s, Do(e, k), d);
      && (e.op.Opt? ==> tree == Fork(Explore(s, Do(e.body, k), d), Explore(s, k, d)))
      && (e.op.Star? ==> tree == Explore(s, Again(e, k), d))
      && (e.op.Plus? && e.body.Group? ==> tree == Explore(s, Do(e.body.body, Loop(e, d, k)), d))
      && (e.op.Plus? && Single(e.body) ==> tree == Turn(s, e, k, d))
  {
    hide Turn;
  }

  lemma {:induction false} RepeatPlaySound(code: seq<byte>, s: Subject, p: nat, e: Re, k: Kont, d: nat, x: nat)
    requires d <= |s.text| && e.Repeat? && Reaches(DoPlay(code, s, p, e, k, d), x)
    ensures Finds(Explore(s, Do(e, k), d), x)
    decreases |s.text| - d, Size(e) + Weight(k, d), if p <= |code| then |code| - p else 0, 0
  {
    hide PlayOf, TurnPlay, Explore, Turn;
    var body := e.body;
    RepeatExplored(s, e, k, d);
    match e.op
    case Opt =>
      if Reaches(PlayOf(code, s, p + 3, Do(body, k), d), x) { PlaySound(code, s, p + 3, Do(body, k), d, x); }
      else { PlaySound(code, s, p + 3 + Len(body), k, d, x); }
    case Star => PlaySound(code, s, p, Again(e, k), d, x);
    case Plus =>
      if body.Group? {
        LoopWeight(e, d, k);
        PlaySound(code, s, p + 9, Do(body.body, Loop(e, d, k)), d, x);
      } else {
        TurnPlaySound(code, s, p + 3, e, k, d, x);
      }
  }

  lemma LeafExplore(s: Subject, e: Re, k: Kont, d: nat)
    requires Leaf(e) && d <= |s.text|
    ensures LeafEnd(s, e, d) <= |s.text|
    ensures Explore(s, Do(e, k), d) ==
            if LeafEnd(s, e, d) < 0 then DeadEnd else Explore(s, k, LeafEnd(s, e, d))
  {}

  // ----- every match is reached, and what is dropped -----

  ghost predicate Some(t: Play) {
    exists x: nat :: Reaches(t, x)
  }

  /** Whatever `b` reaches, `r` reaches as much or more. */
  ghost predicate Covers(r: Play, b: Play) {
    forall x: nat :: Reaches(b, x) ==> exists y: nat :: x <= y && Reaches(r, y)
  }

  /** What a closing jump drops is covered by what it goes on with; or, in code that
      is not tame, it goes on with something that reaches an end. */
  ghost predicate Fair(t: Play, tame: bool) {
    match t
    case Dead => true
    case End(_) => true
    case Try(a, b) =>
      && Fair(b, tame)
      && if a.Drop? then Fair(a.rest, tame) && (Covers(a.rest, b) || (!tame && Some(a.rest))) else Fair(a, tame)
    case Drop(rest) => !tame && Fair(rest, tame) && Some(rest)
  }

  /** No repeated group is followed by group commands only, up to the end: there
      the closing jump may drop a choice made inside the group. */
  ghost predicate Tame(code: seq<byte>) {
    forall x: nat {:trigger Starts(code, x)} ::
      Starts(code, x) && Fetch(code, x).MaybePopJump? && SkipGroups(code, x + 3) == |code| ==>
      x + 6 + Fetch(code, x).off >= 0 && !Fetch(code, x + 6 + Fetch(code, x).off).StartMemory?
  }

  /** The play `t` of work with the tree `tree`. */
  ghost predicate GoodPlay(code: seq<byte>, t: Play, tree: Tree) {
    && (PeekSafe(code) ==> forall x: nat :: Finds(tree, x) ==> Reaches(t, x))
    && (PopSafe(code) ==> Fair(t, Tame(code)))
  }

  lemma GoodTry(code: seq<byte>, a: Play, b: Play, ta: Tree, tb: Tree)
    requires GoodPlay(code, a, ta) && GoodPlay(code, b, tb)
    ensures GoodPlay(code, Try(a, b), Fork(ta, tb))
  {
    hide PeekSafe, PopSafe, Tame, Some, Covers, Fair;
    if PopSafe(code) { FairTry(a, b, Tame(code)); }
    BothReach(code, a, b, ta, tb);
  }

  lemma FairTry(a: Play, b: Play, tame: bool)
    requires Fair(a, tame) && Fair(b, tame)
    ensures Fair(Try(a, b), tame)
  {
    hide Some, Covers;
    if a.Drop? { assert !tame && Fair(a.rest, tame) && Some(a.rest); }
  }

  lemma BothReach(code: seq<byte>, a: Play, b: Play, ta: Tree, tb: Tree)
    requires PeekSafe(code) ==> forall x: nat :: Finds(ta, x) ==> Reaches(a, x)
    requires PeekSafe(code) ==> forall x: nat :: Finds(tb, x) ==> Reaches(b, x)
    ensures PeekSafe(code) ==> forall x: nat :: Finds(Fork(ta, tb), x) ==> Reaches(Try(a, b), x)
  {
    hide PeekSafe;
  }

  lemma GoodMark(code: seq<byte>, dummy: bool, t: Play, tree: Tree)
    requires GoodPlay(code, t, tree)
    ensures GoodPlay(code, Marking(dummy, t), tree)
  {
    DeadGood(code);
    GoodTry(code, t, Dead, tree, DeadEnd);
    ForkDead(code, Try(t, Dead), tree);
  }

  /** Every play of pending work is good. */
  lemma {:induction false} PlayGood(code: seq<byte>, s: Subject, p: nat, k: Kont, d: nat)
    requires d <= |s.text| && Reps(code, p, k) && FitK(k)
    ensures GoodPlay(code, PlayOf(code, s, p, k, d), Explore(s, k, d))
    decreases |s.text| - d, Weight(k, d), if p <= |code| then |code| - p else 0, 2
  {
    hide Fetch, Starts, Boundary, CanPop, PlayOf, LaidOut, LoopAt, Explore, GoodPlay, Reps;
    RepsStarts(code, p, k);
    if !Direct(code, p, k) {
      RepsHop(code, p, k);
      FetchInBounds(code, p);
      HopPlay(code, s, p, k, d);
      PlayGood(code, s, p + 3 + Fetch(code, p).off, k, d);
    } else {
      match k
      case Halt => HaltGood(code, s, p, d);
      case Close(reg, start, k') =>
        ClosePlay(code, s, p, reg, start, k', d);
        CloseExplore(s, reg, start, k', d);
        var q := StopAddr(code, p);
        PlayGood(code, s, q + 3, k', d);
        GoodMark(code, q != p, PlayOf(code, s, q + 3, k', d), Explore(s, k', d));
      case Loop(e, start, k') => LoopGood(code, s, p, e, start, k', d);
      case Again(e, k') => AgainGood(code, s, p, e, k', d);
      case Do(e, k') => DoGood(code, s, p, e, k', d);
    }
  }

  lemma RepsHop(code: seq<byte>, p: nat, k: Kont)
    requires Reps(code, p, k) && !Direct(code, p, k)
    ensures Hops(code, p, k) && Reps(code, p + 3 + Fetch(code, p).off, k)
  {
    hide Fetch, Direct;
  }

  lemma HaltGood(code: seq<byte>, s: Subject, p: nat, d: nat)
    requires d <= |s.text| && Direct(code, p, Halt)
    ensures GoodPlay(code, PlayOf(code, s, p, Halt, d), Explore(s, Halt, d))
  {
    hide Fetch, PeekSafe, PopSafe, Tame;
  }

  lemma CloseExplore(s: Subject, reg: nat, start: nat, k: Kont, d: nat)
    requires d <= |s.text|
    ensures Explore(s, Close(reg, start, k), d) == Explore(s, k, d)
  {}

  lemma {:induction false} LoopGood(code: seq<byte>, s: Subject, p: nat, e: Re, start: nat, k: Kont, d: nat)
    requires d <= |s.text| && Direct(code, p, Loop(e, start, k)) && Starts(code, p) && FitK(Loop(e, start, k))
    ensures GoodPlay(code, PlayOf(code, s, p, Loop(e, start, k), d), Explore(s, Loop(e, start, k), d))
    decreases |s.text| - d, Weight(Loop(e, start, k), d), 0, 0
  {
    hide Fetch, Starts, Boundary, CanPop, PlayOf, LaidOut, LoopAt, Reps, Direct, GoodPlay, Explore, FitK;
    hide Weight, Size, Len;
    LoopFit(e, start, k);
    var q := LoopPlace(code, p, e, start, k);
    LoopPlays(code, s, p, e, start, k, d);
    LoopExplore(s, e, start, k, d);
    var t, tree, again := PlayOf(code, s, q + 6, k, d), Explore(s, Loop(e, start, k), d), Again(e, k);
    if start == d || Peeks(code, q) {
      PlayGood(code, s, q + 6, k, d);
      PeekedGood(code, q, t, Explore(s, k, d), tree, start == d);
    } else {
      t := Dropping(CanPop(code, q + 3), PlayOf(code, s, q - Len(e.body), again, d));
      PlayGood(code, s, q - Len(e.body), again, d);
      GroupDrop(code, s, q - Len(e.body), e, k, d);
    }
    GoodMark(code, q != p, t, tree);
  }

  lemma LoopFit(e: Re, start: nat, k: Kont)
    requires FitK(Loop(e, start, k))
    ensures IsGroupLoop(e) && FitK(k) && FitK(Again(e, k))
  {}

  lemma LoopExplore(s: Subject, e: Re, start: nat, k: Kont, d: nat)
    requires d <= |s.text|
    ensures Explore(s, Loop(e, start, k), d) == if start == d then Explore(s, k, d) else Explore(s, Again(e, k), d)
    ensures Weight(k, d) < Weight(Loop(e, start, k), d)
    ensures start != d ==> Weight(Again(e, k), d) < Weight(Loop(e, start, k), d)
  {}

  /** Left early on account of the peek, or with nothing consumed. */
  lemma PeekedGood(code: seq<byte>, q: nat, t: Play, tree: Tree, whole: Tree, same: bool)
    requires GoodPlay(code, t, tree) && (same ==> whole == tree) && (!same ==> Peeks(code, q))
    requires PeekSafe(code) ==> !Peeks(code, q)
    ensures GoodPlay(code, t, whole)
  {
    hide PeekSafe, PopSafe, Tame, Fair;
  }

  /** Where the group of a loop ends, and that the byte before is no opcode. */
  lemma LoopPlace(code: seq<byte>, p: nat, e: Re, start: nat, k: Kont) returns (q: nat)
    requires Direct(code, p, Loop(e, start, k))
    ensures q == StopAddr(code, p) && q >= Len(e.body) && (PeekSafe(code) ==> !Peeks(code, q))
    ensures Reps(code, q + 6, k) && Reps(code, q - Len(e.body), Again(e, k))
    ensures Starts(code, q - Len(e.body)) && LoopAt(e.body, code, q - Len(e.body))
  {
    hide Fetch, Boundary, CanPop, LaidOut, LoopAt, Reps;
    q := StopAddr(code, p);
    var t := q - Len(e.body);
    LoopParts(e.body, code, t);
    LoopGroupEnd(code, t, e);
    AgainReps(code, t, e, k);
  }

  lemma LoopGroupEnd(code: seq<byte>, t: nat, e: Re)
    requires IsGroupLoop(e) && Starts(code, t) && LoopAt(e.body, code, t)
    ensures Starts(code, t + Len(e.body)) && Fetch(code, t + Len(e.body)).StopMemory?
  {
    hide Fetch, Boundary, Starts, LaidOut, LoopAt;
    LoopStarts(e.body, code, t);
    LoopGroup(code, t, e);
    var q := t + 6 + Len(e.body.body);
    if StopAddr(code, q) != q { StartsNext(code, q); }
  }

  lemma LoopPlays(code: seq<byte>, s: Subject, p: nat, e: Re, start: nat, k: Kont, d: nat)
    requires d <= |s.text| && Direct(code, p, Loop(e, start, k))
    ensures var q := StopAddr(code, p);
      && q >= Len(e.body)
      && PlayOf(code, s, p, Loop(e, start, k), d) ==
         Marking(q != p, if start == d || Peeks(code, q) then PlayOf(code, s, q + 6, k, d)
           else Dropping(CanPop(code, q + 3), PlayOf(code, s, q - Len(e.body), Again(e, k), d)))
  {
    hide Fetch, CanPop, Reps, LoopAt;
  }

  // ----- what follows a loop -----

  /** When the closing jump may pop, the rest succeeds wherever the loop stops, or
      fails wherever the body's byte could be taken. */
  lemma PopJustified(code: seq<byte>, s: Subject, e: Re, t: nat, k: Kont, d: nat)
    requires e.Repeat? && !e.op.Opt? && Fit(e) && LoopAt(e.body, code, t) && d <= |s.text|
    requires Reps(code, t + Len(e.body) + 6, k) && CanPop(code, t + 3 + Len(e.body))
    requires Starts(code, t) && PopSafe(code)
    ensures var exit := t + Len(e.body) + 6;
      || (SkipGroups(code, exit) == |code| &&
          forall d': nat :: d' <= |s.text| ==> PlayOf(code, s, exit, k, d') == End(d'))
      || (Single(e.body) &&
          (d < |s.text| && Accepts(e.body, s.text[d]) ==> PlayOf(code, s, exit, k, d) == Dead))
  {
    hide Fetch, Boundary, Starts, Reps, PlayOf;
    var exit := t + Len(e.body) + 6;
    var p2 := SkipGroups(code, exit);
    LoopStarts(e.body, code, t);
    assert ExcludesNext(code, t + 3 + Len(e.body));
    if p2 == |code| {
      forall d': nat | d' <= |s.text|
        ensures PlayOf(code, s, exit, k, d') == End(d')
      {
        GroupsToEnd(code, exit, s, k, d');
      }
    } else {
      var cs := Fetch(code, p2).cs;
      if d < |s.text| && Single(e.body) && Accepts(e.body, s.text[d]) {
        assert s.text[d] != cs[0];
        GroupsToByte(code, exit, s, k, d, cs[0]);
      }
    }
  }

  /** The closing jump of a repeated group pops only in code that is not tame, and
      then the loop can end where it is. */
  lemma GroupDrop(code: seq<byte>, s: Subject, t: nat, e: Re, k: Kont, d: nat)
    requires IsGroupLoop(e) && FitK(Again(e, k)) && Starts(code, t) && LoopAt(e.body, code, t) && d <= |s.text|
    requires Reps(code, t + Len(e.body) + 6, k) && Reps(code, t, Again(e, k))
    requires GoodPlay(code, PlayOf(code, s, t, Again(e, k), d), Explore(s, Again(e, k), d))
    ensures GoodPlay(code, Dropping(CanPop(code, t + 3 + Len(e.body)), PlayOf(code, s, t, Again(e, k), d)),
                     Explore(s, Again(e, k), d))
  {
    hide Fetch, Reps, LoopAt, PopSafe, PeekSafe, Starts, PlayOf, Explore, CanPop;
    var x := t + 3 + Len(e.body);
    if PopSafe(code) && CanPop(code, x) {
      PopJustified(code, s, e, t, k, d);
      GroupNotTame(code, t, e);
      AgainDirect(code, t, e, k);
      AgainGroupPlay(code, s, t, e, k, d);
      assert Reaches(PlayOf(code, s, t, Again(e, k), d), d);
    }
  }

  lemma AgainDirect(code: seq<byte>, t: nat, e: Re, k: Kont)
    requires e.Repeat? && LoopAt(e.body, code, t) && Reps(code, t + Len(e.body) + 6, k)
    ensures Direct(code, t, Again(e, k))
  {
    hide Fetch, LoopAt, Reps, Starts, Boundary, LaidOut, Len;
  }

  lemma GroupNotTame(code: seq<byte>, t: nat, e: Re)
    requires IsGroupLoop(e) && Starts(code, t) && LoopAt(e.body, code, t)
    requires SkipGroups(code, t + 6 + Len(e.body)) == |code|
    ensures !Tame(code)
  {
    hide Fetch, LoopAt, Starts;
    LoopStarts(e.body, code, t);
    LoopParts(e.body, code, t);
    LoopGroup(code, t, e);
    var x := t + 3 + Len(e.body);
    assert Starts(code, x) && Fetch(code, x).MaybePopJump? && x + 6 + Fetch(code, x).off == t + 3;
  }

  // ----- the other kinds of work -----

  lemma {:induction false} AgainGood(code: seq<byte>, s: Subject, t: nat, e: Re, k: Kont, d: nat)
    requires d <= |s.text| && Direct(code, t, Again(e, k)) && Starts(code, t) && FitK(Again(e, k))
    ensures GoodPlay(code, PlayOf(code, s, t, Again(e, k), d), Explore(s, Again(e, k), d))
    decreases |s.text| - d, Weight(Again(e, k), d), 0, 0
  {
    hide Fetch, Starts, Boundary, CanPop, PlayOf, LaidOut, LoopAt, Reps, Turn, TurnPlay, GoodPlay;
    var exit := t + Len(e.body) + 6;
    PlayGood(code, s, exit, k, d);
    if e.body.Group? {
      AgainGroupPlay(code, s, t, e, k, d);
      LoopReps(code, t, e, d, k);
      FitLoop(e, d, k);
      var k' := Do(e.body.body, Loop(e, d, k));
      assert Weight(Loop(e, d, k), d) == 1 + Weight(k, d);
      assert Size(e.body) == Size(e.body.body) + 2;
      PlayGood(code, s, t + 6, k', d);
      GoodTry(code, PlayOf(code, s, t + 6, k', d), PlayOf(code, s, exit, k, d), Explore(s, k', d), Explore(s, k, d));
    } else {
      AgainBytePlay(code, s, t, e, k, d);
      AgainReps(code, t, e, k);
      TurnGood(code, s, t, e, k, d, PlayOf(code, s, exit, k, d), Explore(s, k, d));
    }
  }

  lemma FitLoop(e: Re, d: nat, k: Kont)
    requires IsGroupLoop(e) && !e.op.Opt? && Fit(e) && FitK(k)
    ensures FitK(Do(e.body.body, Loop(e, d, k)))
  {
    assert Fit(e.body) && FitK(Loop(e, d, k));
  }

  /** One turn of a loop over a byte, with `b` put aside: the way out, or a dummy. */
  lemma {:induction false} TurnGood(code: seq<byte>, s: Subject, t: nat, e: Re, k: Kont, d: nat, b: Play, tb: Tree)
    requires d <= |s.text| && Starts(code, t) && FitK(Again(e, k)) && Single(e.body) && LoopAt(e.body, code, t)
    requires Reps(code, t, Again(e, k)) && Reps(code, t + Len(e.body) + 6, k) && GoodPlay(code, b, tb)
    requires b == PlayOf(code, s, t + Len(e.body) + 6, k, d) || b == Dead
    ensures GoodPlay(code, Try(TurnPlay(code, s, t, e, k, d), b), Fork(Turn(s, e, k, d), tb))
    decreases |s.text| - d, 0, 0, 0
  {
    hide Fetch, CanPop, PlayOf, Reps, Explore, PeekSafe, PopSafe, Starts, LoopAt, Tame, GoodPlay;
    if d < |s.text| && Accepts(e.body, s.text[d]) {
      var x := t + 3 + Len(e.body);
      var next := PlayOf(code, s, t, Again(e, k), d + 1);
      PlayGood(code, s, t, Again(e, k), d + 1);
      if CanPop(code, x) {
        if PopSafe(code) { TurnCovers(code, s, t, e, k, d, b); }
        GoodDrop(code, next, b, Turn(s, e, k, d), tb);
      } else {
        GoodTry(code, next, b, Turn(s, e, k, d), tb);
      }
    } else {
      DeadGood(code);
      GoodTry(code, Dead, b, DeadEnd, tb);
    }
  }

  lemma DeadGood(code: seq<byte>)
    ensures GoodPlay(code, Dead, DeadEnd)
  {
    hide PeekSafe, PopSafe, Tame;
  }

  lemma GoodDrop(code: seq<byte>, next: Play, b: Play, ta: Tree, tb: Tree)
    requires GoodPlay(code, next, ta) && GoodPlay(code, b, tb) && (PopSafe(code) ==> Covers(next, b))
    ensures GoodPlay(code, Try(Drop(next), b), Fork(ta, tb))
  {
    hide PeekSafe, PopSafe, Tame, Some, Covers;
    BothReach(code, next, b, ta, tb);
    assert forall x: nat :: Reaches(Try(Drop(next), b), x) <==> Reaches(Try(next, b), x);
  }

  lemma TurnCovers(code: seq<byte>, s: Subject, t: nat, e: Re, k: Kont, d: nat, b: Play)
    requires d < |s.text| && Starts(code, t) && FitK(Again(e, k)) && Single(e.body) && LoopAt(e.body, code, t)
    requires Reps(code, t + Len(e.body) + 6, k) && PopSafe(code) && CanPop(code, t + 3 + Len(e.body))
    requires Accepts(e.body, s.text[d]) && (b == PlayOf(code, s, t + Len(e.body) + 6, k, d) || b == Dead)
    ensures Covers(PlayOf(code, s, t, Again(e, k), d + 1), b)
  {
    hide Fetch, CanPop, PlayOf, Reps, PopSafe, Starts, LoopAt, TurnPlay;
    PopJustified(code, s, e, t, k, d);
    if b != Dead {
      AgainDirect(code, t, e, k);
      AgainBytePlay(code, s, t, e, k, d + 1);
      assert Reaches(PlayOf(code, s, t, Again(e, k), d + 1), d + 1);
    }
  }

  lemma {:induction false} DoGood(code: seq<byte>, s: Subject, p: nat, e: Re, k: Kont, d: nat)
    requires d <= |s.text| && Direct(code, p, Do(e, k)) && Starts(code, p) && FitK(Do(e, k))
    ensures GoodPlay(code, PlayOf(code, s, p, Do(e, k), d), Explore(s, Do(e, k), d))
    decreases |s.text| - d, Weight(Do(e, k), d), if p <= |code| then |code| - p else 0, 1
  {
    hide Fetch, Starts, Boundary, PlayOf, LaidOut, LoopAt, Reps, GoodPlay, Turn, TurnPlay;
    DoPlayed(code, s, p, e, k, d);
    match e
    case Empty => PlayGood(code, s, p, k, d);
    case Cat(l, r) =>
      RepsCat(code, p, l, r, k);
      assert FitK(Do(r, k));
      assert Weight(Do(r, k), d) == Size(r) + Weight(k, d);
      PlayGood(code, s, p, Do(l, Do(r, k)), d);
    case Alt(l, r) =>
      AltReps(code, p, e, k);
      var q := p + 6 + Len(l);
      PlayGood(code, s, p + 3, Do(l, k), d);
      PlayGood(code, s, q, Do(r, k), d);
      GoodTry(code, PlayOf(code, s, p + 3, Do(l, k), d), PlayOf(code, s, q, Do(r, k), d),
              Explore(s, Do(l, k), d), Explore(s, Do(r, k), d));
    case Group(reg, _, body) =>
      RepsClose(code, p, e, d, k);
      assert FitK(Close(reg, d, k));
      assert Weight(Close(reg, d, k), d) == 1 + Weight(k, d);
      PlayGood(code, s, p + 3, Do(body, Close(reg, d, k)), d);
    case Repeat(_, _) => RepeatGood(code, s, p, e, k, d);
    case _ => LeafGood(code, s, p, e, k, d);
  }

  lemma {:induction false} LeafGood(code: seq<byte>, s: Subject, p: nat, e: Re, k: Kont, d: nat)
    requires d <= |s.text| && Direct(code, p, Do(e, k)) && Starts(code, p) && FitK(Do(e, k)) && Leaf(e)
    ensures GoodPlay(code, PlayOf(code, s, p, Do(e, k), d), Explore(s, Do(e, k), d))
    decreases |s.text| - d, Weight(Do(e, k), d), 0, 0
  {
    hide Fetch, Starts, Boundary, PlayOf, LaidOut, Reps, GoodPlay, Explore;
    LeafEndBounds(s, e, d);
    LeafExplore(s, e, k, d);
    LeafPlay(code, s, p, e, k, d);
    if LeafEnd(s, e, d) < 0 { DeadGood(code); } else { PlayGood(code, s, p + Len(e), k, LeafEnd(s, e, d)); }
  }

  lemma {:induction false} RepeatGood(code: seq<byte>, s: Subject, p: nat, e: Re, k: Kont, d: nat)
    requires d <= |s.text| && Direct(code, p, Do(e, k)) && Starts(code, p) && FitK(Do(e, k)) && e.Repeat?
    ensures GoodPlay(code, PlayOf(code, s, p, Do(e, k), d), Explore(s, Do(e, k), d))
    decreases |s.text| - d, Size(e) + Weight(k, d), if p <= |code| then |code| - p else 0, 0
  {
    hide Fetch, Starts, Boundary, PlayOf, LaidOut, LoopAt, Reps, Turn, TurnPlay, GoodPlay;
    DoPlayed(code, s, p, e, k, d);
    var body := e.body;
    match e.op
    case Opt =>
      OptReps(code, p, e, k);
      var exit := p + 3 + Len(body);
      assert p + Len(e) == exit;
      PlayGood(code, s, p + 3, Do(body, k), d);
      PlayGood(code, s, exit, k, d);
      GoodTry(code, PlayOf(code, s, p + 3, Do(body, k), d), PlayOf(code, s, exit, k, d),
              Explore(s, Do(body, k), d), Explore(s, k, d));
    case Star =>
      StarReps(code, p, e, k);
      PlayGood(code, s, p, Again(e, k), d);
    case Plus =>
      DoReps(code, p, e, k);
      PlusParts(code, p, e, k);
      PlusGood(code, s, p + 3, e, k, d);
  }

  /** The first iteration of a loop that must run once, with a dummy put aside. */
  lemma {:induction false} PlusGood(code: seq<byte>, s: Subject, t: nat, e: Re, k: Kont, d: nat)
    requires d <= |s.text| && Starts(code, t) && e.Repeat? && e.op.Plus? && FitK(Do(e, k))
    requires LoopAt(e.body, code, t) && Reps(code, t + Len(e.body) + 6, k)
    ensures e.body.Group? ==>
      GoodPlay(code, Try(PlayOf(code, s, t + 6, Do(e.body.body, Loop(e, d, k)), d), Dead), Explore(s, Do(e, k), d))
    ensures Single(e.body) ==>
      GoodPlay(code, Try(TurnPlay(code, s, t, e, k, d), Dead), Explore(s, Do(e, k), d))
    decreases |s.text| - d, Size(e) - 1 + Weight(k, d), 0, 0
  {
    hide Fetch, Starts, Boundary, PlayOf, LaidOut, LoopAt, Reps, Turn, TurnPlay, GoodPlay;
    var body := e.body;
    if body.Group? {
      LoopReps(code, t, e, d, k);
      FitLoop(e, d, k);
      var k' := Do(body.body, Loop(e, d, k));
      assert Weight(Loop(e, d, k), d) == 1 + Weight(k, d);
      assert Size(e) == Size(body) + 3 && Size(body) == Size(body.body) + 2;
      PlayGood(code, s, t + 6, k', d);
      GoodMark(code, true, PlayOf(code, s, t + 6, k', d), Explore(s, k', d));
    } else {
      AgainReps(code, t, e, k);
      DeadGood(code);
      TurnGood(code, s, t, e, k, d, Dead, DeadEnd);
      ForkDead(code, Try(TurnPlay(code, s, t, e, k, d), Dead), Turn(s, e, k, d));
    }
  }

  lemma ForkDead(code: seq<byte>, t: Play, tree: Tree)
    requires GoodPlay(code, t, Fork(tree, DeadEnd))
    ensures GoodPlay(code, t, tree)
  {
    hide PeekSafe, PopSafe, Tame, Fair;
    forall x: nat | Finds(tree, x)
      ensures Finds(Fork(tree, DeadEnd), x)
    {}
  }

  lemma StarReps(code: seq<byte>, p: nat, e: Re, k: Kont)
    requires e.Repeat? && e.op.Star? && Starts(code, p) && Direct(code, p, Do(e, k))
    ensures Reps(code, p, Again(e, k))
  {
    hide Fetch, Boundary, Starts, LoopAt;
    assert Direct(code, p, Again(e, k));
  }

  // ----- the whole pattern -----

  /** The play of a pattern reaches matches only; all of them, when no operand byte
      is taken for an opcode; and is fair, when every pop is justified. */
  lemma WholePlay(e: Re, code: seq<byte>, s: Subject, start: nat)
    requires Fit(e) && LaidOut(e, code, 0) && Len(e) == |code| && start <= |s.text|
    ensures var t := PlayOf(code, s, 0, Do(e, Halt), start);
      && (forall x: nat :: Reaches(t, x) ==> Match(e, s, start, x))
      && (PeekSafe(code) ==> forall x: nat :: Match(e, s, start, x) ==> Reaches(t, x))
      && (PopSafe(code) ==> Fair(t, Tame(code)))
  {
    hide PlayOf, Explore, LaidOut, PeekSafe, PopSafe, Fetch, Boundary, Fair, Match, Tame;
    FitIsShaped(e);
    var t := PlayOf(code, s, 0, Do(e, Halt), start);
    WholeReps(e, code);
    PlayGood(code, s, 0, Do(e, Halt), start);
    forall x: nat
      ensures Reaches(t, x) ==> Match(e, s, start, x)
      ensures PeekSafe(code) && Match(e, s, start, x) ==> Reaches(t, x)
    {
      ExploreCorrect(s, e, start, x);
      if Reaches(t, x) { PlaySound(code, s, 0, Do(e, Halt), start, x); }
    }
  }

  lemma WholeReps(e: Re, code: seq<byte>)
    requires LaidOut(e, code, 0) && Len(e) == |code| && Fit(e)
    ensures Reps(code, 0, Do(e, Halt)) && FitK(Do(e, Halt))
  {
    hide LaidOut, Fetch, Boundary;
    StartAtZero(code);
    LaidOutStarts(e, code, 0);
    assert Reps(code, Len(e), Halt);
  }
}
