/** What follows a loop decides whether its failure points matter.

    If only group commands lie between the loop and the end of the pattern, the
    rest of the work succeeds wherever it starts; if a literal byte follows, it
    fails wherever the subject does not show that byte. */
module Choices {
  import opened Octets
  import opened RegexLang
  import opened Backtrack
  import opened Bytecode
  import opened Machine
  import opened Rewriting
  import opened Invariant
  import opened InvariantFacts
  import opened Plays

  lemma RepsCat(code: seq<byte>, p: nat, l: Re, r: Re, k: Kont)
    requires Starts(code, p) && LaidOut(Cat(l, r), code, p) && Reps(code, p + Len(Cat(l, r)), k)
    ensures Reps(code, p, Do(l, Do(r, k)))
  {
    hide Fetch, Boundary, Starts, LaidOut;
    CatLaidOut(l, r, code, p);
    LaidOutStarts(l, code, p);
    assert p + Len(Cat(l, r)) == p + Len(l) + Len(r);
    assert Direct(code, p + Len(l), Do(r, k));
    assert Direct(code, p, Do(l, Do(r, k)));
  }

  /** The closing command of a group, after its body. */
  lemma RepsClose(code: seq<byte>, p: nat, e: Re, start: nat, k: Kont)
    requires e.Group? && Starts(code, p) && LaidOut(e, code, p) && Reps(code, p + Len(e), k)
    ensures Reps(code, p + 3, Do(e.body, Close(e.reg, start, k)))
    ensures Starts(code, p + 3 + Len(e.body)) && ClosesAt(code, p + 3 + Len(e.body), e.reg)
    ensures StopAddr(code, p + 3 + Len(e.body)) + 3 == p + Len(e)
  {
    hide Fetch, Boundary, Starts, LaidOut;
    GroupParts(e, code, p);
    GroupStarts(e, code, p);
    var q := p + 3 + Len(e.body);
    assert ClosesAt(code, q, e.reg);
    assert StopAddr(code, q) + 3 == p + Len(e);
    assert Direct(code, q, Close(e.reg, start, k));
    assert Direct(code, p + 3, Do(e.body, Close(e.reg, start, k)));
  }

  lemma RepeatHead(e: Re, code: seq<byte>, p: nat)
    requires e.Repeat? && LaidOut(e, code, p)
    ensures Fetch(code, p).OnFailureJump? || Fetch(code, p).DummyFailureJump?
  {
    hide Fetch;
    assert e.op.Star? || e.op.Plus? || e.op.Opt?;
  }

  /** Nothing but group commands is passed before the place `SkipGroups` finds. */
  ghost predicate Arrived(code: seq<byte>, p: nat, k: Kont) {
    (k.Halt? && p == |code|) || (k.Do? && k.e.Exact? && Fetch(code, p) == ExactN(k.e.cs))
  }

  /** One step of the work towards that place, consuming nothing. */
  lemma {:induction false} Approach(code: seq<byte>, p: nat, s: Subject, k: Kont, d: nat)
    returns (p': nat, k': Kont)
    requires Reps(code, p, k) && d <= |s.text|
    requires SkipGroups(code, p) == |code| || Fetch(code, SkipGroups(code, p)).ExactN?
    requires !Arrived(code, p, k)
    ensures Reps(code, p', k') && SkipGroups(code, p') == SkipGroups(code, p)
    ensures PlayOf(code, s, p', k', d) == PlayOf(code, s, p, k, d) && Weight(k', d) < Weight(k, d)
  {
    hide Fetch, Boundary, Starts, PlayOf, LaidOut, LoopAt;
    NoFetch(code);
    SkipStops(code, p);
    assert Direct(code, p, k);
    match k
    case Close(reg, start, rest) =>
      SkipOne(code, p);
      ClosePlay(code, s, p, reg, start, rest, d);
      p', k' := p + 3, rest;
    case Do(e, rest) => p', k' := ApproachDo(code, p, s, e, rest, d);
    case Again(e, rest) =>
      LoopParts(e.body, code, p);
      assert false;
    case Loop(e, _, rest) =>
      LoopBehind(code, p, e, rest);
      assert false;
    case Halt => assert false;
  }

  lemma SkipOne(code: seq<byte>, p: nat)
    requires Fetch(code, p).StartMemory? || Fetch(code, p).StopMemory?
    ensures SkipGroups(code, p) == SkipGroups(code, p + 3)
  {
    hide Fetch;
  }

  /** Anything but a group command stops the skipping. */
  lemma SkipStops(code: seq<byte>, p: nat)
    ensures !(Fetch(code, p).StartMemory? || Fetch(code, p).StopMemory?) ==> SkipGroups(code, p) == p
  {
    hide Fetch;
  }

  lemma ClosePlay(code: seq<byte>, s: Subject, p: nat, reg: nat, start: nat, k: Kont, d: nat)
    requires d <= |s.text| && Direct(code, p, Close(reg, start, k))
    ensures PlayOf(code, s, p, Close(reg, start, k), d) ==
            Marking(StopAddr(code, p) != p, PlayOf(code, s, StopAddr(code, p) + 3, k, d))
  {
    hide Fetch, Reps;
  }

  lemma {:induction false} ApproachDo(code: seq<byte>, p: nat, s: Subject, e: Re, rest: Kont, d: nat)
    returns (p': nat, k': Kont)
    requires Starts(code, p) && LaidOut(e, code, p) && Reps(code, p + Len(e), rest) && d <= |s.text|
    requires SkipGroups(code, p) == |code| || Fetch(code, SkipGroups(code, p)).ExactN?
    requires !(e.Exact? && Fetch(code, p) == ExactN(e.cs))
    ensures Reps(code, p', k') && SkipGroups(code, p') == SkipGroups(code, p)
    ensures PlayOf(code, s, p', k', d) == PlayOf(code, s, p, Do(e, rest), d)
    ensures Weight(k', d) < Weight(Do(e, rest), d)
  {
    hide Fetch, Boundary, Starts, Reps, LaidOut, PlayOf, LoopAt;
    NoFetch(code);
    SkipStops(code, p);
    DoPlayed(code, s, p, e, rest, d);
    match e {
      case Empty => p', k' := p, rest;
      case Cat(l, r) =>
        RepsCat(code, p, l, r, rest);
        assert Weight(Do(r, rest), d) == Size(r) + Weight(rest, d);
        p', k' := p, Do(l, Do(r, rest));
      case Group(reg, _, body) =>
        GroupParts(e, code, p);
        SkipOne(code, p);
        RepsClose(code, p, e, d, rest);
        assert Weight(Close(reg, d, rest), d) == 1 + Weight(rest, d);
        p', k' := p + 3, Do(body, Close(reg, d, rest));
      case Repeat(_, _) =>
        RepeatHead(e, code, p);
        assert false;
      case Alt(_, _) =>
        AltParts(code, p, e);
        assert false;
      case _ =>
        LeafHead(e, code, p);
        assert false;
    }
  }

  lemma DoPlayed(code: seq<byte>, s: Subject, p: nat, e: Re, k: Kont, d: nat)
    requires d <= |s.text| && Direct(code, p, Do(e, k))
    ensures PlayOf(code, s, p, Do(e, k), d) == DoPlay(code, s, p, e, k, d)
    ensures e.Empty? ==> PlayOf(code, s, p, Do(e, k), d) == PlayOf(code, s, p, k, d)
    ensures e.Cat? ==> PlayOf(code, s, p, Do(e, k), d) == PlayOf(code, s, p, Do(e.l, Do(e.r, k)), d)
    ensures e.Group? ==> PlayOf(code, s, p, Do(e, k), d) == PlayOf(code, s, p + 3, Do(e.body, Close(e.reg, d, k)), d)
  {
    hide Fetch, Direct;
  }

  lemma LeafHead(e: Re, code: seq<byte>, p: nat)
    requires LaidOut(e, code, p) && (e.Exact? || e.Any? || e.Charset? || e.Bol? || e.Eol?)
    ensures if e.Exact? then Fetch(code, p) == ExactN(e.cs)
            else var i := Fetch(code, p); i.AnyChar? || i.Bracket? || i.BegLine? || i.EndLine?
  {
    hide Fetch;
  }

  /** Behind the group of a loop comes its closing jump. */
  lemma LoopBehind(code: seq<byte>, p: nat, e: Re, k: Kont)
    requires Direct(code, p, Loop(e, 0, k))
    ensures var i := Fetch(code, p);
      i.PushDummyFailure? || (i.StopMemory? && Fetch(code, p + 3).MaybePopJump?)
  {
    hide Fetch, Reps, Starts;
    LoopParts(e.body, code, StopAddr(code, p) - Len(e.body));
  }

  /** Only group commands up to the end: the work ends where it starts. */
  lemma {:induction false} GroupsToEnd(code: seq<byte>, p: nat, s: Subject, k: Kont, d: nat)
    requires Reps(code, p, k) && SkipGroups(code, p) == |code| && d <= |s.text|
    ensures PlayOf(code, s, p, k, d) == End(d)
    decreases Weight(k, d)
  {
    hide Fetch, Boundary, Starts;
    NoFetch(code);
    if !Arrived(code, p, k) {
      var p', k' := Approach(code, p, s, k, d);
      GroupsToEnd(code, p', s, k', d);
    }
  }

  /** Group commands and then the byte `c`, which the subject does not show at
      `d`: the work fails. */
  lemma {:induction false} GroupsToByte(code: seq<byte>, p: nat, s: Subject, k: Kont, d: nat, c: byte)
    requires Reps(code, p, k) && d <= |s.text|
    requires Fetch(code, SkipGroups(code, p)).ExactN? && [c] <= Fetch(code, SkipGroups(code, p)).cs
    requires d == |s.text| || s.text[d] != c
    ensures PlayOf(code, s, p, k, d) == Dead
    decreases Weight(k, d)
  {
    hide Fetch, Boundary, Starts;
    NoFetch(code);
    if Arrived(code, p, k) {
      var cs := Fetch(code, p).cs;
      if d + |cs| <= |s.text| { assert s.text[d..d + |cs|][0] == s.text[d]; }
    } else {
      var p', k' := Approach(code, p, s, k, d);
      GroupsToByte(code, p', s, k', d, c);
    }
  }
}
