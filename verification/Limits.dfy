/** Where the matcher misses matches, and when exactly.

    - The byte two before a `stop_memory` is taken for an opcode.  When it is 5 the
      group is treated as having matched nothing, and its loop is left early.
    - The bit count of a map is cut to eight bits, so that a full map looks empty
      when a closing jump is settled. */
module Limits {
  import opened Octets
  import opened RegexLang
  import opened Backtrack
  import opened Bytecode
  import opened Codegen
  import opened Machine
  import opened Rewriting
  import opened Invariant
  import opened Plays
  import opened PlaySteps
  import opened MatchTheorem
  import opened Verdict
  import opened Outcome
  import opened Longest
  import opened Room
  import opened Search
  import opened Forks
  import opened Ere
  import opened Parse
  import opened Compilation
  import opened Posix

  // ----- right and wrong -----

  ghost predicate RightAnswer(e: Re, s: Subject, start: nat, result: int) {
    || result == OVERFLOW
    || (result >= 0 && Match(e, s, start, start + result))
    || (result == NO_MATCH && forall j: nat :: !Match(e, s, start, j))
  }

  /** Every run of the matcher ends with a right answer. */
  ghost predicate AlwaysRight(e: Re, code: seq<byte>, nsub: nat) {
    forall s: Subject, start: nat, limit: nat, result: int, code': seq<byte> ::
      start <= |s.text| && RunsTo(Env(s, start, limit), nsub, code, result, code') ==> RightAnswer(e, s, start, result)
  }

  /** Safe code is always right. */
  lemma SafeRight(e: Re, code: seq<byte>, nsub: nat)
    requires Compiled(e, code, nsub) && Safe(code)
    ensures AlwaysRight(e, code, nsub)
  {
    hide Compiled, RunsTo, Safe, Match, Returns, Related;
    SelfRelated(code);
    forall s: Subject, start: nat, limit: nat, result: int, code': seq<byte> |
      start <= |s.text| && RunsTo(Env(s, start, limit), nsub, code, result, code')
      ensures RightAnswer(e, s, start, result)
    {
      RunReturns(e, code, nsub, Env(s, start, limit), code, result, code');
      ReturnsRight(e, code, nsub, s, start);
    }
  }

  /** A miss shows in a run, given room. */
  lemma MissIsWrong(e: Re, code: seq<byte>, nsub: nat, s: Subject, start: nat, j: nat)
    requires Compiled(e, code, nsub) && start <= |s.text|
    requires Returns(e, code, s, start) == NO_MATCH && Match(e, s, start, j)
    ensures !AlwaysRight(e, code, nsub)
  {
    hide Compiled, RunsTo, Match, Returns, Related, Enough;
    SelfRelated(code);
    var env := Env(s, start, Enough(|s.text|, |code|, nsub));
    var result, code' := RunOf(e, code, nsub, env, code);
    NoOverflow(e, code, nsub, env, code, result, code');
    RunReturns(e, code, nsub, env, code, result, code');
    assert !RightAnswer(e, s, start, result);
  }

  /** What is returned is a matter of the code alone. */
  lemma CodeDecides(e: Re, f: Re, code: seq<byte>, nsub: nat, s: Subject, start: nat)
    requires Compiled(e, code, nsub) && Compiled(f, code, nsub) && start <= |s.text|
    ensures Returns(e, code, s, start) == Returns(f, code, s, start)
  {
    hide Compiled, RunsTo, Returns, Related, Enough;
    SelfRelated(code);
    var env := Env(s, start, Enough(|s.text|, |code|, nsub));
    var result, code' := RunOf(e, code, nsub, env, code);
    NoOverflow(e, code, nsub, env, code, result, code');
    RunReturns(e, code, nsub, env, code, result, code');
    RunReturns(f, code, nsub, env, code, result, code');
  }

  // ----- the byte before a stop_memory -----

  /** A repeated group that ends with group number 5, as in `((a)(b)(c)(d))*`: the
      number of the inner group is the byte looked at. */
  lemma FifthGroupLast(op: Op, reg: nat, inner: nat, x: Re, j: nat, body: Re, code: seq<byte>, p: nat)
    requires !op.Opt? && Starts(code, p)
    requires LaidOut(Repeat(op, Group(reg, inner, Cat(x, Group(5, j, body)))), code, p)
    ensures !PeekSafe(code)
  {
    hide Fetch, Boundary, Starts, LaidOut, LoopAt;
    var five := Group(5, j, body);
    var g := Group(reg, inner, Cat(x, five));
    var t := GroupInLoop(op, g, code, p);
    CatLaidOut(x, five, code, t + 3);
    LaidOutStarts(x, code, t + 3);
    FifthStop(j, body, code, t + 3 + Len(x));
    var stop := t + 3 + Len(x) + Len(five);
    assert stop == t + 3 + Len(g.body);
    assert Starts(code, stop) && code[stop - 2] == 5;
  }

  lemma FifthStop(j: nat, body: Re, code: seq<byte>, q: nat)
    requires LaidOut(Group(5, j, body), code, q) && Starts(code, q)
    ensures var stop := q + Len(Group(5, j, body)); Starts(code, stop) && 2 <= stop <= |code| && code[stop - 2] == 5
  {
    hide Fetch, Boundary, LaidOut, LoopAt;
    var five := Group(5, j, body);
    GroupParts(five, code, q);
    GroupStarts(five, code, q);
    StopBytes(code, q + Len(five) - 3, 5, j);
  }

  /** The group of a loop, at `t`, and the closing jump behind it. */
  lemma GroupInLoop(op: Op, g: Re, code: seq<byte>, p: nat) returns (t: nat)
    requires g.Group? && !g.body.Alt? && !op.Opt? && Starts(code, p) && LaidOut(Repeat(op, g), code, p)
    ensures Starts(code, t) && Starts(code, t + 3) && LaidOut(g.body, code, t + 3)
    ensures Fetch(code, t + 3 + Len(g.body)).StopMemory? && Fetch(code, t + 6 + Len(g.body)).MaybePopJump?
  {
    hide Fetch, Boundary, Starts, LaidOut, LoopAt;
    RepeatParts(Repeat(op, g), code, p);
    var head := if op.Plus? then p + 3 else p;
    if op.Plus? { StartsNext(code, p); }
    LoopStarts(g, code, head);
    LoopParts(g, code, head);
    t := head + 3;
    GroupParts(g, code, t);
    GroupStarts(g, code, t);
    assert head + 3 + Len(g) == t + 6 + Len(g.body);
  }

  /** `(xy)*`, and `(xy)*$`. */
  function Pairs(x: byte, y: byte): Re {
    Repeat(Star, Group(1, 0, Exact([x, y])))
  }

  function PairsToEnd(x: byte, y: byte): Re {
    Cat(Pairs(x, y), Eol)
  }

  /** The loop over pairs is at `b`, with nothing or a `begline` before it, and the
      end of the line behind. */
  ghost predicate PairsCode(x: byte, y: byte, code: seq<byte>, b: nat) {
    && LaidOut(Pairs(x, y), code, b) && LaidOut(Eol, code, b + 16) && |code| == b + 17
    && (b == 0 || (b == 1 && Fetch(code, 0) == BegLine))
  }

  lemma PairsPlaces(x: byte, y: byte, code: seq<byte>, b: nat)
    requires PairsCode(x, y, code, b)
    ensures Fetch(code, b) == OnFailureJump(13) && Fetch(code, b + 3) == StartMemory(1, 0)
    ensures Fetch(code, b + 6) == ExactN([x, y]) && Fetch(code, b + 10) == StopMemory(1, 0)
    ensures Fetch(code, b + 13) == MaybePopJump(-16) && Fetch(code, b + 16) == EndLine
    ensures Starts(code, b) && Starts(code, b + 3) && Starts(code, b + 6) && Starts(code, b + 10)
    ensures Starts(code, b + 13) && Starts(code, b + 16) && Starts(code, b + 17)
    ensures code[b + 8] == x
  {
    hide Fetch, Starts, Boundary, LaidOut, LoopAt;
    PairsFetches(x, y, code, b);
    StartAtZero(code);
    if b == 1 { StartsNext(code, 0); }
    StartsNext(code, b);
    StartsNext(code, b + 3);
    StartsNext(code, b + 6);
    StartsNext(code, b + 10);
    StartsNext(code, b + 13);
    StartsNext(code, b + 16);
  }

  lemma PairsFetches(x: byte, y: byte, code: seq<byte>, b: nat)
    requires PairsCode(x, y, code, b)
    ensures Fetch(code, b) == OnFailureJump(13) && Fetch(code, b + 3) == StartMemory(1, 0)
    ensures Fetch(code, b + 6) == ExactN([x, y]) && Fetch(code, b + 10) == StopMemory(1, 0)
    ensures Fetch(code, b + 13) == MaybePopJump(-16) && Fetch(code, b + 16) == EndLine
    ensures code[b + 8] == x
  {
    hide Fetch, LaidOut, LoopAt;
    var g := Group(1, 0, Exact([x, y]));
    RepeatParts(Pairs(x, y), code, b);
    LoopParts(g, code, b);
    GroupParts(g, code, b + 3);
    PairBytes(x, y, code, b + 6);
    EolFetch(code, b + 16);
  }

  lemma EolFetch(code: seq<byte>, p: nat)
    requires LaidOut(Eol, code, p)
    ensures Fetch(code, p) == EndLine
  {}

  lemma PairBytes(x: byte, y: byte, code: seq<byte>, p: nat)
    requires LaidOut(Exact([x, y]), code, p)
    ensures Fetch(code, p) == ExactN([x, y]) && p + 4 <= |code| && code[p + 2] == x
  {
    assert code[p + 2] == code[p + 2..p + 2 + code[p + 1]][0];
  }

  /** It is safe exactly when the first byte is not 5. */
  lemma PairsSafe(x: byte, y: byte, code: seq<byte>, b: nat)
    requires PairsCode(x, y, code, b)
    ensures Safe(code) <==> x != START_MEMORY
  {
    hide Fetch, Starts, CanPop, LaidOut, ExcludesNext;
    PairsPlaces(x, y, code, b);
    PairsNoPop(code, b);
    forall q: nat | Starts(code, q) && (Fetch(code, q).StopMemory? || Fetch(code, q).MaybePopJump?)
      ensures q == b + 10 || q == b + 13
    {
      PairsStops(x, y, code, b, q);
    }
    assert PopSafe(code);
  }

  lemma PairsNoPop(code: seq<byte>, b: nat)
    requires Fetch(code, b + 16) == EndLine && |code| == b + 17
    ensures !CanPop(code, b + 13)
  {
    hide Fetch;
  }

  lemma PairsStops(x: byte, y: byte, code: seq<byte>, b: nat, q: nat)
    requires PairsCode(x, y, code, b) && Starts(code, q)
    requires Fetch(code, q).StopMemory? || Fetch(code, q).MaybePopJump?
    ensures q == b + 10 || q == b + 13
  {
    hide Fetch, Starts, LaidOut;
    PairsPlaces(x, y, code, b);
    if b == 1 { StartAtZero(code); Between(code, 0, b, q); }
    Between(code, b, b + 3, q);
    Between(code, b + 3, b + 6, q);
    Between(code, b + 6, b + 10, q);
    Between(code, b + 10, b + 13, q);
    Between(code, b + 13, b + 16, q);
    Between(code, b + 16, b + 17, q);
    NothingBehind(code, q);
  }

  lemma PairsFit(x: byte, y: byte)
    ensures Fit(Pairs(x, y)) && Fit(Eol) && Fit(Bol)
    ensures Numbered(Pairs(x, y), 1) && After(Pairs(x, y), 1) == 2
    ensures Numbered(Eol, 2) && After(Eol, 2) == 2
  {
    var g := Group(1, 0, Exact([x, y]));
    assert Fit(g.body) && Fit(g);
    assert Numbered(g.body, 2) && After(g.body, 2) == 2 && Numbered(g, 1) && After(g, 1) == 2;
  }

  /** Two pairs. */
  function TwoPairs(x: byte, y: byte): Subject {
    Subject([x, y, x, y], false, false)
  }

  lemma TwoPairsMatch(x: byte, y: byte)
    ensures Match(Pairs(x, y), TwoPairs(x, y), 0, 4) && Match(PairsToEnd(x, y), TwoPairs(x, y), 0, 4)
  {
    var s, g := TwoPairs(x, y), Group(1, 0, Exact([x, y]));
    assert s.text[0..2] == [x, y] && s.text[2..4] == [x, y];
    assert Match(g, s, 0, 2) && Match(g, s, 2, 4);
    assert Power(g, s, 0, 4, 4);
    assert Power(g, s, 1, 2, 4);
    assert Power(g, s, 2, 0, 4);
    assert Allows(Star, 2);
    assert Match(Pairs(x, y), s, 0, 4) && Match(Eol, s, 4, 4);
  }

  /** When the first byte is 5 the loop is left after one pair, wherever that is. */
  lemma PairsPlay(x: byte, y: byte, code: seq<byte>, b: nat)
    requires PairsCode(x, y, code, b) && x == START_MEMORY
    ensures PlayOf(code, TwoPairs(x, y), b, Do(Pairs(x, y), Do(Eol, Halt)), 0) == Try(Dead, Dead)
  {
    hide Fetch, Direct, PlayOf, LaidOut, Starts, Boundary;
    PairsPlaces(x, y, code, b);
    var s, k, e := TwoPairs(x, y), Do(Eol, Halt), Pairs(x, y);
    assert s.text[0..2] == [x, y];
    Here(code, s, b, e, k, 0);
    AgainAt(code, s, b, e, k, 0);
    LeafHere(code, s, b + 6, Exact([x, y]), Loop(e, 0, k), 0);
    LoopHere(code, s, b + 10, e, k, 2);
    LeafHere(code, s, b + 16, Eol, Halt, 0);
    LeafHere(code, s, b + 16, Eol, Halt, 2);
  }

  lemma LoopHere(code: seq<byte>, s: Subject, p: nat, e: Re, k: Kont, d: nat)
    requires IsGroupLoop(e) && Fetch(code, p).StopMemory? && p >= Len(e.body) && Peeks(code, p) && d <= |s.text|
    ensures PlayOf(code, s, p, Loop(e, 0, k), d) == PlayOf(code, s, p + 6, k, d)
  {
    hide Fetch, Direct;
  }

  /** `(xy)*$` is matched rightly on every input exactly when `x` is not the byte 5. */
  lemma PeekRight(x: byte, y: byte, code: seq<byte>)
    requires LaidOut(PairsToEnd(x, y), code, 0) && Len(PairsToEnd(x, y)) == |code|
    ensures AlwaysRight(PairsToEnd(x, y), code, 1) <==> x != START_MEMORY
  {
    CatLaidOut(Pairs(x, y), Eol, code, 0);
    hide Fetch, LaidOut, Match, PlayOf, Safe, AlwaysRight, LoopAt, Fit, Numbered, After;
    PairsLen(x, y);
    PairsSafe(x, y, code, 0);
    var e := PairsToEnd(x, y);
    PairsCompiled(x, y, code);
    if x == START_MEMORY {
      var s := TwoPairs(x, y);
      PairsPlaces(x, y, code, 0);
      CatHere(code, s, 0, Pairs(x, y), Eol, Halt, 0);
      PairsPlay(x, y, code, 0);
      DeadTwice(4);
      TwoPairsMatch(x, y);
      MissIsWrong(e, code, 1, s, 0, 4);
    } else {
      SafeRight(e, code, 1);
    }
  }

  lemma PairsCompiled(x: byte, y: byte, code: seq<byte>)
    requires LaidOut(PairsToEnd(x, y), code, 0) && Len(PairsToEnd(x, y)) == |code|
    ensures Compiled(PairsToEnd(x, y), code, 1)
  {
    hide LaidOut, Pairs, Fit, Numbered, After, Len;
    PairsFit(x, y);
    CatFits(Pairs(x, y), Eol, 1);
  }

  lemma CatFits(l: Re, r: Re, b: nat)
    requires Fit(l) && Fit(r) && Numbered(l, b) && Numbered(r, After(l, b))
    ensures Fit(Cat(l, r)) && Numbered(Cat(l, r), b) && After(Cat(l, r), b) == After(r, After(l, b))
  {}

  lemma PairsLen(x: byte, y: byte)
    ensures Len(Pairs(x, y)) == 16 && Len(PairsToEnd(x, y)) == 17
  {
    assert Len(Group(1, 0, Exact([x, y]))) == 10;
  }

  /** `^(xy)*$`. */
  function PairsAnchored(x: byte, y: byte): Re {
    Cat(Cat(Bol, Pairs(x, y)), Eol)
  }

  ghost predicate AnchoredCode(x: byte, y: byte, code: seq<byte>) {
    LaidOut(PairsAnchored(x, y), code, 0) && Len(PairsAnchored(x, y)) == |code|
  }

  lemma AnchoredParts(x: byte, y: byte, code: seq<byte>)
    requires AnchoredCode(x, y, code)
    ensures PairsCode(x, y, code, 1) && Compiled(PairsAnchored(x, y), code, 1) && Fetch(code, 0) == BegLine
  {
    hide Fetch, LoopAt, LaidOut;
    PairsLen(x, y);
    assert Len(Cat(Bol, Pairs(x, y))) == 17;
    CatLaidOut(Cat(Bol, Pairs(x, y)), Eol, code, 0);
    CatLaidOut(Bol, Pairs(x, y), code, 0);
    BolFetch(code);
    PairsFit(x, y);
    AnchoredNumbered(x, y);
  }

  lemma BolFetch(code: seq<byte>)
    requires LaidOut(Bol, code, 0)
    ensures Fetch(code, 0) == BegLine
  {}

  lemma AnchoredNumbered(x: byte, y: byte)
    ensures var e := PairsAnchored(x, y); Fit(e) && Numbered(e, 1) && After(e, 1) == 2
  {
    PairsFit(x, y);
    hide Pairs;
    assert Numbered(Bol, 1) && After(Bol, 1) == 1;
    assert Numbered(Cat(Bol, Pairs(x, y)), 1) && After(Cat(Bol, Pairs(x, y)), 1) == 2;
  }

  /** No start but the first gets past the anchor, and there the loop is left early. */
  lemma AnchoredNoHit(x: byte, y: byte, code: seq<byte>, i: nat)
    requires AnchoredCode(x, y, code) && x == START_MEMORY
    ensures !Hit(PairsAnchored(x, y), code, TwoPairs(x, y), i)
  {
    hide Fetch, LaidOut, PlayOf, Compiled, Starts, PairsCode, AnchoredCode, Boundary, Returns;
    AnchoredParts(x, y, code);
    PairsPlaces(x, y, code, 1);
    var e, s := PairsAnchored(x, y), TwoPairs(x, y);
    if i <= 4 {
      CatHere(code, s, 0, e.l, Eol, Halt, i);
      CatHere(code, s, 0, Bol, Pairs(x, y), Do(Eol, Halt), i);
      LeafHere(code, s, 0, Bol, Do(Pairs(x, y), Do(Eol, Halt)), i);
      PairsPlay(x, y, code, 1);
      DeadMiss(e, code, s, i);
    }
  }

  /** A play with no end finds nothing. */
  lemma DeadMiss(e: Re, code: seq<byte>, s: Subject, i: nat)
    requires i <= |s.text|
    requires var t := PlayOf(code, s, 0, Do(e, Halt), i); t == Dead || t == Try(Dead, Dead)
    ensures Returns(e, code, s, i) == NO_MATCH
  {
    hide PlayOf, Visits;
    DeadTwice(|s.text|);
  }

  lemma AnchoredMatch(x: byte, y: byte)
    ensures Match(PairsAnchored(x, y), TwoPairs(x, y), 0, 4)
  {
    TwoPairsMatch(x, y);
    hide Match;
    var s := TwoPairs(x, y);
    assert Match(Bol, s, 0, 0) && Match(Eol, s, 4, 4) by { Anchors(s); }
    CatIs(Bol, Pairs(x, y), s, 0, 0, 4);
    CatIs(Cat(Bol, Pairs(x, y)), Eol, s, 0, 4, 4);
  }

  lemma Anchors(s: Subject)
    requires !s.notBol && !s.notEol
    ensures Match(Bol, s, 0, 0) && Match(Eol, s, |s.text|, |s.text|)
  {}

  /** The expression `xy`, and `(xy)*`. */
  function Pair(x: byte, y: byte): Ere {
    Then(Then(Nothing, Lit(x)), Lit(y))
  }

  function PairLoop(x: byte, y: byte): Ere {
    Iter(Paren(Pair(x, y)), Star)
  }

  /** The expression `^(xy)*$`. */
  function Anchored(x: byte, y: byte): Ere {
    Then(Then(Then(Nothing, Caret), PairLoop(x, y)), Dollar)
  }

  lemma AnchoredSupported(x: byte, y: byte)
    requires x != 0 && y != 0
    ensures Supported(Anchored(x, y)) && Parens(Anchored(x, y)) == 1
  {
    hide Branch, Piece, Alternatives, PairLoop, Parens;
    LitPiece(x);
    LoopPiece(x, y);
    var anchor, front := Then(Nothing, Caret), Then(Then(Nothing, Caret), PairLoop(x, y));
    Chain(Nothing, Caret);
    Chain(anchor, PairLoop(x, y));
    Chain(front, Dollar);
    NoParens();
    ThenParens(Nothing, Caret);
    ThenParens(anchor, PairLoop(x, y));
    ThenParens(front, Dollar);
  }

  lemma LoopPiece(x: byte, y: byte)
    requires x != 0 && y != 0
    ensures Piece(PairLoop(x, y)) && Parens(PairLoop(x, y)) == 1
  {
    hide Branch;
    var first := Then(Nothing, Lit(x));
    LitPiece(x);
    LitPiece(y);
    Chain(Nothing, Lit(x));
    Chain(first, Lit(y));
    assert Parens(Lit(x)) == 0 && Parens(first) == 0 && Parens(Lit(y)) == 0;
    ThenParens(first, Lit(y));
    StarOf(Paren(Pair(x, y)));
    assert Piece(Paren(Pair(x, y)));
  }

  /** A group with a single `*`. */
  lemma StarOf(a: Ere)
    requires a.Paren?
    ensures var e := Iter(a, Star);
      Base(e) == a && Starred(e) && Ops(e) == [Star] && Tokens(e) == Tokens(a) + [TOps([Star])]
  {
    assert Base(a) == a && Ops(a) == [];
    assert [] + [Star] == [Star];
  }

  lemma NoParens()
    ensures Parens(Nothing) == 0 && Parens(Caret) == 0 && Parens(Dollar) == 0
  {}

  lemma ThenParens(l: Ere, r: Ere)
    ensures Parens(Then(l, r)) == Parens(l) + Parens(r)
  {}

  lemma LitPiece(c: byte)
    requires c != 0
    ensures Piece(Lit(c)) && Piece(Caret) && Piece(Dollar) && Branch(Nothing)
  {}

  lemma Chain(l: Ere, r: Ere)
    requires Branch(l) && Piece(r)
    ensures Branch(Then(l, r)) && Alternatives(Then(l, r))
  {}

  lemma AnchoredTokens(x: byte, y: byte)
    ensures Tokens(Anchored(x, y)) == [TCaret, TOpen, TLit(x), TLit(y), TClose, TOps([Star]), TDollar]
  {
    hide Tokens, PairLoop;
    var loop := [TOpen, TLit(x), TLit(y), TClose, TOps([Star])];
    var front := [TCaret, TOpen, TLit(x), TLit(y), TClose, TOps([Star])];
    LoopTokens(x, y);
    SingleTokens(x);
    OwnTokens(Then(Nothing, Caret));
    assert [] + [TCaret] == [TCaret];
    OwnTokens(Then(Then(Nothing, Caret), PairLoop(x, y)));
    assert [TCaret] + loop == front;
    OwnTokens(Then(Then(Then(Nothing, Caret), PairLoop(x, y)), Dollar));
    assert front + [TDollar] == [TCaret, TOpen, TLit(x), TLit(y), TClose, TOps([Star]), TDollar];
  }

  lemma LoopTokens(x: byte, y: byte)
    ensures Tokens(PairLoop(x, y)) == [TOpen, TLit(x), TLit(y), TClose, TOps([Star])]
  {
    hide Tokens, Base, Ops, Pair;
    PairTokens(x, y);
    StarOf(Paren(Pair(x, y)));
    OwnTokens(Paren(Pair(x, y)));
    assert [TOpen] + [TLit(x), TLit(y)] == [TOpen, TLit(x), TLit(y)];
    assert [TOpen, TLit(x), TLit(y)] + [TClose] == [TOpen, TLit(x), TLit(y), TClose];
    assert [TOpen, TLit(x), TLit(y), TClose] + [TOps([Star])] == [TOpen, TLit(x), TLit(y), TClose, TOps([Star])];
  }

  lemma PairTokens(x: byte, y: byte)
    ensures Tokens(Pair(x, y)) == [TLit(x), TLit(y)]
  {
    hide Tokens;
    SingleTokens(x);
    SingleTokens(y);
    OwnTokens(Then(Nothing, Lit(x)));
    assert [] + [TLit(x)] == [TLit(x)];
    OwnTokens(Then(Then(Nothing, Lit(x)), Lit(y)));
    assert [TLit(x)] + [TLit(y)] == [TLit(x), TLit(y)];
  }

  lemma SingleTokens(c: byte)
    ensures Tokens(Nothing) == [] && Tokens(Lit(c)) == [TLit(c)]
    ensures Tokens(Caret) == [TCaret] && Tokens(Dollar) == [TDollar]
  {}

  /** The level behind the anchor, and the pair being read inside the group. */
  function Behind(e: Re): Level {
    Level([], Cat(Cat(NOTHING, Bol), Empty), e, false, 1)
  }

  function InPair(cs: seq<byte>): Ctx {
    Ctx([Open(Behind(Empty), 1)], Level([], NOTHING, Exact(cs), true, 2), 1)
  }

  /** What is read of it: the same tree, up to empty expressions. */
  function AnchoredRead(x: byte, y: byte): Re {
    var loop := Repeat(Star, Group(1, 0, Cat(NOTHING, Exact([x, y]))));
    Cat(Cat(Cat(Behind(Empty).front, loop), Eol), Empty)
  }

  lemma PairReads(x: byte, y: byte, rest: seq<Token>)
    requires First(rest) == Some(TClose)
    ensures ReadAll(InitCtx(), [TCaret] + ([TOpen] + ([TLit(x)] + ([TLit(y)] + rest)))) == ReadAll(InPair([x, y]), rest)
  {
    hide ReadAll;
    var r3 := [TLit(y)] + rest;
    var r2 := [TLit(x)] + r3;
    var l1 := Level([], Cat(NOTHING, Bol), Empty, false, 1);
    ReadStep(InitCtx(), TCaret, [TOpen] + r2, Ctx([], l1, 0));
    assert [] + [Open(Behind(Empty), 1)] == [Open(Behind(Empty), 1)];
    ReadStep(Ctx([], l1, 0), TOpen, r2, Ctx([Open(Behind(Empty), 1)], FreshLevel(2), 1));
    ReadStep(Ctx([Open(Behind(Empty), 1)], FreshLevel(2), 1), TLit(x), r3, InPair([x]));
    assert [x] + [y] == [x, y];
    ReadStep(InPair([x]), TLit(y), rest, InPair([x, y]));
  }

  lemma LoopReads(x: byte, y: byte)
    ensures var g := Group(1, 0, Cat(NOTHING, Exact([x, y])));
      ReadAll(InPair([x, y]), [TClose] + ([TOps([Star])] + ([TDollar] + []))) ==
      Some(Ctx([], Level([], Cat(Cat(Behind(Empty).front, Repeat(Star, g)), Eol), Empty, false, 1), 1))
  {
    hide ReadAll;
    var r6 := [TDollar] + [];
    var g := Group(1, 0, Cat(NOTHING, Exact([x, y])));
    var done := Ctx([], Level([], Cat(Cat(Behind(Empty).front, Repeat(Star, g)), Eol), Empty, false, 1), 1);
    assert InPair([x, y]).outer[..0] == [];
    ReadStep(InPair([x, y]), TClose, [TOps([Star])] + r6, Ctx([], Behind(g), 1));
    assert Collapse([Star]) == Star;
    ReadStep(Ctx([], Behind(g), 1), TOps([Star]), r6, Ctx([], Behind(Repeat(Star, g)), 1));
    ReadStep(Ctx([], Behind(Repeat(Star, g)), 1), TDollar, [], done);
    ReadAllDone(done);
  }

  /** A sequence of seven, put together from the end. */
  lemma InPieces<T>(a: T, b: T, c: T, d: T, e: T, f: T, g: T)
    ensures [a, b, c, d, e, f, g] == [a] + ([b] + ([c] + ([d] + ([e] + ([f] + ([g] + []))))))
  {
    assert [f] + ([g] + []) == [f, g];
    assert [e] + [f, g] == [e, f, g];
    assert [d] + [e, f, g] == [d, e, f, g];
    assert [c] + [d, e, f, g] == [c, d, e, f, g];
    assert [b] + [c, d, e, f, g] == [b, c, d, e, f, g];
    assert [a] + [b, c, d, e, f, g] == [a, b, c, d, e, f, g];
  }

  lemma AnchoredReads(x: byte, y: byte)
    ensures CoreOf(Anchored(x, y)) == AnchoredRead(x, y)
  {
    hide ReadAll, Tokens, Anchored;
    AnchoredTokens(x, y);
    var rest := [TClose] + ([TOps([Star])] + ([TDollar] + []));
    PairReads(x, y, rest);
    LoopReads(x, y);
    InPieces(TCaret, TOpen, TLit(x), TLit(y), TClose, TOps([Star]), TDollar);
  }

  lemma AnchoredBytes(x: byte, y: byte)
    ensures CodeOf(Anchored(x, y)) == Bytes(PairsAnchored(x, y))
    ensures |CodeOf(Anchored(x, y))| == 18
  {
    hide Bytes, Len, CoreOf;
    AnchoredReads(x, y);
    BytesLen(PairsAnchored(x, y));
    AnchoredLen(x, y);
    var e, front := Exact([x, y]), Behind(Empty).front;
    var g, g' := Group(1, 0, e), Group(1, 0, Cat(NOTHING, e));
    NothingBytes(e);
    GroupAs(g, g');
    LoopAs(g, g');
    NothingBytes(Bol);
    EmptyBehind(Cat(NOTHING, Bol));
    CatAs(front, Repeat(Star, g'), Bol, Pairs(x, y));
    CatAs(Cat(front, Repeat(Star, g')), Eol, Cat(Bol, Pairs(x, y)), Eol);
    EmptyBehind(Cat(Cat(front, Repeat(Star, g')), Eol));
  }

  lemma AnchoredLen(x: byte, y: byte)
    ensures Len(PairsAnchored(x, y)) == 18
  {
    assert Len(Group(1, 0, Exact([x, y]))) == 10;
    assert Len(Cat(Bol, Pairs(x, y))) == 17;
  }

  lemma NothingBytes(e: Re)
    ensures Bytes(Cat(NOTHING, e)) == Bytes(e) && Len(Cat(NOTHING, e)) == Len(e)
  {
    assert Bytes(NOTHING) == [];
  }

  lemma EmptyBehind(e: Re)
    ensures Bytes(Cat(e, Empty)) == Bytes(e)
  {}

  lemma CatAs(l: Re, r: Re, l': Re, r': Re)
    requires Bytes(l) == Bytes(l') && Bytes(r) == Bytes(r')
    ensures Bytes(Cat(l, r)) == Bytes(Cat(l', r'))
  {}

  lemma GroupAs(g: Re, g': Re)
    requires g.Group? && g'.Group? && g.reg == g'.reg && g.inner == g'.inner && !g.body.Alt? && !g'.body.Alt?
    requires Bytes(g.body) == Bytes(g'.body) && Len(g.body) == Len(g'.body)
    ensures Bytes(g) == Bytes(g') && Len(g) == Len(g')
  {
    hide GroupOpen, GroupClose;
  }

  lemma LoopAs(g: Re, g': Re)
    requires Bytes(g) == Bytes(g') && Len(g) == Len(g')
    ensures Bytes(Repeat(Star, g)) == Bytes(Repeat(Star, g'))
  {
    hide Bytes, LoopBytes, Op1, Len;
    StarBytes(g);
    StarBytes(g');
  }

  lemma StarBytes(g: Re)
    ensures Bytes(Repeat(Star, g)) ==
            Op1(ON_FAILURE_JUMP, Len(g) + 3) + Bytes(g) + Op1(MAYBE_POP_JUMP, -(Len(g) + 6))
  {
    hide Op1, Len;
  }

  /** `regex_match` finds every occurrence of `^(xy)*$` exactly when `x` is not the
      byte 5; otherwise it answers no to the text of two pairs. */
  lemma AnchoredAnswer(x: byte, y: byte)
    requires x != 0 && y != 0
    ensures Supported(Anchored(x, y)) && |CodeOf(Anchored(x, y))| <= MAX_CODE
    ensures (forall s: Subject :: Occurs(Anchored(x, y), s) ==> Posix.Finds(Anchored(x, y), s)) <==> x != START_MEMORY
    ensures x == START_MEMORY ==>
      Occurs(Anchored(x, y), TwoPairs(x, y)) && !Posix.Finds(Anchored(x, y), TwoPairs(x, y))
  {
    hide CoreOf, CodeOf, Compiled, Framed, Supported, MeansSame, Occurs, Match, Means, Safe, LaidOut, Reads;
    hide Anchored, Hit;
    var e, code, core := Anchored(x, y), CodeOf(Anchored(x, y)), CoreOf(Anchored(x, y));
    AnchoredSupported(x, y);
    AnchoredBytes(x, y);
    CoreFacts(e);
    AnchoredLaidOut(x, y);
    AnchoredParts(x, y, code);
    if x == START_MEMORY {
      var s := TwoPairs(x, y);
      AnchoredMatch(x, y);
      AnchoredNumbered(x, y);
      ReadsMatches(PairsAnchored(x, y), code, s, 0, 4);
      CodeMeans(e);
      assert Reads(code, s, 0, 4) && Means(e, s, 0, 4);
      TheyOccur(e, s, 0, 4);
      forall i: nat
        ensures !Hit(core, code, s, i)
      {
        AnchoredNoHit(x, y, code, i);
        SameHit(core, PairsAnchored(x, y), code, 1, s, i);
      }
    } else {
      PairsSafe(x, y, code, 1);
      forall s: Subject | Occurs(e, s)
        ensures Posix.Finds(e, s)
      {
        FindsOccurs(e, s);
      }
    }
  }

  lemma SameHit(e: Re, f: Re, code: seq<byte>, nsub: nat, s: Subject, i: nat)
    requires Compiled(e, code, nsub) && Compiled(f, code, nsub)
    ensures Hit(e, code, s, i) <==> Hit(f, code, s, i)
  {
    hide Compiled, Returns;
    if i <= |s.text| { CodeDecides(e, f, code, nsub, s, i); }
  }

  lemma AnchoredEncodable(x: byte, y: byte)
    ensures Encodable(PairsAnchored(x, y))
  {
    assert Encodable(Exact([x, y]));
    assert Encodable(Pairs(x, y)) && Encodable(Cat(Bol, Pairs(x, y)));
  }

  lemma AnchoredLaidOut(x: byte, y: byte)
    ensures AnchoredCode(x, y, Bytes(PairsAnchored(x, y)))
  {
    hide LaidOut, Bytes;
    var e := PairsAnchored(x, y);
    AnchoredBytes(x, y);
    BytesLen(e);
    WholeHas(Bytes(e));
    AnchoredEncodable(x, y);
    BytesLaidOut(e, Bytes(e), 0);
  }

  // ----- the bit count of a map -----

  /** `[...]*c`. */
  function SetThenByte(bits: seq<byte>, c: byte): Re {
    Cat(Repeat(Star, Charset(false, bits)), Exact([c]))
  }

  ghost predicate SetCode(bits: seq<byte>, c: byte, code: seq<byte>) {
    LaidOut(SetThenByte(bits, c), code, 0) && Len(SetThenByte(bits, c)) == |code| && |bits| <= 32
  }

  /** Where everything is. */
  lemma SetPlaces(bits: seq<byte>, c: byte, code: seq<byte>)
    requires SetCode(bits, c, code)
    ensures var x := 5 + |bits|;
      && |code| == x + 6 && Fetch(code, 0) == OnFailureJump(|bits| + 5) && Fetch(code, 3) == Bracket(false, bits)
      && Fetch(code, x) == MaybePopJump(-(|bits| + 8)) && Fetch(code, x + 3) == ExactN([c])
      && Starts(code, 3) && Starts(code, x) && Starts(code, x + 3) && Whole(code)
  {
    hide Fetch, Boundary, Starts, LoopAt;
    var body := Charset(false, bits);
    StartAtZero(code);
    LaidOutStarts(SetThenByte(bits, c), code, 0);
    CatLaidOut(Repeat(Star, body), Exact([c]), code, 0);
    RepeatParts(Repeat(Star, body), code, 0);
    LoopParts(body, code, 0);
    LoopStarts(body, code, 0);
    assert Len(body) == 2 + |bits|;
    StartsNext(code, 5 + |bits|);
  }

  lemma SetDecision(bits: seq<byte>, c: byte, code: seq<byte>)
    requires SetCode(bits, c, code)
    ensures CanPop(code, 5 + |bits|) <==> !(c < |bits| * 8 % 256 && Bit(bits[c / 8], c % 8))
    ensures SkipGroups(code, 8 + |bits|) == 8 + |bits|
  {
    SetPlaces(bits, c, code);
    hide Fetch, Boundary, Starts, Bit;
  }

  /** The closing jumps of other loops: there are none. */
  lemma OnlyLoop(bits: seq<byte>, c: byte, code: seq<byte>, y: nat)
    requires SetCode(bits, c, code) && Starts(code, y)
    requires Fetch(code, y).MaybePopJump? || Fetch(code, y).StopMemory?
    ensures y == 5 + |bits| && Fetch(code, y).MaybePopJump?
  {
    hide Fetch, Starts, Boundary, SetCode;
    SetPlaces(bits, c, code);
    var x := 5 + |bits|;
    StartAtZero(code);
    Between(code, 0, 3, y);
    Between(code, 3, x, y);
    Between(code, x, x + 3, y);
    Between(code, x + 3, x + 6, y);
    NothingBehind(code, y);
  }

  lemma Between(code: seq<byte>, a: nat, b: nat, y: nat)
    requires Starts(code, a) && Starts(code, y) && Fetch(code, a) != Bad && b == a + Width(Fetch(code, a))
    ensures a < y ==> y >= b
  {
    hide Fetch;
    if a < y { NothingInside(code, 0, a, y); }
  }

  lemma NothingBehind(code: seq<byte>, y: nat)
    ensures y >= |code| ==> Fetch(code, y) == Bad
  {}

  /** The pattern is safe exactly when its map is short or does not hold the byte. */
  lemma SetSafe(bits: seq<byte>, c: byte, code: seq<byte>)
    requires SetCode(bits, c, code)
    ensures PopSafe(code) <==> !(|bits| == 32 && InMap(bits, c))
    ensures PeekSafe(code)
  {
    SetPlaces(bits, c, code);
    SetDecision(bits, c, code);
    hide Fetch, Starts, CanPop, Bit, SkipGroups;
    var x := 5 + |bits|;
    assert CanPop(code, x) ==> (ExcludesNext(code, x) <==> !InMap(bits, c));
    forall y: nat | Starts(code, y) && (Fetch(code, y).MaybePopJump? || Fetch(code, y).StopMemory?)
      ensures y == x && Fetch(code, y).MaybePopJump?
    {
      OnlyLoop(bits, c, code, y);
    }
  }

  lemma SetMatches(bits: seq<byte>, c: byte, s: Subject)
    requires s.text == [c]
    ensures Match(SetThenByte(bits, c), s, 0, 1)
  {
    var body := Charset(false, bits);
    assert Power(body, s, 0, 0, 0) && Allows(Star, 0);
    assert Match(Repeat(Star, body), s, 0, 0);
    assert s.text[0..1] == [c];
    assert Match(Exact([c]), s, 0, 1);
  }

  /** With a full map that holds the byte, the choice to stop before it is dropped. */
  lemma SetPlay(bits: seq<byte>, c: byte, code: seq<byte>, s: Subject)
    requires SetCode(bits, c, code) && |bits| == 32 && InMap(bits, c) && s.text == [c]
    ensures PlayOf(code, s, 0, Do(SetThenByte(bits, c), Halt), 0) ==
            Try(Drop(Try(Dead, Dead)), PlayOf(code, s, 40, Do(Exact([c]), Halt), 0))
  {
    hide Fetch, Direct, PlayOf, LaidOut, Starts, CanPop, SkipGroups, Bit, SetCode, InMap, Boundary;
    SetPlaces(bits, c, code);
    SetDecision(bits, c, code);
    var e, k := Repeat(Star, Charset(false, bits)), Do(Exact([c]), Halt);
    CatHere(code, s, 0, e, Exact([c]), Halt, 0);
    Here(code, s, 0, e, k, 0);
    SetAgain(code, s, e, k, 0);
    SetAgain(code, s, e, k, 1);
    LeafHere(code, s, 40, Exact([c]), Halt, 1);
  }

  lemma SetAgain(code: seq<byte>, s: Subject, e: Re, k: Kont, d: nat)
    requires e.Repeat? && e.body.Charset? && !Fetch(code, 0).JumpPastAlt? && d <= |s.text|
    ensures PlayOf(code, s, 0, Again(e, k), d) ==
            Try(TurnPlay(code, s, 0, e, k, d), PlayOf(code, s, Len(e.body) + 6, k, d))
  {
    hide Fetch, Direct, TurnPlay;
  }

  /** `[...]*c` with a full map that holds `c` matches the string `c`, and the
      matcher misses it. */
  lemma SetMisses(bits: seq<byte>, c: byte, code: seq<byte>)
    requires SetCode(bits, c, code) && |bits| == 32 && InMap(bits, c)
    ensures var s := Subject([c], false, false);
      Match(SetThenByte(bits, c), s, 0, 1) && Returns(SetThenByte(bits, c), code, s, 0) == NO_MATCH
  {
    var s := Subject([c], false, false);
    SetMatches(bits, c, s);
    hide Bit, LaidOut, Match, PlayOf;
    SetPlay(bits, c, code, s);
    var b := PlayOf(code, s, 40, Do(Exact([c]), Halt), 0);
    TryTurn(true, Try(Dead, Dead), b, [], 1);
    DeadTwice(1);
  }

  lemma SetFit(bits: seq<byte>, c: byte)
    requires |bits| <= 32
    ensures var e := SetThenByte(bits, c); Fit(e) && Numbered(e, 1) && After(e, 1) == 1
  {
    var body := Charset(false, bits);
    assert Fit(body) && Fit(Repeat(Star, body)) && Fit(Exact([c]));
    assert After(body, 1) == 1 && After(Repeat(Star, body), 1) == 1 && After(Exact([c]), 1) == 1;
    assert Numbered(body, 1) && Numbered(Repeat(Star, body), 1) && Numbered(Exact([c]), 1);
  }

  /** The matcher is right about `[...]*c` on every input exactly when the map is
      shorter than 32 bytes or does not hold the byte. */
  lemma SetRight(bits: seq<byte>, c: byte, code: seq<byte>)
    requires SetCode(bits, c, code)
    ensures AlwaysRight(SetThenByte(bits, c), code, 0) <==> !(|bits| == 32 && InMap(bits, c))
  {
    SetFit(bits, c);
    SetSafe(bits, c, code);
    hide Bit, LaidOut, Match, PopSafe, PeekSafe, AlwaysRight, Returns, Fit, Numbered, After;
    var e := SetThenByte(bits, c);
    assert Compiled(e, code, 0);
    if |bits| == 32 && InMap(bits, c) {
      SetMisses(bits, c, code);
      MissIsWrong(e, code, 0, Subject([c], false, false), 0, 1);
    } else {
      SafeRight(e, code, 0);
    }
  }
}
