/** Where the match returned is not the longest, and when exactly.

    - At the end of the pattern with nothing left to try, the best match remembered is
      returned without a look at the one just found: `u|uv`.
    - A repeated group with nothing behind it drops a choice made inside of it each
      time round: `(xy?(yz)?)*`. */
module NotLongest {
  import opened Octets
  import opened RegexLang
  import opened Backtrack
  import opened Bytecode
  import opened Machine
  import opened Rewriting
  import opened Invariant
  import opened Plays
  import opened PlaySteps
  import opened MatchTheorem
  import opened Verdict
  import opened Outcome
  import opened Longest

  // ----- an end overtaken -----

  /** `u|uv`. */
  function Either(u: seq<byte>, v: seq<byte>): Re {
    Alt(Exact(u), Exact(u + v))
  }

  ghost predicate EitherCode(u: seq<byte>, v: seq<byte>, code: seq<byte>) {
    |v| > 0 && LaidOut(Either(u, v), code, 0) && Len(Either(u, v)) == |code|
  }

  function Literal(s: Subject, i: nat, cs: seq<byte>): Play {
    if Shows(s, i, cs) then End(i + |cs|) else Dead
  }

  lemma EitherPlay(u: seq<byte>, v: seq<byte>, code: seq<byte>, s: Subject, i: nat)
    requires EitherCode(u, v, code) && i <= |s.text|
    ensures |u| > 0
    ensures PlayOf(code, s, 0, Do(Either(u, v), Halt), i) == Try(Literal(s, i, u), Literal(s, i, u + v))
  {
    hide Fetch, Direct, PlayOf, LaidOut;
    EitherPlaces(u, v, code);
    NoFetch(code);
    Here(code, s, 0, Either(u, v), Halt, i);
    LeafHere(code, s, 3, Exact(u), Halt, i);
    LeafHere(code, s, 8 + |u|, Exact(u + v), Halt, i);
    if Shows(s, i, u) {
      EitherHop(code, s, 5 + |u|, i + |u|);
      EndHere(code, s, i + |u|);
    }
    if Shows(s, i, u + v) { EndHere(code, s, i + |u + v|); }
  }

  lemma EitherPlaces(u: seq<byte>, v: seq<byte>, code: seq<byte>)
    requires EitherCode(u, v, code)
    ensures |u| > 0 && |code| == 10 + |u| + |u + v| && Fetch(code, 0) == OnFailureJump(|u| + 5)
    ensures Fetch(code, 3) == ExactN(u) && Fetch(code, 5 + |u|) == JumpPastAlt(|u + v| + 2)
    ensures Fetch(code, 8 + |u|) == ExactN(u + v)
  {
    hide Fetch, LaidOut;
    AltParts(code, 0, Either(u, v));
    ExactParts(u, code, 3);
    ExactParts(u + v, code, 8 + |u|);
  }

  /** Past the other alternative, to the end. */
  lemma EitherHop(code: seq<byte>, s: Subject, p: nat, d: nat)
    requires d <= |s.text| && p < |code| && Fetch(code, p).JumpPastAlt?
    requires Fetch(code, p).off >= 0 && p + 3 + Fetch(code, p).off == |code|
    ensures PlayOf(code, s, p, Halt, d) == PlayOf(code, s, |code|, Halt, d)
  {
    hide Fetch;
    assert Hops(code, p, Halt);
  }

  lemma EitherMatch(u: seq<byte>, v: seq<byte>, s: Subject, i: nat, j: nat)
    ensures Match(Either(u, v), s, i, j) <==>
            (j == i + |u| && Shows(s, i, u)) || (j == i + |u + v| && Shows(s, i, u + v))
  {
    if i <= j <= |s.text| { assert |s.text[i..j]| == j - i; }
  }

  function Once(t: Play, left: nat): seq<Visit> {
    if t.End? then [Visit(t.at, left)] else []
  }

  lemma TwoVisits(a: Play, b: Play, size: nat)
    requires (a.End? || a.Dead?) && (b.End? || b.Dead?)
    ensures Visits(Try(a, b), [], size) == Once(a, 1) + if a.End? && a.at == size then [] else Once(b, 0)
  {
    hide Load, PlaySize;
    TryTurn(false, a, b, [], size);
    assert [] + [b] == [b] && [b][..0] == [];
    assert Resume([b], size) == Visits(b, [], size) && Resume([], size) == [];
  }

  lemma ShowsFirst(s: Subject, i: nat, u: seq<byte>, v: seq<byte>)
    ensures Shows(s, i, u + v) ==> Shows(s, i, u)
  {
    if Shows(s, i, u + v) {
      forall k | 0 <= k < |u|
        ensures s.text[i + k] == u[k]
      {
        assert s.text[i..i + |u + v|][k] == (u + v)[k];
      }
    }
  }

  /** The ends come to. */
  lemma EitherVisits(u: seq<byte>, v: seq<byte>, code: seq<byte>, s: Subject, i: nat)
    requires EitherCode(u, v, code) && i <= |s.text|
    ensures AllVisits(Either(u, v), code, s, i) ==
            if !Shows(s, i, u) then []
            else [Visit(i + |u|, 1)] + if Shows(s, i, u + v) then [Visit(i + |u + v|, 0)] else []
  {
    hide PlayOf, LaidOut, Visits;
    EitherPlay(u, v, code, s, i);
    var a, b, size := Literal(s, i, u), Literal(s, i, u + v), |s.text|;
    ShowsFirst(s, i, u, v);
    TwoVisits(a, b, size);
  }

  /** `u|uv` gives the longest match from `i` exactly when the text from there does
      not begin with `uv` and go on. */
  lemma EitherLongest(u: seq<byte>, v: seq<byte>, code: seq<byte>, s: Subject, i: nat)
    requires EitherCode(u, v, code) && i <= |s.text|
    ensures var r := Returns(Either(u, v), code, s, i);
      && (r >= 0 <==> Shows(s, i, u))
      && (r >= 0 ==> (IsLongest(Either(u, v), s, i, r) <==> !(Shows(s, i, u + v) && i + |u + v| < |s.text|)))
  {
    hide AllVisits, Match, LaidOut;
    EitherVisits(u, v, code, s, i);
    var e, r, size := Either(u, v), Returns(Either(u, v), code, s, i), |s.text|;
    forall j: nat
      ensures Match(e, s, i, j) <==> (j == i + |u| && Shows(s, i, u)) || (j == i + |u + v| && Shows(s, i, u + v))
    {
      EitherMatch(u, v, s, i, j);
    }
    if Shows(s, i, u) && Shows(s, i, u + v) {
      var last := [Visit(i + |u + v|, 0)];
      AnswerLast(i, size, Best(i + |u|), last[0]);
      assert ([Visit(i + |u|, 1)] + last)[1..] == last;
      assert r == if i + |u + v| == size then size - i else |u|;
      assert Match(e, s, i, i + |u + v|);
    } else if Shows(s, i, u) {
      AnswerLast(i, size, NoBest, Visit(i + |u|, 1));
    }
  }

  lemma EitherCompiled(u: seq<byte>, v: seq<byte>, code: seq<byte>)
    requires EitherCode(u, v, code)
    ensures Compiled(Either(u, v), code, 0)
  {
    hide LaidOut;
    EitherPlaces(u, v, code);
    assert Fit(Exact(u)) && Fit(Exact(u + v));
    assert Numbered(Exact(u), 1) && Numbered(Exact(u + v), 1) && After(Exact(u), 1) == After(Exact(u + v), 1) == 1;
  }

  /** The same of every run of the matcher. */
  lemma EitherRuns(u: seq<byte>, v: seq<byte>, code: seq<byte>, env: Env, result: int, code': seq<byte>)
    requires EitherCode(u, v, code) && env.start <= |env.s.text| && RunsTo(env, 0, code, result, code')
    ensures var s, i := env.s, env.start;
      || result == OVERFLOW
      || (result == NO_MATCH && !Shows(s, i, u))
      || (result >= 0 && Shows(s, i, u) &&
          (IsLongest(Either(u, v), s, i, result) <==> !(Shows(s, i, u + v) && i + |u + v| < |s.text|)))
  {
    hide Compiled, Returns, RunsTo, Related, IsLongest, LaidOut, EitherCode;
    EitherCompiled(u, v, code);
    SelfRelated(code);
    RunReturns(Either(u, v), code, 0, env, code, result, code');
    ReturnsRight(Either(u, v), code, 0, env.s, env.start);
    EitherLongest(u, v, code, env.s, env.start);
  }

  // ----- a choice dropped -----

  /** `(xy?(yz)?)*`: a repeated group, and nothing behind it. */
  function Hasty(x: byte, y: byte, z: byte): Re {
    Repeat(Star, Group(1, 1, HastyBody(x, y, z)))
  }

  function HastyBody(x: byte, y: byte, z: byte): Re {
    Cat(Cat(Exact([x]), Repeat(Opt, Exact([y]))), Repeat(Opt, Group(2, 0, Exact([y, z]))))
  }

  ghost predicate HastyCode(x: byte, y: byte, z: byte, code: seq<byte>) {
    LaidOut(Hasty(x, y, z), code, 0) && Len(Hasty(x, y, z)) == |code|
  }

  lemma HastyLens(x: byte, y: byte, z: byte)
    ensures Len(Group(2, 0, Exact([y, z]))) == 10 && Len(Repeat(Opt, Group(2, 0, Exact([y, z])))) == 13
    ensures Len(Exact([y])) == 3 && Len(Repeat(Opt, Exact([y]))) == 6 && Len(HastyBody(x, y, z)) == 22
    ensures Len(Group(1, 1, HastyBody(x, y, z))) == 28 && Len(Hasty(x, y, z)) == 34
  {
    assert Len(Exact([x])) == 3 && Len(Exact([y])) == 3 && Len(Exact([y, z])) == 4;
    assert Len(Repeat(Opt, Exact([y]))) == 6 && Len(Cat(Exact([x]), Repeat(Opt, Exact([y])))) == 9;
    assert Len(Group(2, 0, Exact([y, z]))) == 10 && Len(Repeat(Opt, Group(2, 0, Exact([y, z])))) == 13;
  }

  lemma HastyPlaces(x: byte, y: byte, z: byte, code: seq<byte>)
    requires HastyCode(x, y, z, code)
    ensures |code| == 34 && Fetch(code, 0).OnFailureJump? && Fetch(code, 3).StartMemory?
    ensures Fetch(code, 6) == ExactN([x]) && Fetch(code, 9).OnFailureJump? && Fetch(code, 12) == ExactN([y])
    ensures Fetch(code, 15).OnFailureJump? && Fetch(code, 18).StartMemory? && Fetch(code, 21) == ExactN([y, z])
    ensures Fetch(code, 25).StopMemory? && Fetch(code, 28).StopMemory? && code[26] == 2
  {
    hide Fetch, LaidOut, LoopAt;
    HastyLens(x, y, z);
    var body, g2 := HastyBody(x, y, z), Group(2, 0, Exact([y, z]));
    var g := Group(1, 1, body);
    RepeatParts(Hasty(x, y, z), code, 0);
    LoopParts(g, code, 0);
    GroupParts(g, code, 3);
    CatLaidOut(body.l, body.r, code, 6);
    CatLaidOut(Exact([x]), Repeat(Opt, Exact([y])), code, 6);
    RepeatParts(Repeat(Opt, Exact([y])), code, 9);
    RepeatParts(Repeat(Opt, g2), code, 15);
    GroupParts(g2, code, 18);
    ExactParts([x], code, 6);
    ExactParts([y], code, 12);
    ExactParts([y, z], code, 21);
    StopBytes(code, 25, 2, 0);
  }

  /** At the closing jump with nothing behind it, what was put aside last is dropped. */
  lemma LoopDrops(code: seq<byte>, s: Subject, q: nat, e: Re, start: nat, d: nat)
    requires IsGroupLoop(e) && Fetch(code, q).StopMemory? && q >= Len(e.body) && q + 6 == |code|
    requires !Peeks(code, q) && start < d <= |s.text|
    ensures PlayOf(code, s, q, Loop(e, start, Halt), d) == Drop(PlayOf(code, s, q - Len(e.body), Again(e, Halt), d))
  {
    NoFetch(code);
    hide Fetch, Direct;
    assert CanPop(code, q + 3);
  }

  /** The work behind the second byte of the body, in an iteration begun at `d`. */
  function AfterY(x: byte, y: byte, z: byte, d: nat): Kont {
    Do(Repeat(Opt, Group(2, 0, Exact([y, z]))), Loop(Hasty(x, y, z), d, Halt))
  }

  /** The play of the loop. */
  ghost function Round(x: byte, y: byte, z: byte, code: seq<byte>, s: Subject, d: nat): Play
    requires d <= |s.text|
  {
    PlayOf(code, s, 0, Again(Hasty(x, y, z), Halt), d)
  }

  /** The play behind the second byte. */
  ghost function Behind(x: byte, y: byte, z: byte, code: seq<byte>, s: Subject, d: nat): Play
    requires d <= |s.text|
  {
    Try(if Shows(s, d, [y, z]) then Drop(Round(x, y, z, code, s, d + 2)) else Dead, Drop(Round(x, y, z, code, s, d)))
  }

  /** In front of the loop: the first byte is there, or the loop is over. */
  lemma RoundPlay(x: byte, y: byte, z: byte, code: seq<byte>, s: Subject, d: nat)
    requires HastyCode(x, y, z, code) && d <= |s.text|
    ensures var k := Do(Repeat(Opt, Exact([y])), AfterY(x, y, z, d));
      Round(x, y, z, code, s, d) == Try(if Shows(s, d, [x]) then PlayOf(code, s, 9, k, d + 1) else Dead, End(d))
  {
    hide Fetch, Direct, PlayOf, LaidOut, Len;
    HastyLens(x, y, z);
    HastyPlaces(x, y, z, code);
    var e, body := Hasty(x, y, z), HastyBody(x, y, z);
    AgainAt(code, s, 0, e, Halt, d);
    EndHere(code, s, d);
    CatHere(code, s, 6, body.l, body.r, Loop(e, d, Halt), d);
    CatHere(code, s, 6, Exact([x]), Repeat(Opt, Exact([y])), AfterY(x, y, z, d), d);
    LiteralHere(code, s, 6, [x], Do(Repeat(Opt, Exact([y])), AfterY(x, y, z, d)), d);
  }

  /** The group: its two bytes, and round again. */
  lemma InnerPlay(x: byte, y: byte, z: byte, code: seq<byte>, s: Subject, start: nat, d: nat)
    requires HastyCode(x, y, z, code) && start < d <= |s.text|
    ensures PlayOf(code, s, 18, Do(Group(2, 0, Exact([y, z])), Loop(Hasty(x, y, z), start, Halt)), d) ==
            if Shows(s, d, [y, z]) then Drop(Round(x, y, z, code, s, d + 2)) else Dead
  {
    hide Fetch, Direct, PlayOf, LaidOut, Len;
    HastyLens(x, y, z);
    HastyPlaces(x, y, z, code);
    var e, g2 := Hasty(x, y, z), Group(2, 0, Exact([y, z]));
    var k := Loop(e, start, Halt);
    Here(code, s, 18, g2, k, d);
    LiteralHere(code, s, 21, [y, z], Close(2, d, k), d);
    if Shows(s, d, [y, z]) {
      CloseHere(code, s, 25, 2, d, k, d + 2);
      LoopDrops(code, s, 28, e, start, d + 2);
    }
  }

  lemma CloseHere(code: seq<byte>, s: Subject, p: nat, reg: nat, start: nat, k: Kont, d: nat)
    requires d <= |s.text| && Fetch(code, p).StopMemory?
    ensures PlayOf(code, s, p, Close(reg, start, k), d) == PlayOf(code, s, p + 3, k, d)
  {
    hide Fetch, Direct;
  }

  lemma BehindPlay(x: byte, y: byte, z: byte, code: seq<byte>, s: Subject, start: nat, d: nat)
    requires HastyCode(x, y, z, code) && start < d <= |s.text|
    ensures PlayOf(code, s, 15, AfterY(x, y, z, start), d) == Behind(x, y, z, code, s, d)
  {
    hide Fetch, Direct, PlayOf, LaidOut, Len;
    HastyLens(x, y, z);
    HastyPlaces(x, y, z, code);
    var e, g2 := Hasty(x, y, z), Group(2, 0, Exact([y, z]));
    OptHere(code, s, 15, g2, Loop(e, start, Halt), d);
    InnerPlay(x, y, z, code, s, start, d);
    LoopDrops(code, s, 28, e, start, d);
  }

  /** Behind the first byte. */
  lemma BodyPlay(x: byte, y: byte, z: byte, code: seq<byte>, s: Subject, start: nat, d: nat)
    requires HastyCode(x, y, z, code) && start < d <= |s.text|
    ensures PlayOf(code, s, 9, Do(Repeat(Opt, Exact([y])), AfterY(x, y, z, start)), d) ==
            Try(if Shows(s, d, [y]) then Behind(x, y, z, code, s, d + 1) else Dead, Behind(x, y, z, code, s, d))
  {
    hide Fetch, Direct, PlayOf, LaidOut, Len, Behind;
    HastyLens(x, y, z);
    HastyPlaces(x, y, z, code);
    var k := AfterY(x, y, z, start);
    OptHere(code, s, 9, Exact([y]), k, d);
    LiteralHere(code, s, 12, [y], k, d);
    BehindPlay(x, y, z, code, s, start, d);
    if Shows(s, d, [y]) { BehindPlay(x, y, z, code, s, start, d + 1); }
  }

  // ----- playing it out -----

  lemma DeadFirst(b: Play, stack: seq<Play>, size: nat)
    ensures Visits(Try(Dead, b), stack, size) == Visits(b, stack, size)
  {
    hide Load, PlaySize;
    TryTurn(false, Dead, b, stack, size);
    assert (stack + [b])[..|stack|] == stack;
  }

  lemma TryFirst(a: Play, b: Play, stack: seq<Play>, size: nat)
    ensures Visits(Try(a, b), stack, size) == Visits(a, stack + [b], size)
  {
    TryTurn(false, a, b, stack, size);
  }

  lemma DropLast(rest: Play, stack: seq<Play>, t: Play, size: nat)
    ensures Visits(Drop(rest), stack + [t], size) == Visits(rest, stack, size)
  {
    hide Load, PlaySize;
    assert (stack + [t])[..|stack|] == stack;
  }

  /** What is come to from the loop at `d`. */
  ghost function Ends(x: byte, y: byte, z: byte, code: seq<byte>, s: Subject, d: nat, stack: seq<Play>): seq<Visit>
    requires d <= |s.text|
  {
    Visits(Round(x, y, z, code, s, d), stack, |s.text|)
  }

  /** No first byte: the loop is over. */
  lemma EndsNone(x: byte, y: byte, z: byte, code: seq<byte>, s: Subject, d: nat, stack: seq<Play>)
    requires HastyCode(x, y, z, code) && d <= |s.text| && !Shows(s, d, [x])
    ensures Ends(x, y, z, code, s, d, stack) == Visits(End(d), stack, |s.text|)
  {
    hide PlayOf, LaidOut, Visits, Round;
    RoundPlay(x, y, z, code, s, d);
    DeadFirst(End(d), stack, |s.text|);
  }

  /** Behind a first byte, with the way out of the loop put aside. */
  lemma EndsSome(x: byte, y: byte, z: byte, code: seq<byte>, s: Subject, d: nat)
    requires HastyCode(x, y, z, code) && d <= |s.text| && Shows(s, d, [x])
    ensures Ends(x, y, z, code, s, d, []) ==
            Visits(Try(if Shows(s, d + 1, [y]) then Behind(x, y, z, code, s, d + 2) else Dead, Behind(x, y, z, code, s, d + 1)),
                   [End(d)], |s.text|)
  {
    hide PlayOf, LaidOut, Visits, Round, Behind;
    RoundPlay(x, y, z, code, s, d);
    BodyPlay(x, y, z, code, s, d, d + 1);
    var a := Try(if Shows(s, d + 1, [y]) then Behind(x, y, z, code, s, d + 2) else Dead, Behind(x, y, z, code, s, d + 1));
    TryFirst(a, End(d), [], |s.text|);
    assert [] + [End(d)] == [End(d)];
  }

  /** Behind the second byte with no group there: round, and a choice dropped. */
  lemma EndsRound(x: byte, y: byte, z: byte, code: seq<byte>, s: Subject, d: nat, stack: seq<Play>, t: Play)
    requires d <= |s.text| && !Shows(s, d, [y, z])
    ensures Visits(Behind(x, y, z, code, s, d), stack + [t], |s.text|) == Ends(x, y, z, code, s, d, stack)
  {
    hide PlayOf, Visits, Round;
    var r := Round(x, y, z, code, s, d);
    DeadFirst(Drop(r), stack + [t], |s.text|);
    DropLast(r, stack, t, |s.text|);
  }

  /** The first byte alone: the way out of the loop is dropped. */
  lemma EndsX(x: byte, y: byte, z: byte, code: seq<byte>, s: Subject, d: nat)
    requires HastyCode(x, y, z, code) && d <= |s.text| && Shows(s, d, [x]) && !Shows(s, d + 1, [y])
    ensures Ends(x, y, z, code, s, d, []) == Ends(x, y, z, code, s, d + 1, [])
  {
    hide PlayOf, LaidOut, Visits, Round, Behind;
    EndsSome(x, y, z, code, s, d);
    DeadFirst(Behind(x, y, z, code, s, d + 1), [End(d)], |s.text|);
    NoPair(s, d + 1, y, z);
    EndsRound(x, y, z, code, s, d + 1, [], End(d));
    assert [] + [End(d)] == [End(d)];
  }

  lemma NoPair(s: Subject, d: nat, y: byte, z: byte)
    ensures Shows(s, d, [y, z]) ==> Shows(s, d, [y])
  {
    if Shows(s, d, [y, z]) { assert s.text[d..d + 1] == s.text[d..d + 2][..1] == [y]; }
  }

  /** The first two bytes and no group: the choice not to take the second is dropped. */
  lemma EndsXY(x: byte, y: byte, z: byte, code: seq<byte>, s: Subject, d: nat)
    requires HastyCode(x, y, z, code) && d <= |s.text| && Shows(s, d, [x]) && Shows(s, d + 1, [y])
    requires !Shows(s, d + 2, [y, z])
    ensures Ends(x, y, z, code, s, d, []) == Ends(x, y, z, code, s, d + 2, [End(d)])
  {
    hide PlayOf, LaidOut, Visits, Round, Behind;
    EndsSome(x, y, z, code, s, d);
    var b := Behind(x, y, z, code, s, d + 1);
    TryFirst(Behind(x, y, z, code, s, d + 2), b, [End(d)], |s.text|);
    EndsRound(x, y, z, code, s, d + 2, [End(d)], b);
  }

  /** The first two bytes and the group. */
  lemma EndsXYYZ(x: byte, y: byte, z: byte, code: seq<byte>, s: Subject, d: nat)
    requires HastyCode(x, y, z, code) && d <= |s.text| && Shows(s, d, [x]) && Shows(s, d + 1, [y])
    requires Shows(s, d + 2, [y, z])
    ensures Ends(x, y, z, code, s, d, []) == Ends(x, y, z, code, s, d + 4, [End(d), Behind(x, y, z, code, s, d + 1)])
  {
    hide PlayOf, LaidOut, Visits, Round;
    EndsSome(x, y, z, code, s, d);
    hide Behind;
    var b := Behind(x, y, z, code, s, d + 1);
    TryFirst(Behind(x, y, z, code, s, d + 2), b, [End(d)], |s.text|);
    assert [End(d)] + [b] == [End(d), b];
    BehindGroup(x, y, z, code, s, d + 2, [End(d), b]);
  }

  lemma BehindGroup(x: byte, y: byte, z: byte, code: seq<byte>, s: Subject, d: nat, stack: seq<Play>)
    requires d <= |s.text| && Shows(s, d, [y, z])
    ensures Visits(Behind(x, y, z, code, s, d), stack, |s.text|) == Ends(x, y, z, code, s, d + 2, stack)
  {
    hide PlayOf, Visits, Round;
    var last := Drop(Round(x, y, z, code, s, d));
    TryFirst(Drop(Round(x, y, z, code, s, d + 2)), last, stack, |s.text|);
    DropLast(Round(x, y, z, code, s, d + 2), stack, last, |s.text|);
  }

  // ----- where it stops -----

  /** The bytes of one iteration, as the matcher takes them from `d`. */
  function Taken(x: byte, y: byte, z: byte, s: Subject, d: nat): nat {
    if !Shows(s, d, [x]) then 0
    else if !Shows(s, d + 1, [y]) then 1
    else if !Shows(s, d + 2, [y, z]) then 2
    else 4
  }

  /** Where it stops when it takes them as long as it can. */
  function Stop(x: byte, y: byte, z: byte, s: Subject, d: nat): (e: nat)
    requires d <= |s.text|
    ensures d <= e <= |s.text|
    decreases |s.text| - d
  {
    if Taken(x, y, z, s, d) == 0 then d else Stop(x, y, z, s, d + Taken(x, y, z, s, d))
  }

  predicate Distinct(x: byte, y: byte, z: byte) {
    x != y && y != z && z != x
  }

  lemma NotBoth(s: Subject, d: nat, a: byte, b: byte)
    ensures a != b && Shows(s, d, [a]) ==> !Shows(s, d, [b])
  {}

  /** The loop at `d` comes to where it stops first, and nowhere further. */
  ghost predicate Foremost(v: seq<Visit>, e: nat) {
    |v| > 0 && v[0].at == e && forall w | w in v :: w.at <= e
  }

  lemma OneEnd(d: nat, stack: seq<Play>, size: nat)
    requires stack == []
    ensures Visits(End(d), stack, size) == [Visit(d, 0)]
  {
    assert Resume([], size) == [];
  }

  /** The loop from `d`, with work below of which nothing more is known than the ends
      it comes to. */
  lemma EndsOver(x: byte, y: byte, z: byte, code: seq<byte>, s: Subject, d: nat, below: seq<Play>, e: nat)
    requires HastyCode(x, y, z, code) && d <= |s.text| && Foremost(Ends(x, y, z, code, s, d, []), e)
    requires forall w | w in Resume(below, |s.text|) :: w.at <= e
    ensures Foremost(Ends(x, y, z, code, s, d, below), e)
  {
    hide PlayOf, LaidOut, Visits, Resume;
    var t, v := Round(x, y, z, code, s, d), Ends(x, y, z, code, s, d, []);
    PlayHolds(code, s, 0, Again(Hasty(x, y, z), Halt), d);
    OnTop(t, [], below, |s.text|);
    assert below + [] == below;
    assert Lifted(v, |below|)[0].at == v[0].at;
    forall w | w in Lifted(v, |below|)
      ensures w.at <= e
    {
      var i :| 0 <= i < |v| && Lifted(v, |below|)[i] == w;
      assert v[i] in v;
    }
  }

  lemma ResumeOne(d: nat, size: nat)
    ensures Resume([End(d)], size) == [Visit(d, 0)]
  {
    assert [End(d)][..0] == [];
    OneEnd(d, [], size);
  }

  /** After the group, the choice not to take the second byte leads nowhere further. */
  lemma ResumeSkip(x: byte, y: byte, z: byte, code: seq<byte>, s: Subject, d: nat)
    requires HastyCode(x, y, z, code) && d < |s.text| && !Shows(s, d + 1, [y, z]) && !Shows(s, d + 1, [x])
    ensures Resume([End(d), Behind(x, y, z, code, s, d + 1)], |s.text|) == [Visit(d + 1, 0)]
  {
    hide PlayOf, LaidOut, Visits, Behind, Round;
    var b := Behind(x, y, z, code, s, d + 1);
    ResumeTop(End(d), b, |s.text|);
    assert [] + [End(d)] == [End(d)];
    EndsRound(x, y, z, code, s, d + 1, [], End(d));
    EndsNone(x, y, z, code, s, d + 1, []);
    OneEnd(d + 1, [], |s.text|);
  }

  lemma ResumeTop(a: Play, b: Play, size: nat)
    ensures Resume([a, b], size) == Visits(b, [a], size)
  {
    assert [a, b][..1] == [a];
  }

  lemma {:induction false} EndsForemost(x: byte, y: byte, z: byte, code: seq<byte>, s: Subject, d: nat)
    requires HastyCode(x, y, z, code) && d <= |s.text| && Distinct(x, y, z)
    ensures Foremost(Ends(x, y, z, code, s, d, []), Stop(x, y, z, s, d))
    decreases |s.text| - d
  {
    hide LaidOut, Ends, Behind, Shows, HastyCode;
    var n, e := Taken(x, y, z, s, d), Stop(x, y, z, s, d);
    if n == 0 {
      EndsNone(x, y, z, code, s, d, []);
      OneEnd(d, [], |s.text|);
    } else {
      ShownThere(x, y, z, s, d);
      EndsForemost(x, y, z, code, s, d + n);
      if n == 1 {
        EndsX(x, y, z, code, s, d);
      } else if n == 2 {
        EndsXY(x, y, z, code, s, d);
        ResumeOne(d, |s.text|);
        EndsOver(x, y, z, code, s, d + 2, [End(d)], e);
      } else {
        EndsXYYZ(x, y, z, code, s, d);
        PairOther(x, y, z, s, d);
        ResumeSkip(x, y, z, code, s, d);
        EndsOver(x, y, z, code, s, d + 4, [End(d), Behind(x, y, z, code, s, d + 1)], e);
      }
    }
  }

  lemma ShownThere(x: byte, y: byte, z: byte, s: Subject, d: nat)
    ensures var n := Taken(x, y, z, s, d); n > 0 ==> d + n <= |s.text| && d < |s.text|
  {}

  lemma PairOther(x: byte, y: byte, z: byte, s: Subject, d: nat)
    requires Distinct(x, y, z) && Taken(x, y, z, s, d) == 4
    ensures !Shows(s, d + 1, [y, z]) && !Shows(s, d + 1, [x])
  {
    ShowsOne(s, d + 1, y);
    ShowsOne(s, d + 1, x);
    ShowsTwo(s, d + 1, y, z);
    ShowsTwo(s, d + 2, y, z);
    hide Shows;
  }

  lemma ShowsOne(s: Subject, d: nat, a: byte)
    ensures Shows(s, d, [a]) <==> d < |s.text| && s.text[d] == a
  {
    if d < |s.text| { assert s.text[d..d + 1] == [s.text[d]]; }
  }

  lemma ShowsTwo(s: Subject, d: nat, a: byte, b: byte)
    ensures Shows(s, d, [a, b]) <==> d + 1 < |s.text| && s.text[d] == a && s.text[d + 1] == b
  {
    if d + 1 < |s.text| { assert s.text[d..d + 2] == [s.text[d], s.text[d + 1]]; }
  }

  // ----- the matches -----

  lemma OptNone(e: Re, s: Subject, i: nat)
    requires i <= |s.text|
    ensures Match(Repeat(Opt, e), s, i, i)
  {
    assert Allows(Opt, 0) && Power(e, s, 0, i, i);
  }

  lemma PowerOnce(e: Re, s: Subject, i: nat, j: nat)
    requires Match(e, s, i, j) && j <= |s.text|
    ensures Power(e, s, 1, i, j)
  {
    assert Power(e, s, 0, j, j);
  }

  lemma GroupIs(reg: nat, inner: nat, body: Re, s: Subject, i: nat, j: nat)
    requires Match(body, s, i, j) && i <= j <= |s.text|
    ensures Match(Group(reg, inner, body), s, i, j)
  {}

  lemma StarIs(e: Re, s: Subject, n: nat, i: nat, j: nat)
    requires Power(e, s, n, i, j) && i <= j <= |s.text|
    ensures Match(Repeat(Star, e), s, i, j)
  {
    assert Allows(Star, n);
  }

  /** The bytes of one iteration, as the pattern allows them. */
  ghost predicate Word(x: byte, y: byte, z: byte, s: Subject, i: nat, k: nat) {
    || (k == i + 1 && Shows(s, i, [x]))
    || (k == i + 2 && Shows(s, i, [x]) && Shows(s, i + 1, [y]))
    || (k == i + 3 && Shows(s, i, [x]) && Shows(s, i + 1, [y, z]))
    || (k == i + 4 && Shows(s, i, [x]) && Shows(s, i + 1, [y]) && Shows(s, i + 2, [y, z]))
  }

  lemma OptIs(e: Re, s: Subject, i: nat, j: nat)
    ensures Match(Repeat(Opt, e), s, i, j) <==> i <= j <= |s.text| && (i == j || Match(e, s, i, j))
  {
    if Match(Repeat(Opt, e), s, i, j) {
      var n: nat :| Allows(Opt, n) && Power(e, s, n, i, j);
      if n == 1 {
        assert Power(e, s, 1, i, j);
        var k: nat :| Match(e, s, i, k) && Power(e, s, 0, k, j);
      }
    }
    if i <= j <= |s.text| && i == j { OptNone(e, s, i); }
    if i <= j <= |s.text| && Match(e, s, i, j) {
      PowerOnce(e, s, i, j);
      assert Allows(Opt, 1);
    }
  }

  lemma ExactIs(cs: seq<byte>, s: Subject, i: nat, j: nat)
    ensures Match(Exact(cs), s, i, j) <==> j == i + |cs| && Shows(s, i, cs)
  {
    if i <= j <= |s.text| { assert |s.text[i..j]| == j - i; }
  }

  lemma CatOf(l: Re, r: Re, s: Subject, i: nat, j: nat) returns (k: nat)
    requires Match(Cat(l, r), s, i, j)
    ensures Match(l, s, i, k) && Match(r, s, k, j) && i <= j <= |s.text|
  {
    k :| Match(l, s, i, k) && Match(r, s, k, j);
  }

  /** One iteration takes a word. */
  lemma GroupWord(x: byte, y: byte, z: byte, s: Subject, i: nat, k: nat)
    requires Match(Group(1, 1, HastyBody(x, y, z)), s, i, k)
    ensures Word(x, y, z, s, i, k)
  {
    var body, g2 := HastyBody(x, y, z), Group(2, 0, Exact([y, z]));
    assert Match(body, s, i, k);
    hide Match, Shows;
    var m := CatOf(body.l, body.r, s, i, k);
    var m1 := CatOf(Exact([x]), Repeat(Opt, Exact([y])), s, i, m);
    ExactIs([x], s, i, m1);
    OptIs(Exact([y]), s, m1, m);
    ExactIs([y], s, m1, m);
    OptIs(g2, s, m, k);
    GroupOf(2, 0, Exact([y, z]), s, m, k);
    ExactIs([y, z], s, m, k);
  }

  lemma GroupOf(reg: nat, inner: nat, body: Re, s: Subject, i: nat, j: nat)
    ensures Match(Group(reg, inner, body), s, i, j) ==> Match(body, s, i, j)
  {}

  lemma WordGroup(x: byte, y: byte, z: byte, s: Subject, i: nat, k: nat)
    requires Word(x, y, z, s, i, k)
    ensures Match(Group(1, 1, HastyBody(x, y, z)), s, i, k) && i <= k <= |s.text|
  {
    var body, g2 := HastyBody(x, y, z), Group(2, 0, Exact([y, z]));
    var m := if k == i + 1 || k == i + 3 then i + 1 else i + 2;
    WordBounds(x, y, z, s, i, k);
    hide Match, Shows;
    ExactIs([x], s, i, i + 1);
    ExactIs([y], s, i + 1, m);
    OptIs(Exact([y]), s, i + 1, m);
    CatIs(Exact([x]), Repeat(Opt, Exact([y])), s, i, i + 1, m);
    ExactIs([y, z], s, m, k);
    if k > m { GroupIs(2, 0, Exact([y, z]), s, m, k); }
    OptIs(g2, s, m, k);
    CatIs(body.l, body.r, s, i, m, k);
    GroupIs(1, 1, body, s, i, k);
  }

  lemma WordBounds(x: byte, y: byte, z: byte, s: Subject, i: nat, k: nat)
    requires Word(x, y, z, s, i, k)
    ensures i < k <= |s.text|
  {}

  /** It stops behind `xy`, and the text goes on with `z`. */
  predicate Short(x: byte, y: byte, z: byte, s: Subject, i: nat)
    requires i <= |s.text|
  {
    var e := Stop(x, y, z, s, i);
    e >= i + 2 && Shows(s, e - 2, [x]) && Shows(s, e - 1, [y, z])
  }

  /** Where the text shows no first byte it stops. */
  lemma StopHere(x: byte, y: byte, z: byte, s: Subject, d: nat)
    requires d <= |s.text| && (d < |s.text| ==> s.text[d] != x)
    ensures Stop(x, y, z, s, d) == d && !Short(x, y, z, s, d)
  {
    ShowsOne(s, d, x);
  }

  /** One word, and from where it ends. */
  lemma WordStop(x: byte, y: byte, z: byte, s: Subject, i: nat, k: nat)
    requires Distinct(x, y, z) && Word(x, y, z, s, i, k) && i <= k <= |s.text|
    ensures Short(x, y, z, s, i) ||
            (Stop(x, y, z, s, k) <= Stop(x, y, z, s, i) && !Short(x, y, z, s, k))
  {
    hide Shows, Taken;
    TakenIs(x, y, z, s, i);
    if k != i + Taken(x, y, z, s, i) { OtherWord(x, y, z, s, i, k); }
  }

  /** A word the matcher does not take. */
  lemma OtherWord(x: byte, y: byte, z: byte, s: Subject, i: nat, k: nat)
    requires Distinct(x, y, z) && Word(x, y, z, s, i, k) && i <= k <= |s.text| && k != i + Taken(x, y, z, s, i)
    ensures Short(x, y, z, s, i) ||
            (Stop(x, y, z, s, k) <= Stop(x, y, z, s, i) && !Short(x, y, z, s, k))
  {
    hide Shows, Taken;
    TakenIs(x, y, z, s, i);
    ShownThere(x, y, z, s, i);
    ShowsOne(s, i, x);
    ShowsOne(s, i + 1, y);
    ShowsTwo(s, i + 1, y, z);
    ShowsTwo(s, i + 2, y, z);
    if k == i + 3 {
      StopHere(x, y, z, s, i + 2);
    } else {
      StopHere(x, y, z, s, k);
    }
  }

  lemma TakenIs(x: byte, y: byte, z: byte, s: Subject, d: nat)
    ensures var n := Taken(x, y, z, s, d);
      && (Shows(s, d, [x]) <==> n > 0) && (n > 0 ==> (Shows(s, d + 1, [y]) <==> n >= 2))
      && (n >= 2 ==> (Shows(s, d + 2, [y, z]) <==> n == 4)) && (n == 0 || n == 1 || n == 2 || n == 4)
  {}

  /** Matches go no further than where it stops, unless it stops short. */
  lemma {:induction false} WordsStop(x: byte, y: byte, z: byte, s: Subject, n: nat, i: nat, j: nat)
    requires Distinct(x, y, z) && Power(Group(1, 1, HastyBody(x, y, z)), s, n, i, j) && i <= |s.text|
    ensures j <= Stop(x, y, z, s, i) || Short(x, y, z, s, i)
    decreases n
  {
    hide Match, Short, Stop, Shows, Word;
    if n == 0 {
      StopAfter(x, y, z, s, i);
    } else {
      var k: nat :| Match(Group(1, 1, HastyBody(x, y, z)), s, i, k) && Power(Group(1, 1, HastyBody(x, y, z)), s, n - 1, k, j);
      GroupWord(x, y, z, s, i, k);
      WordIn(x, y, z, s, i, k);
      WordsStop(x, y, z, s, n - 1, k, j);
      WordStop(x, y, z, s, i, k);
    }
  }

  lemma StopAfter(x: byte, y: byte, z: byte, s: Subject, i: nat)
    requires i <= |s.text|
    ensures i <= Stop(x, y, z, s, i)
  {
    hide Stop;
  }

  lemma WordIn(x: byte, y: byte, z: byte, s: Subject, i: nat, k: nat)
    requires Word(x, y, z, s, i, k)
    ensures i <= k <= |s.text|
  {}

  /** When it stops short there is a match one byte longer. */
  lemma {:induction false} ShortOf(x: byte, y: byte, z: byte, s: Subject, i: nat) returns (n: nat)
    requires Distinct(x, y, z) && i <= |s.text| && Short(x, y, z, s, i)
    ensures Power(Group(1, 1, HastyBody(x, y, z)), s, n, i, Stop(x, y, z, s, i) + 1)
    decreases |s.text| - i
  {
    hide Shows, Taken, Match, Power;
    TakenIs(x, y, z, s, i);
    ShownThere(x, y, z, s, i);
    var t := Taken(x, y, z, s, i);
    var k, e, g := i + t, Stop(x, y, z, s, i), Group(1, 1, HastyBody(x, y, z));
    assert t > 0 && Stop(x, y, z, s, k) == e;
    if e >= k + 2 {
      var m := ShortOf(x, y, z, s, k);
      WordGroup(x, y, z, s, i, k);
      n := m + 1;
      PowerMore(g, s, m, i, k, e + 1);
    } else {
      LastWord(x, y, z, s, i);
      WordGroup(x, y, z, s, i, e + 1);
      n := 1;
      PowerOnce(g, s, i, e + 1);
    }
  }

  lemma PowerMore(e: Re, s: Subject, n: nat, i: nat, k: nat, j: nat)
    requires Match(e, s, i, k) && Power(e, s, n, k, j)
    ensures Power(e, s, n + 1, i, j)
  {}

  /** It is the last word that is short. */
  lemma LastWord(x: byte, y: byte, z: byte, s: Subject, i: nat)
    requires Distinct(x, y, z) && i <= |s.text| && Short(x, y, z, s, i)
    requires var k := i + Taken(x, y, z, s, i); k <= |s.text| && Stop(x, y, z, s, i) < k + 2
    ensures Word(x, y, z, s, i, Stop(x, y, z, s, i) + 1)
  {
    hide Shows, Taken;
    TakenIs(x, y, z, s, i);
    var t, e := Taken(x, y, z, s, i), Stop(x, y, z, s, i);
    var k := i + t;
    StopAfter(x, y, z, s, k);
    assert t > 0 && Stop(x, y, z, s, k) == e;
    ShowsOne(s, e - 2, x);
    ShowsTwo(s, e - 1, y, z);
    ShowsOne(s, i, x);
    ShowsOne(s, i + 1, y);
    ShowsTwo(s, i + 1, y, z);
    ShowsTwo(s, i + 2, y, z);
    ShowsOne(s, k, x);
    TakenIs(x, y, z, s, k);
  }

  // ----- what is returned -----

  lemma HastyCompiled(x: byte, y: byte, z: byte, code: seq<byte>)
    requires HastyCode(x, y, z, code)
    ensures Compiled(Hasty(x, y, z), code, 2)
  {
    hide LaidOut;
    var g2, body := Group(2, 0, Exact([y, z])), HastyBody(x, y, z);
    assert Fit(Exact([x])) && Fit(Exact([y])) && Fit(Repeat(Opt, Exact([y]))) && Fit(g2) && Fit(Repeat(Opt, g2));
    assert Fit(body.l) && Fit(body) && Fit(Group(1, 1, body));
    ExactNumbered([x], 2);
    ExactNumbered([y], 2);
    ExactNumbered([y, z], 3);
    assert Numbered(Repeat(Opt, Exact([y])), 2) && After(Repeat(Opt, Exact([y])), 2) == 2;
    assert Numbered(body.l, 2) && After(body.l, 2) == 2 && Numbered(g2, 2) && After(g2, 2) == 3;
    assert Numbered(Repeat(Opt, g2), 2) && After(Repeat(Opt, g2), 2) == 3;
    assert Numbered(body, 2) && After(body, 2) == 3;
    assert Numbered(Group(1, 1, body), 1) && After(Group(1, 1, body), 1) == 3;
  }

  lemma ExactNumbered(cs: seq<byte>, b: nat)
    ensures Numbered(Exact(cs), b) && After(Exact(cs), b) == b
  {}

  lemma HastyVisits(x: byte, y: byte, z: byte, code: seq<byte>, s: Subject, i: nat)
    requires HastyCode(x, y, z, code) && i <= |s.text|
    ensures AllVisits(Hasty(x, y, z), code, s, i) == Ends(x, y, z, code, s, i, [])
  {
    hide Fetch, Direct, PlayOf, LaidOut, Visits;
    HastyPlaces(x, y, z, code);
    Here(code, s, 0, Hasty(x, y, z), Halt, i);
  }

  /** `(xy?(yz)?)*`, for distinct bytes: what is returned leads to where the matcher
      stops when it takes `y` whenever it can, and is the greatest exactly when it
      does not stop behind `xy` with `z` to come. */
  lemma HastyLongest(x: byte, y: byte, z: byte, code: seq<byte>, s: Subject, i: nat)
    requires HastyCode(x, y, z, code) && Distinct(x, y, z) && i <= |s.text|
    ensures i + Returns(Hasty(x, y, z), code, s, i) == Stop(x, y, z, s, i)
    ensures IsLongest(Hasty(x, y, z), s, i, Returns(Hasty(x, y, z), code, s, i)) <==> !Short(x, y, z, s, i)
  {
    hide Compiled, PlayOf, LaidOut, Visits, Match, Stop, Short, HastyCode, Ends, Power, Safe;
    var e, end := Hasty(x, y, z), Stop(x, y, z, s, i);
    HastyCompiled(x, y, z, code);
    VisitFacts(e, code, 2, s, i);
    HastyVisits(x, y, z, code, s, i);
    EndsForemost(x, y, z, code, s, i);
    var v := AllVisits(e, code, s, i);
    AnswerIs(i, |s.text|, v);
    assert v[0] in v;
    assert !Overtaken(v, |s.text|);
    if Short(x, y, z, s, i) {
      var n := ShortOf(x, y, z, s, i);
      PowerBounds(Group(1, 1, HastyBody(x, y, z)), s, n, i, end + 1);
      StarIs(Group(1, 1, HastyBody(x, y, z)), s, n, i, end + 1);
    } else {
      forall j: nat | Match(e, s, i, j)
        ensures j <= end
      {
        var n := StarOf(Group(1, 1, HastyBody(x, y, z)), s, i, j);
        WordsStop(x, y, z, s, n, i, j);
      }
    }
  }

  lemma StarOf(e: Re, s: Subject, i: nat, j: nat) returns (n: nat)
    requires Match(Repeat(Star, e), s, i, j)
    ensures Power(e, s, n, i, j)
  {
    n :| Allows(Star, n) && Power(e, s, n, i, j);
  }

  /** The same of every run of the matcher. */
  lemma HastyRuns(x: byte, y: byte, z: byte, code: seq<byte>, env: Env, result: int, code': seq<byte>)
    requires HastyCode(x, y, z, code) && Distinct(x, y, z) && env.start <= |env.s.text|
    requires RunsTo(env, 2, code, result, code')
    ensures var s, i := env.s, env.start;
      || result == OVERFLOW
      || (i + result == Stop(x, y, z, s, i) && (IsLongest(Hasty(x, y, z), s, i, result) <==> !Short(x, y, z, s, i)))
  {
    hide Compiled, Returns, RunsTo, Related, IsLongest, LaidOut, HastyCode, Stop, Short;
    HastyCompiled(x, y, z, code);
    SelfRelated(code);
    RunReturns(Hasty(x, y, z), code, 2, env, code, result, code');
    HastyLongest(x, y, z, code, env.s, env.start);
  }

  /** It may fall short even where no end is overtaken, and whatever the bytes are as
      long as `z` is not `x`: on `xyz` it gives 2, and 3 bytes match. */
  lemma HastyNotLongest(x: byte, y: byte, z: byte, code: seq<byte>)
    requires HastyCode(x, y, z, code) && z != x
    ensures var s := Subject([x, y, z], false, false);
      && Returns(Hasty(x, y, z), code, s, 0) == 2 && Match(Hasty(x, y, z), s, 0, 3)
      && !Overtaken(AllVisits(Hasty(x, y, z), code, s, 0), 3)
  {
    var s := Subject([x, y, z], false, false);
    ShowsOne(s, 0, x);
    ShowsOne(s, 1, y);
    ShowsOne(s, 2, x);
    ShowsTwo(s, 1, y, z);
    ShowsTwo(s, 2, y, z);
    hide PlayOf, LaidOut, Match, Visits, HastyCode, Ends, Power, Shows;
    WordGroup(x, y, z, s, 0, 3);
    PowerOnce(Group(1, 1, HastyBody(x, y, z)), s, 0, 3);
    StarIs(Group(1, 1, HastyBody(x, y, z)), s, 1, 0, 3);
    HastyVisits(x, y, z, code, s, 0);
    EndsXY(x, y, z, code, s, 0);
    EndsNone(x, y, z, code, s, 2, [End(0)]);
    EndOver(2, 0, 3);
    var last := [Visit(0, 0)];
    assert [Visit(2, 1), Visit(0, 0)][1..] == last;
    AnswerLast(0, 3, Best(2), last[0]);
  }

  lemma EndOver(a: nat, b: nat, size: nat)
    requires a != size
    ensures Visits(End(a), [End(b)], size) == [Visit(a, 1), Visit(b, 0)]
  {
    ResumeOne(b, size);
  }
}
