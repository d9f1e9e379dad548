/** What a run does, without its steps.

    A `Play` is the work left at a place in the code, with the failure points it
    makes and the closing jumps that drop one.  `Visits` plays it out on a stack of
    such works: the ends of the pattern come to, in order, each with the number of
    failure points left there.  What the matcher returns is a function of these. */
module Plays {
  import opened Octets
  import opened RegexLang
  import opened Backtrack
  import opened Bytecode
  import opened Machine
  import opened Invariant

  /** `Try` puts its second part aside, a dummy being `Dead`; `Drop` drops what was
      put aside last. */
  datatype Play =
    | Dead
    | End(at: nat)
    | Try(first: Play, second: Play)
    | Drop(rest: Play)

  // ----- the play of pending work -----

  /** The byte two before a `stop_memory` is taken for a `start_memory`. */
  predicate Peeks(code: seq<byte>, q: nat) {
    2 <= q <= |code| && code[q - 2] == START_MEMORY
  }

  /** A jump from the end of an alternative comes first. */
  ghost predicate Hops(code: seq<byte>, p: nat, k: Kont) {
    !Direct(code, p, k) && Fetch(code, p).JumpPastAlt? && Fetch(code, p).off >= 0
  }

  function Dropping(pop: bool, t: Play): Play {
    if pop then Drop(t) else t
  }

  function Marking(dummy: bool, t: Play): Play {
    if dummy then Try(t, Dead) else t
  }

  /** The work `k` from the place `p` and the position `d`. */
  ghost function PlayOf(code: seq<byte>, s: Subject, p: nat, k: Kont, d: nat): Play
    requires d <= |s.text|
    decreases |s.text| - d, Weight(k, d), if p <= |code| then |code| - p else 0, 1
  {
    if Hops(code, p, k) then PlayOf(code, s, p + 3 + Fetch(code, p).off, k, d)
    else
      match k
      case Halt => End(d)
      case Close(_, _, k') =>
        var q := StopAddr(code, p);
        Marking(q != p, PlayOf(code, s, q + 3, k', d))
      case Loop(e, start, k') =>
        var q := StopAddr(code, p);
        if !IsGroupLoop(e) || q < Len(e.body) then Dead
        else
          Marking(q != p,
            if start == d || Peeks(code, q) then PlayOf(code, s, q + 6, k', d)
            else Dropping(CanPop(code, q + 3), PlayOf(code, s, q - Len(e.body), Again(e, k'), d)))
      case Again(e, k') =>
        if e.Repeat? && e.body.Group? then
          assert Weight(Loop(e, d, k'), d) == 1 + Weight(k', d);
          assert Size(e.body) == Size(e.body.body) + 2;
          Try(PlayOf(code, s, p + 6, Do(e.body.body, Loop(e, d, k')), d),
              PlayOf(code, s, p + Len(e.body) + 6, k', d))
        else if e.Repeat? && Single(e.body) then
          Try(TurnPlay(code, s, p, e, k', d), PlayOf(code, s, p + Len(e.body) + 6, k', d))
        else Dead
      case Do(e, k') => DoPlay(code, s, p, e, k', d)
  }

  ghost function DoPlay(code: seq<byte>, s: Subject, p: nat, e: Re, k: Kont, d: nat): Play
    requires d <= |s.text|
    decreases |s.text| - d, Weight(Do(e, k), d), if p <= |code| then |code| - p else 0, 0
  {
    match e
    case Empty => PlayOf(code, s, p, k, d)
    case Cat(l, r) =>
      assert Weight(Do(r, k), d) == Size(r) + Weight(k, d);
      PlayOf(code, s, p, Do(l, Do(r, k)), d)
    case Alt(l, r) =>
      Try(PlayOf(code, s, p + 3, Do(l, k), d), PlayOf(code, s, p + 6 + Len(l), Do(r, k), d))
    case Group(reg, _, body) =>
      assert Weight(Close(reg, d, k), d) == 1 + Weight(k, d);
      PlayOf(code, s, p + 3, Do(body, Close(reg, d, k)), d)
    case Repeat(Opt, body) =>
      Try(PlayOf(code, s, p + 3, Do(body, k), d), PlayOf(code, s, p + 3 + Len(body), k, d))
    case Repeat(Star, _) => PlayOf(code, s, p, Again(e, k), d)
    case Repeat(Plus, body) =>
      if body.Group? then
        assert Weight(Loop(e, d, k), d) == 1 + Weight(k, d);
        assert Size(e) == Size(body) + 3 && Size(body) == Size(body.body) + 2;
        Try(PlayOf(code, s, p + 9, Do(body.body, Loop(e, d, k)), d), Dead)
      else if Single(body) then Try(TurnPlay(code, s, p + 3, e, k, d), Dead)
      else Dead
    case _ =>
      var end := LeafEnd(s, e, d);
      LeafEndBounds(s, e, d);
      if end < 0 then Dead else PlayOf(code, s, p + Len(e), k, end)
  }

  lemma LeafEndBounds(s: Subject, e: Re, d: nat)
    requires Leaf(e) && d <= |s.text|
    ensures LeafEnd(s, e, d) >= 0 ==> d <= LeafEnd(s, e, d) <= |s.text|
    ensures forall k: Kont :: LeafEnd(s, e, d) == d ==> Weight(k, d) < Weight(Do(e, k), d)
  {}

  /** One turn of a loop over a byte laid out at `t`. */
  ghost function TurnPlay(code: seq<byte>, s: Subject, t: nat, e: Re, k: Kont, d: nat): Play
    requires d <= |s.text| && e.Repeat? && Single(e.body)
    decreases |s.text| - d, 0
  {
    if d < |s.text| && Accepts(e.body, s.text[d])
    then Dropping(CanPop(code, t + 3 + Len(e.body)), PlayOf(code, s, t, Again(e, k), d + 1))
    else Dead
  }

  // ----- playing it out -----

  /** The end of the pattern at position `at`, with `left` failure points. */
  datatype Visit = Visit(at: nat, left: nat)

  function PlaySize(t: Play): (n: nat)
    ensures n >= 1
  {
    match t
    case Try(a, b) => PlaySize(a) + PlaySize(b) + 2
    case Drop(rest) => PlaySize(rest) + 1
    case _ => 1
  }

  function Load(stack: seq<Play>): nat {
    if |stack| == 0 then 0 else Load(stack[..|stack| - 1]) + PlaySize(stack[|stack| - 1])
  }

  lemma LoadPush(stack: seq<Play>, t: Play)
    ensures Load(stack + [t]) == Load(stack) + PlaySize(t)
  {
    assert (stack + [t])[..|stack|] == stack;
  }

  /** The ends come to, on a text of `size` bytes.  At its end the run is over, as
      when nothing is left. */
  function Visits(t: Play, stack: seq<Play>, size: nat): seq<Visit>
    decreases PlaySize(t) + Load(stack), 0
  {
    match t
    case Dead => Resume(stack, size)
    case End(at) => [Visit(at, |stack|)] + (if at == size then [] else Resume(stack, size))
    case Try(a, b) =>
      LoadPush(stack, b);
      Visits(a, stack + [b], size)
    case Drop(rest) => if |stack| == 0 then [] else Visits(rest, stack[..|stack| - 1], size)
  }

  /** What is put aside last comes next. */
  function Resume(stack: seq<Play>, size: nat): seq<Visit>
    decreases Load(stack), 1
  {
    if |stack| == 0 then [] else Visits(stack[|stack| - 1], stack[..|stack| - 1], size)
  }

  lemma TryTurn(pop: bool, a: Play, b: Play, stack: seq<Play>, size: nat)
    ensures Visits(Try(Dropping(pop, a), b), stack, size) == Visits(a, if pop then stack else stack + [b], size)
    ensures Visits(Try(Dead, b), stack, size) == [] + Resume(stack + [b], size)
    ensures PlaySize(a) + Load(if pop then stack else stack + [b]) <
            PlaySize(Try(Dropping(pop, a), b)) + Load(stack)
    ensures Load(stack + [b]) < PlaySize(Try(Dead, b)) + Load(stack)
  {
    LoadPush(stack, b);
    assert (stack + [b])[..|stack|] == stack;
  }

  datatype Best = NoBest | Best(at: nat)

  function Better(best: Best, at: nat): Best {
    if best.NoBest? || at > best.at then Best(at) else best
  }

  /** The best match after some ends that do not end the run. */
  function BestOf(best: Best, seen: seq<Visit>): Best
    decreases |seen|
  {
    if |seen| == 0 then best else BestOf(Better(best, seen[0].at), seen[1..])
  }

  /** What is returned when these are the ends still to come. */
  function Answer(start: nat, size: nat, best: Best, v: seq<Visit>): int
    decreases |v|
  {
    if |v| == 0 then (if best.NoBest? then NO_MATCH else best.at - start)
    else if v[0].at == size then size - start
    else if v[0].left == 0 then (if best.NoBest? then v[0].at else best.at) - start
    else Answer(start, size, Better(best, v[0].at), v[1..])
  }

  /** Ends at which the run goes on. */
  predicate Passing(seen: seq<Visit>, size: nat) {
    forall v | v in seen :: v.left > 0 && v.at != size
  }

  lemma {:induction false} AnswerAfter(start: nat, size: nat, best: Best, seen: seq<Visit>, v: seq<Visit>)
    requires Passing(seen, size)
    ensures Answer(start, size, best, seen + v) == Answer(start, size, BestOf(best, seen), v)
    decreases |seen|
  {
    if |seen| > 0 {
      assert seen[0] in seen;
      assert (seen + v)[1..] == seen[1..] + v;
      AnswerAfter(start, size, Better(best, seen[0].at), seen[1..], v);
    } else {
      assert seen + v == v;
    }
  }

  /** What re_match_2 returns at `start` when its stack has room. */
  ghost function Returns(e: Re, code: seq<byte>, s: Subject, start: nat): int
    requires start <= |s.text|
  {
    Answer(start, |s.text|, NoBest, AllVisits(e, code, s, start))
  }

  /** The ends a whole run comes to. */
  ghost function AllVisits(e: Re, code: seq<byte>, s: Subject, start: nat): seq<Visit>
    requires start <= |s.text|
  {
    Visits(PlayOf(code, s, 0, Do(e, Halt), start), [], |s.text|)
  }
}
