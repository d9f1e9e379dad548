/** Backtracking search with the empty-iteration cut, as a tree.

    `Explore` says which choices a matcher meets, in order, when it runs a stack
    of pending work from a position.  A repeated group whose iteration consumed
    nothing leaves its loop at once; the theorem of this module is that this cut
    loses no match, so the leaves of the tree are exactly the ends the pattern
    allows. */
module Backtrack {
  import opened Octets
  import opened RegexLang

  /** Work left to do.  `Again` stands in front of a loop's failure jump, `Close`
      at the end of a group that is not repeated, and `Loop` at the end of the
      body of a repeated group entered at `start`. */
  datatype Kont =
    | Halt
    | Do(e: Re, k: Kont)
    | Again(e: Re, k: Kont)
    | Close(reg: nat, start: nat, k: Kont)
    | Loop(e: Re, start: nat, k: Kont)

  datatype Tree =
    | DeadEnd
    | Found(at: nat)
    | Fork(first: Tree, second: Tree)

  ghost predicate Finds(t: Tree, x: nat) {
    match t
    case DeadEnd => false
    case Found(at) => at == x
    case Fork(a, b) => Finds(a, x) || Finds(b, x)
  }

  ghost predicate Leaf(e: Re) {
    e.Exact? || e.Any? || e.Charset? || e.Bol? || e.Eol?
  }

  /** Where `e` leaves position `d`, or -1. */
  function LeafEnd(s: Subject, e: Re, d: nat): int
    requires Leaf(e) && d <= |s.text|
  {
    match e
    case Exact(cs) =>
      if |cs| > 0 && d + |cs| <= |s.text| && s.text[d..d + |cs|] == cs then d + |cs| else -1
    case Any => if d < |s.text| && s.text[d] != 0 then d + 1 else -1
    case Charset(neg, bits) => if d < |s.text| && neg != InMap(bits, s.text[d]) then d + 1 else -1
    case Bol => if d == 0 && !s.notBol then d else -1
    case _ => if d == |s.text| && !s.notEol then d else -1
  }

  function Size(e: Re): (n: nat)
    ensures n >= 1
  {
    match e
    case Cat(l, r) => Size(l) + Size(r) + 1
    case Alt(l, r) => Size(l) + Size(r) + 1
    case Group(_, _, body) => Size(body) + 2
    case Repeat(_, body) => Size(body) + 3
    case _ => 1
  }

  /** Work left at position `d`, counting a loop that may still go round. */
  function Weight(k: Kont, d: nat): nat {
    match k
    case Halt => 0
    case Do(e, k') => Size(e) + Weight(k', d)
    case Again(e, k') => Size(e) - 1 + Weight(k', d)
    case Close(_, _, k') => 1 + Weight(k', d)
    case Loop(e, start, k') => (if start == d then 1 else Size(e)) + Weight(k', d)
  }

  lemma LoopWeight(e: Re, d: nat, k: Kont)
    requires e.Repeat? && e.body.Group?
    ensures Weight(Do(e.body.body, Loop(e, d, k)), d) < Weight(Again(e, k), d) < Weight(Do(e, k), d)
  {
    assert Weight(Loop(e, d, k), d) == 1 + Weight(k, d);
    assert Size(e) == Size(e.body) + 3 && Size(e.body) == Size(e.body.body) + 2;
  }

  /** The choices met by the work `k` from position `d`. */
  function Explore(s: Subject, k: Kont, d: nat): (t: Tree)
    requires d <= |s.text|
    decreases |s.text| - d, Weight(k, d)
  {
    match k
    case Halt => Found(d)
    case Close(_, _, k') => Explore(s, k', d)
    case Loop(e, start, k') =>
      if start == d then Explore(s, k', d) else Explore(s, Again(e, k'), d)
    case Again(e, k') =>
      if e.Repeat? && e.body.Group? then
        LoopWeight(e, d, k');
        Fork(Explore(s, Do(e.body.body, Loop(e, d, k')), d), Explore(s, k', d))
      else if e.Repeat? && Single(e.body) then
        Fork(Turn(s, e, k', d), Explore(s, k', d))
      else DeadEnd
    case Do(e, k') =>
      match e
      case Empty => Explore(s, k', d)
      case Exact(cs) =>
        if |cs| > 0 && d + |cs| <= |s.text| && s.text[d..d + |cs|] == cs
        then Explore(s, k', d + |cs|) else DeadEnd
      case Any => if d < |s.text| && s.text[d] != 0 then Explore(s, k', d + 1) else DeadEnd
      case Charset(neg, m) =>
        if d < |s.text| && neg != InMap(m, s.text[d]) then Explore(s, k', d + 1) else DeadEnd
      case Bol => if d == 0 && !s.notBol then Explore(s, k', d) else DeadEnd
      case Eol => if d == |s.text| && !s.notEol then Explore(s, k', d) else DeadEnd
      case Cat(l, r) =>
        assert Weight(Do(r, k'), d) == Size(r) + Weight(k', d);
        Explore(s, Do(l, Do(r, k')), d)
      case Alt(l, r) => Fork(Explore(s, Do(l, k'), d), Explore(s, Do(r, k'), d))
      case Group(reg, _, body) =>
        assert Weight(Close(reg, d, k'), d) == 1 + Weight(k', d);
        Explore(s, Do(body, Close(reg, d, k')), d)
      case Repeat(Opt, body) => Fork(Explore(s, Do(body, k'), d), Explore(s, k', d))
      case Repeat(Star, body) => Explore(s, Again(e, k'), d)
      case Repeat(Plus, body) =>
        if body.Group? then
          LoopWeight(e, d, k');
          Explore(s, Do(body.body, Loop(e, d, k')), d)
        else if Single(body) then Turn(s, e, k', d)
        else DeadEnd
  }

  /** One turn of a loop over a single byte. */
  function Turn(s: Subject, e: Re, k: Kont, d: nat): Tree
    requires d <= |s.text| && e.Repeat? && Single(e.body)
    decreases |s.text| - d, 0
  {
    if d < |s.text| && Accepts(e.body, s.text[d]) then Explore(s, Again(e, k), d + 1) else DeadEnd
  }

  /** What pending work means: `k` takes `d` to `x`. */
  ghost predicate Pending(s: Subject, k: Kont, d: nat, x: nat) {
    d <= |s.text| &&
    match k
    case Halt => d == x
    case Close(_, _, k') => Pending(s, k', d, x)
    case Do(e, k') => exists j: nat :: Match(e, s, d, j) && Pending(s, k', j, x)
    case Again(e, k') =>
      e.Repeat? && exists n: nat, j: nat :: Power(e.body, s, n, d, j) && Pending(s, k', j, x)
    case Loop(e, _, k') =>
      e.Repeat? && exists n: nat, j: nat :: Power(e.body, s, n, d, j) && Pending(s, k', j, x)
  }

  /** Every loop in the work is a repetition. */
  ghost predicate Proper(k: Kont) {
    match k
    case Halt => true
    case Close(_, _, k') => Proper(k')
    case Do(e, k') => Shaped(e) && Proper(k')
    case Again(e, k') => e.Repeat? && Shaped(e) && Proper(k')
    case Loop(e, _, k') => e.Repeat? && Shaped(e) && Proper(k')
  }

  /** Every leaf found is an end the work allows. */
  lemma {:induction false} ExploreSound(s: Subject, k: Kont, d: nat, x: nat)
    requires d <= |s.text| && Proper(k)
    requires Finds(Explore(s, k, d), x)
    ensures Pending(s, k, d, x)
    decreases |s.text| - d, Weight(k, d)
  {
    match k
    case Halt =>
    case Close(_, _, k') => ExploreSound(s, k', d, x);
    case Loop(e, start, k') =>
      if start == d {
        ExploreSound(s, k', d, x);
        assert Power(e.body, s, 0, d, d);
      } else {
        ExploreSound(s, Again(e, k'), d, x);
      }
    case Again(e, k') =>
      if Finds(Explore(s, k', d), x) {
        ExploreSound(s, k', d, x);
        assert Power(e.body, s, 0, d, d);
      } else if e.body.Group? {
        var _, _ := TurnOfGroupSound(s, e, k', d, x);
      } else {
        var _, _ := TurnSound(s, e, k', d, x);
      }
    case Do(e, k') => DoSound(s, e, k', d, x);
  }

  lemma {:induction false} DoSound(s: Subject, e: Re, k: Kont, d: nat, x: nat)
    requires d <= |s.text| && Shaped(e) && Proper(k)
    requires Finds(Explore(s, Do(e, k), d), x)
    ensures Pending(s, Do(e, k), d, x)
    decreases |s.text| - d, Size(e) + Weight(k, d), 1
  {
    hide Explore, Pending, Match, Shaped, Weight, Finds;
    match e
    case Cat(_, _) => DoCatSound(s, e, k, d, x);
    case Alt(_, _) => DoAltSound(s, e, k, d, x);
    case Group(_, _, _) => DoGroupSound(s, e, k, d, x);
    case Repeat(_, _) => DoRepeatSound(s, e, k, d, x);
    case Bol => DoSkipSound(s, e, k, d, x);
    case Eol => DoSkipSound(s, e, k, d, x);
    case Empty => DoSkipSound(s, e, k, d, x);
    case _ => DoBytesSound(s, e, k, d, x);
  }

  lemma {:induction false} DoSkipSound(s: Subject, e: Re, k: Kont, d: nat, x: nat)
    requires d <= |s.text| && Shaped(e) && Proper(k) && (e.Empty? || e.Bol? || e.Eol?)
    requires Finds(Explore(s, Do(e, k), d), x)
    ensures Pending(s, Do(e, k), d, x)
    decreases |s.text| - d, Size(e) + Weight(k, d), 0
  {
    ExploreSound(s, k, d, x);
    assert Match(e, s, d, d);
  }

  lemma {:induction false} DoBytesSound(s: Subject, e: Re, k: Kont, d: nat, x: nat)
    requires d <= |s.text| && Shaped(e) && Proper(k) && (e.Exact? || e.Any? || e.Charset?)
    requires Finds(Explore(s, Do(e, k), d), x)
    ensures Pending(s, Do(e, k), d, x)
    decreases |s.text| - d, Size(e) + Weight(k, d), 0
  {
    var end := if e.Exact? then d + |e.cs| else d + 1;
    ExploreSound(s, k, end, x);
    assert Match(e, s, d, end);
  }

  lemma {:induction false} DoCatSound(s: Subject, e: Re, k: Kont, d: nat, x: nat)
    requires d <= |s.text| && Shaped(e) && Proper(k) && e.Cat?
    requires Finds(Explore(s, Do(e, k), d), x)
    ensures Pending(s, Do(e, k), d, x)
    decreases |s.text| - d, Size(e) + Weight(k, d), 0
  {
    hide Finds;
    var l, r := e.l, e.r;
    assert Weight(Do(r, k), d) == Size(r) + Weight(k, d);
    ExploreSound(s, Do(l, Do(r, k)), d, x);
    var i: nat :| Match(l, s, d, i) && Pending(s, Do(r, k), i, x);
    var j: nat :| Match(r, s, i, j) && Pending(s, k, j, x);
    assert Match(e, s, d, j);
  }

  lemma {:induction false} DoAltSound(s: Subject, e: Re, k: Kont, d: nat, x: nat)
    requires d <= |s.text| && Shaped(e) && Proper(k) && e.Alt?
    requires Finds(Explore(s, Do(e, k), d), x)
    ensures Pending(s, Do(e, k), d, x)
    decreases |s.text| - d, Size(e) + Weight(k, d), 0
  {
    var side := if Finds(Explore(s, Do(e.l, k), d), x) then e.l else e.r;
    ExploreSound(s, Do(side, k), d, x);
    var j: nat :| Match(side, s, d, j) && Pending(s, k, j, x);
    assert Match(e, s, d, j);
  }

  lemma {:induction false} DoGroupSound(s: Subject, e: Re, k: Kont, d: nat, x: nat)
    requires d <= |s.text| && Shaped(e) && Proper(k) && e.Group?
    requires Finds(Explore(s, Do(e, k), d), x)
    ensures Pending(s, Do(e, k), d, x)
    decreases |s.text| - d, Size(e) + Weight(k, d), 0
  {
    hide Finds;
    var c := Close(e.reg, d, k);
    assert Weight(c, d) == 1 + Weight(k, d);
    ExploreSound(s, Do(e.body, c), d, x);
    var j: nat :| Match(e.body, s, d, j) && Pending(s, c, j, x);
    assert Match(e, s, d, j);
  }

  lemma {:induction false} DoRepeatSound(s: Subject, e: Re, k: Kont, d: nat, x: nat)
    requires d <= |s.text| && e.Repeat? && Shaped(e) && Proper(k)
    requires Finds(Explore(s, Do(e, k), d), x)
    ensures Pending(s, Do(e, k), d, x)
    decreases |s.text| - d, Size(e) + Weight(k, d), 0
  {
    match e.op
    case Opt =>
      if Finds(Explore(s, k, d), x) {
        ExploreSound(s, k, d, x);
        assert Power(e.body, s, 0, d, d);
        assert Match(e, s, d, d);
      } else {
        ExploreSound(s, Do(e.body, k), d, x);
        var j: nat :| Match(e.body, s, d, j) && Pending(s, k, j, x);
        assert Power(e.body, s, 0, j, j);
        assert Power(e.body, s, 1, d, j);
        assert Match(e, s, d, j);
      }
    case Star =>
      ExploreSound(s, Again(e, k), d, x);
      var n: nat, j: nat :| Power(e.body, s, n, d, j) && Pending(s, k, j, x);
      PowerBounds(e.body, s, n, d, j);
      assert Allows(e.op, n);
      assert Match(e, s, d, j);
    case Plus =>
      var n: nat, j: nat;
      if e.body.Group? {
        n, j := TurnOfGroupSound(s, e, k, d, x);
      } else {
        n, j := TurnSound(s, e, k, d, x);
      }
      PowerBounds(e.body, s, n, d, j);
      assert Allows(e.op, n);
      assert Match(e, s, d, j);
  }

  lemma {:induction false} TurnOfGroupSound(s: Subject, e: Re, k: Kont, d: nat, x: nat)
    returns (n: nat, j: nat)
    requires d <= |s.text| && e.Repeat? && e.body.Group? && Shaped(e) && Proper(k)
    requires Finds(Explore(s, Do(e.body.body, Loop(e, d, k)), d), x)
    ensures n >= 1 && Power(e.body, s, n, d, j) && Pending(s, k, j, x)
    decreases |s.text| - d, Size(e) - 2 + Weight(k, d)
  {
    assert Weight(Loop(e, d, k), d) == 1 + Weight(k, d);
    assert Size(e.body) == Size(e.body.body) + 2;
    ExploreSound(s, Do(e.body.body, Loop(e, d, k)), d, x);
    var i: nat :| Match(e.body.body, s, d, i) && Pending(s, Loop(e, d, k), i, x);
    var m: nat; m, j :| Power(e.body, s, m, i, j) && Pending(s, k, j, x);
    n := m + 1;
    assert Match(e.body, s, d, i);
  }

  lemma {:induction false} TurnSound(s: Subject, e: Re, k: Kont, d: nat, x: nat)
    returns (n: nat, j: nat)
    requires d <= |s.text| && e.Repeat? && Single(e.body) && Shaped(e) && Proper(k)
    requires Finds(Turn(s, e, k, d), x)
    ensures n >= 1 && Power(e.body, s, n, d, j) && Pending(s, k, j, x)
    decreases |s.text| - d, 0
  {
    ExploreSound(s, Again(e, k), d + 1, x);
    var m: nat; m, j :| Power(e.body, s, m, d + 1, j) && Pending(s, k, j, x);
    n := m + 1;
    assert Match(e.body, s, d, d + 1);
  }

  /** The first iteration that consumes something, if any does. */
  lemma {:induction false} FirstProgress(e: Re, s: Subject, n: nat, i: nat, j: nat)
    returns (m: nat, k: nat)
    requires n >= 1 && Power(e, s, n, i, j)
    ensures Match(e, s, i, k) && Power(e, s, m, k, j) && m < n
    ensures k == i ==> j == i
    decreases n
  {
    k :| Match(e, s, i, k) && Power(e, s, n - 1, k, j);
    m := n - 1;
    if k == i && n > 1 {
      m, k := FirstProgress(e, s, n - 1, i, j);
    }
  }

  /** Every end the pattern allows is a leaf: the cut loses nothing. */
  lemma {:induction false} ExploreComplete(s: Subject, e: Re, k: Kont, i: nat, j: nat, x: nat)
    requires Shaped(e) && Match(e, s, i, j)
    requires Finds(Explore(s, k, j), x)
    ensures Finds(Explore(s, Do(e, k), i), x)
    decreases e, 1
  {
    match e
    case Cat(l, r) =>
      var m: nat :| Match(l, s, i, m) && Match(r, s, m, j);
      ExploreComplete(s, r, k, m, j, x);
      ExploreComplete(s, l, Do(r, k), i, m, x);
    case Alt(l, r) =>
      if Match(l, s, i, j) { ExploreComplete(s, l, k, i, j, x); }
      else { ExploreComplete(s, r, k, i, j, x); }
    case Group(reg, _, body) =>
      ExploreComplete(s, body, Close(reg, i, k), i, j, x);
    case Repeat(op, body) =>
      var n: nat :| Allows(op, n) && Power(body, s, n, i, j);
      if op.Star? {
        LoopComplete(s, e, k, n, i, j, x);
      } else if n > 0 {
        var m, h := FirstProgress(body, s, n, i, j);
        if op.Opt? {
          ExploreComplete(s, body, k, i, j, x);
        } else {
          if h != i { LoopComplete(s, e, k, m, h, j, x); }
          EntryComplete(s, e, k, i, h, x);
        }
      }
    case _ =>
  }

  /** One trip round a loop body from `i` to `h`, then the rest of the loop. */
  lemma {:induction false} EntryComplete(s: Subject, e: Re, k: Kont, i: nat, h: nat, x: nat)
    requires e.Repeat? && Shaped(e) && Match(e.body, s, i, h)
    requires Finds(Explore(s, if h == i then k else Again(e, k), h), x)
    ensures e.body.Group? ==> Finds(Explore(s, Do(e.body.body, Loop(e, i, k)), i), x)
    ensures Single(e.body) ==> Finds(Turn(s, e, k, i), x)
    decreases e, 0, 0
  {
    if e.body.Group? {
      ExploreComplete(s, e.body.body, Loop(e, i, k), i, h, x);
    }
  }

  lemma {:induction false} LoopComplete(s: Subject, e: Re, k: Kont, n: nat, i: nat, j: nat, x: nat)
    requires e.Repeat? && Shaped(e) && Power(e.body, s, n, i, j)
    requires i <= |s.text| && j <= |s.text| && Finds(Explore(s, k, j), x)
    ensures Finds(Explore(s, Again(e, k), i), x)
    decreases e, 0, n
  {
    if n > 0 {
      var m, h := FirstProgress(e.body, s, n, i, j);
      if h != i {
        LoopComplete(s, e, k, m, h, j, x);
        EntryComplete(s, e, k, i, h, x);
      }
    }
  }

  /** The leaves of the search tree are exactly the ends the pattern allows. */
  lemma ExploreCorrect(s: Subject, e: Re, i: nat, x: nat)
    requires Shaped(e) && i <= |s.text|
    ensures Finds(Explore(s, Do(e, Halt), i), x) <==> Match(e, s, i, x)
  {
    if Match(e, s, i, x) {
      ExploreComplete(s, e, Halt, i, x, x);
    }
    if Finds(Explore(s, Do(e, Halt), i), x) {
      ExploreSound(s, Do(e, Halt), i, x);
    }
  }
}
