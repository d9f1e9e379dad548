/** The compiled code read as a nondeterministic program.

    With a failure jump as a fork between its two ways and every other jump as a
    plain jump, the code takes the text from one position to another exactly when
    the pattern matches what lies between: compilation preserves the meaning,
    whatever the matcher then does with failure points and flags. */
module Forks {
  import opened Octets
  import opened RegexLang
  import opened Backtrack
  import opened Bytecode
  import opened Invariant
  import opened Plays
  import opened Choices
  import opened Moves
  import opened Verdict

  /** One instruction takes `p`, `d` to `p'`, `d'`. */
  ghost predicate Hop(code: seq<byte>, s: Subject, p: nat, d: nat, p': nat, d': nat) {
    d <= |s.text| &&
    match Fetch(code, p)
    case ExactN(cs) =>
      d + |cs| <= |s.text| && s.text[d..d + |cs|] == cs && p' == p + 2 + |cs| && d' == d + |cs|
    case AnyChar => d < |s.text| && s.text[d] != 0 && p' == p + 1 && d' == d + 1
    case Bracket(neg, bits) =>
      d < |s.text| && neg != InMap(bits, s.text[d]) && p' == p + 2 + |bits| && d' == d + 1
    case BegLine => d == 0 && !s.notBol && p' == p + 1 && d' == d
    case EndLine => d == |s.text| && !s.notEol && p' == p + 1 && d' == d
    case StartMemory(_, _) => p' == p + 3 && d' == d
    case StopMemory(_, _) => p' == p + 3 && d' == d
    case PushDummyFailure => p' == p + 1 && d' == d
    case OnFailureJump(off) => (p' == p + 3 || p' == p + 3 + off) && d' == d
    case Jump(off) => p' == p + 3 + off && d' == d
    case JumpPastAlt(off) => p' == p + 3 + off && d' == d
    case PopFailureJump(off) => p' == p + 3 + off && d' == d
    case MaybePopJump(off) => p' == p + 3 + off && d' == d
    case DummyFailureJump(off) => p' == p + 3 + off && d' == d
    case Bad => false
  }

  /** `n` instructions take `p`, `d` to `q`, `j`. */
  ghost predicate Takes(code: seq<byte>, s: Subject, n: nat, p: nat, d: nat, q: nat, j: nat)
    decreases n
  {
    if n == 0 then p == q && d == j
    else exists p': nat, d': nat :: Hop(code, s, p, d, p', d') && Takes(code, s, n - 1, p', d', q, j)
  }

  /** The whole code takes the text from `i` to `j`. */
  ghost predicate Reads(code: seq<byte>, s: Subject, i: nat, j: nat) {
    i <= |s.text| && exists n: nat :: Takes(code, s, n, 0, i, |code|, j)
  }

  lemma TakesOne(code: seq<byte>, s: Subject, p: nat, d: nat, p': nat, d': nat)
    requires Hop(code, s, p, d, p', d')
    ensures Takes(code, s, 1, p, d, p', d')
  {
    hide Hop;
    assert Takes(code, s, 0, p', d', p', d');
  }

  lemma {:induction false} TakesAdd(code: seq<byte>, s: Subject, m: nat, n: nat, p: nat, d: nat, p': nat, d': nat,
                                    q: nat, j: nat)
    requires Takes(code, s, m, p, d, p', d') && Takes(code, s, n, p', d', q, j)
    ensures Takes(code, s, m + n, p, d, q, j)
    decreases m
  {
    hide Hop;
    if m > 0 {
      var p1: nat, d1: nat :| Hop(code, s, p, d, p1, d1) && Takes(code, s, m - 1, p1, d1, p', d');
      TakesAdd(code, s, m - 1, n, p1, d1, p', d', q, j);
      assert Takes(code, s, m + n - 1, p1, d1, q, j);
    }
  }

  /** A hop in front. */
  lemma TakesFirst(code: seq<byte>, s: Subject, p: nat, d: nat, p': nat, d': nat, n: nat, q: nat, j: nat)
    requires Hop(code, s, p, d, p', d') && Takes(code, s, n, p', d', q, j)
    ensures Takes(code, s, n + 1, p, d, q, j)
  {
    hide Hop;
  }

  // ----- every match is a way through the code -----

  lemma {:induction false} CatWalks(e: Re, code: seq<byte>, s: Subject, p: nat, i: nat, j: nat) returns (n: nat)
    requires e.Cat? && LaidOut(e, code, p) && Fit(e) && Match(e, s, i, j)
    ensures Takes(code, s, n, p, i, p + Len(e), j)
    decreases e, 0, 0
  {
    hide Fetch, Hop, LaidOut, LoopAt, Takes;
    var l, r := e.l, e.r;
    CatLaidOut(l, r, code, p);
    var m: nat :| Match(l, s, i, m) && Match(r, s, m, j);
    var a := Walks(l, code, s, p, i, m);
    var b := Walks(r, code, s, p + Len(l), m, j);
    TakesAdd(code, s, a, b, p, i, p + Len(l), m, p + Len(l) + Len(r), j);
    n := a + b;
  }

  lemma {:induction false} Walks(e: Re, code: seq<byte>, s: Subject, p: nat, i: nat, j: nat) returns (n: nat)
    requires LaidOut(e, code, p) && Fit(e) && Match(e, s, i, j)
    ensures Takes(code, s, n, p, i, p + Len(e), j)
    decreases e, 1, 0
  {
    hide Fetch, Hop, LaidOut, LoopAt, Takes;
    match e
    case Empty =>
      n := 0;
      NoTake(code, s, p, i);
    case Cat(_, _) => n := CatWalks(e, code, s, p, i, j);
    case Alt(_, _) => n := AltWalks(e, code, s, p, i, j);
    case Group(_, _, _) => n := GroupWalks(e, code, s, p, i, j);
    case Repeat(_, _) => n := RepeatWalks(e, code, s, p, i, j);
    case _ =>
      n := 1;
      LeafHop(e, code, s, p, i, j);
      TakesOne(code, s, p, i, p + Len(e), j);
  }

  lemma NoTake(code: seq<byte>, s: Subject, p: nat, i: nat)
    ensures Takes(code, s, 0, p, i, p, i)
  {}

  lemma LeafHop(e: Re, code: seq<byte>, s: Subject, p: nat, i: nat, j: nat)
    requires LaidOut(e, code, p) && Leaf(e) && Match(e, s, i, j)
    ensures Hop(code, s, p, i, p + Len(e), j)
  {
    hide Fetch;
    if e.Exact? { assert |s.text[i..j]| == |e.cs|; }
  }

  lemma {:induction false} AltWalks(e: Re, code: seq<byte>, s: Subject, p: nat, i: nat, j: nat) returns (n: nat)
    requires e.Alt? && LaidOut(e, code, p) && Fit(e) && Match(e, s, i, j)
    ensures Takes(code, s, n, p, i, p + Len(e), j)
    decreases e, 0, 0
  {
    hide Fetch, LaidOut, Takes, Match;
    AltParts(code, p, e);
    var q, end := p + 6 + Len(e.l), p + Len(e);
    MatchInText(e, s, i, j);
    AltMatch(e, s, i, j);
    assert end == q + Len(e.r);
    if Match(e.l, s, i, j) {
      var a := Walks(e.l, code, s, p + 3, i, j);
      var b := PastAltWalks(e.r, code, s, q, j);
      TakesFirst(code, s, q - 3, j, q + PastAlt(e.r), j, b, end, j);
      TakesAdd(code, s, a, b + 1, p + 3, i, q - 3, j, end, j);
      TakesFirst(code, s, p, i, p + 3, i, a + (b + 1), end, j);
      n := a + (b + 1) + 1;
    } else {
      var a := Walks(e.r, code, s, q, i, j);
      TakesFirst(code, s, p, i, q, i, a, end, j);
      n := a + 1;
    }
  }

  lemma AltMatch(e: Re, s: Subject, i: nat, j: nat)
    requires e.Alt? && Match(e, s, i, j)
    ensures Match(e.l, s, i, j) || Match(e.r, s, i, j)
  {}

  lemma MatchInText(e: Re, s: Subject, i: nat, j: nat)
    requires Match(e, s, i, j)
    ensures i <= j <= |s.text|
  {}

  /** From the jump behind one alternative past all that follow. */
  lemma {:induction false} PastAltWalks(r: Re, code: seq<byte>, s: Subject, q: nat, d: nat) returns (n: nat)
    requires LaidOut(r, code, q) && d <= |s.text|
    ensures Takes(code, s, n, q + PastAlt(r), d, q + Len(r), d)
    decreases r
  {
    hide Fetch, LaidOut, Takes;
    n := 0;
    NoTake(code, s, q + Len(r), d);
    if r.Alt? {
      AltParts(code, q, r);
      var x := q + 3 + Len(r.l);
      var m := PastAltWalks(r.r, code, s, x + 3, d);
      assert q + Len(r) == x + 3 + Len(r.r);
      TakesFirst(code, s, x, d, x + 3 + PastAlt(r.r), d, m, q + Len(r), d);
      n := m + 1;
    }
  }

  lemma {:induction false} GroupWalks(e: Re, code: seq<byte>, s: Subject, p: nat, i: nat, j: nat) returns (n: nat)
    requires e.Group? && LaidOut(e, code, p) && Fit(e) && Match(e, s, i, j)
    ensures Takes(code, s, n, p, i, p + Len(e), j)
    decreases e, 0, 0
  {
    hide Fetch, LaidOut, Takes, Match;
    GroupParts(e, code, p);
    GroupMatch(e, s, i, j);
    var m := p + 3 + Len(e.body);
    var a := Walks(e.body, code, s, p + 3, i, j);
    var b := 1;
    if e.body.Alt? {
      TakesOne(code, s, m + 1, j, m + 4, j);
      TakesFirst(code, s, m, j, m + 1, j, 1, m + 4, j);
      b := 2;
    } else {
      TakesOne(code, s, m, j, m + 3, j);
    }
    TakesAdd(code, s, a, b, p + 3, i, m, j, p + Len(e), j);
    TakesFirst(code, s, p, i, p + 3, i, a + b, p + Len(e), j);
    n := a + b + 1;
  }

  lemma GroupMatch(e: Re, s: Subject, i: nat, j: nat)
    requires e.Group? && Match(e, s, i, j)
    ensures Match(e.body, s, i, j) && i <= j <= |s.text|
  {}

  lemma {:induction false} RepeatWalks(e: Re, code: seq<byte>, s: Subject, p: nat, i: nat, j: nat) returns (n: nat)
    requires e.Repeat? && LaidOut(e, code, p) && Fit(e) && Match(e, s, i, j)
    ensures Takes(code, s, n, p, i, p + Len(e), j)
    decreases e, 0, 0
  {
    hide Fetch, LaidOut, Takes, LoopAt, Power;
    RepeatParts(e, code, p);
    var m: nat :| Allows(e.op, m) && Power(e.body, s, m, i, j);
    match e.op
    case Star => n := LoopWalks(e.body, code, s, p, m, i, j);
    case Plus =>
      var k := PowerFirst(e.body, s, m, i, j);
      n := TurnWalks(e.body, code, s, p + 3, m - 1, i, k, j);
      TakesFirst(code, s, p, i, p + 6, i, n, p + Len(e), j);
      n := n + 1;
    case Opt =>
      if m == 0 {
        PowerNone(e.body, s, i, j);
        TakesOne(code, s, p, i, p + Len(e), j);
        n := 1;
      } else {
        var k := PowerFirst(e.body, s, m, i, j);
        PowerNone(e.body, s, k, j);
        n := Walks(e.body, code, s, p + 3, i, j);
        TakesFirst(code, s, p, i, p + 3, i, n, p + Len(e), j);
        n := n + 1;
      }
  }

  lemma PowerFirst(e: Re, s: Subject, n: nat, i: nat, j: nat) returns (k: nat)
    requires n > 0 && Power(e, s, n, i, j)
    ensures Match(e, s, i, k) && Power(e, s, n - 1, k, j) && i <= k <= |s.text|
  {
    hide Match;
    k :| Match(e, s, i, k) && Power(e, s, n - 1, k, j);
    MatchInText(e, s, i, k);
  }

  lemma PowerNone(e: Re, s: Subject, i: nat, j: nat)
    ensures Power(e, s, 0, i, j) ==> i == j <= |s.text|
  {}

  /** Round the loop at `t` as often as needed, and out of it. */
  lemma {:induction false} LoopWalks(body: Re, code: seq<byte>, s: Subject, t: nat, m: nat, i: nat, j: nat) returns (n: nat)
    requires LoopAt(body, code, t) && Fit(body) && Power(body, s, m, i, j)
    ensures Takes(code, s, n, t, i, t + Len(body) + 6, j)
    decreases body, 3, m, 0
  {
    hide Fetch, LaidOut, Takes, LoopAt, Power, Match;
    LoopParts(body, code, t);
    var exit := t + Len(body) + 6;
    if m == 0 {
      PowerNone(body, s, i, j);
      TakesOne(code, s, t, i, exit, j);
      n := 1;
    } else {
      var k := PowerFirst(body, s, m, i, j);
      n := TurnWalks(body, code, s, t, m - 1, i, k, j);
      TakesFirst(code, s, t, i, t + 3, i, n, exit, j);
      n := n + 1;
    }
  }

  /** From the body on: one iteration from `i` to `k`, then `m` more. */
  lemma {:induction false} TurnWalks(body: Re, code: seq<byte>, s: Subject, t: nat, m: nat, i: nat, k: nat, j: nat)
    returns (n: nat)
    requires LoopAt(body, code, t) && Fit(body) && Match(body, s, i, k) && Power(body, s, m, k, j)
    ensures Takes(code, s, n, t + 3, i, t + Len(body) + 6, j)
    decreases body, 3, m, 1
  {
    hide Fetch, LaidOut, Takes, LoopAt, Power, Match;
    LoopParts(body, code, t);
    MatchInText(body, s, i, k);
    var x, exit := t + 3 + Len(body), t + Len(body) + 6;
    var a := Walks(body, code, s, t + 3, i, k);
    var b := LoopWalks(body, code, s, t, m, k, j);
    TakesFirst(code, s, x, k, t, k, b, exit, j);
    TakesAdd(code, s, a, b + 1, t + 3, i, x, k, exit, j);
    n := a + (b + 1);
  }

  // ----- every way through the code is a match -----

  /** The first hop of a way to the end. */
  lemma FirstHop(code: seq<byte>, s: Subject, n: nat, p: nat, d: nat, j: nat) returns (p': nat, d': nat)
    requires Takes(code, s, n, p, d, |code|, j) && Fetch(code, p) != Bad
    ensures n > 0 && Hop(code, s, p, d, p', d') && Takes(code, s, n - 1, p', d', |code|, j)
  {
    hide Fetch, Hop;
    NoFetch(code);
    p', d' :| Hop(code, s, p, d, p', d') && Takes(code, s, n - 1, p', d', |code|, j);
  }

  lemma {:induction false} TakesPending(code: seq<byte>, s: Subject, n: nat, p: nat, k: Kont, d: nat, j: nat)
    requires Reps(code, p, k) && FitK(k) && Takes(code, s, n, p, d, |code|, j) && d <= |s.text|
    ensures Pending(s, k, d, j)
    decreases n, Weight(k, d), 2
  {
    hide Fetch, Starts, Boundary, LaidOut, LoopAt, Reps, Takes, Hop, Match;
    RepsStarts(code, p, k);
    if !Direct(code, p, k) {
      RepsHop(code, p, k);
      var p', d' := FirstHop(code, s, n, p, d, j);
      PlainHop(code, s, p, d, p', d');
      TakesPending(code, s, n - 1, p', k, d, j);
    } else {
      match k
      case Halt => HaltTakes(code, s, n, p, d, j);
      case Close(_, _, k') =>
        var m, q := StopTakes(code, s, n, p, d, j);
        TakesPending(code, s, m, q + 3, k', d, j);
      case Loop(e, start, k') => LoopTakes(code, s, n, p, e, start, k', d, j);
      case Again(e, k') => AgainTakes(code, s, n, p, e, k', d, j);
      case Do(e, k') => DoTakes(code, s, n, p, e, k', d, j);
    }
  }

  lemma HaltTakes(code: seq<byte>, s: Subject, n: nat, p: nat, d: nat, j: nat)
    requires p == |code| && Takes(code, s, n, p, d, |code|, j)
    ensures d == j
  {
    hide Fetch;
    NoFetch(code);
  }

  /** Instructions with one way on. */
  lemma PlainHop(code: seq<byte>, s: Subject, p: nat, d: nat, p': nat, d': nat)
    requires Hop(code, s, p, d, p', d')
    ensures match Fetch(code, p)
            case JumpPastAlt(off) => p' == p + 3 + off && d' == d
            case MaybePopJump(off) => p' == p + 3 + off && d' == d
            case DummyFailureJump(off) => p' == p + 3 + off && d' == d
            case StartMemory(_, _) => p' == p + 3 && d' == d
            case StopMemory(_, _) => p' == p + 3 && d' == d
            case PushDummyFailure => p' == p + 1 && d' == d
            case OnFailureJump(off) => (p' == p + 3 || p' == p + 3 + off) && d' == d
            case _ => true
  {
    hide Fetch;
  }

  /** Past the end of a group. */
  lemma StopTakes(code: seq<byte>, s: Subject, n: nat, p: nat, d: nat, j: nat) returns (m: nat, q: nat)
    requires Takes(code, s, n, p, d, |code|, j) && Fetch(code, StopAddr(code, p)).StopMemory?
    ensures q == StopAddr(code, p) && m < n && Takes(code, s, m, q + 3, d, |code|, j)
  {
    hide Fetch, Takes, Hop;
    q := StopAddr(code, p);
    var p', d' := FirstHop(code, s, n, p, d, j);
    PlainHop(code, s, p, d, p', d');
    m := n - 1;
    if q != p {
      p', d' := FirstHop(code, s, m, q, d, j);
      PlainHop(code, s, q, d, p', d');
      m := m - 1;
    }
  }

  lemma {:induction false} LoopTakes(code: seq<byte>, s: Subject, n: nat, p: nat, e: Re, start: nat, k: Kont, d: nat, j: nat)
    requires Direct(code, p, Loop(e, start, k)) && Starts(code, p) && FitK(Loop(e, start, k))
    requires Takes(code, s, n, p, d, |code|, j) && d <= |s.text|
    ensures Pending(s, Loop(e, start, k), d, j)
    decreases n, 0, 0
  {
    hide Fetch, Starts, Boundary, LaidOut, LoopAt, Reps, Takes, Hop, Match;
    var m, q := StopTakes(code, s, n, p, d, j);
    var t := q - Len(e.body);
    var _ := LoopPlace(code, p, e, start, k);
    LoopParts(e.body, code, t);
    var p', d' := FirstHop(code, s, m, q + 3, d, j);
    PlainHop(code, s, q + 3, d, p', d');
    TakesPending(code, s, m - 1, t, Again(e, k), d, j);
  }

  lemma {:induction false} AgainTakes(code: seq<byte>, s: Subject, n: nat, t: nat, e: Re, k: Kont, d: nat, j: nat)
    requires Direct(code, t, Again(e, k)) && Starts(code, t) && FitK(Again(e, k))
    requires Takes(code, s, n, t, d, |code|, j) && d <= |s.text|
    ensures Pending(s, Again(e, k), d, j)
    decreases n, 0, 0
  {
    hide Fetch, Starts, Boundary, LaidOut, LoopAt, Reps, Takes, Hop, Match;
    LoopParts(e.body, code, t);
    var p', d' := FirstHop(code, s, n, t, d, j);
    PlainHop(code, s, t, d, p', d');
    if p' == t + 3 {
      var m, h := BodyTakes(code, s, n - 1, t, e, k, d, j);
    } else {
      TakesPending(code, s, n - 1, p', k, d, j);
      assert Power(e.body, s, 0, d, d);
    }
  }

  /** From the body of a loop on: one iteration to `h`, and what follows. */
  lemma {:induction false} BodyTakes(code: seq<byte>, s: Subject, n: nat, t: nat, e: Re, k: Kont, d: nat, j: nat)
    returns (m: nat, h: nat)
    requires FitK(Again(e, k)) && Starts(code, t) && LoopAt(e.body, code, t) && Reps(code, t + Len(e.body) + 6, k)
    requires Takes(code, s, n, t + 3, d, |code|, j) && d <= |s.text|
    ensures m >= 1 && Power(e.body, s, m, d, h) && Pending(s, k, h, j)
    decreases n, 0, 1
  {
    hide Fetch, Starts, Boundary, LaidOut, LoopAt, Reps, Takes, Hop, Match;
    if e.body.Group? { m, h := GroupBodyTakes(code, s, n, t, e, k, d, j); }
    else { m, h := ByteBodyTakes(code, s, n, t, e, k, d, j); }
  }

  lemma {:induction false} GroupBodyTakes(code: seq<byte>, s: Subject, n: nat, t: nat, e: Re, k: Kont, d: nat, j: nat)
    returns (m: nat, h: nat)
    requires FitK(Again(e, k)) && IsGroupLoop(e) && Starts(code, t) && LoopAt(e.body, code, t)
    requires Reps(code, t + Len(e.body) + 6, k) && Takes(code, s, n, t + 3, d, |code|, j) && d <= |s.text|
    ensures m >= 1 && Power(e.body, s, m, d, h) && Pending(s, k, h, j)
    decreases n, 0, 0
  {
    hide Fetch, Starts, Boundary, LaidOut, LoopAt, Reps, Takes, Hop;
    LoopReps(code, t, e, d, k);
    FitLoop(e, d, k);
    var p', d' := FirstHop(code, s, n, t + 3, d, j);
    PlainHop(code, s, t + 3, d, p', d');
    TakesPending(code, s, n - 1, t + 6, Do(e.body.body, Loop(e, d, k)), d, j);
    var i: nat :| Match(e.body.body, s, d, i) && Pending(s, Loop(e, d, k), i, j);
    var l: nat; l, h :| Power(e.body, s, l, i, h) && Pending(s, k, h, j);
    m := l + 1;
    assert Match(e.body, s, d, i);
  }

  lemma {:induction false} ByteBodyTakes(code: seq<byte>, s: Subject, n: nat, t: nat, e: Re, k: Kont, d: nat, j: nat)
    returns (m: nat, h: nat)
    requires FitK(Again(e, k)) && Single(e.body) && Starts(code, t) && LoopAt(e.body, code, t)
    requires Reps(code, t + Len(e.body) + 6, k) && Takes(code, s, n, t + 3, d, |code|, j) && d <= |s.text|
    ensures m >= 1 && Power(e.body, s, m, d, h) && Pending(s, k, h, j)
    decreases n, 0, 0
  {
    hide Fetch, Starts, Boundary, LaidOut, LoopAt, Reps, Takes, Hop;
    LoopParts(e.body, code, t);
    AgainReps(code, t, e, k);
    LeafCode(e.body, code, t + 3);
    var p', d' := FirstHop(code, s, n, t + 3, d, j);
    LeafHopped(e.body, code, s, t + 3, d, p', d');
    var p'', d'' := FirstHop(code, s, n - 1, p', d', j);
    PlainHop(code, s, p', d', p'', d'');
    TakesPending(code, s, n - 2, t, Again(e, k), d', j);
    var l: nat; l, h :| Power(e.body, s, l, d', h) && Pending(s, k, h, j);
    m := l + 1;
  }

  lemma LeafCode(e: Re, code: seq<byte>, p: nat)
    requires LaidOut(e, code, p) && (Leaf(e) || Single(e))
    ensures Fetch(code, p) != Bad && Leaf(e)
  {
    hide Fetch;
  }

  lemma LeafHopped(e: Re, code: seq<byte>, s: Subject, p: nat, d: nat, p': nat, d': nat)
    requires LaidOut(e, code, p) && Leaf(e) && Hop(code, s, p, d, p', d')
    ensures p' == p + Len(e) && Match(e, s, d, d') && d' <= |s.text|
  {
    hide Fetch;
  }

  lemma {:induction false} DoTakes(code: seq<byte>, s: Subject, n: nat, p: nat, e: Re, k: Kont, d: nat, j: nat)
    requires Direct(code, p, Do(e, k)) && Starts(code, p) && FitK(Do(e, k))
    requires Takes(code, s, n, p, d, |code|, j) && d <= |s.text|
    ensures Pending(s, Do(e, k), d, j)
    decreases n, Weight(Do(e, k), d), 1
  {
    hide Fetch, Starts, Boundary, LaidOut, LoopAt, Reps, Takes, Hop, Match, Direct, Pending, FitK, Takes;
    match e
    case Empty => EmptyTakes(code, s, n, p, e, k, d, j);
    case Cat(_, _) => CatTakes(code, s, n, p, e, k, d, j);
    case Alt(_, _) => AltTakes(code, s, n, p, e, k, d, j);
    case Group(_, _, _) => GroupTakes(code, s, n, p, e, k, d, j);
    case Repeat(_, _) => RepeatTakes(code, s, n, p, e, k, d, j);
    case _ => LeafTakes(code, s, n, p, e, k, d, j);
  }

  lemma {:induction false} EmptyTakes(code: seq<byte>, s: Subject, n: nat, p: nat, e: Re, k: Kont, d: nat, j: nat)
    requires Direct(code, p, Do(e, k)) && Starts(code, p) && FitK(Do(e, k)) && e.Empty?
    requires Takes(code, s, n, p, d, |code|, j) && d <= |s.text|
    ensures Pending(s, Do(e, k), d, j)
    decreases n, Size(e) + Weight(k, d), 0
  {
    hide Fetch, Starts, Boundary, LoopAt, Reps, Takes, Hop;
    TakesPending(code, s, n, p, k, d, j);
    assert Match(e, s, d, d);
  }

  lemma {:induction false} CatTakes(code: seq<byte>, s: Subject, n: nat, p: nat, e: Re, k: Kont, d: nat, j: nat)
    requires Direct(code, p, Do(e, k)) && Starts(code, p) && FitK(Do(e, k)) && e.Cat?
    requires Takes(code, s, n, p, d, |code|, j) && d <= |s.text|
    ensures Pending(s, Do(e, k), d, j)
    decreases n, Size(e) + Weight(k, d), 0
  {
    hide Fetch, Starts, Boundary, LaidOut, LoopAt, Reps, Takes, Hop;
    var l, r := e.l, e.r;
    RepsCat(code, p, l, r, k);
    assert FitK(Do(r, k));
    assert Weight(Do(r, k), d) == Size(r) + Weight(k, d);
    TakesPending(code, s, n, p, Do(l, Do(r, k)), d, j);
    CatPending(l, r, k, s, d, j);
  }

  lemma CatPending(l: Re, r: Re, k: Kont, s: Subject, d: nat, j: nat)
    requires Pending(s, Do(l, Do(r, k)), d, j)
    ensures Pending(s, Do(Cat(l, r), k), d, j)
  {
    var i: nat :| Match(l, s, d, i) && Pending(s, Do(r, k), i, j);
    var h: nat :| Match(r, s, i, h) && Pending(s, k, h, j);
    assert Match(Cat(l, r), s, d, h);
  }

  lemma {:induction false} AltTakes(code: seq<byte>, s: Subject, n: nat, p: nat, e: Re, k: Kont, d: nat, j: nat)
    requires Direct(code, p, Do(e, k)) && Starts(code, p) && FitK(Do(e, k)) && e.Alt?
    requires Takes(code, s, n, p, d, |code|, j) && d <= |s.text|
    ensures Pending(s, Do(e, k), d, j)
    decreases n, Size(e) + Weight(k, d), 0
  {
    hide Fetch, Starts, Boundary, LaidOut, LoopAt, Reps, Takes, Hop;
    AltParts(code, p, e);
    AltReps(code, p, e, k);
    var p', d' := FirstHop(code, s, n, p, d, j);
    PlainHop(code, s, p, d, p', d');
    var side := if p' == p + 3 then e.l else e.r;
    TakesPending(code, s, n - 1, p', Do(side, k), d, j);
    var h: nat :| Match(side, s, d, h) && Pending(s, k, h, j);
    assert Match(e, s, d, h);
  }

  lemma {:induction false} GroupTakes(code: seq<byte>, s: Subject, n: nat, p: nat, e: Re, k: Kont, d: nat, j: nat)
    requires Direct(code, p, Do(e, k)) && Starts(code, p) && FitK(Do(e, k)) && e.Group?
    requires Takes(code, s, n, p, d, |code|, j) && d <= |s.text|
    ensures Pending(s, Do(e, k), d, j)
    decreases n, Size(e) + Weight(k, d), 0
  {
    hide Fetch, Starts, Boundary, LaidOut, LoopAt, Reps, Takes, Hop;
    var c := Close(e.reg, d, k);
    GroupParts(e, code, p);
    RepsClose(code, p, e, d, k);
    assert FitK(c);
    var p', d' := FirstHop(code, s, n, p, d, j);
    PlainHop(code, s, p, d, p', d');
    TakesPending(code, s, n - 1, p + 3, Do(e.body, c), d, j);
    var h: nat :| Match(e.body, s, d, h) && Pending(s, c, h, j);
    assert Match(e, s, d, h);
  }

  lemma {:induction false} LeafTakes(code: seq<byte>, s: Subject, n: nat, p: nat, e: Re, k: Kont, d: nat, j: nat)
    requires Direct(code, p, Do(e, k)) && Starts(code, p) && FitK(Do(e, k)) && Leaf(e)
    requires Takes(code, s, n, p, d, |code|, j) && d <= |s.text|
    ensures Pending(s, Do(e, k), d, j)
    decreases n, Size(e) + Weight(k, d), 0
  {
    hide Fetch, Starts, Boundary, LaidOut, LoopAt, Reps, Takes, Hop;
    LeafCode(e, code, p);
    var p', d' := FirstHop(code, s, n, p, d, j);
    LeafHopped(e, code, s, p, d, p', d');
    TakesPending(code, s, n - 1, p', k, d', j);
  }

  lemma {:induction false} RepeatTakes(code: seq<byte>, s: Subject, n: nat, p: nat, e: Re, k: Kont, d: nat, j: nat)
    requires Direct(code, p, Do(e, k)) && Starts(code, p) && FitK(Do(e, k)) && e.Repeat?
    requires Takes(code, s, n, p, d, |code|, j) && d <= |s.text|
    ensures Pending(s, Do(e, k), d, j)
    decreases n, Size(e) + Weight(k, d), 0
  {
    hide Fetch, Starts, Boundary, LaidOut, LoopAt, Reps, Takes, Hop;
    RepeatParts(e, code, p);
    var m: nat, h: nat;
    match e.op {
      case Opt =>
        OptReps(code, p, e, k);
        var p', d' := FirstHop(code, s, n, p, d, j);
        PlainHop(code, s, p, d, p', d');
        if p' == p + 3 {
          TakesPending(code, s, n - 1, p', Do(e.body, k), d, j);
          h :| Match(e.body, s, d, h) && Pending(s, k, h, j);
          m := 1;
          PowerOne(e.body, s, d, h);
        } else {
          TakesPending(code, s, n - 1, p', k, d, j);
          m, h := 0, d;
        }
      case Star =>
        StarReps(code, p, e, k);
        TakesPending(code, s, n, p, Again(e, k), d, j);
        m, h :| Power(e.body, s, m, d, h) && Pending(s, k, h, j);
      case Plus =>
        DoReps(code, p, e, k);
        PlusParts(code, p, e, k);
        var p', d' := FirstHop(code, s, n, p, d, j);
        PlainHop(code, s, p, d, p', d');
        m, h := BodyTakes(code, s, n - 1, p + 3, e, k, d, j);
    }
    PowerBounds(e.body, s, m, d, h);
    assert Allows(e.op, m) && Power(e.body, s, m, d, h);
    assert Match(e, s, d, h);
  }

  lemma PowerOne(e: Re, s: Subject, i: nat, j: nat)
    requires Match(e, s, i, j)
    ensures Power(e, s, 1, i, j)
  {
    MatchInText(e, s, i, j);
    assert Power(e, s, 0, j, j);
  }

  /** The code of a pattern takes the text from `i` to `j` exactly when the pattern
      matches what lies between. */
  lemma ReadsMatches(e: Re, code: seq<byte>, s: Subject, i: nat, j: nat)
    requires LaidOut(e, code, 0) && Len(e) == |code| && Fit(e)
    ensures Reads(code, s, i, j) <==> Match(e, s, i, j)
  {
    hide LaidOut, Takes, Match;
    if Match(e, s, i, j) {
      MatchInText(e, s, i, j);
      var n := Walks(e, code, s, 0, i, j);
    }
    if Reads(code, s, i, j) {
      var n: nat :| Takes(code, s, n, 0, i, |code|, j);
      WholeReps(e, code);
      TakesPending(code, s, n, 0, Do(e, Halt), i, j);
      HaltPending(e, s, i, j);
    }
  }

  lemma HaltPending(e: Re, s: Subject, i: nat, j: nat)
    requires Pending(s, Do(e, Halt), i, j)
    ensures Match(e, s, i, j)
  {
    hide Match;
  }
}
