/** Which groups and loops a place in the code is inside of.

    Reading the code from the front, `start_memory` opens a group and `stop_memory`
    closes one; a failure jump whose loop closes behind it opens that loop, and the
    closing jump closes it.  In compiled code every jump respects this nesting. */
module Nest {
  import opened Octets
  import opened RegexLang
  import opened Backtrack
  import opened Bytecode
  import opened Invariant
  import opened Layout

  /** The registers of the open groups and the failure jumps of the open loops,
      inner ones last. */
  datatype Nest = Nest(groups: seq<nat>, loops: seq<nat>)

  function Outer(s: seq<nat>): seq<nat> {
    if |s| == 0 then s else s[..|s| - 1]
  }

  /** The failure jump at `a` begins a loop. */
  ghost predicate BeginsLoop(code: seq<byte>, a: nat, off: int) {
    off >= 3 && Starts(code, a + off) && Fetch(code, a + off) == MaybePopJump(-(off + 3))
  }

  /** The nesting behind the instruction at `a`, given that in front of it. */
  ghost function Passed(code: seq<byte>, a: nat, n: Nest): Nest {
    match Fetch(code, a)
    case StartMemory(reg, _) => n.(groups := n.groups + [reg])
    case StopMemory(_, _) => n.(groups := Outer(n.groups))
    case OnFailureJump(off) => if BeginsLoop(code, a, off) then n.(loops := n.loops + [a]) else n
    case MaybePopJump(_) => n.(loops := Outer(n.loops))
    case _ => n
  }

  ghost function Scan(code: seq<byte>, a: nat, p: nat, n: Nest): Nest
    decreases p - a
  {
    if a >= p || Fetch(code, a) == Bad then n
    else Scan(code, a + Width(Fetch(code, a)), p, Passed(code, a, n))
  }

  ghost function NestAt(code: seq<byte>, p: nat): Nest {
    Scan(code, 0, p, Nest([], []))
  }

  lemma {:induction false} ScanNext(code: seq<byte>, a: nat, p: nat, n: Nest)
    requires Boundary(code, a, p) && Fetch(code, p) != Bad
    ensures Scan(code, a, p + Width(Fetch(code, p)), n) == Passed(code, p, Scan(code, a, p, n))
    decreases p - a
  {
    hide Fetch, Passed;
    if a < p {
      ScanNext(code, a + Width(Fetch(code, a)), p, Passed(code, a, n));
    } else {
      var q := p + Width(Fetch(code, p));
      assert Scan(code, q, q, Passed(code, p, n)) == Passed(code, p, n);
    }
  }

  lemma NestNext(code: seq<byte>, p: nat)
    requires Starts(code, p) && Fetch(code, p) != Bad
    ensures NestAt(code, p + Width(Fetch(code, p))) == Passed(code, p, NestAt(code, p))
  {
    hide Fetch, Passed, Scan;
    ScanNext(code, 0, p, Nest([], []));
  }

  // ----- laid-out code is balanced -----

  /** Behind the code of a part of the pattern the nesting is as in front of it. */
  lemma {:induction false} Balanced(e: Re, code: seq<byte>, p: nat)
    requires LaidOut(e, code, p) && Starts(code, p) && Fit(e)
    ensures NestAt(code, p + Len(e)) == NestAt(code, p)
    decreases e, 1
  {
    hide Fetch, Boundary, Starts, LaidOut, LoopAt, NestAt, BeginsLoop;
    match e
    case Empty => assert p + Len(e) == p;
    case Cat(l, r) =>
      CatLaidOut(l, r, code, p);
      LaidOutStarts(l, code, p);
      Balanced(l, code, p);
      Balanced(r, code, p + Len(l));
      assert p + Len(l) + Len(r) == p + Len(e);
    case Alt(_, _) => AltNest(e, code, p);
    case Group(_, _, _) => GroupNest(e, code, p);
    case Repeat(_, _) => RepeatNest(e, code, p);
    case _ => LeafNest(e, code, p);
  }

  lemma LeafNest(e: Re, code: seq<byte>, p: nat)
    requires LaidOut(e, code, p) && Starts(code, p) && (e.Exact? || e.Any? || e.Charset? || e.Bol? || e.Eol?)
    ensures NestAt(code, p + Len(e)) == NestAt(code, p)
  {
    hide Fetch, Boundary, Starts, NestAt;
    NestNext(code, p);
  }

  lemma {:induction false} AltNest(e: Re, code: seq<byte>, p: nat)
    requires e.Alt? && LaidOut(e, code, p) && Starts(code, p) && Fit(e)
    ensures var n := NestAt(code, p);
      && NestAt(code, p + 3) == n && NestAt(code, p + 3 + Len(e.l)) == n && NestAt(code, p + 6 + Len(e.l)) == n
      && NestAt(code, p + Len(e)) == n
    decreases e, 0
  {
    hide Fetch, Boundary, Starts, LaidOut, NestAt;
    AltStarts(e, code, p);
    AltParts(code, p, e);
    var q := p + 3 + Len(e.l);
    assert p + (Len(e.l) + 3) == q;
    NestNext(code, p);
    Balanced(e.l, code, p + 3);
    NestNext(code, q);
    Balanced(e.r, code, q + 3);
    assert p + Len(e) == q + 3 + Len(e.r);
  }

  lemma {:induction false} GroupNest(e: Re, code: seq<byte>, p: nat)
    requires e.Group? && LaidOut(e, code, p) && Starts(code, p) && Fit(e)
    ensures var n, q := NestAt(code, p), p + Len(e) - 3;
      && NestAt(code, p + 3) == n.(groups := n.groups + [e.reg])
      && NestAt(code, p + 3 + Len(e.body)) == n.(groups := n.groups + [e.reg])
      && NestAt(code, q) == n.(groups := n.groups + [e.reg]) && NestAt(code, q + 3) == n
    decreases e, 0
  {
    hide Fetch, Boundary, Starts, LaidOut, NestAt, BeginsLoop;
    GroupStarts(e, code, p);
    GroupParts(e, code, p);
    var m := p + 3 + Len(e.body);
    NestNext(code, p);
    Balanced(e.body, code, p + 3);
    if e.body.Alt? {
      NestNext(code, m);
      StartsNext(code, m);
      NestNext(code, m + 1);
    } else {
      NestNext(code, m);
    }
    var n := NestAt(code, p);
    assert Outer(n.groups + [e.reg]) == n.groups;
  }

  lemma {:induction false} LoopNest(body: Re, code: seq<byte>, t: nat)
    requires LoopAt(body, code, t) && Starts(code, t) && Fit(body)
    ensures var n, x := NestAt(code, t), t + 3 + Len(body);
      && NestAt(code, t + 3) == n.(loops := n.loops + [t]) && NestAt(code, x) == n.(loops := n.loops + [t])
      && NestAt(code, x + 3) == n
    decreases body, 2
  {
    hide Fetch, Boundary, Starts, LaidOut, LoopAt, NestAt;
    LoopStarts(body, code, t);
    LoopParts(body, code, t);
    var n, x, off := NestAt(code, t), t + 3 + Len(body), Len(body) + 3;
    assert t + off == x && BeginsLoop(code, t, off);
    NestNext(code, t);
    Balanced(body, code, t + 3);
    NestNext(code, x);
    assert Outer(n.loops + [t]) == n.loops;
  }

  /** The failure jump of an optional part begins no loop. */
  lemma OptBegins(e: Re, code: seq<byte>, p: nat)
    requires e.Repeat? && e.op.Opt? && LaidOut(e, code, p) && Starts(code, p) && Fit(e)
    ensures !BeginsLoop(code, p, Len(e.body))
  {
    hide Fetch, Boundary, Starts, LaidOut;
    RepeatParts(e, code, p);
    StartsNext(code, p);
    var body, x := e.body, p + Len(e.body);
    if body.Group? {
      GroupParts(body, code, p + 3);
    } else if Len(body) >= 3 && Starts(code, x) {
      LeafByte(body, code, p + 3);
      Outside(code, p + 3, x);
    }
  }

  lemma {:induction false} RepeatNest(e: Re, code: seq<byte>, p: nat)
    requires e.Repeat? && LaidOut(e, code, p) && Starts(code, p) && Fit(e)
    ensures NestAt(code, p + Len(e)) == NestAt(code, p)
    ensures !e.op.Star? ==> NestAt(code, p + 3) == NestAt(code, p)
    decreases e, 0
  {
    hide Fetch, Boundary, Starts, LaidOut, LoopAt, NestAt, BeginsLoop;
    RepeatParts(e, code, p);
    match e.op
    case Star => LoopNest(e.body, code, p);
    case Plus =>
      StartsNext(code, p);
      NestNext(code, p);
      LoopNest(e.body, code, p + 3);
      assert p + Len(e) == p + 3 + 3 + Len(e.body) + 3;
    case Opt =>
      OptBegins(e, code, p);
      StartsNext(code, p);
      NestNext(code, p);
      Balanced(e.body, code, p + 3);
      assert p + Len(e) == p + 3 + Len(e.body);
  }

  // ----- every instruction respects the nesting -----

  /** How the instruction at `x` and its jumps move in the nesting. */
  ghost predicate Nested(code: seq<byte>, x: nat) {
    var n := NestAt(code, x);
    match Fetch(code, x)
    case StartMemory(reg, _) => NestAt(code, x + 3) == n.(groups := n.groups + [reg])
    case StopMemory(reg, _) => n == NestAt(code, x + 3).(groups := NestAt(code, x + 3).groups + [reg])
    case JumpPastAlt(off) => off >= 0 && NestAt(code, x + 3 + off) == n
    case OnFailureJump(off) =>
      && off >= 0 && NestAt(code, x + 3 + off) == n
      && (NestAt(code, x + 3) == n || NestAt(code, x + 3) == n.(loops := n.loops + [x]))
    case MaybePopJump(off) =>
      var t := x + 3 + off;
      t >= 0 && n == NestAt(code, t).(loops := NestAt(code, t).loops + [t]) && NestAt(code, x + 3) == NestAt(code, t)
    case DummyFailureJump(off) => off == 3 && NestAt(code, x + 6) == n.(loops := n.loops + [x + 3])
    case Bad => true
    case i => NestAt(code, x + Width(i)) == n
  }

  lemma OwnedNested(n: Re, code: seq<byte>, p: nat, x: nat)
    requires LaidOut(n, code, p) && Starts(code, p) && Fit(n) && Owns(n, p, x)
    ensures Nested(code, x)
  {
    hide Fetch, Boundary, Starts, LaidOut, LoopAt, NestAt;
    match n
    case Alt(_, _) => AltNested(n, code, p);
    case Group(_, _, _) =>
      GroupParts(n, code, p);
      GroupNest(n, code, p);
    case Repeat(_, _) => RepeatNested(n, code, p, x);
    case _ => LeafNested(n, code, p);
  }

  lemma LeafNested(e: Re, code: seq<byte>, p: nat)
    requires LaidOut(e, code, p) && Starts(code, p) && (e.Exact? || e.Any? || e.Charset? || e.Bol? || e.Eol?)
    ensures Nested(code, p)
  {
    hide Fetch, Boundary, Starts, NestAt;
    NestNext(code, p);
  }

  lemma AltNested(e: Re, code: seq<byte>, p: nat)
    requires e.Alt? && LaidOut(e, code, p) && Starts(code, p) && Fit(e)
    ensures Nested(code, p) && Nested(code, p + 3 + Len(e.l))
  {
    hide Fetch, Boundary, Starts, LaidOut, NestAt;
    AltStarts(e, code, p);
    AltParts(code, p, e);
    AltNest(e, code, p);
    var q := p + 6 + Len(e.l);
    assert p + 3 + (Len(e.l) + 3) == q;
    if e.r.Alt? { AltNest(e.r, code, q); } else { Balanced(e.r, code, q); }
  }

  lemma RepeatNested(e: Re, code: seq<byte>, p: nat, x: nat)
    requires e.Repeat? && LaidOut(e, code, p) && Starts(code, p) && Fit(e) && Owns(e, p, x)
    ensures Nested(code, x)
  {
    hide Fetch, Boundary, Starts, LaidOut, LoopAt, NestAt;
    RepeatParts(e, code, p);
    RepeatNest(e, code, p);
    var body := e.body;
    match e.op
    case Star => LoopNested(body, code, p);
    case Plus =>
      StartsNext(code, p);
      LoopNest(body, code, p + 3);
      LoopNested(body, code, p + 3);
    case Opt => assert p + 3 + Len(body) == p + Len(e);
  }

  lemma LoopNested(body: Re, code: seq<byte>, t: nat)
    requires LoopAt(body, code, t) && Starts(code, t) && Fit(body)
    ensures Nested(code, t) && Nested(code, t + 3 + Len(body))
  {
    hide Fetch, Boundary, Starts, LaidOut, LoopAt, NestAt;
    LoopParts(body, code, t);
    LoopNest(body, code, t);
    var x := t + 3 + Len(body);
    assert t + 3 + (Len(body) + 3) == x + 3 && x + 3 - (Len(body) + 6) == t;
  }

  /** Every instruction of a compiled pattern does. */
  lemma CodeNested(e: Re, code: seq<byte>, x: nat)
    requires LaidOut(e, code, 0) && Len(e) == |code| && Fit(e) && Starts(code, x)
    ensures Nested(code, x)
    ensures NestAt(code, |code|) == Nest([], [])
  {
    hide Fetch, Boundary, LaidOut, Nested;
    StartAtZero(code);
    Balanced(e, code, 0);
    StartAtMost(code, x);
    if x < |code| {
      var n, p := Owner(e, code, 0, x);
      InsideFit(n, e);
      OwnedNested(n, code, p, x);
    } else {
      EndNested(code);
    }
  }

  lemma EndNested(code: seq<byte>)
    ensures Nested(code, |code|)
  {}

  // ----- pending work is inside the groups it will close -----

  /** The groups open in pending work, inner ones last. */
  ghost function OpenRegs(k: Kont): seq<nat> {
    match k
    case Halt => []
    case Do(_, k') => OpenRegs(k')
    case Again(_, k') => OpenRegs(k')
    case Close(reg, _, k') => OpenRegs(k') + [reg]
    case Loop(e, _, k') => OpenRegs(k') + [if IsGroupLoop(e) then e.body.reg else 0]
  }

  /** The groups a place is inside of are those open in the work done from it. */
  lemma {:induction false} EnclosingGroups(e: Re, code: seq<byte>, p: nat, k: Kont)
    requires LaidOut(e, code, 0) && Len(e) == |code| && Fit(e) && Reps(code, p, k) && FitK(k)
    ensures NestAt(code, p).groups == OpenRegs(k)
    decreases k, |code| - p, 1
  {
    hide Fetch, Boundary, LaidOut, LoopAt, NestAt, Starts, Len, Direct, OpenRegs;
    assert Starts(code, p);
    StartAtMost(code, p);
    if !Direct(code, p, k) {
      CodeNested(e, code, p);
      EnclosingGroups(e, code, p + 3 + Fetch(code, p).off, k);
    } else {
      match k
      case Halt =>
        CodeNested(e, code, p);
        HaltEnclosed(code, p);
      case Do(_, _) => DoEnclosed(e, code, p, k);
      case Again(_, _) => AgainEnclosed(e, code, p, k);
      case Close(_, _, _) => CloseEnclosed(e, code, p, k);
      case Loop(_, _, _) => LoopEnclosed(e, code, p, k);
    }
  }

  lemma HaltEnclosed(code: seq<byte>, p: nat)
    requires Direct(code, p, Halt) && NestAt(code, |code|) == Nest([], [])
    ensures NestAt(code, p).groups == OpenRegs(Halt)
  {
    hide NestAt;
  }

  lemma {:induction false} DoEnclosed(e: Re, code: seq<byte>, p: nat, k: Kont)
    requires LaidOut(e, code, 0) && Len(e) == |code| && Fit(e) && Direct(code, p, k) && Starts(code, p) && FitK(k)
    requires k.Do?
    ensures NestAt(code, p).groups == OpenRegs(k)
    decreases k, |code| - p, 0
  {
    hide Fetch, Boundary, LaidOut, LoopAt, NestAt, Starts, Reps, Len;
    Balanced(k.e, code, p);
    EnclosingGroups(e, code, p + Len(k.e), k.k);
  }

  lemma {:induction false} AgainEnclosed(e: Re, code: seq<byte>, p: nat, k: Kont)
    requires LaidOut(e, code, 0) && Len(e) == |code| && Fit(e) && Direct(code, p, k) && Starts(code, p) && FitK(k)
    requires k.Again?
    ensures NestAt(code, p).groups == OpenRegs(k)
    decreases k, |code| - p, 0
  {
    hide Fetch, Boundary, LaidOut, LoopAt, NestAt, Starts, Reps, Len;
    LoopNest(k.e.body, code, p);
    EnclosingGroups(e, code, p + Len(k.e.body) + 6, k.k);
  }

  lemma {:induction false} CloseEnclosed(e: Re, code: seq<byte>, p: nat, k: Kont)
    requires LaidOut(e, code, 0) && Len(e) == |code| && Fit(e) && Direct(code, p, k) && Starts(code, p) && FitK(k)
    requires k.Close?
    ensures NestAt(code, p).groups == OpenRegs(k)
    decreases k, |code| - p, 0
  {
    hide Fetch, Boundary, LaidOut, LoopAt, NestAt, Starts, Reps, Len;
    var q := PastDummy(e, code, p);
    EnclosingGroups(e, code, q + 3, k.k);
  }

  lemma {:induction false} LoopEnclosed(e: Re, code: seq<byte>, p: nat, k: Kont)
    requires LaidOut(e, code, 0) && Len(e) == |code| && Fit(e) && Direct(code, p, k) && Starts(code, p) && FitK(k)
    requires k.Loop?
    ensures NestAt(code, p).groups == OpenRegs(k)
    decreases k, |code| - p, 0
  {
    hide Fetch, Boundary, LaidOut, LoopAt, NestAt, Starts, Reps, Len;
    LoopLeft(e, code, p, k);
    EnclosingGroups(e, code, StopAddr(code, p) + 6, k.k);
  }

  /** Behind a loop the group it repeats is closed. */
  lemma LoopLeft(e: Re, code: seq<byte>, p: nat, k: Kont)
    requires LaidOut(e, code, 0) && Len(e) == |code| && Fit(e) && Starts(code, p) && k.Loop? && Direct(code, p, k)
    ensures Reps(code, StopAddr(code, p) + 6, k.k) && IsGroupLoop(k.e)
    ensures NestAt(code, p).groups == NestAt(code, StopAddr(code, p) + 6).groups + [k.e.body.reg]
  {
    hide Fetch, Boundary, LaidOut, LoopAt, NestAt, Starts, Reps;
    var q := PastDummy(e, code, p);
    StartsNext(code, q);
    LoopParts(k.e.body, code, q - Len(k.e.body));
    NestNext(code, q);
    NestNext(code, q + 3);
  }

  lemma PastDummy(e: Re, code: seq<byte>, p: nat) returns (q: nat)
    requires LaidOut(e, code, 0) && Len(e) == |code| && Fit(e) && Starts(code, p)
    requires Fetch(code, StopAddr(code, p)).StopMemory?
    ensures q == StopAddr(code, p) && Starts(code, q) && Nested(code, q) && NestAt(code, q) == NestAt(code, p)
  {
    hide Fetch, Boundary, LaidOut, NestAt, Starts;
    CodeNested(e, code, p);
    q := StopAddr(code, p);
    if q != p { StartsNext(code, p); }
    CodeNested(e, code, q);
  }
}
