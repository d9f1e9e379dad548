/** What can begin a match.

    `FirstBytes` and `Nullable` say it of a tree, `CodeFirst` and `CodeNull` of a
    place in the code, following the jumps the way `re_compile_fastmap` does. */
module Fastmap {
  import opened Octets
  import opened RegexLang
  import opened Bytecode
  import opened Rewriting
  import opened Layout

  // ----- trees -----

  /** The empty string, as far as anything but anchors tells. */
  predicate Nullable(e: Re) {
    match e
    case Empty => true
    case Exact(cs) => cs == []
    case Bol => true
    case Eol => true
    case Cat(l, r) => Nullable(l) && Nullable(r)
    case Alt(l, r) => Nullable(l) || Nullable(r)
    case Group(_, _, body) => Nullable(body)
    case Repeat(op, body) => !op.Plus? || Nullable(body)
    case _ => false
  }

  predicate Begins(e: Re, c: byte) {
    match e
    case Exact(cs) => |cs| > 0 && cs[0] == c
    case Any => true
    case Charset(neg, bits) => neg != InMap(bits, c)
    case Cat(l, r) => Begins(l, c) || (Nullable(l) && Begins(r, c))
    case Alt(l, r) => Begins(l, c) || Begins(r, c)
    case Group(_, _, body) => Begins(body, c)
    case Repeat(_, body) => Begins(body, c)
    case _ => false
  }

  /** Every match is empty, of a nullable tree, or begins with one of its bytes. */
  lemma {:induction false} MatchBegins(e: Re, s: Subject, i: nat, j: nat)
    requires Match(e, s, i, j)
    ensures i <= j <= |s.text|
    ensures if i == j then Nullable(e) else Begins(e, s.text[i])
    decreases e, 0
  {
    match e
    case Exact(cs) => if i < j { assert cs[0] == s.text[i]; }
    case Cat(l, r) =>
      var k: nat :| Match(l, s, i, k) && Match(r, s, k, j);
      MatchBegins(l, s, i, k);
      MatchBegins(r, s, k, j);
    case Alt(l, r) =>
      if Match(l, s, i, j) { MatchBegins(l, s, i, j); } else { MatchBegins(r, s, i, j); }
    case Group(_, _, body) => MatchBegins(body, s, i, j);
    case Repeat(op, body) =>
      var n: nat :| Allows(op, n) && Power(body, s, n, i, j);
      PowerBegins(body, s, n, i, j);
    case _ =>
  }

  lemma {:induction false} PowerBegins(e: Re, s: Subject, n: nat, i: nat, j: nat)
    requires Power(e, s, n, i, j)
    ensures i <= j <= |s.text|
    ensures if i == j then n == 0 || Nullable(e) else Begins(e, s.text[i])
    decreases e, n + 1
  {
    if n > 0 {
      var k: nat :| Match(e, s, i, k) && Power(e, s, n - 1, k, j);
      MatchBegins(e, s, i, k);
      PowerBegins(e, s, n - 1, k, j);
    }
  }

  // ----- places in the code -----

  /** Can the code from `p` reach the end without looking at a byte? */
  predicate CodeNull(code: seq<byte>, p: nat)
    decreases |code| - p
  {
    if p >= |code| then true else
    match Fetch(code, p)
    case ExactN(_) => false
    case AnyChar => false
    case Bracket(_, _) => false
    case OnFailureJump(off) => off >= 0 && (CodeNull(code, p + 3) || CodeNull(code, p + 3 + off))
    case JumpPastAlt(off) => off >= 0 && CodeNull(code, p + 3 + off)
    case DummyFailureJump(off) => off >= 0 && CodeNull(code, p + 3 + off)
    case Bad => false
    case i => CodeNull(code, p + Width(i))
  }

  /** May `c` be the first byte the code from `p` takes? */
  predicate CodeBegins(code: seq<byte>, p: nat, c: byte)
    decreases |code| - p
  {
    if p >= |code| then false else
    match Fetch(code, p)
    case ExactN(cs) => |cs| > 0 && cs[0] == c
    case AnyChar => true
    case Bracket(neg, bits) => neg != InMap(bits, c)
    case OnFailureJump(off) => off >= 0 && (CodeBegins(code, p + 3, c) || CodeBegins(code, p + 3 + off, c))
    case JumpPastAlt(off) => off >= 0 && CodeBegins(code, p + 3 + off, c)
    case DummyFailureJump(off) => off >= 0 && CodeBegins(code, p + 3 + off, c)
    case Bad => false
    case i => CodeBegins(code, p + Width(i), c)
  }

  /** The code of `e` at `p` goes on at `q` when `e` matches nothing. */
  predicate CodeAs(e: Re, code: seq<byte>, p: nat, q: nat, c: byte) {
    && (CodeNull(code, p) <==> Nullable(e) && CodeNull(code, q))
    && (CodeBegins(code, p, c) <==> Begins(e, c) || (Nullable(e) && CodeBegins(code, q, c)))
  }

  lemma {:induction false} PastAltSame(r: Re, code: seq<byte>, q: nat, c: byte)
    requires LaidOut(r, code, q)
    ensures CodeNull(code, q + PastAlt(r)) == CodeNull(code, q + Len(r))
    ensures CodeBegins(code, q + PastAlt(r), c) == CodeBegins(code, q + Len(r), c)
    decreases r
  {
    hide Fetch, CodeNull, CodeBegins, LaidOut;
    if r.Alt? {
      AltParts(code, q, r);
      PastAltSame(r.r, code, q + 6 + Len(r.l), c);
      HopSame(code, q + 3 + Len(r.l), PastAlt(r.r), c);
      assert q + Len(r) == q + 6 + Len(r.l) + Len(r.r);
    }
  }

  lemma HopSame(code: seq<byte>, p: nat, off: nat, c: byte)
    requires Fetch(code, p) == JumpPastAlt(off) || Fetch(code, p) == DummyFailureJump(off)
    ensures CodeNull(code, p) == CodeNull(code, p + 3 + off)
    ensures CodeBegins(code, p, c) == CodeBegins(code, p + 3 + off, c)
  {}

  lemma ForkSame(code: seq<byte>, p: nat, off: nat, c: byte)
    requires Fetch(code, p) == OnFailureJump(off)
    ensures CodeNull(code, p) <==> CodeNull(code, p + 3) || CodeNull(code, p + 3 + off)
    ensures CodeBegins(code, p, c) <==> CodeBegins(code, p + 3, c) || CodeBegins(code, p + 3 + off, c)
  {}

  lemma NextSame(code: seq<byte>, p: nat, c: byte)
    requires var i := Fetch(code, p);
      i.StartMemory? || i.StopMemory? || i.BegLine? || i.EndLine? || i.PushDummyFailure? || i.MaybePopJump?
    ensures var q := p + Width(Fetch(code, p));
      CodeNull(code, p) == CodeNull(code, q) && CodeBegins(code, p, c) == CodeBegins(code, q, c)
  {}

  lemma LeafSame(e: Re, code: seq<byte>, p: nat, c: byte)
    requires LaidOut(e, code, p) && (e.Exact? || e.Any? || e.Charset? || e.Bol? || e.Eol?)
    ensures CodeAs(e, code, p, p + Len(e), c)
  {
    if e.Bol? || e.Eol? { NextSame(code, p, c); }
  }

  lemma {:induction false} LoopSame(body: Re, code: seq<byte>, p: nat, c: byte)
    requires LoopAt(body, code, p)
    ensures CodeNull(code, p) == CodeNull(code, p + Len(body) + 6)
    ensures CodeBegins(code, p, c) <==> Begins(body, c) || CodeBegins(code, p + Len(body) + 6, c)
    ensures CodeAs(body, code, p + 3, p + Len(body) + 6, c)
    decreases body, 2
  {
    hide Fetch, CodeNull, CodeBegins, LaidOut, LoopAt;
    LoopParts(body, code, p);
    var x := p + 3 + Len(body);
    ForkSame(code, p, Len(body) + 3, c);
    CodeSame(body, code, p + 3, c);
    NextSame(code, x, c);
    assert p + 3 + (Len(body) + 3) == x + 3 == p + Len(body) + 6;
  }

  /** Following the code agrees with the tree it stands for. */
  lemma {:induction false} CodeSame(e: Re, code: seq<byte>, p: nat, c: byte)
    requires LaidOut(e, code, p)
    ensures CodeAs(e, code, p, p + Len(e), c)
    decreases e, 1
  {
    hide Fetch, CodeNull, CodeBegins, LoopAt, LaidOut, Len, CodeAs;
    match e
    case Empty => EmptySame(code, p, c);
    case Cat(_, _) => CatSame(e, code, p, c);
    case Alt(_, _) => AltSame(e, code, p, c);
    case Group(_, _, body) => GroupSame(e, code, p, c);
    case Repeat(op, body) => RepeatSame(e, code, p, c);
    case _ => LeafSame(e, code, p, c);
  }

  lemma EmptySame(code: seq<byte>, p: nat, c: byte)
    ensures CodeAs(Empty, code, p, p + Len(Empty), c)
  {
    hide CodeNull, CodeBegins;
  }

  lemma {:induction false} CatSame(e: Re, code: seq<byte>, p: nat, c: byte)
    requires e.Cat? && LaidOut(e, code, p)
    ensures CodeAs(e, code, p, p + Len(e), c)
    decreases e, 0
  {
    hide Fetch, CodeNull, CodeBegins, LaidOut;
    CatLaidOut(e.l, e.r, code, p);
    CodeSame(e.l, code, p, c);
    CodeSame(e.r, code, p + Len(e.l), c);
    assert p + Len(e.l) + Len(e.r) == p + Len(e);
  }

  lemma {:induction false} AltSame(e: Re, code: seq<byte>, p: nat, c: byte)
    requires e.Alt? && LaidOut(e, code, p)
    ensures CodeAs(e, code, p, p + Len(e), c)
    decreases e, 0
  {
    hide Fetch, CodeNull, CodeBegins, LaidOut, Len, PastAlt;
    var l, r := e.l, e.r;
    AltLen(e);
    AltParts(code, p, e);
    ForkSame(code, p, Len(l) + 3, c);
    CodeSame(l, code, p + 3, c);
    CodeSame(r, code, p + 6 + Len(l), c);
    HopSame(code, p + 3 + Len(l), PastAlt(r), c);
    PastAltSame(r, code, p + 6 + Len(l), c);
    assert p + 6 + Len(l) + Len(r) == p + Len(e);
  }

  lemma {:induction false} GroupSame(e: Re, code: seq<byte>, p: nat, c: byte)
    requires e.Group? && LaidOut(e, code, p)
    ensures CodeAs(e, code, p, p + Len(e), c)
    decreases e, 0
  {
    hide Fetch, CodeNull, CodeBegins, LaidOut;
    GroupParts(e, code, p);
    NextSame(code, p, c);
    CodeSame(e.body, code, p + 3, c);
    var q := p + 3 + Len(e.body);
    NextSame(code, q, c);
    if e.body.Alt? { NextSame(code, q + 1, c); }
  }

  lemma {:induction false} RepeatSame(e: Re, code: seq<byte>, p: nat, c: byte)
    requires e.Repeat? && LaidOut(e, code, p)
    ensures CodeAs(e, code, p, p + Len(e), c)
    decreases e, 0
  {
    hide Fetch, CodeNull, CodeBegins, LoopAt, LaidOut, Len;
    RepeatParts(e, code, p);
    RepeatLen(e);
    match e.op
    case Star => LoopSame(e.body, code, p, c);
    case Plus =>
      LoopSame(e.body, code, p + 3, c);
      HopSame(code, p, 3, c);
    case Opt =>
      ForkSame(code, p, Len(e.body), c);
      CodeSame(e.body, code, p + 3, c);
  }

  /** What can begin the whole pattern. */
  lemma WholeSame(e: Re, code: seq<byte>, c: byte)
    requires LaidOut(e, code, 0) && Len(e) == |code|
    ensures CodeNull(code, 0) <==> Nullable(e)
    ensures CodeBegins(code, 0, c) <==> Begins(e, c)
  {
    hide Fetch, LaidOut;
    CodeSame(e, code, 0, c);
  }

  // ----- jumps that go nowhere -----

  function LastAlt(e: Re): Re {
    if e.Alt? then LastAlt(e.r) else e
  }

  /** The jump behind an alternative goes nowhere when the next one is the last and
      empty; then the group it is in closes there, or the pattern ends. */
  lemma {:induction false} EmptyAltAhead(e: Re, code: seq<byte>, p: nat, x: nat)
    requires Framed(e) && Starts(code, p) && LaidOut(e, code, p) && Starts(code, x) && p <= x < p + Len(e)
    requires Fetch(code, x) == JumpPastAlt(0)
    ensures Fetch(code, x + 3) == PushDummyFailure ||
            (x + 3 == p + Len(e) && e.Alt? && Len(LastAlt(e)) == 0)
    decreases e, 1
  {
    hide Fetch, Boundary, Starts;
    match e
    case Cat(l, r) =>
      LaidOutStarts(l, code, p);
      if x < p + Len(l) { EmptyAltAhead(l, code, p, x); } else { EmptyAltAhead(r, code, p + Len(l), x); }
    case Alt(_, _) => EmptyAltInAlt(e, code, p, x);
    case Group(_, _, _) => EmptyAltInGroup(e, code, p, x);
    case Repeat(_, _) => EmptyAltInRepeat(e, code, p, x);
    case Empty =>
    case _ => Outside(code, p, x);
  }

  lemma {:induction false} EmptyAltInAlt(e: Re, code: seq<byte>, p: nat, x: nat)
    requires e.Alt? && Framed(e) && Starts(code, p) && LaidOut(e, code, p) && Starts(code, x) && p <= x < p + Len(e)
    requires Fetch(code, x) == JumpPastAlt(0)
    ensures Fetch(code, x + 3) == PushDummyFailure || (x + 3 == p + Len(e) && Len(LastAlt(e)) == 0)
    decreases e, 0
  {
    hide Fetch, Boundary, Starts, LaidOut;
    AltStarts(e, code, p);
    AltParts(code, p, e);
    Outside(code, p, x);
    var q := p + 3 + Len(e.l);
    assert p + Len(e) == q + 3 + Len(e.r);
    if x < q {
      EmptyAltAhead(e.l, code, p + 3, x);
    } else {
      Outside(code, q, x);
      if x > q { EmptyAltAhead(e.r, code, q + 3, x); }
    }
  }

  lemma {:induction false} EmptyAltInGroup(e: Re, code: seq<byte>, p: nat, x: nat)
    requires e.Group? && Framed(e) && Starts(code, p) && LaidOut(e, code, p) && Starts(code, x) && p <= x < p + Len(e)
    requires Fetch(code, x) == JumpPastAlt(0)
    ensures Fetch(code, x + 3) == PushDummyFailure
    decreases e, 0
  {
    hide Fetch, Boundary, Starts, LaidOut;
    GroupStarts(e, code, p);
    GroupParts(e, code, p);
    Outside(code, p, x);
    var q := p + 3 + Len(e.body);
    if x < q {
      EmptyAltAhead(e.body, code, p + 3, x);
    } else {
      Outside(code, q, x);
      if e.body.Alt? {
        StartsNext(code, q);
        if x > q { Outside(code, q + 1, x); }
      }
    }
  }

  lemma {:induction false} EmptyAltInRepeat(e: Re, code: seq<byte>, p: nat, x: nat)
    requires e.Repeat? && Framed(e) && Starts(code, p) && LaidOut(e, code, p) && Starts(code, x) && p <= x < p + Len(e)
    requires Fetch(code, x) == JumpPastAlt(0)
    ensures Fetch(code, x + 3) == PushDummyFailure
    decreases e, 0
  {
    hide Fetch, Boundary, Starts, LoopAt, LaidOut;
    RepeatParts(e, code, p);
    match e.op
    case Star => EmptyAltInLoop(e.body, code, p, x);
    case Plus =>
      Outside(code, p, x);
      StartsNext(code, p);
      EmptyAltInLoop(e.body, code, p + 3, x);
    case Opt =>
      Outside(code, p, x);
      StartsNext(code, p);
      EmptyAltAhead(e.body, code, p + 3, x);
  }

  lemma {:induction false} EmptyAltInLoop(body: Re, code: seq<byte>, t: nat, x: nat)
    requires !body.Alt? && Framed(body) && Starts(code, t) && LoopAt(body, code, t)
    requires Starts(code, x) && t <= x < t + Len(body) + 6 && Fetch(code, x) == JumpPastAlt(0)
    ensures Fetch(code, x + 3) == PushDummyFailure
    decreases body, 2
  {
    hide Fetch, Boundary, Starts, LoopAt, LaidOut;
    LoopStarts(body, code, t);
    LoopParts(body, code, t);
    Outside(code, t, x);
    if x < t + 3 + Len(body) { EmptyAltAhead(body, code, t + 3, x); }
    else { Outside(code, t + 3 + Len(body), x); }
  }

  /** In the code of a whole pattern a jump goes nowhere at the very end exactly
      when the last of its top-level alternatives is empty. */
  lemma EmptyLastJump(e: Re, code: seq<byte>)
    requires Framed(e) && LaidOut(e, code, 0) && Len(e) == |code|
    ensures (exists x: nat :: Starts(code, x) && x + 3 == |code| && Fetch(code, x) == JumpPastAlt(0)) <==>
            e.Alt? && Len(LastAlt(e)) == 0
  {
    hide Fetch, Boundary, Starts, LaidOut;
    StartAtZero(code);
    if x: nat :| Starts(code, x) && x + 3 == |code| && Fetch(code, x) == JumpPastAlt(0) {
      EmptyAltAhead(e, code, 0, x);
      NoFetch(code);
    }
    if e.Alt? && Len(LastAlt(e)) == 0 {
      var x := LastJump(e, code, 0);
    }
  }

  lemma {:induction false} LastJump(e: Re, code: seq<byte>, p: nat) returns (x: nat)
    requires e.Alt? && Len(LastAlt(e)) == 0 && Starts(code, p) && LaidOut(e, code, p)
    ensures Starts(code, x) && x + 3 == p + Len(e) && Fetch(code, x) == JumpPastAlt(0)
    decreases e
  {
    hide Fetch, Boundary, Starts, LaidOut;
    AltStarts(e, code, p);
    AltParts(code, p, e);
    if e.r.Alt? { x := LastJump(e.r, code, p + 6 + Len(e.l)); } else { x := p + 3 + Len(e.l); }
  }

  // ----- no byte too many -----

  /** No anchors, and every list takes some byte. */
  ghost predicate Free(e: Re) {
    match e
    case Charset(neg, bits) => exists c: byte :: neg != InMap(bits, c)
    case Bol => false
    case Eol => false
    case Cat(l, r) => Free(l) && Free(r)
    case Alt(l, r) => Free(l) && Free(r)
    case Group(_, _, body) => Free(body)
    case Repeat(_, body) => Free(body)
    case _ => true
  }

  /** `e` matches all of `t`. */
  ghost predicate Takes(e: Re, t: seq<byte>) {
    Match(e, Subject(t, false, false), 0, |t|)
  }

  /** Without anchors it does not matter where a text stands. */
  lemma {:induction false} Shifts(e: Re, s: Subject, i: nat, j: nat, s': Subject, i': nat)
    requires Free(e) && Match(e, s, i, j) && i <= j <= |s.text|
    requires i' + (j - i) <= |s'.text| && s'.text[i'..i' + (j - i)] == s.text[i..j]
    ensures Match(e, s', i', i' + (j - i))
    decreases e, 1
  {
    match e
    case Cat(_, _) => CatShifts(e, s, i, j, s', i');
    case Alt(l, r) =>
      if Match(l, s, i, j) { Shifts(l, s, i, j, s', i'); } else { Shifts(r, s, i, j, s', i'); }
    case Group(_, _, body) => Shifts(body, s, i, j, s', i');
    case Repeat(op, body) =>
      var n: nat :| Allows(op, n) && Power(body, s, n, i, j);
      PowerShifts(body, s, n, i, j, s', i');
    case _ => LeafShifts(e, s, i, j, s', i');
  }

  lemma {:induction false} CatShifts(e: Re, s: Subject, i: nat, j: nat, s': Subject, i': nat)
    requires e.Cat? && Free(e) && Match(e, s, i, j) && i <= j <= |s.text|
    requires i' + (j - i) <= |s'.text| && s'.text[i'..i' + (j - i)] == s.text[i..j]
    ensures Match(e, s', i', i' + (j - i))
    decreases e, 0
  {
    var l, r := e.l, e.r;
    var k: nat :| Match(l, s, i, k) && Match(r, s, k, j);
    BothBounds(l, r, s, i, k, j);
    hide Match;
    SliceSplit(s.text, i, k, j, s'.text, i');
    Shifts(l, s, i, k, s', i');
    Shifts(r, s, k, j, s', i' + (k - i));
    InARow(l, r, s', i', i' + (k - i), i' + (j - i));
  }

  lemma BothBounds(l: Re, r: Re, s: Subject, i: nat, k: nat, j: nat)
    requires Match(l, s, i, k) && Match(r, s, k, j)
    ensures i <= k <= j <= |s.text|
  {}

  lemma InARow(l: Re, r: Re, s: Subject, i: nat, k: nat, j: nat)
    requires Match(l, s, i, k) && Match(r, s, k, j)
    ensures Match(Cat(l, r), s, i, j)
  {}

  lemma Sub(t: seq<byte>, i: nat, a: nat, b: nat, j: nat)
    requires i <= a <= b <= j <= |t|
    ensures t[a..b] == t[i..j][a - i..b - i]
  {
    var u := t[i..j][a - i..b - i];
    forall x | 0 <= x < b - a
      ensures u[x] == t[a + x] == t[a..b][x]
    {}
    assert u == t[a..b];
  }

  lemma SliceSplit(t: seq<byte>, i: nat, k: nat, j: nat, t': seq<byte>, i': nat)
    requires i <= k <= j <= |t| && i' + (j - i) <= |t'| && t'[i'..i' + (j - i)] == t[i..j]
    ensures t'[i'..i' + (k - i)] == t[i..k] && t'[i' + (k - i)..i' + (j - i)] == t[k..j]
  {
    Sub(t, i, i, k, j);
    Sub(t, i, k, j, j);
    var k', j' := i' + (k - i), i' + (j - i);
    Sub(t', i', i', k', j');
    Sub(t', i', k', j', j');
  }

  lemma LeafShifts(e: Re, s: Subject, i: nat, j: nat, s': Subject, i': nat)
    requires Match(e, s, i, j) && (e.Empty? || e.Exact? || e.Any? || e.Charset?) && i <= j <= |s.text|
    requires i' + (j - i) <= |s'.text| && s'.text[i'..i' + (j - i)] == s.text[i..j]
    ensures Match(e, s', i', i' + (j - i))
  {
    if e.Any? || e.Charset? { assert s'.text[i'] == s'.text[i'..i' + 1][0] == s.text[i..j][0] == s.text[i]; }
  }

  lemma {:induction false} PowerShifts(e: Re, s: Subject, n: nat, i: nat, j: nat, s': Subject, i': nat)
    requires Free(e) && Power(e, s, n, i, j) && i <= j <= |s.text|
    requires i' + (j - i) <= |s'.text| && s'.text[i'..i' + (j - i)] == s.text[i..j]
    ensures Power(e, s', n, i', i' + (j - i))
    decreases e, n + 2
  {
    hide Match, Free;
    if n > 0 {
      var k: nat :| Match(e, s, i, k) && Power(e, s, n - 1, k, j);
      PowerBounds(e, s, n - 1, k, j);
      MatchBegins(e, s, i, k);
      SliceSplit(s.text, i, k, j, s'.text, i');
      Shifts(e, s, i, k, s', i');
      PowerShifts(e, s, n - 1, k, j, s', i' + (k - i));
      OneMore(e, s', n, i', i' + (k - i), i' + (j - i));
    }
  }

  lemma OneMore(e: Re, s: Subject, n: nat, i: nat, k: nat, j: nat)
    requires n > 0 && Match(e, s, i, k) && Power(e, s, n - 1, k, j)
    ensures Power(e, s, n, i, j)
  {
    hide Match;
  }

  lemma CatTakes(l: Re, r: Re, a: seq<byte>, b: seq<byte>)
    requires Free(l) && Free(r) && Takes(l, a) && Takes(r, b)
    ensures Takes(Cat(l, r), a + b)
  {
    hide Free, Match;
    var s := Subject(a + b, false, false);
    assert s.text[0..|a|] == a == a[0..|a|] && s.text[|a|..|a| + |b|] == b == b[0..|b|];
    Shifts(l, Subject(a, false, false), 0, |a|, s, 0);
    Shifts(r, Subject(b, false, false), 0, |b|, s, |a|);
    InARow(l, r, s, 0, |a|, |a| + |b|);
  }

  lemma OnceTakes(op: Op, body: Re, t: seq<byte>)
    requires Takes(body, t)
    ensures Takes(Repeat(op, body), t)
  {
    var s := Subject(t, false, false);
    assert Power(body, s, 0, |t|, |t|);
    assert Power(body, s, 1, 0, |t|) && Allows(op, 1);
  }

  /** A nullable tree takes the empty text. */
  lemma {:induction false} NullTakes(e: Re)
    requires Free(e) && Nullable(e)
    ensures Takes(e, [])
    decreases e
  {
    match e
    case Cat(l, r) =>
      NullTakes(l);
      NullTakes(r);
      var none: seq<byte> := [];
      CatTakes(l, r, none, none);
      assert none + none == none;
    case Alt(l, r) => if Nullable(l) { NullTakes(l); } else { NullTakes(r); }
    case Group(_, _, body) => NullTakes(body);
    case Repeat(op, body) =>
      if op.Plus? {
        NullTakes(body);
        OnceTakes(op, body, []);
      } else {
        assert Power(body, Subject([], false, false), 0, 0, 0) && Allows(op, 0);
      }
    case _ =>
  }

  /** Some text that is taken. */
  lemma {:induction false} SomeText(e: Re) returns (t: seq<byte>)
    requires Free(e)
    ensures Takes(e, t)
    decreases e
  {
    match e
    case Empty => t := [];
    case Exact(cs) =>
      t := cs;
      assert cs[0..|cs|] == cs;
    case Any => t := [1];
    case Charset(neg, bits) =>
      var c: byte :| neg != InMap(bits, c);
      t := [c];
    case Cat(l, r) =>
      var a := SomeText(l);
      var b := SomeText(r);
      CatTakes(l, r, a, b);
      t := a + b;
    case Alt(l, r) => t := SomeText(l);
    case Group(_, _, body) => t := SomeText(body);
    case Repeat(op, body) =>
      t := SomeText(body);
      OnceTakes(op, body, t);
  }

  /** Some text that is taken and begins with the byte. */
  lemma {:induction false} TextWith(e: Re, c: byte) returns (t: seq<byte>)
    requires Free(e) && Begins(e, c) && c != 0
    ensures |t| > 0 && t[0] == c && Takes(e, t)
    decreases e
  {
    match e
    case Exact(cs) =>
      t := cs;
      assert cs[0..|cs|] == cs;
    case Any => t := [c];
    case Charset(_, _) => t := [c];
    case Cat(l, r) =>
      if Begins(l, c) {
        var a := TextWith(l, c);
        var b := SomeText(r);
        CatTakes(l, r, a, b);
        t := a + b;
      } else {
        NullTakes(l);
        t := TextWith(r, c);
        CatTakes(l, r, [], t);
        assert [] + t == t;
      }
    case Alt(l, r) => if Begins(l, c) { t := TextWith(l, c); } else { t := TextWith(r, c); }
    case Group(_, _, body) => t := TextWith(body, c);
    case Repeat(op, body) =>
      t := TextWith(body, c);
      OnceTakes(op, body, t);
  }

  /** Of a pattern without anchors the first bytes, other than NUL, are exactly those
      that begin a match of some text, and it is nullable exactly when it matches the
      empty text. */
  lemma BeginsExactly(e: Re, c: byte)
    requires Free(e)
    ensures Nullable(e) <==> Takes(e, [])
    ensures c != 0 ==> (Begins(e, c) <==> exists t: seq<byte> :: |t| > 0 && t[0] == c && Takes(e, t))
  {
    hide Free, Match, Begins, Nullable;
    if Nullable(e) { NullTakes(e); }
    if Takes(e, []) { MatchBegins(e, Subject([], false, false), 0, 0); }
    if c != 0 && Begins(e, c) { var t := TextWith(e, c); }
    if t: seq<byte> :| |t| > 0 && t[0] == c && Takes(e, t) { MatchBegins(e, Subject(t, false, false), 0, |t|); }
  }
}
