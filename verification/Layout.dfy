/** Where control can be.

    In laid-out code every jump lands on the start of an instruction or on the end
    of the code.  So the matcher's place in the pattern, and every place saved on
    the failure stack, is always such a start, however much of the code has been
    overwritten; and the saved string positions never exceed the current one. */
module Layout {
  import opened Octets
  import opened RegexLang
  import opened Bytecode
  import opened Machine
  import opened Rewriting
  import opened Invariant

  ghost predicate Lands(code: seq<byte>, t: int) {
    t >= 0 && Starts(code, t)
  }

  /** A jump by `off` from `x` goes back to the failure jump of a loop, which leads
      to just behind it. */
  ghost predicate ClosesLoop(code: seq<byte>, x: nat, off: int) {
    off <= -6 && Lands(code, x + 3 + off) && Fetch(code, x + 3 + off) == OnFailureJump(-off - 3)
  }

  /** The jump at `x`, if there is one, lands on a start, and a closing jump on the
      failure jump of its loop; the opcodes a closing jump is settled to are not
      there yet.  A map at `x` is of at most 256 bits. */
  ghost predicate Sound(code: seq<byte>, x: nat) {
    match Fetch(code, x)
    case Jump(_) => false
    case PopFailureJump(_) => false
    case JumpPastAlt(off) => off >= 0 && Lands(code, x + 3 + off)
    case OnFailureJump(off) => off >= 0 && Lands(code, x + 3 + off)
    case MaybePopJump(off) => ClosesLoop(code, x, off)
    case DummyFailureJump(off) => off > 0 && Lands(code, x + 3 + off)
    case Bracket(_, bits) => |bits| <= 32
    case _ => true
  }

  ghost predicate Wired(code: seq<byte>) {
    Whole(code) && forall x: nat :: Starts(code, x) ==> Sound(code, x)
  }

  // ----- which part of the pattern an instruction belongs to -----

  lemma Outside(code: seq<byte>, a: nat, x: nat)
    requires Starts(code, a) && Starts(code, x) && a <= x && Fetch(code, a) != Bad
    ensures x == a || x >= a + Width(Fetch(code, a))
  {
    hide Fetch;
    if a < x { NothingInside(code, 0, a, x); }
  }

  /** `n` is a part of `e`. */
  ghost predicate Inside(n: Re, e: Re) {
    n == e ||
    match e
    case Cat(l, r) => Inside(n, l) || Inside(n, r)
    case Alt(l, r) => Inside(n, l) || Inside(n, r)
    case Group(_, _, body) => Inside(n, body)
    case Repeat(_, body) => Inside(n, body)
    case _ => false
  }

  lemma {:induction false} InsideFit(n: Re, e: Re)
    requires Inside(n, e) && Fit(e)
    ensures Fit(n)
  {
    if n != e {
      match e
      case Cat(l, r) => if Inside(n, l) { InsideFit(n, l); } else { InsideFit(n, r); }
      case Alt(l, r) => if Inside(n, l) { InsideFit(n, l); } else { InsideFit(n, r); }
      case Group(_, _, body) => InsideFit(n, body);
      case Repeat(_, body) => InsideFit(n, body);
    }
  }

  /** The instruction at `x` is one of those laid out for `n` itself at `p`, and not
      for a part of it. */
  ghost predicate Owns(n: Re, p: nat, x: nat) {
    match n
    case Empty => false
    case Cat(_, _) => false
    case Alt(l, _) => x == p || x == p + 3 + Len(l)
    case Group(_, _, body) => x == p || x == p + 3 + Len(body) || (body.Alt? && x == p + 4 + Len(body))
    case Repeat(Star, body) => x == p || x == p + 3 + Len(body)
    case Repeat(Plus, body) => x == p || x == p + 3 || x == p + 6 + Len(body)
    case _ => x == p
  }

  /** `c` is a part of `e` just below it, laid out at `pc` when `e` is at `q`. */
  ghost predicate PartAt(c: Re, pc: nat, e: Re, q: nat) {
    match e
    case Cat(l, r) => (c == l && pc == q) || (c == r && pc == q + Len(l))
    case Alt(l, r) => (c == l && pc == q + 3) || (c == r && pc == q + 6 + Len(l))
    case Group(_, _, body) => c == body && pc == q + 3
    case Repeat(op, body) => c == body && pc == (if op.Plus? then q + 6 else q + 3)
    case _ => false
  }

  /** An instruction that is not laid out for `e` itself is in one of its parts. */
  lemma Descend(e: Re, code: seq<byte>, q: nat, x: nat) returns (c: Re, pc: nat)
    requires LaidOut(e, code, q) && Starts(code, q) && Starts(code, x) && q <= x < q + Len(e) && !Owns(e, q, x)
    ensures PartAt(c, pc, e, q) && c < e && LaidOut(c, code, pc) && Starts(code, pc)
    ensures pc <= x < pc + Len(c) && pc + Len(c) <= q + Len(e)
  {
    hide Fetch, Boundary, Starts, LaidOut, LoopAt;
    match e
    case Cat(l, r) =>
      CatLaidOut(l, r, code, q);
      LaidOutStarts(l, code, q);
      if x < q + Len(l) { c, pc := l, q; } else { c, pc := r, q + Len(l); }
    case Alt(l, r) =>
      AltPlace(e, code, q, x);
      if x < q + 3 + Len(l) { c, pc := l, q + 3; } else { c, pc := r, q + 6 + Len(l); }
    case Group(_, _, body) =>
      GroupStarts(e, code, q);
      GroupParts(e, code, q);
      Outside(code, q, x);
      if x >= q + 3 + Len(body) { GroupEnds(e, code, q, x); }
      c, pc := body, q + 3;
    case Repeat(op, body) =>
      RepeatPlace(e, code, q, x);
      c, pc := body, if op.Plus? then q + 6 else q + 3;
    case Empty => assert false;
    case _ =>
      LeafOwner(e, code, q, x);
      assert false;
  }

  lemma AltPlace(e: Re, code: seq<byte>, q: nat, y: nat)
    requires e.Alt? && LaidOut(e, code, q) && Starts(code, q) && Starts(code, y) && q <= y < q + Len(e)
    ensures var m := q + 3 + Len(e.l);
      && Starts(code, q + 3) && Starts(code, m + 3) && LaidOut(e.l, code, q + 3) && LaidOut(e.r, code, m + 3)
      && (y == q || y == m || q + 3 <= y < m || m + 3 <= y < m + 3 + Len(e.r))
  {
    hide Fetch, Boundary, Starts, LaidOut;
    AltStarts(e, code, q);
    AltParts(code, q, e);
    Outside(code, q, y);
    if y >= q + 3 + Len(e.l) { Outside(code, q + 3 + Len(e.l), y); }
  }

  lemma LeafOwner(e: Re, code: seq<byte>, q: nat, x: nat)
    requires LaidOut(e, code, q) && Starts(code, q) && Starts(code, x) && q <= x < q + Len(e)
    requires e.Exact? || e.Any? || e.Charset? || e.Bol? || e.Eol?
    ensures x == q
  {
    hide Fetch, Boundary, Starts;
    Outside(code, q, x);
  }

  lemma GroupEnds(e: Re, code: seq<byte>, q: nat, x: nat)
    requires e.Group? && LaidOut(e, code, q) && Starts(code, q) && Starts(code, x)
    requires q + 3 + Len(e.body) <= x < q + Len(e)
    ensures Owns(e, q, x)
  {
    hide Fetch, Boundary, Starts, LaidOut;
    GroupStarts(e, code, q);
    GroupParts(e, code, q);
    var m := q + 3 + Len(e.body);
    Outside(code, m, x);
    if e.body.Alt? {
      StartsNext(code, m);
      if x > m { Outside(code, m + 1, x); }
    }
  }

  lemma RepeatPlace(e: Re, code: seq<byte>, q: nat, y: nat)
    requires e.Repeat? && LaidOut(e, code, q) && Starts(code, q) && Starts(code, y) && q <= y < q + Len(e)
    ensures var inner := if e.op.Plus? then q + 6 else q + 3;
      && LaidOut(e.body, code, inner) && Starts(code, inner) && inner + Len(e.body) <= q + Len(e)
      && (Owns(e, q, y) || inner <= y < inner + Len(e.body))
  {
    hide Fetch, Boundary, Starts, LaidOut, LoopAt;
    RepeatParts(e, code, q);
    var body := e.body;
    match e.op
    case Opt =>
      StartsNext(code, q);
      Outside(code, q, y);
    case Star => LoopInside(body, code, q, y);
    case Plus =>
      StartsNext(code, q);
      Outside(code, q, y);
      LoopParts(body, code, q + 3);
      LoopStarts(body, code, q + 3);
      if y >= q + 3 { LoopInside(body, code, q + 3, y); }
  }

  lemma LoopInside(body: Re, code: seq<byte>, t: nat, y: nat)
    requires LoopAt(body, code, t) && Starts(code, t) && Starts(code, y) && t <= y < t + 6 + Len(body)
    ensures LaidOut(body, code, t + 3) && Starts(code, t + 3)
    ensures y == t || y == t + 3 + Len(body) || t + 3 <= y < t + 3 + Len(body)
  {
    hide Fetch, Boundary, Starts, LaidOut, LoopAt;
    LoopStarts(body, code, t);
    LoopParts(body, code, t);
    Outside(code, t, y);
    if y >= t + 3 + Len(body) { Outside(code, t + 3 + Len(body), y); }
  }

  /** Every instruction of laid-out code belongs to a part of the pattern. */
  lemma {:induction false} Owner(e: Re, code: seq<byte>, q: nat, x: nat) returns (n: Re, p: nat)
    requires LaidOut(e, code, q) && Starts(code, q) && Starts(code, x) && q <= x < q + Len(e)
    ensures Inside(n, e) && Starts(code, p) && LaidOut(n, code, p) && q <= p && p + Len(n) <= q + Len(e)
    ensures Owns(n, p, x) && (Fit(e) ==> EndOk(n, code, p, e, q))
    decreases e
  {
    hide Fetch, Boundary, Starts, LaidOut, Owns, Len, Fit, EndOk;
    n, p := e, q;
    if !Owns(e, q, x) {
      var c, pc := Descend(e, code, q, x);
      n, p := Owner(c, code, pc, x);
      if Fit(e) {
        PartFit(c, pc, e, q);
        PartEnd(n, p, c, pc, e, code, q);
      }
    } else {
      OwnEnd(e, code, q);
    }
  }

  // ----- what leads to a closing jump -----

  /** A group, or a single byte: what a loop may be over. */
  ghost predicate Shut(e: Re) {
    e.Group? || Single(e)
  }

  /** Behind the part `n` of `e` there is no closing jump, unless `n` is what the loop
      is over, or ends where `e` ends. */
  ghost predicate EndOk(n: Re, code: seq<byte>, p: nat, e: Re, q: nat) {
    || Shut(n)
    || (p + Len(n) == q + Len(e) && !Shut(e))
    || !Fetch(code, p + Len(n)).MaybePopJump?
  }

  lemma OwnEnd(e: Re, code: seq<byte>, q: nat)
    ensures EndOk(e, code, q, e, q)
  {}

  lemma PartFit(c: Re, pc: nat, e: Re, q: nat)
    requires PartAt(c, pc, e, q) && Fit(e)
    ensures Fit(c)
  {}

  lemma PartEnd(n: Re, p: nat, c: Re, pc: nat, e: Re, code: seq<byte>, q: nat)
    requires PartAt(c, pc, e, q) && LaidOut(e, code, q) && Fit(e) && EndOk(n, code, p, c, pc)
    ensures EndOk(n, code, p, e, q)
  {
    hide Fetch, LaidOut, LoopAt, Fit, EndOk;
    match e
    case Cat(l, r) => CatEnd(n, p, c, pc, e, code, q);
    case Alt(l, r) =>
      AltParts(code, q, e);
      OtherEnd(n, p, c, pc, e, code, q);
    case Group(_, _, body) =>
      GroupParts(e, code, q);
      OtherEnd(n, p, c, pc, e, code, q);
    case Repeat(op, body) =>
      LoopBody(e);
      OtherEnd(n, p, c, pc, e, code, q);
  }

  lemma OtherEnd(n: Re, p: nat, c: Re, pc: nat, e: Re, code: seq<byte>, q: nat)
    requires EndOk(n, code, p, c, pc)
    requires Shut(c) || (pc + Len(c) == q + Len(e) && !Shut(e)) || !Fetch(code, pc + Len(c)).MaybePopJump?
    ensures EndOk(n, code, p, e, q)
  {
    hide Fetch, Len, Shut;
  }

  lemma CatEnd(n: Re, p: nat, c: Re, pc: nat, e: Re, code: seq<byte>, q: nat)
    requires e.Cat? && PartAt(c, pc, e, q) && LaidOut(e, code, q) && EndOk(n, code, p, c, pc)
    ensures EndOk(n, code, p, e, q)
  {
    hide Fetch, LaidOut, EndOk;
    CatLaidOut(e.l, e.r, code, q);
    if Len(e.r) > 0 { HeadOpen(e.r, code, q + Len(e.l)); }
    OtherEnd(n, p, c, pc, e, code, q);
  }

  lemma LoopBody(e: Re)
    requires e.Repeat? && Fit(e)
    ensures Shut(e.body)
  {}

  /** Code does not begin with a closing jump. */
  lemma {:induction false} HeadOpen(e: Re, code: seq<byte>, p: nat)
    requires LaidOut(e, code, p) && Len(e) > 0
    ensures !Fetch(code, p).MaybePopJump?
  {
    hide Fetch, LoopAt;
    match e
    case Cat(l, r) => if Len(l) > 0 { HeadOpen(l, code, p); } else { HeadOpen(r, code, p); }
    case Repeat(_, body) =>
      RepeatParts(e, code, p);
      if e.op.Star? { LoopParts(body, code, p); }
    case _ =>
  }

  lemma LeafByte(e: Re, code: seq<byte>, p: nat)
    requires Single(e) && LaidOut(e, code, p)
    ensures var i := Fetch(code, p); (i.ExactN? || i.AnyChar? || i.Bracket?) && Width(i) == Len(e)
  {
    hide Fetch;
  }

  lemma LeafClosed(e: Re, code: seq<byte>, p: nat)
    requires LaidOut(e, code, p) && (e.Exact? || e.Any? || e.Charset? || e.Bol? || e.Eol?)
    ensures !Fetch(code, p).MaybePopJump?
  {
    hide Fetch;
  }

  // ----- laid-out code is wired -----

  /** The jump at the end of an alternative lands on a start. */
  lemma PastAltStarts(r: Re, code: seq<byte>, q: nat)
    requires Starts(code, q) && LaidOut(r, code, q)
    ensures Starts(code, q + PastAlt(r))
  {
    hide Fetch, Boundary, Starts;
    if r.Alt? { AltStarts(r, code, q); } else { LaidOutStarts(r, code, q); }
  }

  /** The instructions of one part of the pattern are sound. */
  lemma OwnedSound(n: Re, code: seq<byte>, p: nat, x: nat)
    requires LaidOut(n, code, p) && Starts(code, p) && Fit(n) && Owns(n, p, x)
    ensures Sound(code, x)
  {
    hide Fetch, Boundary, Starts, LaidOut, LoopAt, Len, Sound, Fit;
    match n
    case Alt(_, _) => AltSound(n, code, p, x);
    case Group(_, _, _) => GroupSound(n, code, p, x);
    case Repeat(_, _) => RepeatSound(n, code, p, x);
    case _ => LeafSound(n, code, p);
  }

  lemma AltSound(n: Re, code: seq<byte>, p: nat, x: nat)
    requires n.Alt? && LaidOut(n, code, p) && Starts(code, p) && Owns(n, p, x)
    ensures Sound(code, x)
  {
    hide Fetch, Boundary, Starts, LaidOut, Len, PastAlt;
    AltStarts(n, code, p);
    AltParts(code, p, n);
    var m := p + 3 + Len(n.l);
    assert p + 3 + (Len(n.l) + 3) == m + 3;
    PastAltStarts(n.r, code, m + 3);
  }

  lemma GroupSound(n: Re, code: seq<byte>, p: nat, x: nat)
    requires n.Group? && LaidOut(n, code, p) && Owns(n, p, x)
    ensures Sound(code, x)
  {
    hide Fetch, Boundary, Starts, LaidOut, Len;
    GroupParts(n, code, p);
  }

  lemma RepeatSound(n: Re, code: seq<byte>, p: nat, x: nat)
    requires n.Repeat? && LaidOut(n, code, p) && Starts(code, p) && Owns(n, p, x)
    ensures Sound(code, x)
  {
    hide Fetch, Boundary, Starts, LaidOut, LoopAt, Len, Sound;
    RepeatParts(n, code, p);
    match n.op
    case Star => LoopSound(n.body, code, p);
    case Plus =>
      PlusSound(n.body, code, p);
      LoopSound(n.body, code, p + 3);
    case Opt => OptSound(n.body, code, p);
  }

  /** The jump over the failure jump of a loop that must run at least once. */
  lemma PlusSound(body: Re, code: seq<byte>, p: nat)
    requires Starts(code, p) && Fetch(code, p) == DummyFailureJump(3) && LoopAt(body, code, p + 3)
    ensures Starts(code, p + 3) && Sound(code, p)
  {
    hide Fetch, Boundary, Starts, LaidOut, LoopAt, Len;
    StartsNext(code, p);
    LoopStarts(body, code, p + 3);
  }

  lemma OptSound(body: Re, code: seq<byte>, p: nat)
    requires Starts(code, p) && Fetch(code, p) == OnFailureJump(Len(body)) && LaidOut(body, code, p + 3)
    ensures Sound(code, p)
  {
    hide Fetch, Boundary, Starts, LaidOut, Len;
    StartsNext(code, p);
    LaidOutStarts(body, code, p + 3);
  }

  lemma LeafSound(e: Re, code: seq<byte>, p: nat)
    requires LaidOut(e, code, p) && Fit(e) && (e.Exact? || e.Any? || e.Charset? || e.Bol? || e.Eol?)
    ensures Sound(code, p)
  {
    hide Fetch, Starts;
  }

  lemma LoopSound(body: Re, code: seq<byte>, t: nat)
    requires LoopAt(body, code, t) && Starts(code, t)
    ensures Sound(code, t) && Sound(code, t + 3 + Len(body))
  {
    hide Fetch, Boundary, Starts, LaidOut, LoopAt, Len;
    LoopStarts(body, code, t);
    LoopParts(body, code, t);
    var x := t + 3 + Len(body);
    assert x + 3 - (Len(body) + 6) == t && t + 3 + (Len(body) + 3) == x + 3;
  }

  /** Every jump of a compiled pattern lands on an instruction or on the end. */
  lemma CodeWired(e: Re, code: seq<byte>)
    requires LaidOut(e, code, 0) && Len(e) == |code| && Fit(e)
    ensures Wired(code)
  {
    hide Fetch, LaidOut, Sound;
    assert Starts(code, 0);
    LaidOutStarts(e, code, 0);
    forall x: nat | Starts(code, x)
      ensures Sound(code, x)
    {
      if x < |code| {
        var n, p := Owner(e, code, 0, x);
        InsideFit(n, e);
        OwnedSound(n, code, p, x);
      } else {
        NothingAtEnd(code);
      }
    }
  }

  lemma NothingAtEnd(code: seq<byte>)
    ensures Sound(code, |code|)
  {}

  // ----- the matcher's places -----

  /** A failure point has a real place in the code, and its registers fit. */
  ghost predicate PointGrounded(code0: seq<byte>, nregs: nat, fp: FailPoint) {
    && (!fp.dummy ==> Starts(code0, fp.pat))
    && (fp.low <= fp.high ==> fp.high < nregs && |fp.saved| == fp.high + 1 - fp.low)
  }

  ghost predicate StackGrounded(code0: seq<byte>, nregs: nat, stack: seq<FailPoint>) {
    forall fp | fp in stack :: PointGrounded(code0, nregs, fp)
  }

  ghost predicate Grounded(code0: seq<byte>, nregs: nat, st: VState) {
    && Related(code0, st.code) && Starts(code0, st.p) && |st.info| == nregs
    && StackGrounded(code0, nregs, st.stack)
  }

  /** Saved positions do not exceed those saved later, nor `d`. */
  ghost predicate Ordered(stack: seq<FailPoint>, d: nat) {
    && (forall i, j | 0 <= i < j < |stack| ::
          !stack[i].dummy && !stack[j].dummy ==> stack[i].str <= stack[j].str)
    && forall i | 0 <= i < |stack| :: !stack[i].dummy ==> stack[i].str <= d
  }

  /** The instruction at a place the matcher can be. */
  lemma FetchGrounded(code0: seq<byte>, code: seq<byte>, p: nat)
    requires Wired(code0) && Related(code0, code) && Starts(code0, p) && p < |code0|
    ensures Fetch(code, p) != Bad && p + Width(Fetch(code, p)) <= |code|
    ensures Starts(code0, p + Width(Fetch(code, p)))
    ensures match Fetch(code, p)
            case Jump(off) => ClosesLoop(code0, p, off)
            case PopFailureJump(off) => ClosesLoop(code0, p, off)
            case MaybePopJump(off) => ClosesLoop(code0, p, off) && Fetch(code0, p) == Fetch(code, p)
            case JumpPastAlt(off) => off >= 0 && Lands(code0, p + 3 + off)
            case OnFailureJump(off) => off >= 0 && Lands(code0, p + 3 + off)
            case DummyFailureJump(off) => off > 0 && Lands(code0, p + 3 + off)
            case Bracket(_, bits) => |bits| <= 32
            case _ => true
  {
    hide Fetch, Boundary, CanPop, Starts, Related;
    FetchRelated(code0, code, p);
    assert Sound(code0, p);
    StartsNext(code0, p);
    WholeFetch(code0, p);
    SameLength(code0, code);
  }

  lemma PushGrounded(code0: seq<byte>, env: Env, st: VState, dummy: bool, pat: int, str: nat, nregs: nat)
    requires StackGrounded(code0, nregs, st.stack) && |st.info| == nregs
    requires !dummy ==> Lands(code0, pat)
    requires Push(env, st, dummy, pat, str).Running?
    ensures var st' := Push(env, st, dummy, pat, str).st;
      StackGrounded(code0, nregs, st'.stack) && st' == st.(stack := st'.stack)
  {
    hide Starts;
  }

  lemma {:induction false} FailGrounded(code0: seq<byte>, env: Env, st: VState, nregs: nat)
    requires StackGrounded(code0, nregs, st.stack) && |st.info| == nregs && Related(code0, st.code)
    requires Fail(env, st).Running?
    ensures Grounded(code0, nregs, Fail(env, st).st)
    decreases |st.stack|
  {
    hide Starts, Related, AtLoopEnd;
    var top := |st.stack| - 1;
    assert st.stack[top] in st.stack;
    assert PointGrounded(code0, nregs, st.stack[top]);
    var st' := Pop(st);
    if st.stack[top].dummy || AtLoopEnd(st.code, st.stack[top].pat) {
      FailGrounded(code0, env, st', nregs);
    }
  }

  /** The place a group leaves its loop for. */
  lemma ExitLands(code0: seq<byte>, code: seq<byte>, p: nat, reg: byte)
    requires Wired(code0) && Related(code0, code) && Starts(code0, p) && p < |code0|
    requires Fetch(code, p).StopMemory?
    ensures LoopExit(code, p, reg) >= 0 ==> Lands(code0, LoopExit(code, p, reg))
  {
    hide Fetch, Starts, Related, Wired;
    FetchGrounded(code0, code, p);
    SameLength(code0, code);
    if p + 3 < |code0| {
      FetchGrounded(code0, code, p + 3);
      ExitFrom(code0, code, p, reg);
    } else {
      NoFetch(code);
    }
  }

  lemma ExitFrom(code0: seq<byte>, code: seq<byte>, p: nat, reg: byte)
    requires Wired(code0) && Related(code0, code)
    requires match Fetch(code, p + 3)
             case Jump(off) => Lands(code0, p + 6 + off)
             case PopFailureJump(off) => Lands(code0, p + 6 + off)
             case MaybePopJump(off) => Lands(code0, p + 6 + off)
             case DummyFailureJump(off) => Lands(code0, p + 6 + off)
             case _ => true
    ensures LoopExit(code, p, reg) >= 0 ==> Lands(code0, LoopExit(code, p, reg))
  {
    hide Fetch, Starts, Related, Wired;
    if LoopExit(code, p, reg) >= 0 {
      var off := Fetch(code, p + 3).off;
      var t := p + 6 + off;
      NoFetch(code);
      SameLength(code0, code);
      StartAtMost(code0, t);
      FetchGrounded(code0, code, t);
    }
  }

  lemma StopGrounded(code0: seq<byte>, env: Env, st: VState, reg: byte, nregs: nat)
    requires Wired(code0) && Grounded(code0, nregs, st) && st.p < |code0| && Fetch(st.code, st.p).StopMemory?
    requires StepStop(env, st, reg).Running?
    ensures Grounded(code0, nregs, StepStop(env, st, reg).st)
  {
    hide Fetch, Starts, Related, Wired, LoopExit, Fail, Push;
    FetchGrounded(code0, st.code, st.p);
    ExitLands(code0, st.code, st.p, reg);
    var st' := CloseGroup(st, reg);
    var exit := LoopExit(st.code, st.p, reg);
    if (!st.info[reg].matched || PeekIsStart(st.code, st.p)) && exit >= 0 {
      PushGrounded(code0, env, st', false, exit, st.d, nregs);
      FailGrounded(code0, env, Push(env, st', false, exit, st.d).st, nregs);
    }
  }

  lemma MaybePopGrounded(code0: seq<byte>, st: VState, off: int, nregs: nat)
    requires Wired(code0) && Grounded(code0, nregs, st) && st.p < |code0| && |st.code| == |code0|
    requires Fetch(st.code, st.p) == MaybePopJump(off) && StepMaybePop(st, off).Running?
    ensures Grounded(code0, nregs, StepMaybePop(st, off).st)
  {
    hide Fetch, Starts, Related, Wired, CanPop;
    FetchGrounded(code0, st.code, st.p);
    var t := st.p + 3 + off;
    StartsNext(code0, t);
    ClosingKept(code0, st.code, st.p, off);
    SettleRelated(code0, st.code, st.p);
  }

  lemma ClosingKept(code0: seq<byte>, code: seq<byte>, x: nat, off: int)
    requires Wired(code0) && Related(code0, code) && Starts(code0, x) && x < |code0|
    requires Fetch(code0, x) == Fetch(code, x) == MaybePopJump(off)
    requires Lands(code0, x + 3 + off) && Starts(code0, x + 6 + off)
    ensures CanPop(code, x) == CanPop(code0, x)
  {
    hide Fetch, Starts, Related, CanPop;
    CanPopRelated(code0, code, x);
  }

  lemma OnFailureGrounded(code0: seq<byte>, env: Env, st: VState, off: int, nregs: nat)
    requires Wired(code0) && Grounded(code0, nregs, st) && st.p < |code0|
    requires Fetch(st.code, st.p) == OnFailureJump(off) && StepOnFailure(env, st, off).Running?
    ensures Grounded(code0, nregs, StepOnFailure(env, st, off).st)
  {
    hide Fetch, Starts, Related, Wired, Push;
    FetchGrounded(code0, st.code, st.p);
    var st' := Widened(st.code, st);
    PushGrounded(code0, env, st', false, st.p + 3 + off, st.d, nregs);
  }

  /** Every step of the matcher goes from one instruction start to another. */
  lemma StepGrounded(code0: seq<byte>, env: Env, st: VState, nregs: nat)
    requires Wired(code0) && Grounded(code0, nregs, st) && Step(env, st).Running?
    ensures Grounded(code0, nregs, Step(env, st).st)
  {
    hide Fetch, Starts, Related, Wired, CanPop, Fail, Push, StepStop, StepMaybePop, StepOnFailure;
    SameLength(code0, st.code);
    StartAtMost(code0, st.p);
    if Step(env, st) == Fail(env, st) {
      FailGrounded(code0, env, st, nregs);
    } else if st.p == |code0| {
      FailGrounded(code0, env, st.(hasBest := true, best := st.d), nregs);
    } else {
      FetchGrounded(code0, st.code, st.p);
      match Fetch(st.code, st.p) {
        case StopMemory(reg, _) => StopGrounded(code0, env, st, reg, nregs);
        case OnFailureJump(off) => OnFailureGrounded(code0, env, st, off, nregs);
        case MaybePopJump(off) => MaybePopGrounded(code0, st, off, nregs);
        case DummyFailureJump(off) => PushGrounded(code0, env, st, true, 0, 0, nregs);
        case PushDummyFailure => PushGrounded(code0, env, st, true, 0, 0, nregs);
        case _ =>
      }
    }
  }

  // ----- saved positions -----

  lemma PushOrdered(env: Env, st: VState, dummy: bool, pat: int, str: nat)
    requires Ordered(st.stack, str) || dummy
    requires Ordered(st.stack, st.d) && str <= st.d
    requires Push(env, st, dummy, pat, str).Running?
    ensures var st' := Push(env, st, dummy, pat, str).st;
      Ordered(st'.stack, st.d) && st' == st.(stack := st'.stack)
  {}

  lemma {:induction false} FailOrdered(env: Env, st: VState, d: nat)
    requires Ordered(st.stack, d) && Fail(env, st).Running?
    ensures Ordered(Fail(env, st).st.stack, Fail(env, st).st.d)
    decreases |st.stack|
  {
    hide AtLoopEnd, Restore;
    var top := |st.stack| - 1;
    var st' := Pop(st);
    assert forall i | 0 <= i < top :: st'.stack[i] == st.stack[i];
    if st.stack[top].dummy || AtLoopEnd(st.code, st.stack[top].pat) {
      FailOrdered(env, st', d);
    }
  }

  lemma StopOrdered(env: Env, st: VState, reg: byte)
    requires Ordered(st.stack, st.d) && StepStop(env, st, reg).Running?
    ensures Ordered(StepStop(env, st, reg).st.stack, StepStop(env, st, reg).st.d)
  {
    hide LoopExit, Fail, Push, Ordered;
    var st' := CloseGroup(st, reg);
    var exit := LoopExit(st.code, st.p, reg);
    if (!st.info[reg].matched || PeekIsStart(st.code, st.p)) && exit >= 0 {
      PushOrdered(env, st', false, exit, st.d);
      FailOrdered(env, Push(env, st', false, exit, st.d).st, st.d);
    }
  }

  /** Every step keeps the saved positions in order, at or before the current one. */
  lemma StepOrdered(env: Env, st: VState)
    requires Ordered(st.stack, st.d) && Step(env, st).Running?
    ensures Ordered(Step(env, st).st.stack, Step(env, st).st.d)
  {
    hide Fetch, CanPop, Fail, Push, StepStop, Ordered;
    if Step(env, st) == Fail(env, st) {
      FailOrdered(env, st, st.d);
    } else if st.p == |st.code| {
      FailOrdered(env, st.(hasBest := true, best := st.d), st.d);
    } else {
      match Fetch(st.code, st.p) {
        case ExactN(cs) => OrderedMore(st.stack, st.d, st.d + |cs|);
        case AnyChar => OrderedMore(st.stack, st.d, st.d + 1);
        case Bracket(_, _) => OrderedMore(st.stack, st.d, st.d + 1);
        case StopMemory(reg, _) => StopOrdered(env, st, reg);
        case OnFailureJump(off) => OnFailureOrdered(env, st, off);
        case PopFailureJump(_) => OrderedTail(st.stack, st.d);
        case MaybePopJump(_) => if |st.stack| > 0 { OrderedTail(st.stack, st.d); }
        case DummyFailureJump(_) => PushOrdered(env, st, true, 0, 0);
        case PushDummyFailure => PushOrdered(env, st, true, 0, 0);
        case _ =>
      }
    }
  }

  lemma OrderedMore(stack: seq<FailPoint>, d: nat, d': nat)
    requires Ordered(stack, d) && d <= d'
    ensures Ordered(stack, d')
  {}

  lemma OrderedTail(stack: seq<FailPoint>, d: nat)
    requires Ordered(stack, d) && |stack| > 0
    ensures Ordered(stack[..|stack| - 1], d)
  {}

  lemma OnFailureOrdered(env: Env, st: VState, off: int)
    requires Ordered(st.stack, st.d) && StepOnFailure(env, st, off).Running?
    ensures Ordered(StepOnFailure(env, st, off).st.stack, StepOnFailure(env, st, off).st.d)
  {
    hide Fetch, Push, Ordered;
    var st' := Widened(st.code, st);
    PushOrdered(env, st', false, st.p + 3 + off, st.d);
  }
}
