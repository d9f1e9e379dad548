/** The compiled pattern: opcodes, operand encoding, and how a `Re` is laid out.

    Numbers are two bytes, low byte first, the high byte signed; jumps are
    relative to the byte after their operand. */
module Bytecode {
  import opened Octets
  import opened RegexLang

  const EXACTN: byte := 1
  const ANYCHAR: byte := 2
  const CHARSET: byte := 3
  const CHARSET_NOT: byte := 4
  const START_MEMORY: byte := 5
  const STOP_MEMORY: byte := 6
  const BEGLINE: byte := 8
  const ENDLINE: byte := 9
  const JUMP: byte := 12
  const JUMP_PAST_ALT: byte := 13
  const ON_FAILURE_JUMP: byte := 14
  const POP_FAILURE_JUMP: byte := 16
  const MAYBE_POP_JUMP: byte := 17
  const DUMMY_FAILURE_JUMP: byte := 18
  const PUSH_DUMMY_FAILURE: byte := 19

  datatype Instr =
    | ExactN(cs: seq<byte>)
    | AnyChar
    | Bracket(neg: bool, bits: seq<byte>)
    | StartMemory(reg: byte, inner: byte)
    | StopMemory(reg: byte, inner: byte)
    | BegLine
    | EndLine
    | Jump(off: int)
    | JumpPastAlt(off: int)
    | OnFailureJump(off: int)
    | PopFailureJump(off: int)
    | MaybePopJump(off: int)
    | DummyFailureJump(off: int)
    | PushDummyFailure
    | Bad

  function Width(i: Instr): nat {
    match i
    case ExactN(cs) => 2 + |cs|
    case Bracket(_, bits) => 2 + |bits|
    case AnyChar => 1
    case BegLine => 1
    case EndLine => 1
    case PushDummyFailure => 1
    case _ => 3
  }

  /** EXTRACT_NUMBER: a two-byte operand with sign. */
  function Number(lo: byte, hi: byte): int {
    lo + 256 * (if hi < 128 then hi else hi - 256)
  }

  /** STORE_NUMBER: the two bytes written for `n`; the high byte is `n >> 8`
      cut to eight bits. */
  function Bytes2(n: int): (b: (byte, byte))
    ensures -32768 <= n <= 32767 ==> Number(b.0, b.1) == n
  {
    (n % 256, n / 256 % 256)
  }

  /** The instruction at `p`; `Bad` when its bytes run past the end or the opcode
      is not one of those modelled. */
  function Fetch(code: seq<byte>, p: nat): Instr {
    if p >= |code| then Bad else
    var op := code[p];
    if op == ANYCHAR then AnyChar
    else if op == BEGLINE then BegLine
    else if op == ENDLINE then EndLine
    else if op == PUSH_DUMMY_FAILURE then PushDummyFailure
    else if op == EXACTN then
      if p + 1 < |code| && code[p + 1] > 0 && p + 2 + code[p + 1] <= |code|
      then ExactN(code[p + 2..p + 2 + code[p + 1]]) else Bad
    else if op == CHARSET || op == CHARSET_NOT then
      if p + 1 < |code| && p + 2 + code[p + 1] <= |code|
      then Bracket(op == CHARSET_NOT, code[p + 2..p + 2 + code[p + 1]]) else Bad
    else if p + 3 > |code| then Bad
    else if op == START_MEMORY then StartMemory(code[p + 1], code[p + 2])
    else if op == STOP_MEMORY then StopMemory(code[p + 1], code[p + 2])
    else
      var off := Number(code[p + 1], code[p + 2]);
      if op == JUMP then Jump(off)
      else if op == JUMP_PAST_ALT then JumpPastAlt(off)
      else if op == ON_FAILURE_JUMP then OnFailureJump(off)
      else if op == POP_FAILURE_JUMP then PopFailureJump(off)
      else if op == MAYBE_POP_JUMP then MaybePopJump(off)
      else if op == DUMMY_FAILURE_JUMP then DummyFailureJump(off)
      else Bad
  }

  // ----- instruction boundaries -----

  /** Decoding one instruction after another from `from` arrives at `i`. */
  ghost predicate Boundary(code: seq<byte>, from: nat, i: nat)
    decreases i - from
  {
    from == i ||
    (from < i && Fetch(code, from) != Bad && Boundary(code, from + Width(Fetch(code, from)), i))
  }

  ghost predicate Starts(code: seq<byte>, i: nat) {
    i <= |code| && Boundary(code, 0, i)
  }

  lemma FetchInBounds(code: seq<byte>, p: nat)
    requires Fetch(code, p) != Bad
    ensures p + Width(Fetch(code, p)) <= |code|
  {}

  lemma {:induction false} BoundaryNext(code: seq<byte>, from: nat, a: nat)
    requires Boundary(code, from, a) && Fetch(code, a) != Bad
    ensures Boundary(code, from, a + Width(Fetch(code, a)))
    decreases a - from
  {
    if from < a {
      BoundaryNext(code, from + Width(Fetch(code, from)), a);
    } else {
      assert Boundary(code, a + Width(Fetch(code, a)), a + Width(Fetch(code, a)));
    }
  }

  lemma StartAtZero(code: seq<byte>)
    ensures Starts(code, 0)
  {}

  lemma StartsNext(code: seq<byte>, p: nat)
    requires Starts(code, p) && Fetch(code, p) != Bad
    ensures Starts(code, p + Width(Fetch(code, p)))
  {
    BoundaryNext(code, 0, p);
  }

  /** No instruction starts inside another. */
  lemma {:induction false} NothingInside(code: seq<byte>, from: nat, a: nat, i: nat)
    requires Boundary(code, from, a) && Boundary(code, from, i) && a < i
    ensures Fetch(code, a) != Bad && i >= a + Width(Fetch(code, a))
    decreases a - from
  {
    if from < a {
      NothingInside(code, from + Width(Fetch(code, from)), a, i);
    } else {
      var next := from + Width(Fetch(code, from));
      assert next == i || next < i;
    }
  }

  // ----- layout -----

  function Len(e: Re): nat {
    match e
    case Empty => 0
    case Exact(cs) => 2 + |cs|
    case Any => 1
    case Charset(_, bits) => 2 + |bits|
    case Bol => 1
    case Eol => 1
    case Cat(l, r) => Len(l) + Len(r)
    case Alt(l, r) => Len(l) + 6 + Len(r)
    case Group(_, _, body) => 3 + Len(body) + (if body.Alt? then 1 else 0) + 3
    case Repeat(Star, body) => Len(body) + 6
    case Repeat(Plus, body) => Len(body) + 9
    case Repeat(Opt, body) => Len(body) + 3
  }

  /** How far the jump at the end of an alternative goes: to the jump at the end
      of the next alternative, or past the last one. */
  function PastAlt(r: Re): nat {
    if r.Alt? then 3 + Len(r.l) else Len(r)
  }

  /** A loop from its failure jump to its closing jump. */
  ghost predicate LoopAt(body: Re, code: seq<byte>, p: nat)
    decreases body, 1
  {
    && Fetch(code, p) == OnFailureJump(Len(body) + 3)
    && LaidOut(body, code, p + 3)
    && Fetch(code, p + 3 + Len(body)) == MaybePopJump(-(Len(body) + 6))
  }

  /** The code of `e` is at `p`. */
  ghost predicate LaidOut(e: Re, code: seq<byte>, p: nat)
    decreases e, 0
  {
    match e
    case Empty => p <= |code|
    case Exact(cs) => Fetch(code, p) == ExactN(cs)
    case Any => Fetch(code, p) == AnyChar
    case Charset(neg, bits) => Fetch(code, p) == Bracket(neg, bits)
    case Bol => Fetch(code, p) == BegLine
    case Eol => Fetch(code, p) == EndLine
    case Cat(l, r) => LaidOut(l, code, p) && LaidOut(r, code, p + Len(l))
    case Alt(l, r) =>
      && Fetch(code, p) == OnFailureJump(Len(l) + 3)
      && LaidOut(l, code, p + 3)
      && Fetch(code, p + 3 + Len(l)) == JumpPastAlt(PastAlt(r))
      && LaidOut(r, code, p + 6 + Len(l))
    case Group(reg, inner, body) =>
      var q := p + 3 + Len(body);
      && reg < 256 && inner < 256
      && Fetch(code, p) == StartMemory(reg, inner)
      && LaidOut(body, code, p + 3)
      && (body.Alt? ==> Fetch(code, q) == PushDummyFailure)
      && Fetch(code, if body.Alt? then q + 1 else q) == StopMemory(reg, inner)
    case Repeat(Star, body) => LoopAt(body, code, p)
    case Repeat(Plus, body) => Fetch(code, p) == DummyFailureJump(3) && LoopAt(body, code, p + 3)
    case Repeat(Opt, body) => Fetch(code, p) == OnFailureJump(Len(body)) && LaidOut(body, code, p + 3)
  }

  lemma CatLaidOut(l: Re, r: Re, code: seq<byte>, p: nat)
    requires LaidOut(Cat(l, r), code, p)
    ensures LaidOut(l, code, p) && LaidOut(r, code, p + Len(l))
  {
    hide Fetch, LoopAt, Len, PastAlt;
  }

  lemma AltParts(code: seq<byte>, p: nat, e: Re)
    requires e.Alt? && LaidOut(e, code, p)
    ensures LaidOut(e.l, code, p + 3) && LaidOut(e.r, code, p + 6 + Len(e.l))
    ensures Fetch(code, p) == OnFailureJump(Len(e.l) + 3)
    ensures Fetch(code, p + 3 + Len(e.l)) == JumpPastAlt(PastAlt(e.r))
  {
    hide Fetch, Len, PastAlt, LoopAt;
  }

  lemma GroupParts(e: Re, code: seq<byte>, p: nat)
    requires e.Group? && LaidOut(e, code, p)
    ensures e.reg < 256 && e.inner < 256 && Fetch(code, p) == StartMemory(e.reg, e.inner)
    ensures LaidOut(e.body, code, p + 3)
    ensures var q := p + 3 + Len(e.body);
      && (e.body.Alt? ==> Fetch(code, q) == PushDummyFailure)
      && Fetch(code, if e.body.Alt? then q + 1 else q) == StopMemory(e.reg, e.inner)
  {
    hide Fetch, Len, LoopAt;
  }

  lemma AltLen(e: Re)
    requires e.Alt?
    ensures Len(e) == Len(e.l) + 6 + Len(e.r)
  {}

  lemma GroupLen(e: Re)
    requires e.Group?
    ensures Len(e) == Len(e.body) + if e.body.Alt? then 7 else 6
  {}

  lemma RepeatLen(e: Re)
    requires e.Repeat?
    ensures Len(e) == match e.op case Star => 6 + Len(e.body) case Plus => 9 + Len(e.body) case Opt => 3 + Len(e.body)
  {}

  lemma RepeatParts(e: Re, code: seq<byte>, p: nat)
    requires e.Repeat? && LaidOut(e, code, p)
    ensures e.op.Star? ==> LoopAt(e.body, code, p)
    ensures e.op.Plus? ==> Fetch(code, p) == DummyFailureJump(3) && LoopAt(e.body, code, p + 3)
    ensures e.op.Opt? ==> Fetch(code, p) == OnFailureJump(Len(e.body)) && LaidOut(e.body, code, p + 3)
  {
    hide Fetch, LoopAt;
  }

  lemma LoopParts(body: Re, code: seq<byte>, t: nat)
    requires LoopAt(body, code, t)
    ensures Fetch(code, t) == OnFailureJump(Len(body) + 3) && LaidOut(body, code, t + 3)
    ensures Fetch(code, t + 3 + Len(body)) == MaybePopJump(-(Len(body) + 6))
  {
    hide Fetch, LaidOut;
  }

  lemma LeafStarts(e: Re, code: seq<byte>, p: nat)
    requires Starts(code, p) && LaidOut(e, code, p)
    requires e.Exact? || e.Any? || e.Charset? || e.Bol? || e.Eol?
    ensures Starts(code, p + Len(e))
  {
    hide Boundary, Fetch, Starts;
    StartsNext(code, p);
  }

  lemma {:induction false} AltStarts(e: Re, code: seq<byte>, p: nat)
    requires e.Alt? && Starts(code, p) && LaidOut(e, code, p)
    ensures Starts(code, p + 3) && Starts(code, p + 3 + Len(e.l))
    ensures Starts(code, p + 6 + Len(e.l)) && Starts(code, p + Len(e))
    decreases e, 0
  {
    hide Boundary, Fetch, Starts, LaidOut;
    AltParts(code, p, e);
    StartsNext(code, p);
    LaidOutStarts(e.l, code, p + 3);
    StartsNext(code, p + 3 + Len(e.l));
    LaidOutStarts(e.r, code, p + 6 + Len(e.l));
  }

  /** Code laid out from an instruction start ends at one. */
  lemma {:induction false} LaidOutStarts(e: Re, code: seq<byte>, p: nat)
    requires Starts(code, p) && LaidOut(e, code, p)
    ensures Starts(code, p + Len(e))
    decreases e, 1
  {
    hide Boundary, Fetch, Starts, LaidOut;
    match e
    case Empty => assert p + Len(e) == p;
    case Cat(l, r) =>
      CatLaidOut(l, r, code, p);
      LaidOutStarts(l, code, p);
      LaidOutStarts(r, code, p + Len(l));
      assert p + Len(l) + Len(r) == p + Len(e);
    case Alt(_, _) => AltStarts(e, code, p);
    case Group(_, _, _) => GroupStarts(e, code, p);
    case Repeat(_, _) => RepeatStarts(e, code, p);
    case _ => LeafStarts(e, code, p);
  }

  lemma {:induction false} RepeatStarts(e: Re, code: seq<byte>, p: nat)
    requires e.Repeat? && Starts(code, p) && LaidOut(e, code, p)
    ensures Starts(code, p + Len(e))
    decreases e, 0
  {
    hide Boundary, Fetch, Starts, LaidOut, LoopAt;
    RepeatParts(e, code, p);
    match e.op
    case Star => LoopStarts(e.body, code, p);
    case Plus =>
      StartsNext(code, p);
      LoopStarts(e.body, code, p + 3);
      assert p + 3 + Len(e.body) + 6 == p + Len(e);
    case Opt =>
      StartsNext(code, p);
      LaidOutStarts(e.body, code, p + 3);
  }

  lemma {:induction false} GroupStarts(e: Re, code: seq<byte>, p: nat)
    requires e.Group? && Starts(code, p) && LaidOut(e, code, p)
    ensures Starts(code, p + 3) && Starts(code, p + 3 + Len(e.body)) && Starts(code, p + Len(e))
    decreases e, 0
  {
    hide Boundary, Fetch, Starts, LaidOut;
    GroupParts(e, code, p);
    StartsNext(code, p);
    LaidOutStarts(e.body, code, p + 3);
    var q := p + 3 + Len(e.body);
    if e.body.Alt? {
      StartsNext(code, q);
      StartsNext(code, q + 1);
    } else {
      StartsNext(code, q);
    }
  }

  lemma {:induction false} LoopStarts(body: Re, code: seq<byte>, p: nat)
    requires Starts(code, p) && LoopAt(body, code, p)
    ensures Starts(code, p + 3) && Starts(code, p + 3 + Len(body)) && Starts(code, p + Len(body) + 6)
    decreases body, 2
  {
    hide Boundary, Fetch, Starts, LaidOut, LoopAt;
    LoopParts(body, code, p);
    StartsNext(code, p);
    LaidOutStarts(body, code, p + 3);
    StartsNext(code, p + 3 + Len(body));
  }

  // ----- the decision at a closing jump -----

  /** Skip the group commands that follow a loop. */
  function SkipGroups(code: seq<byte>, p: nat): (q: nat)
    ensures q >= p
    decreases |code| - p
  {
    if Fetch(code, p).StartMemory? || Fetch(code, p).StopMemory? then SkipGroups(code, p + 3) else p
  }

  /** May the `maybe_pop_jump` at `x` drop a failure point?  Either nothing but
      group commands follows the loop, or a literal byte does that the body
      cannot start with.  A map's bit count is cut to eight bits here, as in the
      source, so a full 32-byte map counts as empty. */
  predicate CanPop(code: seq<byte>, x: nat) {
    var p2 := SkipGroups(code, x + 3);
    if p2 == |code| then true
    else if Fetch(code, p2).ExactN? && Fetch(code, x).MaybePopJump? && x + 6 + Fetch(code, x).off >= 0 then
      var c := Fetch(code, p2).cs;
      var body := Fetch(code, x + 6 + Fetch(code, x).off);
      |c| > 0 &&
      match body
      case ExactN(cs) => |cs| > 0 && cs[0] != c[0]
      case Bracket(neg, bits) =>
        var listed := c[0] < |bits| * 8 % 256 && Bit(bits[c[0] / 8], c[0] % 8);
        neg == listed
      case _ => false
    else false
  }

  lemma NoFetch(code: seq<byte>)
    ensures Fetch(code, |code|) == Bad
  {}

  lemma StartAtMost(code: seq<byte>, t: nat)
    requires Starts(code, t)
    ensures t <= |code|
  {}
}
