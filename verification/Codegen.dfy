/** The bytes the compiler emits for each node, and that they decode to its
    layout. */
module Codegen {
  import opened Octets
  import opened RegexLang
  import opened Bytecode

  /** An opcode and a two-byte operand, as `store_op1` writes them. */
  function Op1(op: byte, off: int): (b: seq<byte>)
    ensures |b| == 3
  {
    [op, Bytes2(off).0, Bytes2(off).1]
  }

  /** `code` with three bytes at `loc` replaced by a jump, as `store_op1` leaves it. */
  function Stored(code: seq<byte>, op: byte, loc: nat, arg: int): (r: seq<byte>)
    requires loc + 3 <= |code|
    ensures |r| == |code|
  {
    code[..loc] + Op1(op, arg) + code[loc + 3..]
  }

  /** `code` with a jump inserted at `loc`, as `insert_op1` leaves it. */
  function Inserted(code: seq<byte>, op: byte, loc: nat, arg: int): (r: seq<byte>)
    requires loc <= |code|
    ensures |r| == |code| + 3
  {
    code[..loc] + Op1(op, arg) + code[loc..]
  }

  function LoopBytes(body: Re): seq<byte>
    decreases body, 1
  {
    Op1(ON_FAILURE_JUMP, Len(body) + 3) + Bytes(body) + Op1(MAYBE_POP_JUMP, -(Len(body) + 6))
  }

  function GroupOpen(reg: nat, inner: nat): (b: seq<byte>)
    ensures |b| == 3
  {
    [START_MEMORY, reg % 256, inner % 256]
  }

  function GroupClose(reg: nat, inner: nat, alts: bool): seq<byte> {
    (if alts then [PUSH_DUMMY_FAILURE] else []) + [STOP_MEMORY, reg % 256, inner % 256]
  }

  function Bytes(e: Re): (b: seq<byte>)
    decreases e, 0
  {
    match e
    case Empty => []
    case Exact(cs) => [EXACTN, |cs| % 256] + cs
    case Any => [ANYCHAR]
    case Charset(neg, bits) => [if neg then CHARSET_NOT else CHARSET, |bits| % 256] + bits
    case Bol => [BEGLINE]
    case Eol => [ENDLINE]
    case Cat(l, r) => Bytes(l) + Bytes(r)
    case Alt(l, r) =>
      Op1(ON_FAILURE_JUMP, Len(l) + 3) + Bytes(l) + Op1(JUMP_PAST_ALT, PastAlt(r)) + Bytes(r)
    case Group(reg, inner, body) =>
      GroupOpen(reg, inner) + Bytes(body) + GroupClose(reg, inner, body.Alt?)
    case Repeat(Star, body) => LoopBytes(body)
    case Repeat(Plus, body) => Op1(DUMMY_FAILURE_JUMP, 3) + LoopBytes(body)
    case Repeat(Opt, body) => Op1(ON_FAILURE_JUMP, Len(body)) + Bytes(body)
  }

  lemma {:induction false} BytesLen(e: Re)
    ensures |Bytes(e)| == Len(e)
  {
    match e
    case Cat(l, r) => BytesLen(l); BytesLen(r);
    case Alt(l, r) => BytesLen(l); BytesLen(r);
    case Group(_, _, body) => BytesLen(body);
    case Repeat(op, body) => BytesLen(body); assert op.Star? || op.Plus? || op.Opt?;
    case _ =>
  }

  /** Operands fit their bytes. */
  ghost predicate Encodable(e: Re) {
    match e
    case Exact(cs) => 0 < |cs| < 256
    case Charset(_, bits) => |bits| < 256
    case Cat(l, r) => Encodable(l) && Encodable(r)
    case Alt(l, r) => Encodable(l) && Encodable(r)
    case Group(reg, inner, body) => reg < 256 && inner < 256 && Encodable(body)
    case Repeat(_, body) => Encodable(body)
    case _ => true
  }

  /** `part` is in `code` at `p`. */
  predicate Has(code: seq<byte>, p: nat, part: seq<byte>) {
    p + |part| <= |code| && code[p..p + |part|] == part
  }

  lemma HasSplit(code: seq<byte>, p: nat, a: seq<byte>, b: seq<byte>)
    requires Has(code, p, a + b)
    ensures Has(code, p, a) && Has(code, p + |a|, b)
  {
    assert code[p..p + |a|] == code[p..p + |a + b|][..|a|];
    assert code[p + |a|..p + |a| + |b|] == code[p..p + |a + b|][|a|..];
  }

  lemma FetchOp1(code: seq<byte>, p: nat, op: byte, off: int)
    requires Has(code, p, Op1(op, off)) && -32768 <= off <= 32767
    ensures op == ON_FAILURE_JUMP ==> Fetch(code, p) == OnFailureJump(off)
    ensures op == MAYBE_POP_JUMP ==> Fetch(code, p) == MaybePopJump(off)
    ensures op == DUMMY_FAILURE_JUMP ==> Fetch(code, p) == DummyFailureJump(off)
    ensures op == JUMP_PAST_ALT ==> Fetch(code, p) == JumpPastAlt(off)
  {
    var part := code[p..p + 3];
    assert code[p] == part[0] && code[p + 1] == part[1] && code[p + 2] == part[2];
  }

  lemma FetchLeaf(code: seq<byte>, p: nat, e: Re)
    requires Has(code, p, Bytes(e)) && Encodable(e)
    requires e.Exact? || e.Any? || e.Charset? || e.Bol? || e.Eol?
    ensures LaidOut(e, code, p)
  {
    var part := code[p..p + |Bytes(e)|];
    assert code[p] == part[0];
    if e.Exact? || e.Charset? {
      var operand := if e.Exact? then e.cs else e.bits;
      assert code[p + 1] == part[1];
      assert code[p + 2..p + 2 + |operand|] == part[2..] == operand;
    }
  }

  lemma FetchGroup(code: seq<byte>, p: nat, q: nat, reg: nat, inner: nat, alts: bool)
    requires reg < 256 && inner < 256
    requires Has(code, p, GroupOpen(reg, inner)) && Has(code, q, GroupClose(reg, inner, alts))
    ensures Fetch(code, p) == StartMemory(reg, inner)
    ensures alts ==> Fetch(code, q) == PushDummyFailure
    ensures Fetch(code, if alts then q + 1 else q) == StopMemory(reg, inner)
  {
    var part := code[p..p + 3];
    assert code[p] == part[0] && code[p + 1] == part[1] && code[p + 2] == part[2];
    var tail := GroupClose(reg, inner, alts);
    var end := code[q..q + |tail|];
    assert forall i | 0 <= i < |tail| :: code[q + i] == end[i];
  }

  /** Emitted code is laid out as its node, when its jumps fit sixteen bits. */
  lemma {:induction false} BytesLaidOut(e: Re, code: seq<byte>, p: nat)
    requires Encodable(e) && Has(code, p, Bytes(e)) && Len(e) <= 32767
    ensures LaidOut(e, code, p)
    decreases e, 1
  {
    hide Fetch, Has, Op1, Bytes, Encodable, LaidOut, Len;
    match e
    case Empty => EmptyLaidOut(code, p);
    case Cat(_, _) => CatEmitted(e, code, p);
    case Alt(_, _) => AltLaidOut(e, code, p);
    case Group(_, _, _) => GroupLaidOut(e, code, p);
    case Repeat(_, _) => RepeatLaidOut(e, code, p);
    case _ => FetchLeaf(code, p, e);
  }

  lemma EmptyLaidOut(code: seq<byte>, p: nat)
    requires Has(code, p, Bytes(Empty))
    ensures LaidOut(Empty, code, p)
  {
    EmptyHas(code, p);
  }

  lemma {:induction false} CatEmitted(e: Re, code: seq<byte>, p: nat)
    requires e.Cat? && Encodable(e) && Has(code, p, Bytes(e)) && Len(e) <= 32767
    ensures LaidOut(e, code, p)
    decreases e, 0
  {
    hide Fetch, Has;
    HasSplit(code, p, Bytes(e.l), Bytes(e.r));
    BytesLen(e.l);
    BytesLaidOut(e.l, code, p);
    BytesLaidOut(e.r, code, p + Len(e.l));
  }

  lemma {:induction false} AltLaidOut(e: Re, code: seq<byte>, p: nat)
    requires e.Alt? && Encodable(e) && Has(code, p, Bytes(e)) && Len(e) <= 32767
    ensures LaidOut(e, code, p)
    decreases e, 0
  {
    hide Fetch, Has, Op1, Bytes, Len, PastAlt;
    var l, r := e.l, e.r;
    AltEmitted(e);
    BytesLen(l);
    var a, c := Op1(ON_FAILURE_JUMP, Len(l) + 3), Op1(JUMP_PAST_ALT, PastAlt(r));
    HasSplit(code, p, a + Bytes(l) + c, Bytes(r));
    HasSplit(code, p, a + Bytes(l), c);
    HasSplit(code, p, a, Bytes(l));
    FetchOp1(code, p, ON_FAILURE_JUMP, Len(l) + 3);
    FetchOp1(code, p + 3 + Len(l), JUMP_PAST_ALT, PastAlt(r));
    BytesLaidOut(l, code, p + 3);
    BytesLaidOut(r, code, p + 6 + Len(l));
  }

  lemma AltEmitted(e: Re)
    requires e.Alt?
    ensures Bytes(e) ==
            Op1(ON_FAILURE_JUMP, Len(e.l) + 3) + Bytes(e.l) + Op1(JUMP_PAST_ALT, PastAlt(e.r)) + Bytes(e.r)
    ensures Len(e.l) + 6 + Len(e.r) == Len(e) && PastAlt(e.r) <= Len(e.r) + 3
  {
    hide Op1;
  }

  lemma GroupEmitted(e: Re)
    requires e.Group?
    ensures Bytes(e) == GroupOpen(e.reg, e.inner) + Bytes(e.body) + GroupClose(e.reg, e.inner, e.body.Alt?)
    ensures Len(e.body) <= Len(e) && |GroupOpen(e.reg, e.inner)| == 3
  {
    hide GroupClose;
  }

  lemma {:induction false} GroupLaidOut(e: Re, code: seq<byte>, p: nat)
    requires e.Group? && Encodable(e) && Has(code, p, Bytes(e)) && Len(e) <= 32767
    ensures LaidOut(e, code, p)
    decreases e, 0
  {
    hide Fetch, Has, GroupOpen, GroupClose, Bytes, Len;
    GroupEmitted(e);
    var reg, inner, body := e.reg, e.inner, e.body;
    var open, close := GroupOpen(reg, inner), GroupClose(reg, inner, body.Alt?);
    BytesLen(body);
    HasSplit(code, p, open + Bytes(body), close);
    HasSplit(code, p, open, Bytes(body));
    FetchGroup(code, p, p + 3 + Len(body), reg, inner, body.Alt?);
    BytesLaidOut(body, code, p + 3);
  }

  lemma {:induction false} RepeatLaidOut(e: Re, code: seq<byte>, p: nat)
    requires e.Repeat? && Encodable(e) && Has(code, p, Bytes(e)) && Len(e) <= 32767
    ensures LaidOut(e, code, p)
    decreases e, 0
  {
    hide Fetch, Has, Op1, LoopAt, LoopBytes;
    var body := e.body;
    match e.op
    case Star => LoopLaidOut(body, code, p);
    case Plus =>
      HasSplit(code, p, Op1(DUMMY_FAILURE_JUMP, 3), LoopBytes(body));
      FetchOp1(code, p, DUMMY_FAILURE_JUMP, 3);
      LoopLaidOut(body, code, p + 3);
    case Opt =>
      HasSplit(code, p, Op1(ON_FAILURE_JUMP, Len(body)), Bytes(body));
      FetchOp1(code, p, ON_FAILURE_JUMP, Len(body));
      BytesLaidOut(body, code, p + 3);
  }

  lemma EmptyHas(code: seq<byte>, p: nat)
    requires Has(code, p, [])
    ensures p <= |code|
  {}

  lemma {:induction false} LoopLaidOut(body: Re, code: seq<byte>, p: nat)
    requires Encodable(body) && Has(code, p, LoopBytes(body)) && Len(body) + 6 <= 32767
    ensures LoopAt(body, code, p)
    decreases body, 2
  {
    hide Fetch, Has, Op1, LaidOut, Bytes;
    BytesLen(body);
    var a, c := Op1(ON_FAILURE_JUMP, Len(body) + 3), Op1(MAYBE_POP_JUMP, -(Len(body) + 6));
    HasSplit(code, p, a + Bytes(body), c);
    HasSplit(code, p, a, Bytes(body));
    FetchOp1(code, p, ON_FAILURE_JUMP, Len(body) + 3);
    FetchOp1(code, p + 3 + Len(body), MAYBE_POP_JUMP, -(Len(body) + 6));
    BytesLaidOut(body, code, p + 3);
  }
}
