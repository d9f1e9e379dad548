/** The one-pass compiler, `regex_compile`, for extended syntax without intervals,
    back references and word operators.

    One turn of the main loop reads one token.  The ghost fields say what has been
    read; `Valid` ties them to the buffer and to the compiler's variables. */
module Compiler {
  import opened Octets
  import opened RegexLang
  import opened Bytecode
  import opened Codegen
  import opened CodeBuffer
  import opened Ere
  import opened Bitmap
  import opened Parse
  import opened ParseOk
  import opened Emit
  import opened CompilerState
  import opened CodeSize

  datatype Errcode = REG_NOERROR | REG_EBRACK | REG_ERANGE | REG_EPAREN | REG_ESIZE

  // ----- what the compiler sees ahead -----

  /** The byte at `p`; past the end, the terminating NUL. */
  function Peek(pattern: seq<byte>, p: nat): byte {
    if p < |pattern| then pattern[p] else 0
  }

  predicate IsOpByte(c: byte) {
    c == 42 || c == 43 || c == 63
  }

  /** The rest of the pattern from `p` spells `ts`. */
  ghost predicate Rest(pattern: seq<byte>, p: nat, ts: seq<Token>) {
    p <= |pattern| && pattern[p..] == Text(ts) && TokensOk(ts)
  }

  /** What one byte of look-ahead tells of the next token. */
  lemma Ahead(pattern: seq<byte>, p: nat, ts: seq<Token>)
    requires Rest(pattern, p, ts)
    ensures IsOpByte(Peek(pattern, p)) <==> First(ts).Some? && First(ts).value.TOps?
    ensures Peek(pattern, p) == HAT <==> First(ts).Some? && First(ts).value.TCaret?
    ensures Peek(pattern, p) != 123
    ensures p == |pattern| <==> ts == []
  {
    if |ts| > 0 {
      assert ts[0] in ts;
      assert |TokenText(ts[0])| > 0;
      assert pattern[p..][0] == TokenText(ts[0])[0];
      if ts[0].TOps? { assert TokenText(ts[0])[0] == OpByte(ts[0].ops[0]); }
    }
  }

  /** The pattern after its next token. */
  lemma RestNext(pattern: seq<byte>, p: nat, ts: seq<Token>)
    requires Rest(pattern, p, ts) && |ts| > 0
    ensures var t := TokenText(ts[0]);
      |t| > 0 && p + |t| <= |pattern| && pattern[p..p + |t|] == t && Rest(pattern, p + |t|, ts[1..])
    ensures TokenOk(ts[0])
  {
    var t := TokenText(ts[0]);
    assert ts[0] in ts;
    assert pattern[p..][..|t|] == pattern[p..p + |t|];
    assert pattern[p..][|t|..] == pattern[p + |t|..];
  }

  // ----- repetition characters -----

  predicate ZeroTimesOk(ops: seq<Op>) {
    exists i | 0 <= i < |ops| :: ops[i] != Plus
  }

  predicate ManyTimesOk(ops: seq<Op>) {
    exists i | 0 <= i < |ops| :: ops[i] != Opt
  }

  /** The two flags gathered over a run give the operator it collapses to. */
  lemma {:induction false} CollapseFlags(ops: seq<Op>)
    requires |ops| > 0
    ensures Collapse(ops) ==
      if !ManyTimesOk(ops) then Opt else if ZeroTimesOk(ops) then Star else Plus
    decreases |ops|
  {
    var n := |ops| - 1;
    if n > 0 {
      CollapseFlags(ops[..n]);
      FlagsSnoc(ops[..n], ops[n]);
      assert ops == ops[..n] + [ops[n]];
    } else {
      assert ops == [ops[0]];
    }
  }

  lemma NoneOptional(ops: seq<Op>)
    requires |ops| > 0
    ensures !ManyTimesOk(ops) ==> ZeroTimesOk(ops)
  {
    if !ManyTimesOk(ops) { assert ops[0] == Opt; }
  }

  lemma NoFlags()
    ensures !ZeroTimesOk([]) && !ManyTimesOk([])
  {}

  lemma FlagsSnoc(ops: seq<Op>, op: Op)
    ensures ZeroTimesOk(ops + [op]) <==> ZeroTimesOk(ops) || op != Plus
    ensures ManyTimesOk(ops + [op]) <==> ManyTimesOk(ops) || op != Opt
  {
    var all := ops + [op];
    assert all[|ops|] == op;
    assert forall i | 0 <= i < |ops| :: all[i] == ops[i];
  }

  lemma AnchorBytes()
    ensures Bytes(Bol) == [BEGLINE] && Bytes(Eol) == [ENDLINE] && Bytes(Any) == [ANYCHAR]
  {}

  /** The byte after a literal joins it exactly when its length says it may. */
  lemma LiteralFacts(ctx: Ctx, holes: seq<seq<byte>>, hole: seq<byte>, code: seq<byte>, v: Vars)
    requires Fits(ctx, holes, hole, code, v)
    ensures v.pending == -1 || 0 <= v.pending < |code|
    ensures v.pending == -1 || v.pending + code[v.pending] + 1 != |code| || code[v.pending] == 255 <==>
      !(ctx.cur.pending && ctx.cur.last.Exact? && |ctx.cur.last.cs| < 255)
  {
    hide CtxOk, Around, Head, Bytes;
    AroundCounts(ctx.outer, ctx.cur.alts, holes, hole, v);
    PendingCount(Head(ctx.outer, ctx.cur.alts, holes, hole), ctx.cur, code, v.laststart, v.pending);
  }

  lemma NewLiteralStep(ctx: Ctx, holes: seq<seq<byte>>, hole: seq<byte>, code: seq<byte>, v: Vars,
                       c: byte, next: Option<Token>)
    requires Fits(ctx, holes, hole, code, v) && !Joins(ctx.cur, next)
    ensures Fits(Read(ctx, TLit(c), next).value, holes, hole, code + [EXACTN, 1, c],
                 v.(laststart := |code|, pending := |code| + 1))
  {
    hide CtxOk, Around, Head, Bytes, BranchFits;
    AroundCounts(ctx.outer, ctx.cur.alts, holes, hole, v);
    ReadOk(ctx, TLit(c), next);
    NewLiteralFits(Head(ctx.outer, ctx.cur.alts, holes, hole), ctx.cur, code, v.laststart, v.pending, c);
    BranchStep(ctx, holes, hole, code, v, Append(ctx.cur, Exact([c]), true), code + [EXACTN, 1, c],
               |code|, |code| + 1);
  }

  lemma JoinStep(ctx: Ctx, holes: seq<seq<byte>>, hole: seq<byte>, code: seq<byte>, v: Vars,
                 c: byte, next: Option<Token>)
    requires Fits(ctx, holes, hole, code, v) && Joins(ctx.cur, next)
    ensures 0 <= v.pending < |code| && code[v.pending] < 255
    ensures Fits(Read(ctx, TLit(c), next).value, holes, hole,
                 (code + [c])[v.pending := code[v.pending] + 1], v)
  {
    hide CtxOk, Around, Head, Bytes, BranchFits;
    AroundCounts(ctx.outer, ctx.cur.alts, holes, hole, v);
    ReadOk(ctx, TLit(c), next);
    JoinFits(Head(ctx.outer, ctx.cur.alts, holes, hole), ctx.cur, code, v.laststart, v.pending, c);
    BranchStep(ctx, holes, hole, code, v, ctx.cur.(last := Exact(ctx.cur.last.cs + [c])),
               (code + [c])[v.pending := code[v.pending] + 1], v.laststart, v.pending);
  }

  /** `.` or a bracket expression at the end of the code. */
  lemma SingleStep(ctx: Ctx, holes: seq<seq<byte>>, hole: seq<byte>, code: seq<byte>, v: Vars, t: Token, e: Re)
    requires Fits(ctx, holes, hole, code, v)
    requires (t.TDot? && e == Any) || (t.TBrackets? && e == Charset(t.neg, MapOf(t.items)))
    ensures Read(ctx, t, None).Some?
    ensures Fits(Read(ctx, t, None).value, holes, hole, code + Bytes(e), v.(laststart := |code|))
  {
    hide CtxOk, Around, Head, Bytes, BranchFits, MapOf;
    AroundCounts(ctx.outer, ctx.cur.alts, holes, hole, v);
    ReadOk(ctx, t, None);
    AppendFits(Head(ctx.outer, ctx.cur.alts, holes, hole), ctx.cur, code, v.laststart, v.pending, e);
    BranchStep(ctx, holes, hole, code, v, Append(ctx.cur, e, false), code + Bytes(e), |code|, v.pending);
  }

  /** A repetition in place of the last expression. */
  lemma OpsStep(ctx: Ctx, holes: seq<seq<byte>>, hole: seq<byte>, code: seq<byte>, v: Vars,
                ops: seq<Op>, next: Option<Token>, zero: bool, many: bool)
    requires Fits(ctx, holes, hole, code, v) && ReadOps(ctx, ops, next).Some?
    requires zero == ZeroTimesOk(ops) && many == ManyTimesOk(ops)
    ensures 0 <= v.laststart <= |code|
    ensures Fits(ReadOps(ctx, ops, next).value, holes, hole, LoopCode(code, v.laststart, zero, many),
                 v.(pending := -1))
  {
    hide CtxOk, Around, Head, Bytes, BranchFits, LoopCode, ZeroTimesOk, ManyTimesOk;
    AroundCounts(ctx.outer, ctx.cur.alts, holes, hole, v);
    ReadOk(ctx, TOps(ops), next);
    var l, op := ctx.cur, Collapse(ops);
    OpsFits(Head(ctx.outer, l.alts, holes, hole), l, code, v.laststart, v.pending, op);
    CollapseFlags(ops);
    NoneOptional(ops);
    assert code == code[..v.laststart] + code[v.laststart..];
    RepeatCode(op, l.last, code[..v.laststart], LoopCode(code, v.laststart, zero, many), zero, many);
    BranchStep(ctx, holes, hole, code, v, l.(last := Repeat(op, l.last), pending := false),
               LoopCode(code, v.laststart, zero, many), v.laststart, -1);
  }

  lemma AnchorStep(ctx: Ctx, holes: seq<seq<byte>>, hole: seq<byte>, code: seq<byte>, v: Vars, e: Re)
    requires Fits(ctx, holes, hole, code, v) && (e.Bol? || e.Eol?)
    ensures var r := Read(ctx, if e.Bol? then TCaret else TDollar, None);
      r.Some? && Fits(r.value, holes, hole, code + Bytes(e), v)
  {
    hide CtxOk, Around, Head, Bytes, BranchFits;
    AroundCounts(ctx.outer, ctx.cur.alts, holes, hole, v);
    var head, l := Head(ctx.outer, ctx.cur.alts, holes, hole), ctx.cur;
    ReadOk(ctx, if e.Bol? then TCaret else TDollar, None);
    AnchorFits(head, l, code, v.laststart, v.pending, e);
    var l' := l.(front := Cat(BranchRe(l), e), last := Empty, pending := false);
    BranchStep(ctx, holes, hole, code, v, l', code + Bytes(e), v.laststart, v.pending);
  }

  class Compiler {
    const pattern: seq<byte>
    const buf: Buffer
    var p: nat
    var laststart: int
    var begalt: nat
    var fixup: int
    var pending: int
    var regnum: nat
    var stack: seq<Frame>

    ghost var ctx: Ctx
    ghost var holes: seq<seq<byte>>
    ghost var hole: seq<byte>

    ghost function TheVars(): Vars
      reads this
    {
      Vars(laststart, begalt, fixup, pending, regnum, stack)
    }

    ghost predicate Valid()
      reads this, buf, buf.bytes
    {
      buf.Valid() && p <= |pattern| && Fits(ctx, holes, hole, buf.Contents(), TheVars())
    }

    constructor (pattern: seq<byte>)
      ensures Valid() && this.pattern == pattern && p == 0 && ctx == InitCtx()
      ensures fresh(buf) && fresh(buf.bytes)
    {
      this.pattern := pattern;
      buf := new Buffer();
      p, laststart, begalt, fixup, pending, regnum, stack := 0, -1, 0, -1, -1, 0, [];
      ctx, holes, hole := InitCtx(), [], [0, 0, 0];
      new;
      InitOk();
      EmptyBytes();
    }

    // ----- literals, sets and anchors -----

    /** Start building a new `exactn`. */
    method NewLiteral(c: byte) returns (ok: bool)
      requires buf.Valid()
      modifies this`laststart, this`pending, buf, buf.bytes
      ensures buf.Valid() && (buf.bytes == old(buf.bytes) || fresh(buf.bytes))
      ensures !ok ==> old(buf.used) + SLACK > MAX_BUF_SIZE
      ensures ok ==> buf.Contents() == old(buf.Contents()) + [EXACTN, 1, c]
      ensures ok ==> laststart == old(buf.used) && pending == old(buf.used) + 1
    {
      ghost var code := buf.Contents();
      laststart := buf.used;
      ok := buf.Push2(EXACTN, 0);
      if !ok { return; }
      pending := buf.used - 1;
      ok := buf.Push(c);
      if !ok { return; }
      assert buf.Contents() == code + [EXACTN, 0, c];
      assert buf.bytes[pending] == buf.Contents()[pending];
      buf.Put(pending, buf.bytes[pending] + 1);
    }

    /** Add to the `exactn` being built. */
    method JoinLiteral(c: byte) returns (ok: bool)
      requires buf.Valid() && 0 <= pending < buf.used && buf.Contents()[pending] < 255
      modifies buf, buf.bytes
      ensures buf.Valid() && (buf.bytes == old(buf.bytes) || fresh(buf.bytes))
      ensures !ok ==> old(buf.used) + SLACK > MAX_BUF_SIZE
      ensures ok ==>
        buf.Contents() == (old(buf.Contents()) + [c])[pending := old(buf.Contents())[pending] + 1]
    {
      ok := buf.Push(c);
      if !ok { return; }
      assert buf.bytes[pending] == buf.Contents()[pending];
      buf.Put(pending, buf.bytes[pending] + 1);
    }

    /** `normal_char`: add to the literal being built, or begin one. */
    method NormalChar(c: byte, ghost ts: seq<Token>) returns (ok: bool)
      requires Valid() && Rest(pattern, p, ts)
      modifies this, buf, buf.bytes
      ensures buf.Valid() && (buf.bytes == old(buf.bytes) || fresh(buf.bytes))
      ensures !ok ==> old(buf.used) + SLACK > MAX_BUF_SIZE
      ensures p == old(p)
      ensures ok ==> Valid() && ctx == Read(old(ctx), TLit(c), First(ts)).value
    {
      hide Fits, Rest, Bytes;
      ghost var code, v := buf.Contents(), TheVars();
      LiteralFacts(ctx, holes, hole, code, v);
      Ahead(pattern, p, ts);
      if pending == -1 || pending + buf.bytes[pending] + 1 != buf.used || buf.bytes[pending] == 255
         || IsOpByte(Peek(pattern, p)) || Peek(pattern, p) == HAT || Peek(pattern, p) == 123
      {
        ok := NewLiteral(c);
        NewLiteralStep(ctx, holes, hole, code, v, c, First(ts));
      } else {
        JoinStep(ctx, holes, hole, code, v, c, First(ts));
        ok := JoinLiteral(c);
      }
      if !ok { return; }
      ctx := Read(ctx, TLit(c), First(ts)).value;
    }

    /** `.` */
    method AnyChar() returns (ok: bool)
      requires Valid()
      modifies this, buf, buf.bytes
      ensures buf.Valid() && (buf.bytes == old(buf.bytes) || fresh(buf.bytes))
      ensures !ok ==> old(buf.used) + SLACK > MAX_BUF_SIZE
      ensures p == old(p)
      ensures ok ==> Valid() && Some(ctx) == Read(old(ctx), TDot, None)
    {
      hide Fits, Bytes, Read;
      ghost var code, v := buf.Contents(), TheVars();
      laststart := buf.used;
      ok := buf.Push(ANYCHAR);
      if !ok { return; }
      AnchorBytes();
      SingleStep(ctx, holes, hole, code, v, TDot, Any);
      ctx := Read(ctx, TDot, None).value;
    }

    /** `^` */
    method BeginAnchor() returns (ok: bool)
      requires Valid()
      modifies this, buf, buf.bytes
      ensures buf.Valid() && (buf.bytes == old(buf.bytes) || fresh(buf.bytes))
      ensures !ok ==> old(buf.used) + SLACK > MAX_BUF_SIZE
      ensures p == old(p)
      ensures ok ==> Valid() && Some(ctx) == Read(old(ctx), TCaret, None)
    {
      hide Fits, Bytes, Read;
      ghost var code, v := buf.Contents(), TheVars();
      ok := buf.Push(BEGLINE);
      if !ok { return; }
      AnchorBytes();
      AnchorStep(ctx, holes, hole, code, v, Bol);
      ctx := Read(ctx, TCaret, None).value;
    }

    /** `$` */
    method EndAnchor() returns (ok: bool)
      requires Valid()
      modifies this, buf, buf.bytes
      ensures buf.Valid() && (buf.bytes == old(buf.bytes) || fresh(buf.bytes))
      ensures !ok ==> old(buf.used) + SLACK > MAX_BUF_SIZE
      ensures p == old(p)
      ensures ok ==> Valid() && Some(ctx) == Read(old(ctx), TDollar, None)
    {
      hide Fits, Bytes, Read;
      ghost var code, v := buf.Contents(), TheVars();
      ok := buf.Push(ENDLINE);
      if !ok { return; }
      AnchorBytes();
      AnchorStep(ctx, holes, hole, code, v, Eol);
      ctx := Read(ctx, TDollar, None).value;
    }

    // ----- repetitions -----

    /** The run of repetition characters from the one just fetched. */
    method GatherOps(ghost ops: seq<Op>, ghost ts: seq<Token>) returns (zero: bool, many: bool)
      requires |ops| > 0 && 0 < p && p - 1 + |ops| <= |pattern|
      requires pattern[p - 1..p - 1 + |ops|] == OpsText(ops)
      requires Rest(pattern, p - 1 + |ops|, ts) && NoOpsAhead(ts)
      modifies this`p
      ensures p == old(p) - 1 + |ops|
      ensures zero == ZeroTimesOk(ops) && many == ManyTimesOk(ops)
    {
      hide Rest;
      hide ZeroTimesOk, ManyTimesOk, OpsText;
      ghost var start := p - 1;
      ghost var k := 0;
      OpsAhead(pattern, start, ops);
      Ahead(pattern, start + |ops|, ts);
      var c := pattern[p - 1];
      zero, many := false, false;
      NoFlags();
      while true
        invariant 0 <= k < |ops| && p == start + k + 1 && c == OpByte(ops[k])
        invariant zero == ZeroTimesOk(ops[..k]) && many == ManyTimesOk(ops[..k])
        decreases |ops| - k
      {
        FlagsSnoc(ops[..k], ops[k]);
        assert ops[..k] + [ops[k]] == ops[..k + 1];
        zero := zero || c != 43;
        many := many || c != 63;
        if p == |pattern| { break; }
        c := pattern[p];
        p := p + 1;
        if !IsOpByte(c) {
          p := p - 1;
          break;
        }
        assert k + 1 < |ops|;
        k := k + 1;
      }
      assert ops[..|ops|] == ops;
    }

    /** `*`, `+`, `?` and runs of them. */
    method Repetition(ghost ops: seq<Op>, ghost ts: seq<Token>) returns (ok: bool)
      requires Valid() && |ops| > 0 && 0 < p && p - 1 + |ops| <= |pattern|
      requires pattern[p - 1..p - 1 + |ops|] == OpsText(ops)
      requires Rest(pattern, p - 1 + |ops|, ts) && ReadOps(ctx, ops, First(ts)).Some?
      modifies this, buf, buf.bytes
      ensures buf.Valid() && (buf.bytes == old(buf.bytes) || fresh(buf.bytes))
      ensures !ok ==> old(buf.used) + SLACK > MAX_BUF_SIZE
      ensures p == old(p) - 1 + |ops|
      ensures ok ==> Valid() && ctx == ReadOps(old(ctx), ops, First(ts)).value
    {
      hide Fits, Rest, LoopCode, ZeroTimesOk, ManyTimesOk;
      ghost var code, v := buf.Contents(), TheVars();
      OpsStep(ctx, holes, hole, code, v, ops, First(ts), ZeroTimesOk(ops), ManyTimesOk(ops));
      var zero, many := GatherOps(ops, ts);
      assert p == old(p) - 1 + |ops|;
      ok := AroundLast(zero, many);
      if !ok { return; }
      ctx := ReadOps(ctx, ops, First(ts)).value;
    }

    /** Put the jumps of a repetition around the last expression. */
    method AroundLast(zero: bool, many: bool) returns (ok: bool)
      requires buf.Valid() && 0 <= laststart <= buf.used
      modifies this`pending, buf, buf.bytes
      ensures buf.Valid() && (buf.bytes == old(buf.bytes) || fresh(buf.bytes))
      ensures !ok ==> old(buf.used) + SLACK > MAX_BUF_SIZE
      ensures ok ==> pending == -1
      ensures ok ==> buf.Contents() == LoopCode(old(buf.Contents()), laststart, zero, many)
    {
      hide Inserted, Op1;
      if many {
        ok := buf.AppendJump(MAYBE_POP_JUMP, laststart - buf.used - 6);
        if !ok { return; }
      }
      ok := buf.InsertJump(ON_FAILURE_JUMP, laststart, buf.used - laststart);
      if !ok { return; }
      pending := -1;
      if !zero {
        ok := buf.InsertJump(DUMMY_FAILURE_JUMP, laststart, 3);
      }
    }

    // ----- bracket expressions -----

    /** `compile_range`: from the byte two before `p` to the one at `p`. */
    method CompileRange(ghost lo: byte, ghost hi: byte) returns (err: Errcode)
      requires buf.Valid() && buf.used + 32 <= buf.bytes.Length && 2 <= p <= |pattern|
      requires p < |pattern| ==> lo == pattern[p - 2] && hi == pattern[p]
      modifies this`p, buf.bytes
      ensures buf.Valid() && buf.Contents() == old(buf.Contents())
      ensures p == old(p) + (if old(p) == |pattern| then 0 else 1)
      ensures err == REG_NOERROR <==> old(p) < |pattern| && lo <= hi
      ensures err == REG_NOERROR ==> buf.Map() == AddSpan(old(buf.Map()), lo, hi)
    {
      if p == |pattern| { return REG_ERANGE; }
      var start, end := pattern[p - 2], pattern[p];
      p := p + 1;
      if start > end { return REG_ERANGE; }
      var c: nat := start;
      while c <= end
        invariant start <= c <= end + 1 && p == old(p) + 1
        invariant buf.Valid() && buf.Contents() == old(buf.Contents())
        invariant AddSpan(buf.Map(), c, end) == AddSpan(old(buf.Map()), start, end)
      {
        buf.SetBit(c);
        c := c + 1;
      }
      return REG_NOERROR;
    }

    /** One turn of the loop over a bracket expression.  `done` says that the
        closing bracket was read. */
    method BracketTurn(p1: nat, ghost neg: bool, ghost items: seq<Item>, ghost i: nat, ghost ts: seq<Token>)
      returns (err: Errcode, done: bool)
      requires buf.Valid() && buf.used + 32 <= buf.bytes.Length
      requires BracketAt(pattern, p1, p, neg, items, i, ts)
      modifies this`p, buf.bytes
      ensures buf.Valid() && buf.Contents() == old(buf.Contents())
      ensures err == REG_NOERROR && done == (i == |items|)
      ensures done ==> buf.Map() == old(buf.Map()) && Rest(pattern, p, ts)
      ensures !done ==> buf.Map() == AddItem(old(buf.Map()), items[i])
      ensures !done ==> BracketAt(pattern, p1, p, neg, items, i + 1, ts)
    {
      hide Spelled, Rest, BracketAt, AddSpan;
      ItemAhead(pattern, p1, p, neg, items, i, ts);
      if p == |pattern| { return REG_EBRACK, false; }
      var c := pattern[p];
      p := p + 1;
      if c == RBRACKET && p != p1 + 1 { return REG_NOERROR, true; }
      if c == HYPHEN && !(p >= 2 && pattern[p - 2] == LBRACKET)
         && !(p >= 3 && pattern[p - 3] == LBRACKET && pattern[p - 2] == HAT) && Peek(pattern, p) != RBRACKET
      {
        assert false;
      } else if Peek(pattern, p) == HYPHEN && Peek(pattern, p + 1) != RBRACKET {
        p := p + 1;
        err := CompileRange(items[i].lo, items[i].hi);
      } else if c == LBRACKET && Peek(pattern, p) == COLON {
        assert false;
      } else {
        buf.SetBit(c);
      }
      return REG_NOERROR, false;
    }

    /** `[`: read the list into a map behind the code, and trim it. */
    method Bracketed(ghost neg: bool, ghost items: seq<Item>, ghost ts: seq<Token>) returns (err: Errcode)
      requires Valid() && 0 < p && pattern[p - 1] == LBRACKET && Spelled(neg, items) && TokensOk(ts)
      requires pattern[p..] == (if neg then [HAT] else []) + (ItemsText(items) + ([RBRACKET] + Text(ts)))
      modifies this, buf, buf.bytes
      ensures buf.Valid() && (buf.bytes == old(buf.bytes) || fresh(buf.bytes))
      ensures err == REG_ESIZE ==> old(buf.used) + SLACK > MAX_BUF_SIZE
      ensures err == REG_NOERROR || err == REG_ESIZE
      ensures err == REG_NOERROR ==> Valid() && Rest(pattern, p, ts)
      ensures err == REG_NOERROR ==> Some(ctx) == Read(old(ctx), TBrackets(neg, items), None)
    {
      hide Fits, Bytes, Read, Rest, MapOf, Spelled;
      ghost var code, v := buf.Contents(), TheVars();
      err := EmitBracket(neg, items, ts);
      if err != REG_NOERROR { return; }
      RestBound(pattern, p, ts);
      SingleStep(ctx, holes, hole, code, v, TBrackets(neg, items), Charset(neg, MapOf(items)));
      ctx := Read(ctx, TBrackets(neg, items), None).value;
    }

    /** Read a bracket expression and write its code. */
    method EmitBracket(ghost neg: bool, ghost items: seq<Item>, ghost ts: seq<Token>) returns (err: Errcode)
      requires buf.Valid() && 0 < p <= |pattern| && pattern[p - 1] == LBRACKET && Spelled(neg, items) && TokensOk(ts)
      requires pattern[p..] == (if neg then [HAT] else []) + (ItemsText(items) + ([RBRACKET] + Text(ts)))
      modifies this`p, this`laststart, buf, buf.bytes
      ensures buf.Valid() && (buf.bytes == old(buf.bytes) || fresh(buf.bytes))
      ensures err == REG_ESIZE ==> old(buf.used) + SLACK > MAX_BUF_SIZE
      ensures err == REG_NOERROR || err == REG_ESIZE
      ensures err == REG_NOERROR ==> Rest(pattern, p, ts) && laststart == old(buf.used)
      ensures err == REG_NOERROR ==>
        buf.Contents() == old(buf.Contents()) + Bytes(Charset(neg, MapOf(items)))
    {
      hide Bytes, Rest, MapOf, BracketAt, Trim, AddItems, Spelled, Clear, ItemsText, Text, TokensOk;
      ghost var code := buf.Contents();
      var p1;
      err, p1 := OpenBracket(neg, items, ts);
      if err != REG_NOERROR { return; }
      ReadItems(p1, neg, items, ts);
      assert buf.bytes[buf.used - 1] == buf.Contents()[buf.used - 1];
      buf.TakeMap();
      BracketBytes(neg, items, code);
    }

    /** The opcode, the length byte and a clear map. */
    method OpenBracket(ghost neg: bool, ghost items: seq<Item>, ghost ts: seq<Token>) returns (err: Errcode, p1: nat)
      requires buf.Valid() && 0 < p <= |pattern| && pattern[p - 1] == LBRACKET && Spelled(neg, items) && TokensOk(ts)
      requires pattern[p..] == (if neg then [HAT] else []) + (ItemsText(items) + ([RBRACKET] + Text(ts)))
      modifies this`p, this`laststart, buf, buf.bytes
      ensures buf.Valid() && (buf.bytes == old(buf.bytes) || fresh(buf.bytes))
      ensures err == REG_ESIZE ==> old(buf.used) + SLACK > MAX_BUF_SIZE
      ensures err == REG_NOERROR || err == REG_ESIZE
      ensures err == REG_NOERROR ==>
        && buf.used + 32 <= buf.bytes.Length && laststart == old(buf.used)
        && buf.Contents() == old(buf.Contents()) + [if neg then CHARSET_NOT else CHARSET, 32]
        && buf.Map() == Clear() && p == p1 && BracketAt(pattern, p1, p1, neg, items, 0, ts)
    {
      hide BracketAt, Spelled, ItemsText, Text, TokensOk, Clear, Peek;
      BracketStart(pattern, p, neg, items, ts);
      p1 := p;
      if p == |pattern| { return REG_EBRACK, p1; }
      ghost var code := buf.Contents();
      var ok := buf.GetSpace(34);
      if !ok { return REG_ESIZE, p1; }
      laststart := buf.used;
      ok := buf.Push(if Peek(pattern, p) == HAT then CHARSET_NOT else CHARSET);
      if Peek(pattern, p) == HAT { p := p + 1; }
      p1 := p;
      ok := buf.Push(32);
      buf.ClearMap();
      OneByOne(code, if neg then CHARSET_NOT else CHARSET, 32);
      return REG_NOERROR, p1;
    }

    /** The loop over a bracket expression. */
    method ReadItems(p1: nat, ghost neg: bool, ghost items: seq<Item>, ghost ts: seq<Token>)
      requires buf.Valid() && buf.used + 32 <= buf.bytes.Length && buf.Map() == Clear() && p == p1
      requires BracketAt(pattern, p1, p1, neg, items, 0, ts)
      modifies this`p, buf.bytes
      ensures buf.Valid() && buf.Contents() == old(buf.Contents())
      ensures buf.Map() == AddItems(Clear(), items) && Rest(pattern, p, ts)
    {
      hide BracketAt, Rest;
      ghost var i := 0;
      var err, done := REG_NOERROR, false;
      while !done
        invariant buf.Valid() && buf.Contents() == old(buf.Contents())
        invariant i <= |items| && buf.Map() == AddItems(Clear(), items[..i])
        invariant !done ==> BracketAt(pattern, p1, p, neg, items, i, ts)
        invariant done ==> i == |items| && Rest(pattern, p, ts)
        decreases |items| - i, !done
      {
        err, done := BracketTurn(p1, neg, items, i, ts);
        if !done {
          assert items[..i + 1][..i] == items[..i];
          BracketBound(pattern, p1, p, neg, items, i + 1, ts);
          i := i + 1;
        }
      }
      assert items[..i] == items;
    }

    // ----- alternatives and groups -----

    /** The two jumps of `|`: a failure jump in front of the branch, and the jump
        behind the alternative before it. */
    method BarJumps() returns (ok: bool)
      requires buf.Valid() && begalt <= buf.used && (fixup >= 0 ==> fixup + 3 <= buf.used)
      modifies buf, buf.bytes
      ensures buf.Valid() && (buf.bytes == old(buf.bytes) || fresh(buf.bytes))
      ensures !ok ==> old(buf.used) + SLACK > MAX_BUF_SIZE
      ensures ok ==> buf.Contents() == BarredCode(old(buf.Contents()), begalt, fixup)
    {
      hide Stored, Inserted;
      ok := buf.InsertJump(ON_FAILURE_JUMP, begalt, buf.used + 3 - begalt);
      if !ok { return; }
      if fixup >= 0 { buf.Store(JUMP_PAST_ALT, fixup, buf.used - fixup - 3); }
    }

    /** Room for the jump behind the alternative just finished; the next begins. */
    method LeaveHole() returns (ok: bool, ghost hole': seq<byte>)
      requires buf.Valid() && buf.used >= 3
      modifies this`pending, this`fixup, this`laststart, this`begalt, buf, buf.bytes
      ensures buf.Valid() && (buf.bytes == old(buf.bytes) || fresh(buf.bytes))
      ensures !ok ==> old(buf.used) + 3 > MAX_BUF_SIZE
      ensures ok ==> |hole'| == 3 && buf.Contents() == old(buf.Contents()) + hole'
      ensures ok ==> TheVars() == AfterBar(old(TheVars()), old(buf.used) - 3)
    {
      pending := -1;
      fixup := buf.used;
      ok, hole' := buf.Leave3();
      if !ok { return; }
      laststart := -1;
      begalt := buf.used;
    }

    /** `|` */
    method Alternative() returns (ok: bool)
      requires Valid()
      modifies this, buf, buf.bytes
      ensures buf.Valid() && (buf.bytes == old(buf.bytes) || fresh(buf.bytes))
      ensures !ok ==> old(buf.used) + SLACK > MAX_BUF_SIZE
      ensures p == old(p)
      ensures ok ==> Valid() && Some(ctx) == Read(old(ctx), TBar, None)
    {
      hide Fits, BarredCode, AltsPrefix, OuterBytes, Read, BranchRe, AfterBar;
      ghost var code, v := buf.Contents(), TheVars();
      RegnumFacts(ctx, holes, hole, code, v);
      BarCode(ctx, holes, hole, code, v);
      ok := BarJumps();
      if !ok { return; }
      ghost var code2 := buf.Contents();
      ghost var hole';
      ok, hole' := LeaveHole();
      if !ok { return; }
      BarRead(ctx);
      BarFits(ctx, holes, hole, code, v, code2, hole');
      hole := hole';
      ctx := Read(ctx, TBar, None).value;
    }

    /** Save the surroundings and write the `start_memory`, its count still open. */
    method BeginGroup() returns (ok: bool)
      requires buf.Valid() && fixup >= -1 && regnum < MAX_REGNUM
      modifies this`regnum, this`stack, this`fixup, this`laststart, this`begalt, this`pending, buf, buf.bytes
      ensures buf.Valid() && (buf.bytes == old(buf.bytes) || fresh(buf.bytes))
      ensures !ok ==> old(buf.used) + SLACK > MAX_BUF_SIZE
      ensures ok ==> TheVars() == AfterOpen(old(TheVars()), old(buf.used))
      ensures ok ==> buf.Contents() == old(buf.Contents()) + GroupOpen(old(regnum) + 1, 0)
    {
      regnum := regnum + 1;
      stack := stack + [Frame(begalt, fixup + 1, buf.used, regnum, buf.used + 2)];
      ok := buf.Push3(START_MEMORY, regnum, 0);
      if !ok { return; }
      fixup := -1;
      laststart := -1;
      begalt := buf.used;
      pending := -1;
    }

    /** `handle_open` */
    method OpenGroup() returns (ok: bool)
      requires Valid() && ctx.regnum < MAX_REGNUM
      modifies this, buf, buf.bytes
      ensures buf.Valid() && (buf.bytes == old(buf.bytes) || fresh(buf.bytes))
      ensures !ok ==> old(buf.used) + SLACK > MAX_BUF_SIZE
      ensures p == old(p)
      ensures ok ==> Valid() && Some(ctx) == Read(old(ctx), TOpen, None)
    {
      hide Fits, GroupOpen, AfterOpen;
      ghost var code, v := buf.Contents(), TheVars();
      RegnumFacts(ctx, holes, hole, code, v);
      OpenFits(ctx, holes, hole, code, v, [0, 0, 0]);
      ok := BeginGroup();
      if !ok { return; }
      holes, hole := holes + [hole], [0, 0, 0];
      ctx := Read(ctx, TOpen, None).value;
    }

    /** Push the dummy failure point behind the alternatives and fill the hole
        before the last of them. */
    method FinishAlternatives(ghost code1: seq<byte>) returns (ok: bool)
      requires buf.Valid() && (fixup >= 0 ==> fixup + 3 <= buf.used)
      requires code1 ==
        if fixup >= 0 then Stored(buf.Contents(), JUMP_PAST_ALT, fixup, buf.used - fixup - 3) else buf.Contents()
      modifies buf, buf.bytes
      ensures buf.Valid() && (buf.bytes == old(buf.bytes) || fresh(buf.bytes))
      ensures !ok ==> old(buf.used) + SLACK > MAX_BUF_SIZE
      ensures ok ==> buf.Contents() == code1 + (if fixup >= 0 then [PUSH_DUMMY_FAILURE] else [])
    {
      hide Stored;
      ok := true;
      if fixup >= 0 {
        ghost var code := buf.Contents();
        ok := buf.Push(PUSH_DUMMY_FAILURE);
        if !ok { return; }
        StoredBefore(code, [PUSH_DUMMY_FAILURE], JUMP_PAST_ALT, fixup, |code| - fixup - 3);
        buf.Store(JUMP_PAST_ALT, fixup, (buf.used - 1) - fixup - 3);
      }
    }

    /** Store the number of inner groups and write the `stop_memory`. */
    method FinishGroup(inner: nat, reg: nat, ghost code1: seq<byte>, ghost fr: Frame, ghost alts: bool)
      returns (ok: bool)
      requires buf.Valid() && inner == fr.inner < |code1| && reg == fr.regnum <= regnum < 256
      requires buf.Contents() == code1 + (if alts then [PUSH_DUMMY_FAILURE] else [])
      modifies buf, buf.bytes
      ensures buf.Valid() && (buf.bytes == old(buf.bytes) || fresh(buf.bytes))
      ensures !ok ==> old(buf.used) + 3 > MAX_BUF_SIZE
      ensures ok ==> buf.Contents() == Ended(code1, fr, regnum, alts)
    {
      hide GroupClose;
      buf.Put(inner, regnum - reg);
      ok := buf.Push3(STOP_MEMORY, reg, regnum - reg);
      if !ok { return; }
      ClosedCode(code1, inner, reg, regnum - reg, alts);
    }

    /** Take the surroundings of the group back from the compile stack. */
    method PopFrame() returns (inner: nat, reg: nat)
      requires |stack| > 0
      modifies this`stack, this`begalt, this`fixup, this`laststart, this`pending
      ensures TheVars() == AfterClose(old(TheVars()))
      ensures inner == old(stack)[|old(stack)| - 1].inner && reg == old(stack)[|old(stack)| - 1].regnum
    {
      var fr := stack[|stack| - 1];
      stack := stack[..|stack| - 1];
      begalt := fr.begalt;
      fixup := fr.fixup - 1;
      laststart := fr.laststart;
      pending := -1;
      return fr.inner, fr.regnum;
    }

    /** `handle_close`, when a group is open. */
    method CloseGroup() returns (ok: bool)
      requires Valid() && ReadClose(ctx).Some?
      modifies this, buf, buf.bytes
      ensures buf.Valid() && (buf.bytes == old(buf.bytes) || fresh(buf.bytes))
      ensures !ok ==> old(buf.used) + SLACK > MAX_BUF_SIZE
      ensures p == old(p)
      ensures ok ==> Valid() && Some(ctx) == ReadClose(old(ctx))
    {
      hide Fits, Stored, GroupClose, ReadClose, AfterClose, Ended;
      ghost var code, v := buf.Contents(), TheVars();
      ghost var code1 := CloseFacts(ctx, holes, hole, code, v);
      ghost var alts := fixup >= 0;
      ok := FinishAlternatives(code1);
      if !ok { return; }
      var inner, reg := PopFrame();
      ok := FinishGroup(inner, reg, code1, v.stack[|v.stack| - 1], alts);
      if !ok { return; }
      hole := holes[|holes| - 1];
      holes := holes[..|holes| - 1];
      ctx := ReadClose(ctx).value;
    }

    // ----- the main loop -----

    /** One turn of the main loop: the character at `p` and what belongs to it. */
    method Turn(ghost ts: seq<Token>) returns (err: Errcode)
      requires Valid() && |ts| > 0 && Rest(pattern, p, ts)
      requires Read(ctx, ts[0], First(ts[1..])).Some?
      modifies this, buf, buf.bytes
      ensures buf.Valid() && (buf.bytes == old(buf.bytes) || fresh(buf.bytes))
      ensures err == REG_ESIZE ==> old(buf.used) + SLACK > MAX_BUF_SIZE
      ensures err == REG_NOERROR || err == REG_ESIZE
      ensures err == REG_NOERROR ==> Valid() && Rest(pattern, p, ts[1..])
      ensures err == REG_NOERROR ==> Some(ctx) == Read(old(ctx), ts[0], First(ts[1..]))
    {
      hide Fits, Rest, Read, OpsText, Spelled, TokenText;
      ghost var t, rest, p0 := ts[0], ts[1..], p;
      ReadForms(ctx, t, First(rest));
      RestNext(pattern, p, ts);
      TokenHead(pattern, p, t);
      RegnumFacts(ctx, holes, hole, buf.Contents(), TheVars());
      var c := pattern[p];
      p := p + 1;
      var ok := true;
      if c == 94 {
        ok := BeginAnchor();
      } else if c == 36 {
        ok := EndAnchor();
      } else if IsOpByte(c) {
        ok := Repetition(t.ops, rest);
      } else if c == 46 {
        ok := AnyChar();
      } else if c == LBRACKET {
        BracketText(pattern, p0, t, ts);
        err := Bracketed(t.neg, t.items, rest);
        return;
      } else if c == 40 {
        ok := OpenGroup();
      } else if c == 41 {
        ok := CloseGroup();
      } else if c == 124 {
        ok := Alternative();
      } else if c == BACKSLASH {
        c := pattern[p];
        p := p + 1;
        ok := NormalChar(c, rest);
      } else {
        ok := NormalChar(c, rest);
      }
      err := if ok then REG_NOERROR else REG_ESIZE;
    }

    /** `regex_compile` on a pattern spelled by `ts0`. */
    method Compile(ghost ts0: seq<Token>) returns (err: Errcode)
      requires Valid() && p == 0 && ctx == InitCtx() && Rest(pattern, 0, ts0)
      requires ReadAll(InitCtx(), ts0).Some?
      modifies this, buf, buf.bytes
      ensures buf.Valid() && (buf.bytes == old(buf.bytes) || fresh(buf.bytes))
      ensures var final := ReadAll(InitCtx(), ts0).value;
        && (err == REG_NOERROR ==> (
              && final.outer == [] && regnum == final.regnum
              && buf.Contents() == Bytes(Body(final))))
        && (err == REG_EPAREN ==> final.outer != [])
        && (err == REG_ESIZE && final.outer == [] ==> Len(Body(final)) + SLACK > MAX_BUF_SIZE)
        && err in {REG_NOERROR, REG_EPAREN, REG_ESIZE}
    {
      hide Fits, Rest, Read, Bytes, AltOf, ReadAll, Len;
      ghost var ts := ts0;
      Ahead(pattern, p, ts);
      while p != |pattern|
        invariant Valid() && Rest(pattern, p, ts) && ReadAll(ctx, ts) == ReadAll(InitCtx(), ts0)
        invariant buf.bytes == old(buf.bytes) || fresh(buf.bytes)
        invariant p == |pattern| <==> ts == []
        decreases |ts|
      {
        if ReadAll(ctx, ts).value.outer == [] {
          NearlyFull(ctx, holes, hole, buf.Contents(), TheVars(), ts);
        }
        ReadAllNext(ctx, ts);
        err := Turn(ts);
        if err != REG_NOERROR { return; }
        ts := ts[1..];
        Ahead(pattern, p, ts);
      }
      ReadAllEnd(ctx);
      FillFits(ctx, holes, hole, buf.Contents(), TheVars());
      RegnumFacts(ctx, holes, hole, buf.Contents(), TheVars());
      if fixup >= 0 { buf.Store(JUMP_PAST_ALT, fixup, buf.used - fixup - 3); }
      if |stack| != 0 { return REG_EPAREN; }
      return REG_NOERROR;
    }
  }

  /** What reading a token depends on. */
  lemma ReadForms(ctx: Ctx, t: Token, next: Option<Token>)
    ensures !t.TLit? && !t.TOps? ==> Read(ctx, t, next) == Read(ctx, t, None)
    ensures t.TOps? ==> Read(ctx, t, next) == ReadOps(ctx, t.ops, next)
    ensures t.TClose? ==> Read(ctx, t, next) == ReadClose(ctx)
    ensures t.TOpen? && Read(ctx, t, next).Some? ==> ctx.regnum < MAX_REGNUM
    ensures t.TLit? ==> Read(ctx, t, next).Some?
  {
    hide ReadOps, ReadClose, Joins;
  }

  lemma BarRead(ctx: Ctx)
    ensures Read(ctx, TBar, None).Some?
  {}

  /** The first byte of a token tells what it is. */
  lemma TokenHead(pattern: seq<byte>, p: nat, t: Token)
    requires var s := TokenText(t); |s| > 0 && p + |s| <= |pattern| && pattern[p..p + |s|] == s
    requires TokenOk(t)
    ensures p < |pattern|
    ensures pattern[p] == 94 <==> t.TCaret?
    ensures pattern[p] == 36 <==> t.TDollar?
    ensures IsOpByte(pattern[p]) <==> t.TOps?
    ensures pattern[p] == 46 <==> t.TDot?
    ensures pattern[p] == LBRACKET <==> t.TBrackets?
    ensures pattern[p] == 40 <==> t.TOpen?
    ensures pattern[p] == 41 <==> t.TClose?
    ensures pattern[p] == 124 <==> t.TBar?
    ensures t.TLit? && pattern[p] == BACKSLASH ==> |TokenText(t)| == 2 && p + 1 < |pattern| && pattern[p + 1] == t.c
    ensures t.TLit? && pattern[p] != BACKSLASH ==> |TokenText(t)| == 1 && pattern[p] == t.c
    ensures !t.TLit? ==> pattern[p] != BACKSLASH
    ensures t.TDot? || t.TCaret? || t.TDollar? || t.TOpen? || t.TClose? || t.TBar? ==> |TokenText(t)| == 1
    ensures t.TOps? ==> |TokenText(t)| == |t.ops| && TokenText(t) == OpsText(t.ops)
  {
    var s := TokenText(t);
    assert pattern[p] == pattern[p..p + |s|][0];
    if |s| > 1 { assert pattern[p + 1] == pattern[p..p + |s|][1]; }
    if t.TOps? { assert s[0] == OpByte(t.ops[0]); }
  }

  lemma BracketText(pattern: seq<byte>, p: nat, t: Token, ts: seq<Token>)
    requires Rest(pattern, p, ts) && |ts| > 0 && t == ts[0] && t.TBrackets? && p < |pattern|
    ensures Spelled(t.neg, t.items) && TokensOk(ts[1..])
    ensures pattern[p + 1..] ==
      (if t.neg then [HAT] else []) + (ItemsText(t.items) + ([RBRACKET] + Text(ts[1..])))
  {
    hide Spelled, ItemsText;
    assert t in ts && TokenOk(t);
    var hat := if t.neg then [HAT] else [];
    Regroup4([LBRACKET], hat, ItemsText(t.items), [RBRACKET], Text(ts[1..]));
    assert pattern[p + 1..] == pattern[p..][1..];
  }

  lemma Regroup4(a: seq<byte>, b: seq<byte>, c: seq<byte>, d: seq<byte>, e: seq<byte>)
    ensures (a + b + c + d) + e == a + (b + (c + (d + e)))
  {}

  lemma StoredBefore(code: seq<byte>, tail: seq<byte>, op: byte, loc: nat, arg: int)
    requires loc + 3 <= |code|
    ensures Stored(code + tail, op, loc, arg) == Stored(code, op, loc, arg) + tail
  {
    assert (code + tail)[..loc] == code[..loc];
    assert (code + tail)[loc + 3..] == code[loc + 3..] + tail;
  }

  lemma ClosedCode(code: seq<byte>, at: nat, reg: nat, inner: nat, alts: bool)
    requires at < |code| && reg < 256 && inner < 256
    ensures (code + (if alts then [PUSH_DUMMY_FAILURE] else []))[at := inner] + [STOP_MEMORY, reg, inner]
         == code[at := inner % 256] + GroupClose(reg, inner, alts)
  {
    var d := if alts then [PUSH_DUMMY_FAILURE] else [];
    assert (code + d)[at := inner] == code[at := inner] + d;
  }

  lemma RegnumFacts(ctx: Ctx, holes: seq<seq<byte>>, hole: seq<byte>, code: seq<byte>, v: Vars)
    requires Fits(ctx, holes, hole, code, v)
    ensures v.regnum == ctx.regnum <= MAX_REGNUM && v.fixup >= -1 && |holes| == |ctx.outer|
    ensures |v.stack| == |ctx.outer|
    ensures forall o | o in ctx.outer :: 1 <= o.reg
  {
    OuterRegs(ctx.outer, ctx.cur.base);
    AroundCounts(ctx.outer, ctx.cur.alts, holes, hole, v);
  }

  /** What `handle_close` finds, and what it must leave. */
  lemma CloseFacts(ctx: Ctx, holes: seq<seq<byte>>, hole: seq<byte>, code: seq<byte>, v: Vars)
    returns (code1: seq<byte>)
    requires Fits(ctx, holes, hole, code, v) && ReadClose(ctx).Some?
    ensures v.fixup >= -1 && (v.fixup >= 0 ==> v.fixup + 3 <= |code|) && |v.stack| == |holes| > 0
    ensures code1 == if v.fixup >= 0 then Stored(code, JUMP_PAST_ALT, v.fixup, |code| - v.fixup - 3) else code
    ensures FitsClosed(ReadClose(ctx), holes, code1, v, v.fixup >= 0)
  {
    hide Fits, Stored, GroupClose, OuterBytes, Bytes, AltOf, FitsClosed;
    RegnumFacts(ctx, holes, hole, code, v);
    FillFits(ctx, holes, hole, code, v);
    code1 := OuterBytes(ctx.outer, holes) + Bytes(AltOf(ctx.cur.alts, BranchRe(ctx.cur)));
    CloseFits(ctx, holes, hole, code, v, code1);
  }

  lemma {:induction false} OuterRegs(outer: seq<Open>, base: nat)
    requires OuterOk(outer, base)
    ensures forall o | o in outer :: 1 <= o.reg
    decreases |outer|
  {
    if |outer| > 0 {
      var n := |outer| - 1;
      OuterRegs(outer[..n], outer[n].level.base);
      assert outer == outer[..n] + [outer[n]];
    }
  }

  lemma BracketBytes(neg: bool, items: seq<Item>, code: seq<byte>)
    ensures var op: byte := if neg then CHARSET_NOT else CHARSET;
      var r := Trim(AddItems(Clear(), items));
      (code + [op, 32])[..|code| + 1] + [|r|] + r == code + Bytes(Charset(neg, MapOf(items)))
  {
    hide Trim, AddItems;
    var op: byte := if neg then CHARSET_NOT else CHARSET;
    assert (code + [op, 32])[..|code| + 1] == code + [op];
  }

  /** Inside a bracket expression whose list begins at `p1`, before item `i`. */
  ghost predicate BracketAt(pattern: seq<byte>, p1: nat, p: nat, neg: bool, items: seq<Item>, i: nat, ts: seq<Token>) {
    && Spelled(neg, items) && TokensOk(ts) && i <= |items| && p1 <= p <= |pattern|
    && (p == p1 <==> i == 0)
    && (if neg then 2 <= p1 && pattern[p1 - 2] == LBRACKET && pattern[p1 - 1] == HAT
        else 1 <= p1 && pattern[p1 - 1] == LBRACKET)
    && pattern[p..] == ItemsText(items[i..]) + ([RBRACKET] + Text(ts))
  }

  lemma BracketBound(pattern: seq<byte>, p1: nat, p: nat, neg: bool, items: seq<Item>, i: nat, ts: seq<Token>)
    requires BracketAt(pattern, p1, p, neg, items, i, ts)
    ensures p <= |pattern| && i <= |items|
  {}

  lemma RestBound(pattern: seq<byte>, p: nat, ts: seq<Token>)
    requires Rest(pattern, p, ts)
    ensures p <= |pattern|
  {}

  lemma BracketStart(pattern: seq<byte>, p: nat, neg: bool, items: seq<Item>, ts: seq<Token>)
    requires 0 < p <= |pattern| && pattern[p - 1] == LBRACKET && Spelled(neg, items) && TokensOk(ts)
    requires pattern[p..] == (if neg then [HAT] else []) + (ItemsText(items) + ([RBRACKET] + Text(ts)))
    ensures p < |pattern| && (Peek(pattern, p) == HAT <==> neg)
    ensures var p1 := if neg then p + 1 else p; p1 <= |pattern| && BracketAt(pattern, p1, p1, neg, items, 0, ts)
  {
    var rest := ItemsText(items) + ([RBRACKET] + Text(ts));
    assert items[0..] == items;
    assert pattern[p..][0] == pattern[p];
    if neg {
      assert pattern[p..][1..] == rest;
      assert pattern[p + 1..] == pattern[p..][1..];
    } else {
      assert rest[0] == Lead(items[0]);
    }
  }

  /** What the bytes at `p` are. */
  lemma ItemAhead(pattern: seq<byte>, p1: nat, p: nat, neg: bool, items: seq<Item>, i: nat, ts: seq<Token>)
    requires BracketAt(pattern, p1, p, neg, items, i, ts)
    ensures p < |pattern| && p1 <= p && 1 <= p1 && i <= |items|
    ensures p == p1 ==> pattern[p - 1] == LBRACKET ||
                        (p >= 2 && pattern[p - 2] == LBRACKET && pattern[p - 1] == HAT)
    ensures i == |items| ==> pattern[p] == RBRACKET && p != p1 && Rest(pattern, p + 1, ts)
    ensures i < |items| ==> pattern[p] == Lead(items[i]) && (pattern[p] == RBRACKET ==> p == p1)
    ensures i < |items| && items[i].One? ==>
      && BracketAt(pattern, p1, p + 1, neg, items, i + 1, ts)
      && (pattern[p] == HYPHEN ==> p == p1 || Peek(pattern, p + 1) == RBRACKET)
      && (Peek(pattern, p + 1) == HYPHEN ==> Peek(pattern, p + 2) == RBRACKET)
      && (pattern[p] == LBRACKET ==> Peek(pattern, p + 1) != COLON)
    ensures i < |items| && items[i].Span? ==>
      && p + 2 < |pattern| && pattern[p + 1] == HYPHEN && pattern[p + 2] == items[i].hi
      && items[i].lo <= items[i].hi && items[i].hi != RBRACKET && items[i].lo != HYPHEN
      && BracketAt(pattern, p1, p + 3, neg, items, i + 1, ts)
  {
    var tail := [RBRACKET] + Text(ts);
    if i == |items| {
      assert pattern[p..] == tail;
      assert pattern[p] == pattern[p..][0];
      assert pattern[p + 1..] == pattern[p..][1..];
    } else {
      assert SpelledItem(items, i);
      if items[i].One? {
        OneAhead(pattern, p, items, i, tail);
      } else {
        SpanAhead(pattern, p, items, i, tail);
      }
    }
  }

  lemma OneAhead(pattern: seq<byte>, p: nat, items: seq<Item>, i: nat, tail: seq<byte>)
    requires i < |items| && items[i].One? && p <= |pattern| && |tail| > 0 && tail[0] == RBRACKET
    requires pattern[p..] == ItemsText(items[i..]) + tail
    requires SpelledItem(items, i) && (i + 1 < |items| ==> SpelledItem(items, i + 1))
    ensures p < |pattern| && pattern[p] == items[i].c && pattern[p + 1..] == ItemsText(items[i + 1..]) + tail
    ensures pattern[p] == HYPHEN ==> i == 0 || Peek(pattern, p + 1) == RBRACKET
    ensures Peek(pattern, p + 1) == HYPHEN ==> Peek(pattern, p + 2) == RBRACKET
    ensures pattern[p] == LBRACKET ==> Peek(pattern, p + 1) != COLON
  {
    ItemsFrom(items, i);
    var rest := ItemsText(items[i + 1..]) + tail;
    assert pattern[p..] == [items[i].c] + rest;
    assert pattern[p] == pattern[p..][0];
    assert pattern[p + 1..] == pattern[p..][1..] == rest;
    NextByte(pattern, p + 1, items, i + 1, tail);
  }

  lemma SpanAhead(pattern: seq<byte>, p: nat, items: seq<Item>, i: nat, tail: seq<byte>)
    requires i < |items| && items[i].Span? && p <= |pattern|
    requires pattern[p..] == ItemsText(items[i..]) + tail
    ensures p + 2 < |pattern| && pattern[p] == items[i].lo && pattern[p + 1] == HYPHEN
    ensures pattern[p + 2] == items[i].hi && pattern[p + 3..] == ItemsText(items[i + 1..]) + tail
  {
    ItemsFrom(items, i);
    var rest := ItemsText(items[i + 1..]) + tail;
    assert pattern[p..] == [items[i].lo, HYPHEN, items[i].hi] + rest;
    assert pattern[p] == pattern[p..][0] && pattern[p + 1] == pattern[p..][1] && pattern[p + 2] == pattern[p..][2];
    assert pattern[p + 3..] == pattern[p..][3..] == rest;
  }

  lemma ItemsFrom(items: seq<Item>, i: nat)
    requires i < |items|
    ensures ItemsText(items[i..]) == ItemText(items[i]) + ItemsText(items[i + 1..])
  {
    assert items[i..][1..] == items[i + 1..];
  }

  /** The one or two bytes after a single character. */
  lemma NextByte(pattern: seq<byte>, q: nat, items: seq<Item>, j: nat, tail: seq<byte>)
    requires j <= |items| && q <= |pattern| && |tail| > 0 && tail[0] == RBRACKET
    requires pattern[q..] == ItemsText(items[j..]) + tail
    requires j < |items| ==> SpelledItem(items, j)
    ensures Peek(pattern, q) == if j < |items| then Lead(items[j]) else RBRACKET
    ensures j > 0 && Peek(pattern, q) == HYPHEN ==> Peek(pattern, q + 1) == RBRACKET
  {
    assert pattern[q..][0] == pattern[q];
    if j < |items| {
      ItemsFrom(items, j);
      if j > 0 && pattern[q] == HYPHEN {
        assert j == |items| - 1;
        assert ItemsText(items[j + 1..]) == [];
        assert pattern[q..] == [HYPHEN] + tail;
        assert pattern[q + 1] == pattern[q..][1];
      }
    }
  }

  /** The buffer after the jumps of a repetition are in place. */
  function LoopCode(code: seq<byte>, at: nat, zero: bool, many: bool): seq<byte>
    requires at <= |code|
  {
    var code1 := if many then code + Op1(MAYBE_POP_JUMP, at - |code| - 6) else code;
    var code2 := Inserted(code1, ON_FAILURE_JUMP, at, |code1| - at);
    if zero then code2 else Inserted(code2, DUMMY_FAILURE_JUMP, at, 3)
  }

  /** The code of repetitions, in the order it comes about. */
  lemma RepeatBytes(e: Re)
    ensures var fail := Op1(ON_FAILURE_JUMP, Len(e) + 3);
      var loop := fail + (Bytes(e) + Op1(MAYBE_POP_JUMP, -(Len(e) + 6)));
      && Bytes(Repeat(Star, e)) == loop && Bytes(Repeat(Plus, e)) == Op1(DUMMY_FAILURE_JUMP, 3) + loop
      && Bytes(Repeat(Opt, e)) == Op1(ON_FAILURE_JUMP, Len(e)) + Bytes(e)
  {
    hide Op1, Len, Bytes, LoopBytes;
    RepeatEmitted(e);
    LoopEmitted(e);
    SameConcat(Op1(ON_FAILURE_JUMP, Len(e) + 3), Bytes(e), Op1(MAYBE_POP_JUMP, -(Len(e) + 6)));
  }

  lemma RepeatEmitted(e: Re)
    ensures Bytes(Repeat(Star, e)) == LoopBytes(e)
    ensures Bytes(Repeat(Plus, e)) == Op1(DUMMY_FAILURE_JUMP, 3) + LoopBytes(e)
    ensures Bytes(Repeat(Opt, e)) == Op1(ON_FAILURE_JUMP, Len(e)) + Bytes(e)
  {
    hide Op1, Len, LoopBytes;
  }

  lemma LoopEmitted(e: Re)
    ensures LoopBytes(e) == Op1(ON_FAILURE_JUMP, Len(e) + 3) + Bytes(e) + Op1(MAYBE_POP_JUMP, -(Len(e) + 6))
  {
    hide Op1, Len, Bytes;
  }

  /** The jumps put around an operand make the code of its repetition. */
  lemma RepeatCode(op: Op, e: Re, before: seq<byte>, code: seq<byte>, zero: bool, many: bool)
    requires op == if !many then Opt else if zero then Star else Plus
    requires !many ==> zero
    requires code == LoopCode(before + Bytes(e), |before|, zero, many)
    ensures code == before + Bytes(Repeat(op, e))
  {
    hide Inserted, Op1, Bytes;
    BytesLen(e);
    RepeatBytes(e);
    var n: int, body := Len(e), Bytes(e);
    if many {
      var back := Op1(MAYBE_POP_JUMP, -(n + 6));
      SameConcat(before, body, back);
      assert |before| - |before + body| - 6 == -(n + 6);
      InsertAfterHead(before, body + back, ON_FAILURE_JUMP, n + 3);
      var loop := Op1(ON_FAILURE_JUMP, n + 3) + (body + back);
      if !zero { InsertAfterHead(before, loop, DUMMY_FAILURE_JUMP, 3); }
    } else {
      InsertAfterHead(before, body, ON_FAILURE_JUMP, n);
    }
  }

  lemma OpsAhead(pattern: seq<byte>, start: nat, ops: seq<Op>)
    requires start + |ops| <= |pattern| && pattern[start..start + |ops|] == OpsText(ops)
    ensures forall i | 0 <= i < |ops| :: pattern[start + i] == OpByte(ops[i])
  {
    forall i | 0 <= i < |ops|
      ensures pattern[start + i] == OpByte(ops[i])
    {
      assert pattern[start + i] == pattern[start..start + |ops|][i];
    }
  }

  lemma ReadAllNext(ctx: Ctx, ts: seq<Token>)
    requires |ts| > 0 && ReadAll(ctx, ts).Some?
    ensures Read(ctx, ts[0], First(ts[1..])).Some?
    ensures ReadAll(ctx, ts) == ReadAll(Read(ctx, ts[0], First(ts[1..])).value, ts[1..])
  {
    hide Read;
  }

  lemma ReadAllEnd(ctx: Ctx)
    ensures ReadAll(ctx, []) == Some(ctx)
  {}

  lemma OneByOne(code: seq<byte>, a: byte, b: byte)
    ensures code + [a] + [b] == code + [a, b]
  {}
}
