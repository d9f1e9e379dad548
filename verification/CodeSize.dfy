/** How long the compiler's buffer is, and that reading on never makes it shorter:
    a pattern whose code fits the buffer compiles without running out of it. */
module CodeSize {
  import opened Octets
  import opened RegexLang
  import opened Bytecode
  import opened Codegen
  import opened Ere
  import opened Bitmap
  import opened Parse
  import opened ParseOk
  import opened Emit
  import opened CompilerState

  /** Finished alternatives with the jumps around them. */
  function AltsSize(alts: seq<Re>): nat {
    if |alts| == 0 then 0 else AltsSize(alts[..|alts| - 1]) + 6 + Len(alts[|alts| - 1])
  }

  function LevelSize(l: Level): nat {
    AltsSize(l.alts) + Len(l.front) + Len(l.last)
  }

  function OuterSize(outer: seq<Open>): nat {
    if |outer| == 0 then 0
    else OuterSize(outer[..|outer| - 1]) + LevelSize(outer[|outer| - 1].level) + 3
  }

  function CtxSize(ctx: Ctx): nat {
    OuterSize(ctx.outer) + LevelSize(ctx.cur)
  }

  lemma {:induction false} AltsPrefixSize(alts: seq<Re>)
    requires |alts| > 0
    ensures |AltsPrefix(alts)| + 3 == AltsSize(alts)
    decreases |alts|
  {
    var n := |alts| - 1;
    BytesLen(alts[n]);
    if n > 0 { AltsPrefixSize(alts[..n]); }
  }

  lemma LevelBytesSize(l: Level, hole: seq<byte>)
    requires |hole| == 3
    ensures |LevelBytes(l, hole)| == LevelSize(l)
  {
    BytesLen(l.front);
    BytesLen(l.last);
    if |l.alts| > 0 { AltsPrefixSize(l.alts); }
  }

  lemma {:induction false} OuterBytesSize(outer: seq<Open>, holes: seq<seq<byte>>, stack: seq<Frame>)
    requires |holes| == |outer| && FramesOk(outer, holes, stack)
    ensures |OuterBytes(outer, holes)| == OuterSize(outer)
    decreases |outer|
  {
    hide LevelBytes, LevelSize, LevelVars;
    if |outer| > 0 {
      var n := |outer| - 1;
      LevelBytesSize(outer[n].level, holes[n]);
      OuterBytesSize(outer[..n], holes[..n], stack[..n]);
    }
  }

  /** The buffer is as long as what was read says. */
  lemma FitsSize(ctx: Ctx, holes: seq<seq<byte>>, hole: seq<byte>, code: seq<byte>, v: Vars)
    requires Fits(ctx, holes, hole, code, v)
    ensures |code| == CtxSize(ctx)
  {
    hide OuterBytes, OuterSize, AltsPrefix, AltsSize, FramesOk;
    OuterBytesSize(ctx.outer, holes, v.stack);
    LevelBytesSize(ctx.cur, hole);
  }

  lemma {:induction false} AltOfSize(alts: seq<Re>, c: Re)
    ensures Len(AltOf(alts, c)) == AltsSize(alts) + Len(c)
    decreases |alts|
  {
    if |alts| > 0 {
      AltOfSize(alts[1..], c);
      AltsFront(alts);
    }
  }

  lemma {:induction false} AltsFront(alts: seq<Re>)
    requires |alts| > 0
    ensures AltsSize(alts) == AltsSize(alts[1..]) + 6 + Len(alts[0])
    decreases |alts|
  {
    var n := |alts| - 1;
    if n > 0 {
      AltsFront(alts[..n]);
      assert alts[..n][1..] == alts[1..][..n - 1];
      assert alts[1..][n - 1] == alts[n];
    }
  }

  lemma AltsSnoc(alts: seq<Re>, a: Re)
    ensures AltsSize(alts + [a]) == AltsSize(alts) + 6 + Len(a)
  {
    assert (alts + [a])[..|alts|] == alts;
  }

  lemma OuterSizeSnoc(outer: seq<Open>, o: Open)
    ensures OuterSize(outer + [o]) == OuterSize(outer) + LevelSize(o.level) + 3
  {
    assert (outer + [o])[..|outer|] == outer;
  }

  /** Reading a token does not make the code shorter. */
  lemma ReadGrows(ctx: Ctx, t: Token, next: Option<Token>)
    requires Read(ctx, t, next).Some?
    requires |ctx.outer| > 0 ==> ctx.outer[|ctx.outer| - 1].level.last == Empty
    ensures CtxSize(Read(ctx, t, next).value) >= CtxSize(ctx)
  {
    hide AltsSize, OuterSize, AltOf, Collapse, MapOf, Operand;
    var l := ctx.cur;
    match t
    case TLit(c) => if Joins(l, next) { assert Len(Exact(l.last.cs + [c])) == Len(l.last) + 1; }
    case TDot => assert Len(Cat(l.front, l.last)) == Len(l.front) + Len(l.last);
    case TBrackets(_, _) => assert Len(Cat(l.front, l.last)) == Len(l.front) + Len(l.last);
    case TCaret => AnchorSize(l, Bol);
    case TDollar => AnchorSize(l, Eol);
    case TBar => AltsSnoc(l.alts, BranchRe(l));
    case TOpen =>
      OuterSizeSnoc(ctx.outer, Open(l.(front := BranchRe(l), last := Empty, pending := false), ctx.regnum + 1));
    case TClose => CloseGrows(ctx);
    case TOps(ops) => RepeatGrows(Collapse(ops), l.last);
  }

  lemma CloseGrows(ctx: Ctx)
    requires ReadClose(ctx).Some? && ctx.outer[|ctx.outer| - 1].level.last == Empty
    ensures CtxSize(ReadClose(ctx).value) >= CtxSize(ctx)
  {
    hide AltsSize, AltOf;
    AltOfSize(ctx.cur.alts, BranchRe(ctx.cur));
  }

  lemma AnchorSize(l: Level, e: Re)
    ensures Len(Cat(BranchRe(l), e)) == Len(l.front) + Len(l.last) + Len(e)
  {}

  lemma RepeatGrows(op: Op, e: Re)
    ensures Len(Repeat(op, e)) >= Len(e)
  {
    assert op.Star? || op.Plus? || op.Opt?;
  }

  lemma BodySize(ctx: Ctx)
    requires ctx.outer == []
    ensures Len(Body(ctx)) == CtxSize(ctx)
  {
    AltOfSize(ctx.cur.alts, BranchRe(ctx.cur));
  }

  lemma {:induction false} ReadAllGrows(ctx: Ctx, ts: seq<Token>)
    requires CtxOk(ctx) && ReadAll(ctx, ts).Some?
    ensures CtxSize(ReadAll(ctx, ts).value) >= CtxSize(ctx)
    decreases |ts|
  {
    hide CtxOk, Read, CtxSize;
    if |ts| > 0 {
      var next := First(ts[1..]);
      ReadOk(ctx, ts[0], next);
      LastOpenEmpty(ctx);
      ReadGrows(ctx, ts[0], next);
      ReadAllGrows(Read(ctx, ts[0], next).value, ts[1..]);
    }
  }

  lemma LastOpenEmpty(ctx: Ctx)
    requires CtxOk(ctx)
    ensures |ctx.outer| > 0 ==> ctx.outer[|ctx.outer| - 1].level.last == Empty
  {}

  /** A buffer that is nearly full means a long code in the end. */
  lemma NearlyFull(ctx: Ctx, holes: seq<seq<byte>>, hole: seq<byte>, code: seq<byte>, v: Vars, ts: seq<Token>)
    requires Fits(ctx, holes, hole, code, v) && ReadAll(ctx, ts).Some? && ReadAll(ctx, ts).value.outer == []
    ensures |code| <= Len(Body(ReadAll(ctx, ts).value))
  {
    hide CtxOk, Around, BranchFits, ReadAll, CtxSize;
    FitsSize(ctx, holes, hole, code, v);
    ReadAllGrows(ctx, ts);
    BodySize(ReadAll(ctx, ts).value);
  }

  // ----- short texts -----

  /** The most code a byte of pattern text can stand for: three bytes, as in `[x]`,
      make up to 34. */
  const WIDEST := 12

  /** Reading a token adds no more than that for each byte it is written with. */
  lemma ReadAdds(ctx: Ctx, t: Token, next: Option<Token>)
    requires Read(ctx, t, next).Some? && TokenOk(t)
    requires |ctx.outer| > 0 ==> ctx.outer[|ctx.outer| - 1].level.last == Empty
    ensures CtxSize(Read(ctx, t, next).value) <= CtxSize(ctx) + WIDEST * |TokenText(t)|
  {
    hide AltsSize, OuterSize, AltOf, Collapse, MapOf, Operand, CtxSize, Spelled, ItemsText;
    TokenLength(t);
    match t
    case TOpen => OpenAdds(ctx);
    case TClose => CloseAdds(ctx);
    case TBar => BarAdds(ctx);
    case TOps(ops) => OpsAdd(ctx, ops, next);
    case TBrackets(neg, items) => PlainAdds(ctx, Charset(neg, MapOf(items)));
    case TDot => PlainAdds(ctx, Any);
    case TLit(c) => LitAdds(ctx, c, next);
    case TCaret => AnchorAdds(ctx, Bol);
    case TDollar => AnchorAdds(ctx, Eol);
  }

  lemma TokenLength(t: Token)
    requires TokenOk(t)
    ensures |TokenText(t)| >= if t.TBrackets? then 3 else 1
  {
    hide ItemsText;
    if t.TBrackets? { assert |ItemsText(t.items)| > 0; }
  }

  lemma OpenAdds(ctx: Ctx)
    requires Read(ctx, TOpen, None).Some?
    ensures CtxSize(Read(ctx, TOpen, None).value) == CtxSize(ctx) + 3
  {
    hide AltsSize, OuterSize;
    var l := ctx.cur;
    OuterSizeSnoc(ctx.outer, Open(l.(front := BranchRe(l), last := Empty, pending := false), ctx.regnum + 1));
    assert AltsSize([]) == 0 by { NoAlts(); }
  }

  lemma NoAlts()
    ensures AltsSize([]) == 0
  {}

  lemma CloseAdds(ctx: Ctx)
    requires ReadClose(ctx).Some? && ctx.outer[|ctx.outer| - 1].level.last == Empty
    ensures CtxSize(ReadClose(ctx).value) <= CtxSize(ctx) + 4
  {
    hide AltsSize, AltOf;
    AltOfSize(ctx.cur.alts, BranchRe(ctx.cur));
  }

  lemma BarAdds(ctx: Ctx)
    ensures CtxSize(Read(ctx, TBar, None).value) == CtxSize(ctx) + 6
  {
    hide AltsSize, OuterSize;
    AltsSnoc(ctx.cur.alts, BranchRe(ctx.cur));
  }

  lemma PlainAdds(ctx: Ctx, e: Re)
    ensures CtxSize(ctx.(cur := Append(ctx.cur, e, false))) == CtxSize(ctx) + Len(e)
  {
    hide AltsSize, OuterSize;
    assert Len(Cat(ctx.cur.front, ctx.cur.last)) == Len(ctx.cur.front) + Len(ctx.cur.last);
  }

  lemma LitAdds(ctx: Ctx, c: byte, next: Option<Token>)
    ensures CtxSize(Read(ctx, TLit(c), next).value) <= CtxSize(ctx) + 3
  {
    hide AltsSize, OuterSize;
    var l := ctx.cur;
    if Joins(l, next) { assert Len(Exact(l.last.cs + [c])) == Len(l.last) + 1; }
  }

  lemma AnchorAdds(ctx: Ctx, e: Re)
    requires Len(e) == 1
    ensures var l := ctx.cur;
      CtxSize(ctx.(cur := l.(front := Cat(BranchRe(l), e), last := Empty, pending := false))) == CtxSize(ctx) + 1
  {
    hide AltsSize, OuterSize;
    AnchorSize(ctx.cur, e);
  }

  lemma OpsAdd(ctx: Ctx, ops: seq<Op>, next: Option<Token>)
    requires ReadOps(ctx, ops, next).Some?
    ensures CtxSize(ReadOps(ctx, ops, next).value) <= CtxSize(ctx) + 9
  {
    hide AltsSize, OuterSize, Collapse;
  }

  lemma {:induction false} ReadAllAdds(ctx: Ctx, ts: seq<Token>)
    requires CtxOk(ctx) && ReadAll(ctx, ts).Some? && TokensOk(ts)
    ensures CtxSize(ReadAll(ctx, ts).value) <= CtxSize(ctx) + WIDEST * |Text(ts)|
    decreases |ts|
  {
    hide CtxOk, Read, CtxSize, TokenOk, TokenText;
    if |ts| > 0 {
      var next := First(ts[1..]);
      assert ts[0] in ts;
      ReadOk(ctx, ts[0], next);
      LastOpenEmpty(ctx);
      ReadAdds(ctx, ts[0], next);
      ReadAllAdds(Read(ctx, ts[0], next).value, ts[1..]);
      assert |Text(ts)| == |TokenText(ts[0])| + |Text(ts[1..])|;
    }
  }
}
