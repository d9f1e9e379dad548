/** What the compiler keeps true of everything it has read: loops have fit bodies,
    operands fit their bytes, and groups are numbered in the order they open. */
module ParseOk {
  import opened Octets
  import opened RegexLang
  import opened Ere
  import opened Bitmap
  import opened Bytecode
  import opened Invariant
  import opened InvariantFacts
  import opened Codegen
  import opened Parse

  ghost predicate PartOk(e: Re) {
    Fit(e) && Encodable(e) && Framed(e)
  }

  ghost function AltsAfter(alts: seq<Re>, b: nat): nat {
    if |alts| == 0 then b else After(alts[|alts| - 1], AltsAfter(alts[..|alts| - 1], b))
  }

  ghost predicate AltsNumbered(alts: seq<Re>, b: nat) {
    |alts| > 0 ==>
      AltsNumbered(alts[..|alts| - 1], b) && Numbered(alts[|alts| - 1], AltsAfter(alts[..|alts| - 1], b))
  }

  ghost predicate LevelOk(l: Level, upper: nat) {
    && l.base >= 1
    && (forall a | a in l.alts :: PartOk(a) && !a.Alt?)
    && PartOk(l.front) && PartOk(l.last) && !l.front.Alt? && !l.last.Alt?
    && AltsNumbered(l.alts, l.base)
    && Numbered(BranchRe(l), AltsAfter(l.alts, l.base))
    && After(BranchRe(l), AltsAfter(l.alts, l.base)) <= upper
  }

  ghost predicate OuterOk(outer: seq<Open>, base: nat) {
    if |outer| == 0 then base == 1
    else
      var o := outer[|outer| - 1];
      && 1 <= o.reg <= MAX_REGNUM && base == o.reg + 1 && o.level.last == Empty
      && LevelOk(o.level, o.reg) && OuterOk(outer[..|outer| - 1], o.level.base)
  }

  ghost predicate CtxOk(ctx: Ctx) {
    && ctx.regnum <= MAX_REGNUM && LevelOk(ctx.cur, ctx.regnum + 1)
    && OuterOk(ctx.outer, ctx.cur.base)
    && (|ctx.outer| > 0 ==> ctx.outer[|ctx.outer| - 1].reg <= ctx.regnum)
    && (forall o | o in ctx.outer :: o.reg <= ctx.regnum)
  }

  lemma {:induction false} AltOfOk(alts: seq<Re>, c: Re, b: nat)
    requires AltsNumbered(alts, b) && Numbered(c, AltsAfter(alts, b))
    requires forall a | a in alts :: PartOk(a) && !a.Alt?
    requires PartOk(c)
    ensures Numbered(AltOf(alts, c), b) && After(AltOf(alts, c), b) == After(c, AltsAfter(alts, b))
    ensures PartOk(AltOf(alts, c))
    decreases |alts|
  {
    if |alts| > 0 {
      assert PartOk(alts[0]);
      AltsFromFront(alts, b);
      AltOfOk(alts[1..], c, After(alts[0], b));
    }
  }

  lemma {:induction false} AltsFromFront(alts: seq<Re>, b: nat)
    requires AltsNumbered(alts, b) && |alts| > 0
    ensures Numbered(alts[0], b) && AltsNumbered(alts[1..], After(alts[0], b))
    ensures AltsAfter(alts[1..], After(alts[0], b)) == AltsAfter(alts, b)
    decreases |alts|
  {
    var n := |alts| - 1;
    if n > 0 {
      AltsFromFront(alts[..n], b);
      assert alts[..n][1..] == alts[1..][..n - 1];
      assert alts[1..][n - 1] == alts[n];
    } else {
      assert AltsAfter(alts[..0], b) == b;
    }
  }

  /** Expressions without groups take no numbers. */
  lemma PlainPart(e: Re, b: nat)
    requires e.Exact? || e.Any? || e.Charset? || e.Bol? || e.Eol? || e.Empty?
    ensures Numbered(e, b) && After(e, b) == b
  {}

  lemma AppendOk(l: Level, e: Re, pending: bool, upper: nat)
    requires LevelOk(l, upper) && PartOk(e)
    requires e.Exact? || e.Any? || e.Charset? || e.Empty?
    ensures LevelOk(Append(l, e, pending), upper)
  {
    PlainPart(e, After(BranchRe(l), AltsAfter(l.alts, l.base)));
  }

  lemma AnchorOk(l: Level, e: Re, upper: nat)
    requires LevelOk(l, upper) && (e.Bol? || e.Eol?)
    ensures LevelOk(l.(front := Cat(BranchRe(l), e), last := Empty, pending := false), upper)
  {
    var x := AltsAfter(l.alts, l.base);
    var y := After(BranchRe(l), x);
    PlainPart(e, y);
    assert Numbered(Cat(BranchRe(l), e), x) && After(Cat(BranchRe(l), e), x) == y;
  }

  lemma JoinOk(l: Level, c: byte, upper: nat)
    requires LevelOk(l, upper) && l.last.Exact? && |l.last.cs| < 255
    ensures LevelOk(l.(last := Exact(l.last.cs + [c])), upper)
  {
    var y := After(l.front, AltsAfter(l.alts, l.base));
    PlainPart(l.last, y);
    PlainPart(Exact(l.last.cs + [c]), y);
  }

  lemma OpsOk(l: Level, op: Op, upper: nat)
    requires LevelOk(l, upper) && Operand(l.last)
    ensures LevelOk(l.(last := Repeat(op, l.last), pending := false), upper)
  {}

  lemma BarOk(l: Level, upper: nat)
    requires LevelOk(l, upper)
    ensures LevelOk(l.(alts := l.alts + [BranchRe(l)], front := Empty, last := Empty, pending := false), upper)
  {
    var alts := l.alts + [BranchRe(l)];
    assert alts[..|alts| - 1] == l.alts;
    var l' := l.(alts := alts, front := Empty, last := Empty, pending := false);
    var x := AltsAfter(alts, l.base);
    assert Numbered(BranchRe(l'), x) && After(BranchRe(l'), x) == x;
  }

  lemma OpenOk(ctx: Ctx)
    requires CtxOk(ctx) && ctx.regnum < MAX_REGNUM
    ensures CtxOk(Read(ctx, TOpen, None).value)
  {
    hide LevelOk, OuterOk, BranchRe, FreshLevel;
    var l := ctx.cur;
    var l' := l.(front := BranchRe(l), last := Empty, pending := false);
    LeftOpenOk(l, ctx.regnum + 1);
    FreshOk(ctx.regnum + 2);
    OuterMore(ctx.outer, Open(l', ctx.regnum + 1));
    forall o | o in ctx.outer + [Open(l', ctx.regnum + 1)]
      ensures o.reg <= ctx.regnum + 1
    {}
  }

  lemma LeftOpenOk(l: Level, upper: nat)
    requires LevelOk(l, upper)
    ensures LevelOk(l.(front := BranchRe(l), last := Empty, pending := false), upper)
  {
    hide AltsNumbered;
    AppendOk(l, Empty, false, upper);
  }

  lemma FreshOk(base: nat)
    requires base >= 1
    ensures FreshLevel(base).base == base && LevelOk(FreshLevel(base), base)
  {
    var f := FreshLevel(base);
    assert Numbered(BranchRe(f), f.base) && After(BranchRe(f), f.base) == f.base;
  }

  lemma OuterMore(outer: seq<Open>, o: Open)
    requires OuterOk(outer, o.level.base) && 1 <= o.reg <= MAX_REGNUM && o.level.last == Empty
    requires LevelOk(o.level, o.reg)
    ensures OuterOk(outer + [o], o.reg + 1)
  {
    hide LevelOk;
    assert (outer + [o])[..|outer|] == outer;
  }

  lemma GroupOk(l: Level, reg: nat, inner: nat, body: Re)
    requires LevelOk(l, reg) && l.last == Empty && 1 <= reg && reg + inner <= MAX_REGNUM
    requires PartOk(body) && Numbered(body, reg + 1) && After(body, reg + 1) <= reg + 1 + inner
    ensures LevelOk(l.(last := Group(reg, inner, body), pending := false), reg + inner + 1)
  {
    var g := Group(reg, inner, body);
    var x := AltsAfter(l.alts, l.base);
    var y := After(l.front, x);
    assert Numbered(BranchRe(l), x) && After(BranchRe(l), x) == y;
    assert Numbered(g, y) && After(g, y) == reg + inner + 1;
    assert PartOk(g);
  }

  lemma CloseOk(ctx: Ctx)
    requires CtxOk(ctx) && ReadClose(ctx).Some?
    ensures CtxOk(ReadClose(ctx).value)
  {
    hide LevelOk;
    var o := ctx.outer[|ctx.outer| - 1];
    var l := ctx.cur;
    var body := AltOf(l.alts, BranchRe(l));
    LevelBodyOk(l, ctx.regnum + 1);
    GroupOk(o.level, o.reg, ctx.regnum - o.reg, body);
    assert o in ctx.outer;
    var rest := ctx.outer[..|ctx.outer| - 1];
    forall p | p in rest
      ensures p.reg <= ctx.regnum
    {}
  }

  lemma LevelBodyOk(l: Level, upper: nat)
    requires LevelOk(l, upper)
    ensures var body := AltOf(l.alts, BranchRe(l));
      PartOk(body) && Numbered(body, l.base) && After(body, l.base) <= upper
  {
    AltOfOk(l.alts, BranchRe(l), l.base);
  }

  lemma LeafOk(t: Token)
    ensures t.TLit? ==> PartOk(Exact([t.c]))
    ensures PartOk(Any) && (t.TBrackets? ==> PartOk(Charset(t.neg, MapOf(t.items))))
  {}

  /** Every turn of the main loop keeps it. */
  lemma ReadOk(ctx: Ctx, t: Token, next: Option<Token>)
    requires CtxOk(ctx) && Read(ctx, t, next).Some?
    ensures CtxOk(Read(ctx, t, next).value)
  {
    hide LevelOk, OuterOk, PartOk, MapOf, Collapse, AltOf;
    var l, upper := ctx.cur, ctx.regnum + 1;
    LeafOk(t);
    match t
    case TLit(c) =>
      if Joins(l, next) { JoinOk(l, c, upper); } else { AppendOk(l, Exact([c]), true, upper); }
    case TDot => AppendOk(l, Any, false, upper);
    case TBrackets(neg, items) => AppendOk(l, Charset(neg, MapOf(items)), false, upper);
    case TCaret => AnchorOk(l, Bol, upper);
    case TDollar => AnchorOk(l, Eol, upper);
    case TOps(ops) => OpsOk(l, Collapse(ops), upper);
    case TOpen => OpenOk(ctx);
    case TClose => CloseOk(ctx);
    case TBar => BarOk(l, upper);
  }

  lemma InitOk()
    ensures CtxOk(InitCtx())
  {
    assert Numbered(BranchRe(FreshLevel(1)), 1);
  }

  lemma {:induction false} ReadAllOk(ctx: Ctx, ts: seq<Token>)
    requires CtxOk(ctx) && ReadAll(ctx, ts).Some?
    ensures CtxOk(ReadAll(ctx, ts).value)
    decreases |ts|
  {
    hide CtxOk, Read;
    if |ts| > 0 {
      ReadOk(ctx, ts[0], First(ts[1..]));
      ReadAllOk(Read(ctx, ts[0], First(ts[1..])).value, ts[1..]);
    }
  }
}
