/** Sets that may be repeated.

    The decision at the end of a loop takes a full map of 32 bytes for an empty
    one.  An expression in which no repeated positive set lists a byte from 248 up
    is compiled to code where that cannot happen. */
module SafeSets {
  import opened Octets
  import opened RegexLang
  import opened Ere
  import opened Bitmap
  import opened Bytecode
  import opened Codegen
  import opened Rewriting
  import opened Invariant
  import opened Layout
  import opened Parse
  import opened ParseOk
  import opened Compilation

  /** A positive set whose map takes all 32 bytes. */
  predicate FullSet(e: Re) {
    e.Charset? && !e.neg && |e.bits| == 32
  }

  /** No full set is repeated. */
  predicate Low(e: Re) {
    match e
    case Cat(l, r) => Low(l) && Low(r)
    case Alt(l, r) => Low(l) && Low(r)
    case Group(_, _, body) => Low(body)
    case Repeat(_, body) => Low(body) && !FullSet(body)
    case _ => true
  }

  // ----- the expression -----

  predicate HighItems(items: seq<Item>) {
    exists c: byte :: c >= 248 && Listed(items, c)
  }

  /** No repeated positive set lists a byte from 248 up. */
  predicate LowSets(e: Ere) {
    match e
    case Then(l, r) => LowSets(l) && LowSets(r)
    case Or(l, r) => LowSets(l) && LowSets(r)
    case Paren(body) => LowSets(body)
    case Iter(body, _) => LowSets(body) && (body.Brackets? && !body.neg ==> !HighItems(body.items))
    case _ => true
  }

  predicate HighToken(t: Token) {
    t.TBrackets? && !t.neg && HighItems(t.items)
  }

  /** No repetition characters follow a positive set that lists such a byte. */
  predicate LowTokens(ts: seq<Token>) {
    forall i | 0 < i < |ts| :: HighToken(ts[i - 1]) ==> !ts[i].TOps?
  }

  lemma LowConcat(a: seq<Token>, b: seq<Token>)
    requires LowTokens(a) && LowTokens(b)
    requires |a| > 0 && |b| > 0 && HighToken(a[|a| - 1]) ==> !b[0].TOps?
    ensures LowTokens(a + b)
  {
    hide HighToken;
    var ts := a + b;
    forall i | 0 < i < |ts| && HighToken(ts[i - 1])
      ensures !ts[i].TOps?
    {
      if i > |a| {
        assert b[i - |a| - 1] == ts[i - 1] && b[i - |a|] == ts[i];
      } else if i < |a| {
        assert a[i - 1] == ts[i - 1] && a[i] == ts[i];
      }
    }
  }

  lemma {:induction false} LowBase(e: Ere)
    requires Starred(e) && LowSets(e)
    ensures LowSets(Base(e)) && (Base(e).Brackets? && !Base(e).neg ==> !HighItems(Base(e).items))
  {
    if e.body.Iter? { LowBase(e.body); }
  }

  lemma {:induction false} PieceLow(e: Ere)
    requires Piece(e) && LowSets(e)
    ensures LowTokens(Tokens(e)) && |Tokens(e)| > 0 && !Tokens(e)[0].TOps?
    decreases e, 1
  {
    hide HighItems;
    match e
    case Paren(body) =>
      TokensLow(body);
      LowConcat([TOpen], Tokens(body));
      LowConcat([TOpen] + Tokens(body), [TClose]);
    case Iter(_, _) =>
      LowBase(e);
      BaseFacts(e);
      PieceLow(Base(e));
      LastToken(Base(e));
      LowConcat(Tokens(Base(e)), [TOps(Ops(e))]);
    case _ =>
  }

  lemma LastToken(e: Ere)
    requires Atom(e) && (e.Brackets? && !e.neg ==> !HighItems(e.items))
    ensures |Tokens(e)| > 0 && !HighToken(Tokens(e)[|Tokens(e)| - 1])
  {}

  lemma {:induction false} BranchLow(e: Ere)
    requires Branch(e) && LowSets(e)
    ensures LowTokens(Tokens(e))
    decreases e, 1
  {
    if e.Then? {
      BranchLow(e.l);
      PieceLow(e.r);
      LowConcat(Tokens(e.l), Tokens(e.r));
    }
  }

  lemma {:induction false} TokensLow(e: Ere)
    requires Alternatives(e) && LowSets(e)
    ensures LowTokens(Tokens(e))
    decreases e, 2
  {
    if e.Or? {
      BranchLow(e.l);
      TokensLow(e.r);
      LowConcat(Tokens(e.l), [TBar]);
      LowConcat(Tokens(e.l) + [TBar], Tokens(e.r));
    } else {
      BranchLow(e);
    }
  }

  // ----- what is read of it -----

  predicate LowLevel(l: Level) {
    (forall a | a in l.alts :: Low(a)) && Low(l.front) && Low(l.last)
  }

  /** Everything read is low, and a full set is not about to be repeated. */
  predicate LowCtx(ctx: Ctx, next: Option<Token>) {
    && LowLevel(ctx.cur) && (forall o | o in ctx.outer :: LowLevel(o.level))
    && (FullSet(ctx.cur.last) && next.Some? ==> !next.value.TOps?)
  }

  lemma {:induction false} LowAltOf(alts: seq<Re>, c: Re)
    requires (forall a | a in alts :: Low(a)) && Low(c)
    ensures Low(AltOf(alts, c))
    decreases |alts|
  {
    if |alts| > 0 { LowAltOf(alts[1..], c); }
  }

  lemma LowBody(l: Level)
    requires LowLevel(l)
    ensures Low(AltOf(l.alts, BranchRe(l)))
  {
    LowAltOf(l.alts, BranchRe(l));
  }

  /** One turn of the main loop. */
  lemma LowRead(ctx: Ctx, t: Token, next: Option<Token>)
    requires LowCtx(ctx, Some(t)) && Read(ctx, t, next).Some?
    requires HighToken(t) && next.Some? ==> !next.value.TOps?
    ensures LowCtx(Read(ctx, t, next).value, next)
  {
    hide MapOf, HighItems, Collapse, AltOf;
    match t
    case TBrackets(_, items) => HighIs(items);
    case TClose => LowClose(ctx, next);
    case TOpen =>
      var ctx' := Read(ctx, t, next).value;
      forall o | o in ctx'.outer
        ensures LowLevel(o.level)
      {}
    case TBar =>
      assert Low(BranchRe(ctx.cur));
    case TOps(ops) => assert !FullSet(ctx.cur.last);
    case _ =>
      assert Low(BranchRe(ctx.cur));
      assert Low(Cat(BranchRe(ctx.cur), Bol)) && Low(Cat(BranchRe(ctx.cur), Eol));
  }

  lemma LowClose(ctx: Ctx, next: Option<Token>)
    requires LowLevel(ctx.cur) && (forall o | o in ctx.outer :: LowLevel(o.level)) && ReadClose(ctx).Some?
    ensures LowCtx(ReadClose(ctx).value, next)
  {
    hide AltOf;
    LowBody(ctx.cur);
    assert ctx.outer[|ctx.outer| - 1] in ctx.outer;
  }

  lemma HighIs(items: seq<Item>)
    ensures HighItems(items) <==> |MapOf(items)| == 32
  {
    hide MapOf;
    FullMap(items);
  }

  lemma {:induction false} LowReadAll(ctx: Ctx, ts: seq<Token>)
    requires LowCtx(ctx, First(ts)) && LowTokens(ts) && ReadAll(ctx, ts).Some?
    ensures Low(Body(ReadAll(ctx, ts).value))
    decreases |ts|
  {
    hide Read, HighToken;
    if |ts| == 0 {
      LowBody(ctx.cur);
    } else {
      var rest := ts[1..];
      LowRead(ctx, ts[0], First(rest));
      assert forall i | 0 < i < |rest| :: rest[i - 1] == ts[i] && rest[i] == ts[i + 1];
      LowReadAll(Read(ctx, ts[0], First(rest)).value, rest);
    }
  }

  // ----- the code -----

  /** The loop closed at `x`, if one is, does not repeat a full set. */
  ghost predicate LowLoop(code: seq<byte>, x: nat) {
    Fetch(code, x).MaybePopJump? && x + 6 + Fetch(code, x).off >= 0 ==>
    match Fetch(code, x + 6 + Fetch(code, x).off)
    case Bracket(neg, bits) => neg || |bits| < 32
    case _ => true
  }

  lemma NoLoop(code: seq<byte>, x: nat)
    ensures !Fetch(code, x).MaybePopJump? ==> LowLoop(code, x)
  {}

  lemma {:induction false} LowInside(n: Re, e: Re)
    requires Inside(n, e) && Low(e)
    ensures Low(n)
  {
    if n != e {
      match e
      case Cat(l, r) => if Inside(n, l) { LowInside(n, l); } else { LowInside(n, r); }
      case Alt(l, r) => if Inside(n, l) { LowInside(n, l); } else { LowInside(n, r); }
      case Group(_, _, body) => LowInside(n, body);
      case Repeat(_, body) => LowInside(n, body);
    }
  }

  lemma LowAt(e: Re, code: seq<byte>, x: nat)
    requires Fit(e) && Low(e) && LaidOut(e, code, 0) && Starts(code, x) && x < Len(e)
    ensures LowLoop(code, x)
  {
    hide Fetch, Boundary, Starts, LaidOut, LowLoop, Low, Fit, Owns;
    StartAtZero(code);
    var n, p := Owner(e, code, 0, x);
    LowInside(n, e);
    InsideFit(n, e);
    OwnedLow(n, code, p, x);
  }

  lemma OwnedLow(n: Re, code: seq<byte>, p: nat, x: nat)
    requires Fit(n) && Low(n) && LaidOut(n, code, p) && Owns(n, p, x)
    ensures LowLoop(code, x)
  {
    hide Fetch, LaidOut, LoopAt, LowLoop;
    NoLoop(code, x);
    match n
    case Alt(_, _) => AltParts(code, p, n);
    case Group(_, _, _) => GroupParts(n, code, p);
    case Repeat(op, body) =>
      RepeatParts(n, code, p);
      if !op.Opt? {
        var t := if op.Plus? then p + 3 else p;
        LoopParts(body, code, t);
        LoopBody(body, code, t);
      }
    case _ => LeafClosed(n, code, p);
  }

  /** The closing jump of a loop whose body is not a full set. */
  lemma LoopBody(body: Re, code: seq<byte>, p: nat)
    requires Fit(body) && !FullSet(body) && (body.Group? || Single(body)) && LoopAt(body, code, p)
    ensures LowLoop(code, p + 3 + Len(body))
  {
    hide Fetch, LoopAt, LaidOut;
    LoopParts(body, code, p);
    if body.Group? { GroupParts(body, code, p + 3); } else { ByteHead(body, code, p + 3); }
  }

  lemma ByteHead(e: Re, code: seq<byte>, p: nat)
    requires Single(e) && LaidOut(e, code, p)
    ensures if e.Charset? then Fetch(code, p) == Bracket(e.neg, e.bits) else !Fetch(code, p).Bracket?
  {
    hide Fetch;
  }

  /** Where no full set is repeated the decision to pop is right. */
  lemma LowPopSafe(e: Re, code: seq<byte>)
    requires Fit(e) && Low(e) && LaidOut(e, code, 0) && Len(e) == |code|
    ensures PopSafe(code)
  {
    hide Fetch, LaidOut, Starts, CanPop;
    StartAtZero(code);
    forall x: nat | Starts(code, x) && Fetch(code, x).MaybePopJump? && CanPop(code, x)
      ensures ExcludesNext(code, x)
    {
      NoFetch(code);
      StartAtMost(code, x);
      LowAt(e, code, x);
      LowDecision(code, x);
    }
  }

  lemma LowDecision(code: seq<byte>, x: nat)
    requires Fetch(code, x).MaybePopJump? && CanPop(code, x) && LowLoop(code, x)
    ensures ExcludesNext(code, x)
  {
    hide Fetch, SkipGroups, Bit;
  }

  /** The compiled form of an expression in which no repeated positive set lists a
      byte from 248 up decides every loop rightly. */
  lemma LowSetsPopSafe(e: Ere)
    requires Supported(e) && LowSets(e) && |CodeOf(e)| <= MAX_CODE
    ensures PopSafe(CodeOf(e))
  {
    hide ReadAll, MeansSame, LowSets, Alternatives, LowTokens, PopSafe, LaidOut, Fit, Bytes, Framed, Numbered;
    hide After, Body, Low;
    var final := ReadsWhole(e);
    TokensLow(e);
    LowInit(First(Tokens(e)));
    LowReadAll(InitCtx(), Tokens(e));
    CoreFacts(e);
    LowPopSafe(CoreOf(e), CodeOf(e));
  }

  lemma LowInit(next: Option<Token>)
    ensures LowCtx(InitCtx(), next)
  {}
}
