/** Groups that may be repeated.

    The matcher takes the byte two before a `stop_memory` for an opcode.  An
    expression with no literal byte 5, in which every group repeated by `*` or `+`
    ends in a literal byte, is compiled to code where that does no harm; when no
    repeated set lists a byte from 248 up either, `regex_match` decides. */
module QuietGroups {
  import opened Octets
  import opened RegexLang
  import opened Ere
  import opened Bytecode
  import opened Codegen
  import opened Invariant
  import opened Layout
  import opened Closings
  import opened Parse
  import opened ParseOk
  import opened Compilation
  import opened MatchTheorem
  import opened Outcome
  import opened SafeSets
  import opened Posix

  // ----- the expression -----

  /** The last alternative ends in a literal byte. */
  predicate EndsInLit(e: Ere) {
    match e
    case Or(_, r) => EndsInLit(r)
    case Then(_, r) => r.Lit?
    case _ => false
  }

  /** No literal byte 5, and every group repeated by more than `?` ends in a literal. */
  predicate Quiet(e: Ere) {
    match e
    case Lit(c) => c != START_MEMORY
    case Then(l, r) => Quiet(l) && Quiet(r)
    case Or(l, r) => Quiet(l) && Quiet(r)
    case Paren(body) => Quiet(body)
    case Iter(body, _) => Quiet(body) && (Base(e).Paren? && !Collapse(Ops(e)).Opt? ==> EndsInLit(Base(e).body))
    case _ => true
  }

  /** More than `?`. */
  predicate Rounds(t: Token) {
    t.TOps? && |t.ops| > 0 && !Collapse(t.ops).Opt?
  }

  /** A group that ends at `ts[i]` and may go round ends in a literal. */
  predicate QuietAt(ts: seq<Token>, i: nat)
    requires i < |ts|
  {
    && ts[i] != TLit(START_MEMORY)
    && (ts[i].TClose? && i + 1 < |ts| && Rounds(ts[i + 1]) ==> i > 0 && ts[i - 1].TLit?)
  }

  predicate QuietTokens(ts: seq<Token>) {
    forall i | 0 <= i < |ts| :: QuietAt(ts, i)
  }

  lemma QuietConcat(a: seq<Token>, b: seq<Token>)
    requires QuietTokens(a) && QuietTokens(b)
    requires |a| > 0 && |b| > 0 && a[|a| - 1].TClose? && Rounds(b[0]) ==> |a| > 1 && a[|a| - 2].TLit?
    ensures QuietTokens(a + b)
  {
    hide Rounds;
    var ts := a + b;
    forall i | 0 <= i < |ts|
      ensures QuietAt(ts, i)
    {
      if i < |a| { assert QuietAt(a, i); } else { assert QuietAt(b, i - |a|); }
    }
  }

  lemma {:induction false} EndsToken(e: Ere)
    requires EndsInLit(e)
    ensures |Tokens(e)| > 0 && Tokens(e)[|Tokens(e)| - 1].TLit?
  {
    if e.Or? { EndsToken(e.r); }
  }

  lemma {:induction false} QuietBase(e: Ere)
    requires Starred(e) && Quiet(e)
    ensures Quiet(Base(e))
  {
    if e.body.Iter? { QuietBase(e.body); }
  }

  lemma {:induction false} PieceQuiet(e: Ere)
    requires Piece(e) && Quiet(e)
    ensures QuietTokens(Tokens(e)) && |Tokens(e)| > 0 && !Tokens(e)[0].TOps?
    decreases e, 1
  {
    hide Rounds;
    match e
    case Paren(body) =>
      TokensQuiet(body);
      QuietConcat([TOpen], Tokens(body));
      NoRound(TClose);
      QuietConcat([TOpen] + Tokens(body), [TClose]);
    case Iter(_, _) =>
      QuietBase(e);
      BaseFacts(e);
      PieceQuiet(Base(e));
      LoopQuiet(e);
      QuietConcat(Tokens(Base(e)), [TOps(Ops(e))]);
    case _ =>
  }

  lemma LoopQuiet(e: Ere)
    requires Starred(e) && Quiet(e) && Atom(Base(e))
    ensures var ts := Tokens(Base(e));
      |ts| > 0 && ts[|ts| - 1].TClose? && Rounds(TOps(Ops(e))) ==> |ts| > 1 && ts[|ts| - 2].TLit?
  {
    hide Ops, Collapse;
    if Base(e).Paren? && EndsInLit(Base(e).body) { EndsToken(Base(e).body); }
  }

  lemma {:induction false} BranchQuiet(e: Ere)
    requires Branch(e) && Quiet(e)
    ensures QuietTokens(Tokens(e))
    decreases e, 1
  {
    hide Rounds;
    if e.Then? {
      BranchQuiet(e.l);
      PieceQuiet(e.r);
      NoRound(Tokens(e.r)[0]);
      QuietConcat(Tokens(e.l), Tokens(e.r));
    }
  }

  lemma NoRound(t: Token)
    ensures !t.TOps? ==> !Rounds(t)
  {}

  lemma {:induction false} TokensQuiet(e: Ere)
    requires Alternatives(e) && Quiet(e)
    ensures QuietTokens(Tokens(e))
    decreases e, 2
  {
    hide Rounds;
    if e.Or? {
      BranchQuiet(e.l);
      TokensQuiet(e.r);
      NoRound(TBar);
      QuietConcat(Tokens(e.l), [TBar]);
      QuietConcat(Tokens(e.l) + [TBar], Tokens(e.r));
    } else {
      BranchQuiet(e);
    }
  }

  // ----- what is read of it -----

  predicate EndsExact(e: Re) {
    match e
    case Alt(_, r) => EndsExact(r)
    case Cat(_, r) => EndsExact(r)
    case Exact(_) => true
    case _ => false
  }

  predicate Calm(e: Re) {
    match e
    case Exact(cs) => START_MEMORY !in cs
    case Cat(l, r) => Calm(l) && Calm(r)
    case Alt(l, r) => Calm(l) && Calm(r)
    case Group(_, _, body) => Calm(body)
    case Repeat(op, body) => Calm(body) && (!op.Opt? && body.Group? ==> EndsExact(body.body))
    case _ => true
  }

  predicate CalmLevel(l: Level) {
    (forall a | a in l.alts :: Calm(a)) && Calm(l.front) && Calm(l.last)
  }

  /** Everything read is calm, with the token `prev` read last and `next` coming. */
  predicate CalmCtx(ctx: Ctx, prev: Option<Token>, next: Option<Token>) {
    && CalmLevel(ctx.cur) && (forall o | o in ctx.outer :: CalmLevel(o.level))
    && (prev.Some? && prev.value.TLit? ==> ctx.cur.last.Exact?)
    && (next.Some? && Rounds(next.value) && ctx.cur.last.Group? ==> EndsExact(ctx.cur.last.body))
  }

  lemma {:induction false} CalmAltOf(alts: seq<Re>, c: Re)
    requires (forall a | a in alts :: Calm(a)) && Calm(c) && c.Cat?
    ensures Calm(AltOf(alts, c)) && (EndsExact(AltOf(alts, c)) <==> EndsExact(c))
    decreases |alts|
  {
    if |alts| > 0 { CalmAltOf(alts[1..], c); }
  }

  /** One turn of the main loop. */
  lemma CalmRead(ctx: Ctx, prev: Option<Token>, t: Token, next: Option<Token>)
    requires CalmCtx(ctx, prev, Some(t)) && Read(ctx, t, next).Some? && t != TLit(START_MEMORY)
    requires t.TClose? && next.Some? && Rounds(next.value) ==> prev.Some? && prev.value.TLit?
    ensures CalmCtx(Read(ctx, t, next).value, Some(t), next)
  {
    hide Collapse, AltOf, Calm, EndsExact, CalmCtx, BranchRe;
    match t
    case TClose => CalmClose(ctx, prev, next);
    case TOpen => CalmOpen(ctx, prev, next);
    case TBar => CalmBar(ctx, prev, next);
    case TOps(ops) => CalmOps(ctx, prev, ops, next);
    case _ => CalmPlain(ctx, prev, t, next);
  }

  lemma CalmOpen(ctx: Ctx, prev: Option<Token>, next: Option<Token>)
    requires CalmCtx(ctx, prev, Some(TOpen)) && Read(ctx, TOpen, next).Some?
    ensures CalmCtx(Read(ctx, TOpen, next).value, Some(TOpen), next)
  {
    hide EndsExact, AltOf;
    var ctx' := Read(ctx, TOpen, next).value;
    forall o | o in ctx'.outer
      ensures CalmLevel(o.level)
    {}
  }

  lemma CalmBar(ctx: Ctx, prev: Option<Token>, next: Option<Token>)
    requires CalmCtx(ctx, prev, Some(TBar)) && Read(ctx, TBar, next).Some?
    ensures CalmCtx(Read(ctx, TBar, next).value, Some(TBar), next)
  {
    hide EndsExact, AltOf;
    CalmBranch(ctx.cur);
    var alts := ctx.cur.alts + [BranchRe(ctx.cur)];
    forall a | a in alts
      ensures Calm(a)
    {}
  }

  lemma CalmBranch(l: Level)
    requires CalmLevel(l)
    ensures Calm(BranchRe(l)) && Calm(Cat(BranchRe(l), Bol)) && Calm(Cat(BranchRe(l), Eol))
  {
    assert Calm(Bol) && Calm(Eol);
  }

  lemma CalmOps(ctx: Ctx, prev: Option<Token>, ops: seq<Op>, next: Option<Token>)
    requires CalmCtx(ctx, prev, Some(TOps(ops))) && Read(ctx, TOps(ops), next).Some?
    ensures CalmCtx(Read(ctx, TOps(ops), next).value, Some(TOps(ops)), next)
  {
    hide Collapse, AltOf, EndsExact;
    assert Rounds(TOps(ops)) <==> !Collapse(ops).Opt?;
  }

  lemma CalmPlain(ctx: Ctx, prev: Option<Token>, t: Token, next: Option<Token>)
    requires CalmCtx(ctx, prev, Some(t)) && Read(ctx, t, next).Some? && t != TLit(START_MEMORY)
    requires !t.TClose? && !t.TOpen? && !t.TBar? && !t.TOps?
    ensures CalmCtx(Read(ctx, t, next).value, Some(t), next)
  {
    hide Collapse, AltOf, EndsExact;
    CalmBranch(ctx.cur);
  }

  lemma CalmClose(ctx: Ctx, prev: Option<Token>, next: Option<Token>)
    requires CalmCtx(ctx, prev, Some(TClose)) && ReadClose(ctx).Some?
    requires next.Some? && Rounds(next.value) ==> prev.Some? && prev.value.TLit?
    ensures CalmCtx(ReadClose(ctx).value, Some(TClose), next)
  {
    hide AltOf, Rounds;
    CalmAltOf(ctx.cur.alts, BranchRe(ctx.cur));
    assert ctx.outer[|ctx.outer| - 1] in ctx.outer;
  }

  function Before(ts: seq<Token>, i: nat): Option<Token>
    requires i <= |ts|
  {
    if i == 0 then None else Some(ts[i - 1])
  }

  lemma {:induction false} CalmReadAll(ctx: Ctx, ts: seq<Token>, i: nat)
    requires i <= |ts| && QuietTokens(ts) && CalmCtx(ctx, Before(ts, i), First(ts[i..])) && ReadAll(ctx, ts[i..]).Some?
    ensures Calm(Body(ReadAll(ctx, ts[i..]).value))
    decreases |ts| - i
  {
    hide Read, Rounds;
    if i == |ts| {
      CalmAltOf(ctx.cur.alts, BranchRe(ctx.cur));
    } else {
      var t, rest := ts[i], ts[i + 1..];
      assert ts[i..][0] == t && ts[i..][1..] == rest && QuietAt(ts, i);
      CalmRead(ctx, Before(ts, i), t, First(rest));
      CalmReadAll(Read(ctx, t, First(rest)).value, ts, i + 1);
    }
  }

  // ----- the code -----

  lemma {:induction false} CalmInside(n: Re, e: Re)
    requires Inside(n, e) && Calm(e)
    ensures Calm(n)
  {
    if n != e {
      match e
      case Cat(l, r) => if Inside(n, l) { CalmInside(n, l); } else { CalmInside(n, r); }
      case Alt(l, r) => if Inside(n, l) { CalmInside(n, l); } else { CalmInside(n, r); }
      case Group(_, _, body) => CalmInside(n, body);
      case Repeat(_, body) => CalmInside(n, body);
    }
  }

  /** The last two bytes of code that ends in a literal. */
  lemma {:induction false} LastBytes(e: Re, code: seq<byte>, p: nat)
    requires LaidOut(e, code, p) && EndsExact(e) && Calm(e)
    ensures var q := p + Len(e);
      p + 2 <= q <= |code| && code[q - 1] != START_MEMORY && code[q - 2] != START_MEMORY
  {
    hide Fetch, LaidOut;
    match e
    case Alt(l, r) =>
      AltParts(code, p, e);
      LastBytes(r, code, p + 6 + Len(l));
    case Cat(l, r) =>
      CatLaidOut(l, r, code, p);
      LastBytes(r, code, p + Len(l));
    case Exact(cs) => LiteralBytes(cs, code, p);
  }

  lemma LiteralBytes(cs: seq<byte>, code: seq<byte>, p: nat)
    requires LaidOut(Exact(cs), code, p) && START_MEMORY !in cs
    ensures var q := p + 2 + |cs|;
      p + 3 <= q <= |code| && code[q - 1] != START_MEMORY && code[q - 2] != START_MEMORY
  {
    var n := |cs|;
    assert cs == code[p + 2..p + 2 + n];
    assert code[p + 2 + n - 1] == cs[n - 1];
    if n > 1 { assert code[p + 2 + n - 2] == cs[n - 2]; }
  }

  /** The byte looked at before the closing jump of a loop. */
  lemma CalmLoop(n: Re, code: seq<byte>, p: nat, x: nat)
    requires Fit(n) && Calm(n) && Starts(code, p) && LaidOut(n, code, p) && Owns(n, p, x + 3)
    requires Starts(code, x) && Fetch(code, x).StopMemory? && Fetch(code, x + 3).MaybePopJump?
    ensures x >= 2 && code[x - 2] != START_MEMORY
  {
    hide Fetch, Starts, Boundary, LaidOut, LoopAt;
    var t := ClosedLoop(n, code, p, x + 3);
    var body := n.body;
    LoopParts(body, code, t);
    if body.Group? {
      GroupParts(body, code, t + 3);
      LastBytes(body.body, code, t + 6);
    } else {
      LoopStarts(body, code, t);
      LeafByte(body, code, t + 3);
      Outside(code, t, x);
      Outside(code, t + 3, x);
      assert false;
    }
  }

  lemma CalmPeekSafe(e: Re, code: seq<byte>)
    requires Fit(e) && Calm(e) && LaidOut(e, code, 0) && Len(e) == |code|
    ensures PeekSafe(code)
  {
    hide Fetch, LaidOut, Starts, Fit, Calm;
    forall x: nat | Starts(code, x) && x >= 2 && Fetch(code, x).StopMemory? && Fetch(code, x + 3).MaybePopJump?
      ensures x <= |code| && code[x - 2] != START_MEMORY
    {
      CalmStop(e, code, x);
    }
  }

  lemma CalmStop(e: Re, code: seq<byte>, x: nat)
    requires Fit(e) && Calm(e) && LaidOut(e, code, 0) && Len(e) == |code|
    requires Starts(code, x) && Fetch(code, x).StopMemory? && Fetch(code, x + 3).MaybePopJump?
    ensures 2 <= x <= |code| && code[x - 2] != START_MEMORY
  {
    hide Fetch, LaidOut, Boundary, Fit, Calm, Owns, Starts, Len;
    StartAtZero(code);
    StartsNext(code, x);
    NoFetch(code);
    StartAtMost(code, x + 3);
    var n, p := Owner(e, code, 0, x + 3);
    InsideFit(n, e);
    CalmInside(n, e);
    CalmLoop(n, code, p, x);
  }

  /** The compiled form of a quiet expression is safe at every peek. */
  lemma QuietPeekSafe(e: Ere)
    requires Supported(e) && Quiet(e) && |CodeOf(e)| <= MAX_CODE
    ensures PeekSafe(CodeOf(e))
  {
    hide ReadAll, MeansSame, Quiet, Alternatives, QuietTokens, PeekSafe, LaidOut, Fit, Bytes, Framed;
    hide Numbered, After, Body, Calm;
    var final := ReadsWhole(e);
    TokensQuiet(e);
    CalmInit(First(Tokens(e)));
    assert Tokens(e)[0..] == Tokens(e);
    CalmReadAll(InitCtx(), Tokens(e), 0);
    CoreFacts(e);
    CalmPeekSafe(CoreOf(e), CodeOf(e));
  }

  lemma CalmInit(next: Option<Token>)
    ensures CalmCtx(InitCtx(), None, next)
  {}

  /** For a quiet expression with no high byte in a repeated set, what occurs in a
      text is what `regex_match` finds. */
  lemma FoundExactly(e: Ere, s: Subject)
    requires Supported(e) && Quiet(e) && LowSets(e) && |CodeOf(e)| <= MAX_CODE
    ensures Safe(CodeOf(e)) && (Finds(e, s) <==> Occurs(e, s))
  {
    hide Supported, CodeOf, Occurs, Posix.Finds, Quiet, LowSets, PeekSafe, PopSafe;
    QuietPeekSafe(e);
    LowSetsPopSafe(e);
    FindsOccurs(e, s);
  }
}
