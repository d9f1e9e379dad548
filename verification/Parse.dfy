/** What the one-pass compiler has read so far.

    A `Ctx` is the pattern between two turns of the compiler's main loop: the
    groups still open, and in each of them the alternatives finished and the
    branch being read, whose last expression a repetition would apply to.  Reading
    the tokens of an expression ends in a context that means the expression. */
module Parse {
  import opened Octets
  import opened RegexLang
  import opened Ere
  import opened Bitmap
  import opened Invariant
  import opened InvariantFacts
  import opened Codegen

  datatype Option<T> = None | Some(value: T)

  /** `front` is followed by `last`, the operand of a repetition; `pending` says
      that `last` is a literal that more bytes may join. */
  datatype Level = Level(alts: seq<Re>, front: Re, last: Re, pending: bool, base: nat)

  datatype Open = Open(level: Level, reg: nat)

  datatype Ctx = Ctx(outer: seq<Open>, cur: Level, regnum: nat)

  const MAX_REGNUM: nat := 255

  function BranchRe(l: Level): Re {
    Cat(l.front, l.last)
  }

  function AltOf(alts: seq<Re>, c: Re): Re {
    if |alts| == 0 then c else Alt(alts[0], AltOf(alts[1..], c))
  }

  /** The alternatives of the innermost open group, as one tree. */
  function Body(ctx: Ctx): Re {
    AltOf(ctx.cur.alts, BranchRe(ctx.cur))
  }

  function FreshLevel(base: nat): Level {
    Level([], Empty, Empty, false, base)
  }

  function InitCtx(): Ctx {
    Ctx([], FreshLevel(1), 0)
  }

  /** A new last expression. */
  function Append(l: Level, e: Re, pending: bool): Level {
    l.(front := BranchRe(l), last := e, pending := pending)
  }

  /** May the byte join the literal before it?  Not when the literal is full, and
      not when a repetition or `^` comes next. */
  predicate Joins(l: Level, next: Option<Token>) {
    && l.pending && l.last.Exact? && |l.last.cs| < 255
    && (next.Some? ==> !next.value.TOps? && !next.value.TCaret?)
  }

  /** The operand of a repetition: a group or a single byte. */
  predicate Operand(e: Re) {
    e.Group? || Single(e)
  }

  function ReadOps(ctx: Ctx, ops: seq<Op>, next: Option<Token>): Option<Ctx> {
    if |ops| > 0 && Operand(ctx.cur.last) && (next.Some? ==> !next.value.TOps?)
    then Some(ctx.(cur := ctx.cur.(last := Repeat(Collapse(ops), ctx.cur.last), pending := false)))
    else None
  }

  function ReadClose(ctx: Ctx): Option<Ctx> {
    if |ctx.outer| == 0 || ctx.regnum < ctx.outer[|ctx.outer| - 1].reg then None else
    var o := ctx.outer[|ctx.outer| - 1];
    var body := AltOf(ctx.cur.alts, BranchRe(ctx.cur));
    Some(ctx.(outer := ctx.outer[..|ctx.outer| - 1],
              cur := o.level.(last := Group(o.reg, ctx.regnum - o.reg, body), pending := false)))
  }

  /** One turn of the main loop, on the token `t` with `next` behind it. */
  function Read(ctx: Ctx, t: Token, next: Option<Token>): Option<Ctx> {
    var l := ctx.cur;
    match t
    case TLit(c) =>
      Some(ctx.(cur := if Joins(l, next) then l.(last := Exact(l.last.cs + [c]))
                       else Append(l, Exact([c]), true)))
    case TDot => Some(ctx.(cur := Append(l, Any, false)))
    case TBrackets(neg, items) => Some(ctx.(cur := Append(l, Charset(neg, MapOf(items)), false)))
    case TCaret => Some(ctx.(cur := l.(front := Cat(BranchRe(l), Bol), last := Empty, pending := false)))
    case TDollar => Some(ctx.(cur := l.(front := Cat(BranchRe(l), Eol), last := Empty, pending := false)))
    case TOps(ops) => ReadOps(ctx, ops, next)
    case TOpen =>
      if ctx.regnum >= MAX_REGNUM then None else
      var l' := l.(front := BranchRe(l), last := Empty, pending := false);
      Some(Ctx(ctx.outer + [Open(l', ctx.regnum + 1)], FreshLevel(ctx.regnum + 2), ctx.regnum + 1))
    case TClose => ReadClose(ctx)
    case TBar =>
      Some(ctx.(cur := l.(alts := l.alts + [BranchRe(l)], front := Empty, last := Empty, pending := false)))
  }

  function First(ts: seq<Token>): Option<Token> {
    if |ts| == 0 then None else Some(ts[0])
  }

  function ReadAll(ctx: Ctx, ts: seq<Token>): Option<Ctx>
    decreases |ts|
  {
    if |ts| == 0 then Some(ctx) else
    match Read(ctx, ts[0], First(ts[1..]))
    case None => None
    case Some(ctx') => ReadAll(ctx', ts[1..])
  }

  // ----- reading an expression -----

  ghost predicate MeansSame(r: Re, e: Ere) {
    forall s: Subject, i: nat, j: nat :: Match(r, s, i, j) <==> Means(e, s, i, j)
  }

  /** `r'` is `r` and then `e`. */
  ghost predicate Follows(r': Re, r: Re, e: Ere) {
    forall s: Subject, i: nat, j: nat ::
      Match(r', s, i, j) <==> InTurn(r, e, s, i, j)
  }

  /** `r` and then `e` take `i` to `j`. */
  ghost predicate InTurn(r: Re, e: Ere, s: Subject, i: nat, j: nat) {
    exists m: nat :: Match(r, s, i, m) && Means(e, s, m, j)
  }

  ghost predicate AnyOf(alts: seq<Re>, s: Subject, i: nat, j: nat) {
    exists k | 0 <= k < |alts| :: Match(alts[k], s, i, j)
  }

  /** Groups an expression opens. */
  function Parens(e: Ere): nat {
    match e
    case Then(l, r) => Parens(l) + Parens(r)
    case Or(l, r) => Parens(l) + Parens(r)
    case Paren(body) => 1 + Parens(body)
    case Iter(body, _) => Parens(body)
    case _ => 0
  }

  lemma {:induction false} BaseFacts(e: Ere)
    requires Starred(e)
    ensures e.Iter? && Atom(Base(e)) && Parens(Base(e)) == Parens(e) && |Ops(e)| > 0
  {
    if e.body.Iter? { BaseFacts(e.body); } else { assert Base(e.body) == e.body; }
  }

  lemma TokensNotOps(e: Ere)
    requires Atom(e)
    ensures |Tokens(e)| > 0 && !Tokens(e)[0].TOps?
  {}

  /** What reading an atom does: it becomes the last expression, unless it is a
      byte that joins the literal before it. */
  ghost predicate AtomRead(l: Level, l': Level, e: Ere, joined: bool) {
    && l'.alts == l.alts && l'.base == l.base
    && (if joined then e.Lit? && Follows(BranchRe(l'), BranchRe(l), e)
        else
          && l'.front == BranchRe(l) && MeansSame(l'.last, e) && (l'.last.Group? || Single(l'.last))
          && (l'.last.Charset? ==> e.Brackets? && l'.last == Charset(e.neg, MapOf(e.items))))
  }

  lemma CatParts(l: Re, r: Re, s: Subject, i: nat, j: nat) returns (k: nat)
    requires Match(Cat(l, r), s, i, j)
    ensures Match(l, s, i, k) && Match(r, s, k, j)
  {
    k :| Match(l, s, i, k) && Match(r, s, k, j);
  }

  lemma CatJoin(l: Re, r: Re, s: Subject, i: nat, k: nat, j: nat)
    requires Match(l, s, i, k) && Match(r, s, k, j)
    ensures Match(Cat(l, r), s, i, j)
  {
    MatchBounds(l, s, i, k);
    MatchBounds(r, s, k, j);
  }

  lemma ThenJoin(l: Ere, r: Ere, s: Subject, i: nat, k: nat, j: nat)
    requires Means(l, s, i, k) && Means(r, s, k, j)
    ensures Means(Then(l, r), s, i, j)
  {
    MeansBounds(l, s, i, k);
    MeansBounds(r, s, k, j);
  }

  lemma MatchBounds(r: Re, s: Subject, i: nat, j: nat)
    requires Match(r, s, i, j)
    ensures i <= j <= |s.text|
  {}

  lemma MeansBounds(e: Ere, s: Subject, i: nat, j: nat)
    requires Means(e, s, i, j)
    ensures i <= j <= |s.text|
  {}

  lemma ThenParts(l: Ere, r: Ere, s: Subject, i: nat, j: nat) returns (k: nat)
    requires Means(Then(l, r), s, i, j)
    ensures Means(l, s, i, k) && Means(r, s, k, j)
  {
    k :| Means(l, s, i, k) && Means(r, s, k, j);
  }

  lemma LitMeans(c: byte)
    ensures MeansSame(Exact([c]), Lit(c))
  {
    forall s: Subject, i: nat, j: nat
      ensures Match(Exact([c]), s, i, j) <==> Means(Lit(c), s, i, j)
    {
      if i <= j <= |s.text| && j == i + 1 { assert s.text[i..j] == [s.text[i]]; }
    }
  }

  /** One more byte at the end of a literal. */
  lemma ExactSnoc(cs: seq<byte>, c: byte, s: Subject, k: nat, j: nat)
    ensures Match(Exact(cs + [c]), s, k, j) <==>
      j > 0 && Match(Exact(cs), s, k, j - 1) && Means(Lit(c), s, j - 1, j)
  {
    if k < j <= |s.text| {
      assert s.text[k..j] == s.text[k..j - 1] + [s.text[j - 1]];
      if s.text[k..j] == cs + [c] {
        assert |s.text[k..j - 1]| == |cs|;
        assert s.text[k..j - 1] == s.text[k..j][..|cs|] == cs;
        assert s.text[j - 1] == s.text[k..j][|cs|] == c;
      }
    }
  }

  lemma JoinMeans(l: Level, c: byte)
    requires l.last.Exact?
    ensures Follows(BranchRe(l.(last := Exact(l.last.cs + [c]))), BranchRe(l), Lit(c))
  {
    hide Match, Means;
    var cs := l.last.cs;
    var r, r' := BranchRe(l), BranchRe(l.(last := Exact(cs + [c])));
    forall s: Subject, i: nat, j: nat
      ensures Match(r', s, i, j) <==> InTurn(r, Lit(c), s, i, j)
    {
      if Match(r', s, i, j) {
        var k := CatParts(l.front, Exact(cs + [c]), s, i, j);
        ExactSnoc(cs, c, s, k, j);
        CatJoin(l.front, l.last, s, i, k, j - 1);
      }
      if m: nat :| Match(r, s, i, m) && Means(Lit(c), s, m, j) {
        var k := CatParts(l.front, l.last, s, i, m);
        LitLength(c, s, m, j);
        ExactSnoc(cs, c, s, k, j);
        CatJoin(l.front, Exact(cs + [c]), s, i, k, j);
      }
    }
  }

  lemma LitLength(c: byte, s: Subject, i: nat, j: nat)
    requires Means(Lit(c), s, i, j)
    ensures j == i + 1
  {}

  lemma BracketsMean(neg: bool, items: seq<Item>)
    ensures MeansSame(Charset(neg, MapOf(items)), Brackets(neg, items))
  {
    forall x: byte
      ensures InMap(MapOf(items), x) <==> Listed(items, x)
    {
      MapOfLists(items, x);
    }
  }

  lemma FollowsAppend(r: Re, x: Re, e: Ere)
    requires MeansSame(x, e)
    ensures Follows(Cat(r, x), r, e)
  {
    hide Match, Means;
    forall s: Subject, i: nat, j: nat
      ensures Match(Cat(r, x), s, i, j) <==> InTurn(r, e, s, i, j)
    {
      if Match(Cat(r, x), s, i, j) {
        var m := CatParts(r, x, s, i, j);
        assert Match(r, s, i, m) && Means(e, s, m, j);
      }
      if m: nat :| Match(r, s, i, m) && Means(e, s, m, j) {
        CatJoin(r, x, s, i, m, j);
      }
    }
  }

  lemma FollowsEmpty(r: Re, x: Re, e: Ere)
    requires Follows(x, r, e)
    ensures Follows(Cat(x, Empty), r, e)
  {
    hide Match, InTurn;
    forall s: Subject, i: nat, j: nat
      ensures Match(Cat(x, Empty), s, i, j) <==> InTurn(r, e, s, i, j)
    {
      CatWithEmpty(x, s, i, j);
    }
  }

  lemma CatWithEmpty(x: Re, s: Subject, i: nat, j: nat)
    ensures Match(Cat(x, Empty), s, i, j) <==> Match(x, s, i, j)
  {
    if Match(x, s, i, j) {
      MatchBounds(x, s, i, j);
      assert Match(Empty, s, j, j);
    }
  }

  lemma FollowsThen(r: Re, r1: Re, r2: Re, l: Ere, p: Ere)
    requires Follows(r1, r, l) && Follows(r2, r1, p)
    ensures Follows(r2, r, Then(l, p))
  {
    hide Match, Means, InTurn;
    forall s: Subject, i: nat, j: nat
      ensures Match(r2, s, i, j) <==> InTurn(r, Then(l, p), s, i, j)
    {
      if InTurn(r1, p, s, i, j) { ThenOneWay(r, r1, l, p, s, i, j); }
      if InTurn(r, Then(l, p), s, i, j) { ThenOtherWay(r, r1, l, p, s, i, j); }
    }
  }

  lemma ThenOneWay(r: Re, r1: Re, l: Ere, p: Ere, s: Subject, i: nat, j: nat)
    requires Follows(r1, r, l) && InTurn(r1, p, s, i, j)
    ensures InTurn(r, Then(l, p), s, i, j)
  {
    hide Match, Means;
    var k: nat :| Match(r1, s, i, k) && Means(p, s, k, j);
    assert InTurn(r, l, s, i, k);
    var m: nat :| Match(r, s, i, m) && Means(l, s, m, k);
    ThenJoin(l, p, s, m, k, j);
  }

  lemma ThenOtherWay(r: Re, r1: Re, l: Ere, p: Ere, s: Subject, i: nat, j: nat)
    requires Follows(r1, r, l) && InTurn(r, Then(l, p), s, i, j)
    ensures InTurn(r1, p, s, i, j)
  {
    hide Match, Means;
    var m: nat :| Match(r, s, i, m) && Means(Then(l, p), s, m, j);
    var k := ThenParts(l, p, s, m, j);
    assert InTurn(r, l, s, i, k);
  }

  lemma AnchorMeans(e: Ere)
    requires e.Caret? || e.Dollar?
    ensures MeansSame(if e.Caret? then Bol else Eol, e)
  {}

  /** A repetition of what means the same means the same. */
  lemma RepeatMeans(r: Re, e: Ere)
    requires Starred(e) && MeansSame(r, Base(e))
    ensures |Ops(e)| > 0 && MeansSame(Repeat(Collapse(Ops(e)), r), e)
  {
    hide Match, Means;
    BaseFacts(e);
    var op := Collapse(Ops(e));
    forall s: Subject, i: nat, j: nat
      ensures Match(Repeat(op, r), s, i, j) <==> Means(e, s, i, j)
    {
      CollapseMeans(e, s, i, j);
      RepeatIter(op, r, Base(e), s, i, j);
    }
  }

  lemma RepeatIter(op: Op, r: Re, e: Ere, s: Subject, i: nat, j: nat)
    requires MeansSame(r, e)
    ensures Match(Repeat(op, r), s, i, j) <==> Means(Iter(e, op), s, i, j)
  {
    forall n: nat
      ensures Power(r, s, n, i, j) <==> Times(e, s, n, i, j)
    {
      PowerTimes(r, e, s, n, i, j);
    }
    hide MeansSame;
  }

  lemma {:induction false} PowerTimes(r: Re, e: Ere, s: Subject, n: nat, i: nat, j: nat)
    requires MeansSame(r, e)
    ensures Power(r, s, n, i, j) <==> Times(e, s, n, i, j)
    decreases n
  {
    if n > 0 {
      var m := n - 1;
      forall k: nat
        ensures Power(r, s, m, k, j) <==> Times(e, s, m, k, j)
      {
        PowerTimes(r, e, s, m, k, j);
      }
    }
  }

  lemma AltMeans(l: Re, r: Re, s: Subject, i: nat, j: nat)
    ensures Match(Alt(l, r), s, i, j) <==> Match(l, s, i, j) || Match(r, s, i, j)
  {
    var e := Alt(l, r);
    assert Match(e, s, i, j) <==> i <= j <= |s.text| && (Match(e.l, s, i, j) || Match(e.r, s, i, j));
    hide Match;
    if Match(l, s, i, j) { MatchBounds(l, s, i, j); }
    if Match(r, s, i, j) { MatchBounds(r, s, i, j); }
  }

  lemma {:induction false} AltOfMeans(alts: seq<Re>, c: Re, s: Subject, i: nat, j: nat)
    ensures Match(AltOf(alts, c), s, i, j) <==> AnyOf(alts, s, i, j) || Match(c, s, i, j)
    decreases |alts|
  {
    hide InMap, Power;
    if |alts| > 0 {
      AltOfMeans(alts[1..], c, s, i, j);
      AltMeans(alts[0], AltOf(alts[1..], c), s, i, j);
      hide Match;
      if k :| 0 <= k < |alts| && Match(alts[k], s, i, j) {
        if k > 0 { assert alts[1..][k - 1] == alts[k]; }
      }
      if k :| 0 <= k < |alts[1..]| && Match(alts[1..][k], s, i, j) {
        assert alts[1..][k] == alts[k + 1];
      }
    }
  }

  lemma AnyOfSnoc(alts: seq<Re>, a: Re, s: Subject, i: nat, j: nat)
    ensures AnyOf(alts + [a], s, i, j) <==> AnyOf(alts, s, i, j) || Match(a, s, i, j)
  {
    if k :| 0 <= k < |alts| && Match(alts[k], s, i, j) { assert (alts + [a])[k] == alts[k]; }
    if Match(a, s, i, j) { assert (alts + [a])[|alts|] == a; }
  }

  // ----- whole expressions -----

  /** Reading kept the surroundings and opened `n` groups. */
  ghost predicate SameAround(ctx: Ctx, ctx': Ctx, n: nat) {
    ctx'.outer == ctx.outer && ctx'.cur.base == ctx.cur.base && ctx'.regnum == ctx.regnum + n
  }

  ghost predicate NoOpsAhead(rest: seq<Token>) {
    |rest| > 0 ==> !rest[0].TOps?
  }

  lemma ReadOne(ctx: Ctx, t: Token, rest: seq<Token>)
    requires Read(ctx, t, First(rest)).Some?
    ensures ReadAll(ctx, [t] + rest) == ReadAll(Read(ctx, t, First(rest)).value, rest)
  {
    hide Read;
    assert ([t] + rest)[1..] == rest;
  }

  lemma OwnTokens(e: Ere)
    ensures match e
            case Then(l, r) => Tokens(e) == Tokens(l) + Tokens(r)
            case Or(l, r) => Tokens(e) == Tokens(l) + [TBar] + Tokens(r)
            case Paren(body) => Tokens(e) == [TOpen] + Tokens(body) + [TClose]
            case Iter(_, _) => Tokens(e) == Tokens(Base(e)) + [TOps(Ops(e))]
            case Nothing => Tokens(e) == []
            case _ => |Tokens(e)| == 1 && !Tokens(e)[0].TOps?
  {}

  lemma HeadOfBoth(a: seq<Token>, b: seq<Token>)
    requires NoOpsAhead(a) && (a == [] ==> NoOpsAhead(b))
    ensures NoOpsAhead(a + b)
  {
    assert a == [] ==> a + b == b;
  }

  lemma {:induction false} HeadNotOps(e: Ere)
    requires Alternatives(e) || Piece(e)
    ensures NoOpsAhead(Tokens(e))
    decreases e
  {
    hide Tokens;
    OwnTokens(e);
    match e
    case Then(l, r) =>
      HeadNotOps(l);
      HeadNotOps(r);
      HeadOfBoth(Tokens(l), Tokens(r));
    case Or(l, r) =>
      HeadNotOps(l);
      HeadOfBoth(Tokens(l), [TBar]);
      HeadOfBoth(Tokens(l) + [TBar], Tokens(r));
    case Paren(body) =>
      HeadOfBoth([TOpen], Tokens(body));
      HeadOfBoth([TOpen] + Tokens(body), [TClose]);
    case Iter(_, _) =>
      BaseFacts(e);
      TokensNotOps(Base(e));
      HeadOfBoth(Tokens(Base(e)), [TOps(Ops(e))]);
    case _ =>
  }

  lemma {:induction false} ReadAtom(ctx: Ctx, e: Ere, rest: seq<Token>) returns (ctx': Ctx, joined: bool)
    requires Atom(e) && Piece(e) && ctx.regnum + Parens(e) <= MAX_REGNUM
    ensures ReadAll(ctx, Tokens(e) + rest) == ReadAll(ctx', rest)
    ensures SameAround(ctx, ctx', Parens(e)) && AtomRead(ctx.cur, ctx'.cur, e, joined)
    ensures !NoOpsAhead(rest) ==> !joined
    decreases e, 0
  {
    hide MeansSame, Follows, ReadAll, Match, Means;
    joined := false;
    match e
    case Lit(c) =>
      ReadOne(ctx, TLit(c), rest);
      ctx' := Read(ctx, TLit(c), First(rest)).value;
      joined := Joins(ctx.cur, First(rest));
      if joined { JoinMeans(ctx.cur, c); } else { LitMeans(c); }
    case Dot =>
      ReadOne(ctx, TDot, rest);
      ctx' := Read(ctx, TDot, First(rest)).value;
      DotMeans();
    case Brackets(neg, items) =>
      ReadOne(ctx, TBrackets(neg, items), rest);
      ctx' := Read(ctx, TBrackets(neg, items), First(rest)).value;
      BracketsMean(neg, items);
    case Paren(body) =>
      ctx' := ReadParen(ctx, body, rest);
  }

  lemma DotMeans()
    ensures MeansSame(Any, Dot)
  {}

  lemma {:induction false} ReadParen(ctx: Ctx, body: Ere, rest: seq<Token>) returns (ctx': Ctx)
    requires Alternatives(body) && ctx.regnum + Parens(body) < MAX_REGNUM
    ensures ReadAll(ctx, [TOpen] + Tokens(body) + [TClose] + rest) == ReadAll(ctx', rest)
    ensures SameAround(ctx, ctx', Parens(body) + 1) && AtomRead(ctx.cur, ctx'.cur, Paren(body), false)
    ensures ctx'.cur.alts == ctx.cur.alts && (body.Or? ==> ctx'.cur.last.Group? && ctx'.cur.last.body.Alt?)
    decreases body, 4
  {
    hide Follows, ReadAll, Match, Means, MeansSame, AltsMean, AltOf, BranchRe, Tokens;
    var ts := Tokens(body) + ([TClose] + rest);
    assert [TOpen] + Tokens(body) + [TClose] + rest == [TOpen] + ts;
    ReadOne(ctx, TOpen, ts);
    var ctx1 := Read(ctx, TOpen, First(ts)).value;
    var ctx2 := ReadAlternatives(ctx1, body, [TClose] + rest);
    assert ctx2.outer[..|ctx2.outer| - 1] == ctx.outer;
    ReadOne(ctx2, TClose, rest);
    ctx' := Read(ctx2, TClose, First(rest)).value;
    GroupMeans(ctx1, ctx2, body, ctx'.cur.last);
    SomeAlts(ctx2.cur.alts, BranchRe(ctx2.cur));
  }

  lemma SomeAlts(alts: seq<Re>, c: Re)
    ensures |alts| > 0 ==> AltOf(alts, c).Alt?
  {}

  lemma GroupMeans(ctx1: Ctx, ctx2: Ctx, body: Ere, r: Re)
    requires ctx1.cur.alts == [] && r.Group? && r.body == AltOf(ctx2.cur.alts, BranchRe(ctx2.cur))
    requires AltsMean(ctx1.cur, ctx2.cur, body)
    ensures MeansSame(r, Paren(body))
  {
    forall s: Subject, i: nat, j: nat
      ensures Match(r, s, i, j) <==> Means(Paren(body), s, i, j)
    {
      AltOfMeans(ctx2.cur.alts, BranchRe(ctx2.cur), s, i, j);
      assert AltsOrBranch(ctx2.cur, s, i, j) <==> AnyOf([], s, i, j) || Means(body, s, i, j);
      GroupMatch(r, s, i, j);
      ParenMeans(body, s, i, j);
    }
  }

  lemma GroupMatch(r: Re, s: Subject, i: nat, j: nat)
    requires r.Group?
    ensures Match(r, s, i, j) <==> Match(r.body, s, i, j)
  {
    if Match(r.body, s, i, j) { MatchBounds(r.body, s, i, j); }
  }

  lemma ParenMeans(body: Ere, s: Subject, i: nat, j: nat)
    ensures Means(Paren(body), s, i, j) <==> Means(body, s, i, j)
  {
    if Means(body, s, i, j) { MeansBounds(body, s, i, j); }
  }

  ghost predicate AltsOrBranch(l: Level, s: Subject, i: nat, j: nat) {
    AnyOf(l.alts, s, i, j) || Match(BranchRe(l), s, i, j)
  }

  /** Reading alternatives from a fresh branch adds their meaning to the level's. */
  ghost predicate AltsMean(l: Level, l': Level, e: Ere) {
    forall s: Subject, i: nat, j: nat ::
      AltsOrBranch(l', s, i, j) <==> AnyOf(l.alts, s, i, j) || Means(e, s, i, j)
  }

  lemma {:induction false} ReadPiece(ctx: Ctx, e: Ere, rest: seq<Token>) returns (ctx': Ctx)
    requires Piece(e) && ctx.regnum + Parens(e) <= MAX_REGNUM && NoOpsAhead(rest)
    ensures ReadAll(ctx, Tokens(e) + rest) == ReadAll(ctx', rest)
    ensures SameAround(ctx, ctx', Parens(e)) && ctx'.cur.alts == ctx.cur.alts
    ensures Follows(BranchRe(ctx'.cur), BranchRe(ctx.cur), e)
    decreases e, 2
  {
    hide MeansSame, Follows, ReadAll, Match, Means;
    if e.Caret? || e.Dollar? {
      ctx' := ReadAnchor(ctx, e, rest);
    } else if e.Iter? {
      ctx' := ReadIter(ctx, e, rest);
    } else {
      var joined;
      ctx', joined := ReadAtom(ctx, e, rest);
      if !joined { FollowsAppend(BranchRe(ctx.cur), ctx'.cur.last, e); }
    }
  }

  lemma ReadAnchor(ctx: Ctx, e: Ere, rest: seq<Token>) returns (ctx': Ctx)
    requires e.Caret? || e.Dollar?
    ensures ReadAll(ctx, Tokens(e) + rest) == ReadAll(ctx', rest)
    ensures SameAround(ctx, ctx', 0) && ctx'.cur.alts == ctx.cur.alts
    ensures Follows(BranchRe(ctx'.cur), BranchRe(ctx.cur), e)
  {
    hide MeansSame, Follows, ReadAll, Match, Means;
    var t := if e.Caret? then TCaret else TDollar;
    var r := BranchRe(ctx.cur);
    var x := if e.Caret? then Bol else Eol;
    ReadOne(ctx, t, rest);
    ctx' := Read(ctx, t, First(rest)).value;
    AnchorMeans(e);
    FollowsAppend(r, x, e);
    FollowsEmpty(r, Cat(r, x), e);
  }

  lemma {:induction false} ReadIter(ctx: Ctx, e: Ere, rest: seq<Token>) returns (ctx': Ctx)
    requires Starred(e) && Piece(Base(e)) && ctx.regnum + Parens(e) <= MAX_REGNUM
    requires NoOpsAhead(rest)
    ensures ReadAll(ctx, Tokens(e) + rest) == ReadAll(ctx', rest)
    ensures SameAround(ctx, ctx', Parens(e)) && ctx'.cur.alts == ctx.cur.alts
    ensures Follows(BranchRe(ctx'.cur), BranchRe(ctx.cur), e)
    decreases e, 1
  {
    hide MeansSame, Follows, ReadAll, Match, Means, Base, Ops, Collapse, AltOf, MapOf, Tokens, Piece, Starred;
    BaseFacts(e);
    IterTokens(e, rest);
    var t := TOps(Ops(e));
    var ctx1, joined := ReadAtom(ctx, Base(e), [t] + rest);
    assert !joined;
    ReadOne(ctx1, t, rest);
    ctx' := Read(ctx1, t, First(rest)).value;
    RepeatMeans(ctx1.cur.last, e);
    FollowsAppend(BranchRe(ctx.cur), ctx'.cur.last, e);
  }

  lemma IterTokens(e: Ere, rest: seq<Token>)
    requires e.Iter?
    ensures Tokens(e) + rest == Tokens(Base(e)) + ([TOps(Ops(e))] + rest)
  {
    hide Base, Ops;
  }

  lemma {:induction false} ReadBranch(ctx: Ctx, e: Ere, rest: seq<Token>) returns (ctx': Ctx)
    requires Branch(e) && ctx.regnum + Parens(e) <= MAX_REGNUM && NoOpsAhead(rest)
    ensures ReadAll(ctx, Tokens(e) + rest) == ReadAll(ctx', rest)
    ensures SameAround(ctx, ctx', Parens(e)) && ctx'.cur.alts == ctx.cur.alts
    ensures Follows(BranchRe(ctx'.cur), BranchRe(ctx.cur), e)
    decreases e, 2
  {
    hide MeansSame, Follows, ReadAll, Match, Means;
    match e
    case Nothing =>
      assert Tokens(e) + rest == rest;
      ctx' := ctx;
      FollowsNothing(BranchRe(ctx.cur));
    case Then(l, p) =>
      HeadNotOps(p);
      assert Tokens(e) + rest == Tokens(l) + (Tokens(p) + rest);
      var ctx1 := ReadBranch(ctx, l, Tokens(p) + rest);
      ctx' := ReadPiece(ctx1, p, rest);
      FollowsThen(BranchRe(ctx.cur), BranchRe(ctx1.cur), BranchRe(ctx'.cur), l, p);
  }

  lemma FollowsNothing(r: Re)
    ensures Follows(r, r, Nothing)
  {
    forall s: Subject, i: nat, j: nat
      ensures Match(r, s, i, j) <==> InTurn(r, Nothing, s, i, j)
    {
      if Match(r, s, i, j) {
        MatchBounds(r, s, i, j);
        assert Means(Nothing, s, j, j);
      }
    }
  }

  lemma EmptyBranch(s: Subject, i: nat, m: nat)
    ensures Match(Cat(Empty, Empty), s, i, m) <==> i == m <= |s.text|
  {
    if Match(Cat(Empty, Empty), s, i, m) {
      var k := CatParts(Empty, Empty, s, i, m);
    }
    if i == m <= |s.text| { CatJoin(Empty, Empty, s, i, i, i); }
  }

  lemma FromEmpty(l: Level, r: Re, e: Ere)
    requires l.front == Empty && l.last == Empty && Follows(r, BranchRe(l), e)
    ensures MeansSame(r, e)
  {
    hide Match, Means;
    forall s: Subject, i: nat, j: nat
      ensures Match(r, s, i, j) <==> Means(e, s, i, j)
    {
      EmptyBranch(s, i, i);
      if InTurn(BranchRe(l), e, s, i, j) {
        var m: nat :| Match(BranchRe(l), s, i, m) && Means(e, s, m, j);
        EmptyBranch(s, i, m);
      }
      if Means(e, s, i, j) {
        MeansBounds(e, s, i, j);
      }
    }
  }

  lemma {:induction false} ReadAlternatives(ctx: Ctx, e: Ere, rest: seq<Token>) returns (ctx': Ctx)
    requires Alternatives(e) && ctx.regnum + Parens(e) <= MAX_REGNUM && NoOpsAhead(rest)
    requires ctx.cur.front == Empty && ctx.cur.last == Empty
    ensures ReadAll(ctx, Tokens(e) + rest) == ReadAll(ctx', rest)
    ensures SameAround(ctx, ctx', Parens(e)) && AltsMean(ctx.cur, ctx'.cur, e)
    ensures |ctx.cur.alts| <= |ctx'.cur.alts| && (e.Or? ==> |ctx.cur.alts| < |ctx'.cur.alts|)
    decreases e, 3
  {
    hide MeansSame, Follows, ReadAll, Match, Means, AltsMean;
    if e.Or? {
      var l, r := e.l, e.r;
      var ts := Tokens(r) + rest;
      assert Tokens(e) + rest == Tokens(l) + ([TBar] + ts);
      var ctx1 := ReadBranch(ctx, l, [TBar] + ts);
      ReadOne(ctx1, TBar, ts);
      var ctx2 := Read(ctx1, TBar, First(ts)).value;
      ctx' := ReadAlternatives(ctx2, r, rest);
      FromEmpty(ctx.cur, BranchRe(ctx1.cur), l);
      OrMeans(ctx.cur, ctx1.cur, ctx2.cur, ctx'.cur, l, r);
    } else {
      ctx' := ReadBranch(ctx, e, rest);
      FromEmpty(ctx.cur, BranchRe(ctx'.cur), e);
      BranchMeans(ctx.cur, ctx'.cur, e);
    }
  }

  lemma BranchMeans(l: Level, l': Level, e: Ere)
    requires l'.alts == l.alts && MeansSame(BranchRe(l'), e)
    ensures AltsMean(l, l', e)
  {}

  lemma OrMeans(l0: Level, l1: Level, l2: Level, l3: Level, a: Ere, b: Ere)
    requires l1.alts == l0.alts && MeansSame(BranchRe(l1), a)
    requires l2.alts == l1.alts + [BranchRe(l1)] && AltsMean(l2, l3, b)
    ensures AltsMean(l0, l3, Or(a, b))
  {
    hide Match, AnyOf;
    forall s: Subject, i: nat, j: nat
      ensures AltsOrBranch(l3, s, i, j) <==> AnyOf(l0.alts, s, i, j) || Means(Or(a, b), s, i, j)
    {
      AnyOfSnoc(l1.alts, BranchRe(l1), s, i, j);
      OrParts(a, b, s, i, j);
    }
  }

  lemma OrParts(a: Ere, b: Ere, s: Subject, i: nat, j: nat)
    ensures Means(Or(a, b), s, i, j) <==> Means(a, s, i, j) || Means(b, s, i, j)
  {
    var e := Or(a, b);
    assert Means(e, s, i, j) <==> i <= j <= |s.text| && (Means(e.l, s, i, j) || Means(e.r, s, i, j));
    hide Means;
    if Means(a, s, i, j) { MeansBounds(a, s, i, j); }
    if Means(b, s, i, j) { MeansBounds(b, s, i, j); }
  }
}
