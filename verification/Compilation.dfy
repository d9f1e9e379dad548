/** Compiling the spelling of an expression: the whole of `regex_compile`.

    A spelled expression is read without error, and the code written, when it fits
    sixteen-bit jumps, means what the expression means. */
module Compilation {
  import opened Octets
  import opened RegexLang
  import opened Bytecode
  import opened Codegen
  import opened CodeBuffer
  import opened CodeSize
  import opened Ere
  import opened Invariant
  import opened InvariantFacts
  import opened MatchTheorem
  import opened Forks
  import opened Parse
  import opened ParseOk
  import opened Compiler

  /** The expressions of the fragment: written by the grammar, at most 255 groups. */
  ghost predicate Supported(e: Ere) {
    Alternatives(e) && Parens(e) <= MAX_REGNUM
  }

  lemma {:induction false} BranchTokens(e: Ere)
    requires Branch(e)
    ensures TokensOk(Tokens(e))
    decreases e, 1
  {
    if e.Then? {
      BranchTokens(e.l);
      PieceTokens(e.r);
    }
  }

  lemma {:induction false} PieceTokens(e: Ere)
    requires Piece(e)
    ensures TokensOk(Tokens(e))
    decreases e, 1
  {
    match e
    case Paren(body) => SpelledTokens(body);
    case Iter(_, _) =>
      BaseFacts(e);
      PieceTokens(Base(e));
    case _ =>
  }

  /** Every token of an expression can be written and read back. */
  lemma {:induction false} SpelledTokens(e: Ere)
    requires Alternatives(e)
    ensures TokensOk(Tokens(e))
    decreases e, 2
  {
    if e.Or? {
      BranchTokens(e.l);
      SpelledTokens(e.r);
    } else {
      BranchTokens(e);
    }
  }

  /** Reading the tokens of `e` from the start gives a tree with the meaning of
      `e` and fit to be compiled, all groups closed. */
  lemma ReadsWhole(e: Ere) returns (final: Ctx)
    requires Supported(e)
    ensures ReadAll(InitCtx(), Tokens(e)) == Some(final)
    ensures final.outer == [] && final.regnum == Parens(e)
    ensures MeansSame(Body(final), e)
    ensures PartOk(Body(final)) && Numbered(Body(final), 1) && After(Body(final), 1) <= final.regnum + 1
  {
    hide ReadAll, AltsMean, MeansSame, Match, Means, CtxOk;
    assert Tokens(e) + [] == Tokens(e);
    final := ReadAlternatives(InitCtx(), e, []);
    ReadAllDone(final);
    InitOk();
    ReadAllOk(InitCtx(), Tokens(e));
    LevelOfFinal(final);
    TreeMeans(final, e);
  }

  lemma ReadAllDone(ctx: Ctx)
    ensures ReadAll(ctx, []) == Some(ctx)
  {}

  lemma ReadStep(ctx: Ctx, t: Token, rest: seq<Token>, ctx': Ctx)
    requires Read(ctx, t, First(rest)) == Some(ctx')
    ensures ReadAll(ctx, [t] + rest) == ReadAll(ctx', rest)
  {
    hide Read;
    assert ([t] + rest)[1..] == rest;
  }

  /** What is in front of the first piece read. */
  const NOTHING: Re := Cat(Empty, Empty)

  lemma LevelOfFinal(final: Ctx)
    requires CtxOk(final) && final.outer == [] && final.cur.base == 1
    ensures PartOk(Body(final)) && Numbered(Body(final), 1) && After(Body(final), 1) <= final.regnum + 1
  {
    LevelBodyOk(final.cur, final.regnum + 1);
  }

  lemma TreeMeans(final: Ctx, e: Ere)
    requires AltsMean(InitCtx().cur, final.cur, e)
    ensures MeansSame(Body(final), e)
  {
    hide Match, Means;
    forall s: Subject, i: nat, j: nat
      ensures Match(Body(final), s, i, j) <==> Means(e, s, i, j)
    {
      AltOfMeans(final.cur.alts, BranchRe(final.cur), s, i, j);
      assert AltsOrBranch(final.cur, s, i, j) <==> AnyOf([], s, i, j) || Means(e, s, i, j);
    }
  }

  /** Code short enough for its jumps is laid out for the matcher. */
  lemma CodeCompiled(r: Re, nsub: nat)
    requires PartOk(r) && Numbered(r, 1) && After(r, 1) <= nsub + 1 && nsub <= MAX_REGNUM
    requires |Bytes(r)| <= MAX_CODE
    ensures Compiled(r, Bytes(r), nsub)
  {
    hide LaidOut, Has, Fetch;
    BytesLen(r);
    WholeHas(Bytes(r));
    BytesLaidOut(r, Bytes(r), 0);
  }

  lemma WholeHas(code: seq<byte>)
    ensures Has(code, 0, code)
  {}

  /** The text an expression is spelled by is what the compiler reads. */
  lemma SpellingRead(e: Ere)
    requires Alternatives(e)
    ensures Rest(Spelling(e), 0, Tokens(e))
  {
    SpelledTokens(e);
    assert Spelling(e)[0..] == Spelling(e);
  }

  /** Every jump fits its sixteen bits. */
  const MAX_CODE := 32767

  /** The tree the expression `e` is read as, and its code. */
  ghost function CoreOf(e: Ere): Re {
    var r := ReadAll(InitCtx(), Tokens(e));
    if r.Some? then Body(r.value) else Empty
  }

  ghost function CodeOf(e: Ere): seq<byte> {
    Bytes(CoreOf(e))
  }

  /** The tree has the meaning of the expression, and its code, when short enough,
      is laid out and numbered as the matcher needs. */
  lemma CoreFacts(e: Ere)
    requires Supported(e)
    ensures MeansSame(CoreOf(e), e) && Framed(CoreOf(e)) && |CodeOf(e)| == Len(CoreOf(e))
    ensures |CodeOf(e)| <= MAX_CODE ==> Compiled(CoreOf(e), CodeOf(e), Parens(e))
  {
    hide ReadAll, MeansSame, PartOk, Bytes, Numbered, After, Body, Compiled, Framed, Alternatives;
    var final := ReadsWhole(e);
    BytesLen(CoreOf(e));
    BodyFramed(CoreOf(e));
    if |CodeOf(e)| <= MAX_CODE { CodeCompiled(CoreOf(e), Parens(e)); }
  }

  /** Twelve bytes of code at most for a byte of text. */
  lemma CodeBound(e: Ere)
    requires Supported(e)
    ensures |CodeOf(e)| <= WIDEST * |Spelling(e)|
  {
    hide ReadAll, MeansSame, PartOk, Bytes, Numbered, After, Alternatives, CtxOk, CtxSize, Text, TokensOk;
    var final := ReadsWhole(e);
    SpelledTokens(e);
    InitOk();
    InitSize();
    ReadAllAdds(InitCtx(), Tokens(e));
    BodySize(final);
    BytesLen(CoreOf(e));
  }

  lemma InitSize()
    ensures CtxSize(InitCtx()) == 0
  {
    assert LevelSize(FreshLevel(1)) == 0;
  }

  /** An expression spelled in 2730 bytes has code that fits its jumps. */
  lemma ShortFits(e: Ere)
    requires Supported(e) && |Spelling(e)| <= 2730
    ensures |CodeOf(e)| <= MAX_CODE
  {
    hide CodeOf, Spelling, Supported;
    CodeBound(e);
  }

  /** With failure jumps read as forks and the others as jumps, the code takes the
      text from `i` to `j` exactly when the expression means what lies between. */
  ghost predicate Preserves(e: Ere, code: seq<byte>) {
    forall s: Subject, i: nat, j: nat :: Reads(code, s, i, j) <==> Means(e, s, i, j)
  }

  /** Compiling preserves the meaning. */
  lemma CodeMeans(e: Ere)
    requires Supported(e) && |CodeOf(e)| <= MAX_CODE
    ensures Preserves(e, CodeOf(e))
  {
    hide Supported, CoreOf, CodeOf, Framed, Reads, Match, Means, LaidOut, Fit, Numbered;
    CoreFacts(e);
    var r := CoreOf(e);
    forall s: Subject, i: nat, j: nat
      ensures Reads(CodeOf(e), s, i, j) <==> Means(e, s, i, j)
    {
      ReadsMatches(r, CodeOf(e), s, i, j);
      assert Match(r, s, i, j) <==> Means(e, s, i, j);
    }
  }

  /** `regex_compile` on the spelling of `e`. */
  method RegexCompile(pattern: seq<byte>, ghost e: Ere) returns (err: Errcode, buf: Buffer, nsub: nat)
    requires Supported(e) && pattern == Spelling(e)
    ensures err == REG_NOERROR || (err == REG_ESIZE && |CodeOf(e)| > 65488)
    ensures fresh(buf) && fresh(buf.bytes) && buf.Valid()
    ensures err == REG_NOERROR ==> buf.Contents() == CodeOf(e) && nsub == Parens(e)
    ensures err == REG_NOERROR && |buf.Contents()| <= MAX_CODE ==> Preserves(e, buf.Contents())
  {
    hide Rest, ReadAll, MeansSame, PartOk, Bytes, Numbered, After, Supported, Body, Preserves;
    ghost var final := ReadsWhole(e);
    SupportedFacts(e);
    SpellingRead(e);
    var c := new Compiler(pattern);
    err := c.Compile(Tokens(e));
    buf, nsub := c.buf, c.regnum;
    BytesLen(CoreOf(e));
    if err == REG_NOERROR && |CodeOf(e)| <= MAX_CODE { CodeMeans(e); }
  }

  lemma BodyFramed(r: Re)
    requires PartOk(r)
    ensures Framed(r)
  {}

  lemma SupportedFacts(e: Ere)
    ensures Supported(e) <==> Alternatives(e) && Parens(e) <= 255
  {}
}
