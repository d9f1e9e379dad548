/** How the compiler's variables describe what it has read.

    `begalt`, `fixup`, `laststart` and the compile stack stay inside the buffer,
    in order, at the places the layout gives them, through every insertion. */
module CompilerState {
  import opened Octets
  import opened RegexLang
  import opened Bytecode
  import opened Codegen
  import opened Ere
  import opened Bitmap
  import opened Parse
  import opened ParseOk
  import opened Emit

  /** An entry of the compile stack; `fixup` is an offset plus one, or zero. */
  datatype Frame = Frame(begalt: nat, fixup: nat, laststart: nat, regnum: nat, inner: nat)

  /** The compiler's variables; -1 stands for a null pointer. */
  datatype Vars = Vars(
    laststart: int,
    begalt: nat,
    fixup: int,
    pending: int,
    regnum: nat,
    stack: seq<Frame>)

  /** The alternatives' start and the hole after the last finished one. */
  ghost predicate LevelVars(base: nat, l: Level, begalt: nat, fixup: int) {
    && begalt == base + (if |l.alts| == 0 then 0 else |AltsPrefix(l.alts)| + 3)
    && fixup == (if |l.alts| == 0 then -1 else base + |AltsPrefix(l.alts)|)
  }

  ghost predicate FramesOk(outer: seq<Open>, holes: seq<seq<byte>>, stack: seq<Frame>)
    requires |holes| == |outer|
  {
    && |stack| == |outer|
    && (|outer| > 0 ==>
          var n := |outer| - 1;
          var base := |OuterBytes(outer[..n], holes[..n])|;
          var fr := stack[n];
          && |holes[n]| == 3
          && LevelVars(base, outer[n].level, fr.begalt, fr.fixup - 1)
          && fr.laststart == base + |LevelBytes(outer[n].level, holes[n])|
          && fr.regnum == outer[n].reg && fr.inner == fr.laststart + 2
          && FramesOk(outer[..n], holes[..n], stack[..n]))
  }

  /** The code before the branch being read. */
  ghost function Head(outer: seq<Open>, alts: seq<Re>, holes: seq<seq<byte>>, hole: seq<byte>): seq<byte>
    requires |holes| == |outer|
  {
    OuterBytes(outer, holes) + AltsBytes(alts, hole)
  }

  /** What does not depend on the branch being read. */
  ghost predicate Around(outer: seq<Open>, alts: seq<Re>, holes: seq<seq<byte>>, hole: seq<byte>, v: Vars) {
    && |holes| == |outer| && |hole| == 3
    && v.begalt == |Head(outer, alts, holes, hole)|
    && v.fixup == (if |alts| == 0 then -1 else |OuterBytes(outer, holes)| + |AltsPrefix(alts)|)
    && FramesOk(outer, holes, v.stack)
  }

  /** The branch being read, after the code `head`: where its last expression
      starts, and where the length of a pending literal is. */
  ghost predicate BranchFits(head: seq<byte>, l: Level, code: seq<byte>, laststart: int, pending: int) {
    && code == head + Bytes(l.front) + Bytes(l.last)
    && (l.last != Empty ==> laststart == |head| + |Bytes(l.front)|)
    && (if l.pending then l.last.Exact? && 0 < |l.last.cs| < 256 && pending == laststart + 1
        else pending == -1 || (0 <= pending < |code| && pending + code[pending] + 1 < |code|))
  }

  /** The buffer and the variables stand for `ctx`; `holes` and `hole` are the
      bytes left to fill in the open groups and in the current one. */
  ghost predicate Fits(ctx: Ctx, holes: seq<seq<byte>>, hole: seq<byte>, code: seq<byte>, v: Vars) {
    && CtxOk(ctx) && v.regnum == ctx.regnum
    && Around(ctx.outer, ctx.cur.alts, holes, hole, v)
    && BranchFits(Head(ctx.outer, ctx.cur.alts, holes, hole), ctx.cur, code, v.laststart, v.pending)
  }

  // ----- the branch being read -----

  /** A pending literal ends the code, with its length at `pending`. */
  lemma PendingCount(head: seq<byte>, l: Level, code: seq<byte>, laststart: int, pending: int)
    requires BranchFits(head, l, code, laststart, pending)
    ensures pending == -1 || 0 <= pending < |code|
    ensures l.pending ==>
      && pending >= 0 && code[pending] == |l.last.cs| && pending + code[pending] + 1 == |code|
    ensures !l.pending ==> pending == -1 || pending + code[pending] + 1 < |code|
  {
    if l.pending {
      var x := head + Bytes(l.front);
      var n := |l.last.cs|;
      assert Bytes(l.last) == [EXACTN, n] + l.last.cs;
      assert code[|x| + 1] == Bytes(l.last)[1];
    }
  }

  /** A new last expression at the end of the code. */
  lemma AppendFits(head: seq<byte>, l: Level, code: seq<byte>, laststart: int, pending: int, e: Re)
    requires BranchFits(head, l, code, laststart, pending) && (e.Any? || e.Charset?)
    ensures BranchFits(head, Append(l, e, false), code + Bytes(e), |code|, pending)
  {
    PendingCount(head, l, code, laststart, pending);
    BranchBytes(l);
    SameConcat(head, Bytes(l.front), Bytes(l.last));
    assert |Bytes(e)| > 0;
  }

  lemma SameConcat(a: seq<byte>, b: seq<byte>, c: seq<byte>)
    ensures a + b + c == a + (b + c)
  {}

  /** A new literal of one byte. */
  lemma NewLiteralFits(head: seq<byte>, l: Level, code: seq<byte>, laststart: int, pending: int, c: byte)
    requires BranchFits(head, l, code, laststart, pending)
    ensures BranchFits(head, Append(l, Exact([c]), true), code + [EXACTN, 1, c], |code|, |code| + 1)
  {
    BranchBytes(l);
    SameConcat(head, Bytes(l.front), Bytes(l.last));
    assert Bytes(Exact([c])) == [EXACTN, 1, c];
  }

  /** One more byte in the pending literal. */
  lemma JoinFits(head: seq<byte>, l: Level, code: seq<byte>, laststart: int, pending: int, c: byte)
    requires BranchFits(head, l, code, laststart, pending) && l.pending && |l.last.cs| < 255
    ensures 0 <= pending < |code| && code[pending] < 255
    ensures BranchFits(head, l.(last := Exact(l.last.cs + [c])),
                       (code + [c])[pending := code[pending] + 1], laststart, pending)
  {
    PendingCount(head, l, code, laststart, pending);
    var cs := l.last.cs;
    var x := head + Bytes(l.front);
    assert Bytes(l.last) == [EXACTN, |cs|] + cs;
    assert Bytes(Exact(cs + [c])) == [EXACTN, |cs| + 1] + (cs + [c]);
    assert (code + [c])[|x| + 1 := |cs| + 1] == x + ([EXACTN, |cs| + 1] + (cs + [c]));
  }

  /** An anchor at the end of the code. */
  lemma AnchorFits(head: seq<byte>, l: Level, code: seq<byte>, laststart: int, pending: int, e: Re)
    requires BranchFits(head, l, code, laststart, pending) && (e.Bol? || e.Eol?)
    ensures BranchFits(head, l.(front := Cat(BranchRe(l), e), last := Empty, pending := false),
                       code + Bytes(e), laststart, pending)
  {
    PendingCount(head, l, code, laststart, pending);
    BranchBytes(l);
    SameConcat(head, Bytes(l.front), Bytes(l.last));
    SameConcat(head, Bytes(BranchRe(l)), Bytes(e));
  }

  /** A repetition in place of the last expression. */
  lemma OpsFits(head: seq<byte>, l: Level, code: seq<byte>, laststart: int, pending: int, op: Op)
    requires BranchFits(head, l, code, laststart, pending) && l.last != Empty
    ensures 0 <= laststart <= |code| && code[laststart..] == Bytes(l.last)
    ensures BranchFits(head, l.(last := Repeat(op, l.last), pending := false),
                       code[..laststart] + Bytes(Repeat(op, l.last)), laststart, -1)
  {
    assert code[..laststart] == head + Bytes(l.front);
  }

  // ----- the whole state -----

  lemma BranchStep(ctx: Ctx, holes: seq<seq<byte>>, hole: seq<byte>, code: seq<byte>, v: Vars,
                   l: Level, code': seq<byte>, laststart: int, pending: int)
    requires Fits(ctx, holes, hole, code, v) && l.alts == ctx.cur.alts && CtxOk(ctx.(cur := l))
    requires BranchFits(Head(ctx.outer, ctx.cur.alts, holes, hole), l, code', laststart, pending)
    ensures Fits(ctx.(cur := l), holes, hole, code', v.(laststart := laststart, pending := pending))
  {
    hide CtxOk, BranchFits, Head;
    AroundSame(ctx.outer, l.alts, holes, hole, v, v.(laststart := laststart, pending := pending));
  }

  lemma AroundCounts(outer: seq<Open>, alts: seq<Re>, holes: seq<seq<byte>>, hole: seq<byte>, v: Vars)
    requires Around(outer, alts, holes, hole, v)
    ensures |holes| == |outer| == |v.stack|
  {}

  lemma AroundSame(outer: seq<Open>, alts: seq<Re>, holes: seq<seq<byte>>, hole: seq<byte>, v: Vars, v': Vars)
    requires Around(outer, alts, holes, hole, v)
    requires v'.begalt == v.begalt && v'.fixup == v.fixup && v'.stack == v.stack
    ensures Around(outer, alts, holes, hole, v')
  {}

  // ----- alternatives -----

  /** The hole is where `fixup` says, just before the branch. */
  lemma HoleAt(outer: seq<Open>, alts: seq<Re>, holes: seq<seq<byte>>, hole: seq<byte>, v: Vars)
    requires Around(outer, alts, holes, hole, v)
    ensures |alts| == 0 ==> v.fixup == -1
    ensures |alts| > 0 ==>
      && v.fixup >= 0 && v.begalt == v.fixup + 3
      && Head(outer, alts, holes, hole)[..v.fixup] == OuterBytes(outer, holes) + AltsPrefix(alts)
  {}

  lemma StoreInHead(head: seq<byte>, rest: seq<byte>, op: byte, loc: nat, arg: int)
    requires loc + 3 == |head|
    ensures Stored(head + rest, op, loc, arg) == head[..loc] + Op1(op, arg) + rest
  {
    hide Op1;
    assert (head + rest)[..loc] == head[..loc];
    assert (head + rest)[loc + 3..] == rest;
  }

  /** Filling the hole of the current level leaves the code of its alternation. */
  lemma FillFits(ctx: Ctx, holes: seq<seq<byte>>, hole: seq<byte>, code: seq<byte>, v: Vars)
    requires Fits(ctx, holes, hole, code, v)
    ensures var body := AltOf(ctx.cur.alts, BranchRe(ctx.cur));
      if v.fixup < 0 then ctx.cur.alts == [] && code == OuterBytes(ctx.outer, holes) + Bytes(body)
      else
        && ctx.cur.alts != [] && v.fixup + 3 <= |code|
        && Stored(code, JUMP_PAST_ALT, v.fixup, |code| - v.fixup - 3) == OuterBytes(ctx.outer, holes) + Bytes(body)
  {
    hide CtxOk, OuterBytes, AltsPrefix, Op1, Bytes, FramesOk;
    var outer, alts, l := ctx.outer, ctx.cur.alts, ctx.cur;
    var head := Head(outer, alts, holes, hole);
    var branch := Bytes(BranchRe(l));
    BranchBytes(l);
    BytesLen(BranchRe(l));
    SameConcat(head, Bytes(l.front), Bytes(l.last));
    HoleAt(outer, alts, holes, hole, v);
    if |alts| > 0 {
      StoreInHead(head, branch, JUMP_PAST_ALT, v.fixup, Len(BranchRe(l)));
      AltOfBytes(alts, BranchRe(l));
      FourParts(OuterBytes(outer, holes), AltsPrefix(alts), Op1(JUMP_PAST_ALT, Len(BranchRe(l))), branch);
    } else {
      assert AltsBytes(alts, hole) == [];
      assert head == OuterBytes(outer, holes);
    }
  }

  lemma FourParts(a: seq<byte>, b: seq<byte>, c: seq<byte>, d: seq<byte>)
    ensures a + b + c + d == a + (b + c + d)
  {}

  /** The state after `|`. */
  function AfterBar(v: Vars, size: nat): Vars {
    v.(laststart := -1, begalt := size + 6, fixup := size + 3, pending := -1)
  }

  /** The buffer after the two jumps of `|` are in place. */
  function BarredCode(code: seq<byte>, begalt: nat, fixup: int): seq<byte>
    requires begalt <= |code| && (fixup >= 0 ==> fixup + 3 <= |code|)
  {
    var code1 := Inserted(code, ON_FAILURE_JUMP, begalt, |code| + 3 - begalt);
    if fixup >= 0 then Stored(code1, JUMP_PAST_ALT, fixup, |code| - fixup) else code1
  }

  lemma BarCode(ctx: Ctx, holes: seq<seq<byte>>, hole: seq<byte>, code: seq<byte>, v: Vars)
    requires Fits(ctx, holes, hole, code, v)
    ensures v.begalt <= |code| && (v.fixup >= 0 ==> v.fixup + 3 <= |code|)
    ensures var code2 := BarredCode(code, v.begalt, v.fixup);
      && |code2| == |code| + 3
      && code2 == OuterBytes(ctx.outer, holes) + AltsPrefix(ctx.cur.alts + [BranchRe(ctx.cur)])
  {
    hide CtxOk, OuterBytes, AltsPrefix, Op1, Bytes, FramesOk;
    var outer, alts, l := ctx.outer, ctx.cur.alts, ctx.cur;
    var head := Head(outer, alts, holes, hole);
    var branch := Bytes(BranchRe(l));
    var n := Len(BranchRe(l));
    BranchBytes(l);
    BytesLen(BranchRe(l));
    SameConcat(head, Bytes(l.front), Bytes(l.last));
    HoleAt(outer, alts, holes, hole, v);
    var fail := Op1(ON_FAILURE_JUMP, n + 3);
    AltsPrefixSnoc(alts, BranchRe(l));
    InsertAfterHead(head, branch, ON_FAILURE_JUMP, n + 3);
    SameConcat(OuterBytes(outer, holes), AltsBytes(alts, Op1(JUMP_PAST_ALT, 3 + n)), fail + branch);
    SameConcat(AltsBytes(alts, Op1(JUMP_PAST_ALT, 3 + n)), fail, branch);
    if |alts| > 0 {
      StoreInHead(head, fail + branch, JUMP_PAST_ALT, v.fixup, n + 3);
      SameConcat(OuterBytes(outer, holes), AltsPrefix(alts), Op1(JUMP_PAST_ALT, 3 + n));
    } else {
      assert head == OuterBytes(outer, holes) + AltsBytes(alts, Op1(JUMP_PAST_ALT, 3 + n));
    }
  }

  lemma InsertAfterHead(head: seq<byte>, rest: seq<byte>, op: byte, arg: int)
    ensures Inserted(head + rest, op, |head|, arg) == head + (Op1(op, arg) + rest)
  {
    hide Op1;
    assert (head + rest)[..|head|] == head;
    assert (head + rest)[|head|..] == rest;
  }

  /** `|`: a failure jump in front of the branch, the hole before it filled, and a
      new hole behind it. */
  lemma BarFits(ctx: Ctx, holes: seq<seq<byte>>, hole: seq<byte>, code: seq<byte>, v: Vars,
                code2: seq<byte>, hole': seq<byte>)
    requires Fits(ctx, holes, hole, code, v) && |hole'| == 3 && |code2| == |code| + 3
    requires code2 == OuterBytes(ctx.outer, holes) + AltsPrefix(ctx.cur.alts + [BranchRe(ctx.cur)])
    ensures Fits(Read(ctx, TBar, None).value, holes, hole', code2 + hole', AfterBar(v, |code|))
  {
    hide OuterBytes, AltsPrefix, Bytes, FramesOk, LevelOk, OuterOk;
    BarOk(ctx.cur, ctx.regnum + 1);
    EmptyBytes();
    var alts' := ctx.cur.alts + [BranchRe(ctx.cur)];
    SameConcat(OuterBytes(ctx.outer, holes), AltsPrefix(alts'), hole');
    assert Head(ctx.outer, alts', holes, hole') == code2 + hole';
  }

  lemma EmptyBytes()
    ensures Bytes(Empty) == []
  {}

  // ----- groups -----

  function AfterOpen(v: Vars, size: nat): Vars
    requires v.fixup >= -1
  {
    Vars(-1, size + 3, -1, -1, v.regnum + 1,
         v.stack + [Frame(v.begalt, v.fixup + 1, size, v.regnum + 1, size + 2)])
  }

  lemma OpenCode(ctx: Ctx, holes: seq<seq<byte>>, hole: seq<byte>, code: seq<byte>, v: Vars)
    requires Fits(ctx, holes, hole, code, v)
    ensures var l' := ctx.cur.(front := BranchRe(ctx.cur), last := Empty, pending := false);
      && code == OuterBytes(ctx.outer, holes) + LevelBytes(l', hole)
      && OuterBytes(ctx.outer + [Open(l', ctx.regnum + 1)], holes + [hole]) == code + GroupOpen(ctx.regnum + 1, 0)
  {
    hide CtxOk, OuterBytes, AltsBytes, FramesOk, GroupOpen;
    var l := ctx.cur;
    var l' := l.(front := BranchRe(l), last := Empty, pending := false);
    BranchBytes(l);
    EmptyBytes();
    FourParts(OuterBytes(ctx.outer, holes), AltsBytes(l.alts, hole), Bytes(l.front), Bytes(l.last));
    SameConcat(AltsBytes(l.alts, hole), Bytes(l.front), Bytes(l.last));
    assert LevelBytes(l', hole) == AltsBytes(l.alts, hole) + Bytes(BranchRe(l));
    OuterSnoc(ctx.outer, holes, Open(l', ctx.regnum + 1), hole);
  }

  /** `(`: the surroundings go on the compile stack. */
  lemma OpenFits(ctx: Ctx, holes: seq<seq<byte>>, hole: seq<byte>, code: seq<byte>, v: Vars, hole': seq<byte>)
    requires Fits(ctx, holes, hole, code, v) && ctx.regnum < MAX_REGNUM && |hole'| == 3
    ensures v.fixup >= -1
    ensures Fits(Read(ctx, TOpen, None).value, holes + [hole], hole',
                 code + GroupOpen(ctx.regnum + 1, 0), AfterOpen(v, |code|))
  {
    hide CtxOk, Bytes, GroupOpen, OuterBytes, AltsBytes, LevelBytes, AltsPrefix, BranchRe, FramesOk, BranchFits;
    OpenOk(ctx);
    OpenCode(ctx, holes, hole, code, v);
    OpenAround(ctx, holes, hole, code, v, hole');
    OpenBranch(code + GroupOpen(ctx.regnum + 1, 0), ctx.regnum + 2);
    NoAlts(hole');
    assert Head(ctx.outer + [OpenedBy(ctx)], [], holes + [hole], hole') == code + GroupOpen(ctx.regnum + 1, 0);
    FitsWhen(Read(ctx, TOpen, None).value, holes + [hole], hole',
             code + GroupOpen(ctx.regnum + 1, 0), AfterOpen(v, |code|));
  }

  /** The level left open by an opening parenthesis. */
  function OpenedBy(ctx: Ctx): Open {
    Open(ctx.cur.(front := BranchRe(ctx.cur), last := Empty, pending := false), ctx.regnum + 1)
  }

  lemma FitsWhen(ctx: Ctx, holes: seq<seq<byte>>, hole: seq<byte>, code: seq<byte>, v: Vars)
    requires CtxOk(ctx) && v.regnum == ctx.regnum && Around(ctx.outer, ctx.cur.alts, holes, hole, v)
    requires BranchFits(Head(ctx.outer, ctx.cur.alts, holes, hole), ctx.cur, code, v.laststart, v.pending)
    ensures Fits(ctx, holes, hole, code, v)
  {
    hide CtxOk, Around, BranchFits, Head;
  }

  /** An empty branch of a fresh level. */
  lemma OpenBranch(head: seq<byte>, base: nat)
    ensures BranchFits(head, FreshLevel(base), head, -1, -1)
  {
    EmptyBytes();
    assert head + [] + [] == head;
  }

  lemma OpenAround(ctx: Ctx, holes: seq<seq<byte>>, hole: seq<byte>, code: seq<byte>, v: Vars, hole': seq<byte>)
    requires Fits(ctx, holes, hole, code, v) && ctx.regnum < MAX_REGNUM && |hole'| == 3
    ensures v.fixup >= -1
    ensures Around(ctx.outer + [OpenedBy(ctx)], [], holes + [hole], hole', AfterOpen(v, |code|))
  {
    hide CtxOk, Bytes, GroupOpen, OuterBytes, LevelBytes, BranchRe, FramesOk, BranchFits, AltsPrefix;
    OpenCode(ctx, holes, hole, code, v);
    HoleAt(ctx.outer, ctx.cur.alts, holes, hole, v);
    AltsSize(ctx.cur.alts, hole);
    GroupOpenSize(ctx.regnum + 1);
    var fr := Frame(v.begalt, v.fixup + 1, |code|, v.regnum + 1, |code| + 2);
    FramesPush(ctx.outer, holes, v.stack, OpenedBy(ctx), hole, fr);
  }

  lemma NoAlts(hole: seq<byte>)
    ensures AltsBytes([], hole) == []
  {}

  lemma GroupOpenSize(reg: nat)
    ensures |GroupOpen(reg, 0)| == 3
  {}

  lemma AltsSize(alts: seq<Re>, hole: seq<byte>)
    requires |hole| == 3
    ensures |AltsBytes(alts, hole)| == if |alts| == 0 then 0 else |AltsPrefix(alts)| + 3
  {
    hide AltsPrefix;
  }

  lemma FramesPush(outer: seq<Open>, holes: seq<seq<byte>>, stack: seq<Frame>, o: Open, hole: seq<byte>, fr: Frame)
    requires |holes| == |outer| && FramesOk(outer, holes, stack) && |hole| == 3
    requires var base := |OuterBytes(outer, holes)|;
      && LevelVars(base, o.level, fr.begalt, fr.fixup - 1) && fr.laststart == base + |LevelBytes(o.level, hole)|
    requires fr.regnum == o.reg && fr.inner == fr.laststart + 2
    ensures FramesOk(outer + [o], holes + [hole], stack + [fr])
  {
    hide OuterBytes, LevelBytes, LevelVars;
    assert (outer + [o])[..|outer|] == outer;
    assert (holes + [hole])[..|outer|] == holes;
    assert |stack| == |outer|;
    assert (stack + [fr])[..|outer|] == stack;
  }

  function AfterClose(v: Vars): Vars
    requires |v.stack| > 0
  {
    var fr := v.stack[|v.stack| - 1];
    Vars(fr.laststart, fr.begalt, fr.fixup - 1, -1, v.regnum, v.stack[..|v.stack| - 1])
  }

  /** The buffer after the count and the `stop_memory` of a group are in place. */
  lemma CloseCode(x: seq<byte>, reg: nat, inner: nat, body: Re)
    ensures (x + GroupOpen(reg, 0) + Bytes(body))[|x| + 2 := inner % 256] + GroupClose(reg, inner, body.Alt?)
         == x + Bytes(Group(reg, inner, body))
  {
    hide Bytes, GroupClose;
    GroupBytes(reg, inner, body);
    assert (x + GroupOpen(reg, 0) + Bytes(body))[|x| + 2 := inner % 256]
        == x + GroupOpen(reg, inner) + Bytes(body);
    FourParts(x, GroupOpen(reg, inner), Bytes(body), GroupClose(reg, inner, body.Alt?));
  }

  /** `)`: with the hole filled, the number of inner groups stored and the
      `stop_memory` written, the group is the last expression of the level around. */
  /** The code with the end of its innermost group written. */
  function Ended(code1: seq<byte>, fr: Frame, regnum: nat, alts: bool): seq<byte>
    requires fr.inner < |code1| && fr.regnum <= regnum
  {
    code1[fr.inner := (regnum - fr.regnum) % 256] + GroupClose(fr.regnum, regnum - fr.regnum, alts)
  }

  /** With the end of its innermost group written, the code stands for `next`. */
  ghost predicate FitsClosed(next: Option<Ctx>, holes: seq<seq<byte>>, code1: seq<byte>, v: Vars, alts: bool) {
    && next.Some? && |v.stack| == |holes| > 0
    && var n := |holes| - 1;
    && v.stack[n].inner < |code1| && v.stack[n].regnum <= v.regnum < 256
    && Fits(next.value, holes[..n], holes[n], Ended(code1, v.stack[n], v.regnum, alts), AfterClose(v))
  }

  lemma CloseFits(ctx: Ctx, holes: seq<seq<byte>>, hole: seq<byte>, code: seq<byte>, v: Vars, code1: seq<byte>)
    requires ReadClose(ctx).Some? && |v.stack| == |ctx.outer| > 0 && |holes| == |ctx.outer|
    requires code1 == OuterBytes(ctx.outer, holes) + Bytes(AltOf(ctx.cur.alts, BranchRe(ctx.cur)))
    requires Fits(ctx, holes, hole, code, v)
    ensures FitsClosed(ReadClose(ctx), holes, code1, v, ctx.cur.alts != [])
  {
    hide CtxOk, Bytes, AltOf, OuterBytes, FramesOk, BranchFits, LevelBytes, Head, Ended, Around, BranchRe;
    var n := |ctx.outer| - 1;
    CloseOk(ctx);
    PopFrame(ctx.outer, ctx.cur.alts, holes, hole, v);
    CloseBytes(ctx, holes, hole, code, v, code1);
    CloseAssemble(ctx, holes, v, Ended(code1, v.stack[n], v.regnum, ctx.cur.alts != []));
  }

  /** The code of the group that ends. */
  lemma CloseBytes(ctx: Ctx, holes: seq<seq<byte>>, hole: seq<byte>, code: seq<byte>, v: Vars, code1: seq<byte>)
    requires ReadClose(ctx).Some? && |v.stack| == |ctx.outer| > 0 && |holes| == |ctx.outer|
    requires code1 == OuterBytes(ctx.outer, holes) + Bytes(AltOf(ctx.cur.alts, BranchRe(ctx.cur)))
    requires Fits(ctx, holes, hole, code, v)
    ensures var n := |ctx.outer| - 1;
      var l, fr := ReadClose(ctx).value.cur, v.stack[n];
      var x := Head(ctx.outer[..n], l.alts, holes[..n], holes[n]) + Bytes(l.front);
      && fr.inner < |code1| && fr.regnum <= v.regnum < 256 && fr.laststart == |x|
      && Ended(code1, fr, v.regnum, ctx.cur.alts != []) == x + Bytes(l.last)
  {
    hide LevelOk, OuterOk, Bytes, AltOf, OuterBytes, GroupClose, FramesOk, BranchFits, LevelBytes, Head, Ended;
    var n := |ctx.outer| - 1;
    var fr, body := v.stack[n], AltOf(ctx.cur.alts, BranchRe(ctx.cur));
    OuterLast(ctx.outer, ctx.cur.base);
    PopFrame(ctx.outer, ctx.cur.alts, holes, hole, v);
    OuterUnfold(ctx.outer, holes);
    var x := Head(ctx.outer[..n], ctx.outer[n].level.alts, holes[..n], holes[n]) + Bytes(ctx.outer[n].level.front);
    EndedCode(x, fr, v.regnum, body);
    AltOfIsAlt(ctx.cur.alts, BranchRe(ctx.cur));
  }

  lemma EndedCode(x: seq<byte>, fr: Frame, regnum: nat, body: Re)
    requires fr.inner == |x| + 2 && fr.regnum <= regnum
    ensures |x + GroupOpen(fr.regnum, 0)| == |x| + 3
    ensures Ended(x + GroupOpen(fr.regnum, 0) + Bytes(body), fr, regnum, body.Alt?)
         == x + Bytes(Group(fr.regnum, regnum - fr.regnum, body))
  {
    hide Bytes, GroupClose;
    CloseCode(x, fr.regnum, regnum - fr.regnum, body);
  }

  lemma CloseAssemble(ctx: Ctx, holes: seq<seq<byte>>, v: Vars, code: seq<byte>)
    requires ReadClose(ctx).Some? && CtxOk(ReadClose(ctx).value) && v.regnum == ctx.regnum
    requires |holes| == |ctx.outer| == |v.stack|
    requires var n := |ctx.outer| - 1;
      var l := ReadClose(ctx).value.cur;
      var head := Head(ctx.outer[..n], l.alts, holes[..n], holes[n]);
      && Around(ctx.outer[..n], l.alts, holes[..n], holes[n], AfterClose(v))
      && code == head + Bytes(l.front) + Bytes(l.last)
      && v.stack[n].laststart == |head| + |Bytes(l.front)|
    ensures Fits(ReadClose(ctx).value, holes[..|holes| - 1], holes[|holes| - 1], code, AfterClose(v))
  {
    hide CtxOk, Around, Head, Bytes;
  }

  /** The compile stack gives back the surroundings of the group. */
  lemma PopFrame(outer: seq<Open>, alts: seq<Re>, holes: seq<seq<byte>>, hole: seq<byte>, v: Vars)
    requires Around(outer, alts, holes, hole, v) && |outer| > 0
    ensures |v.stack| == |outer|
    ensures var n := |outer| - 1;
      && Around(outer[..n], outer[n].level.alts, holes[..n], holes[n], AfterClose(v))
      && v.stack[n].laststart == |OuterBytes(outer[..n], holes[..n])| + |LevelBytes(outer[n].level, holes[n])|
      && v.stack[n].regnum == outer[n].reg && v.stack[n].inner == v.stack[n].laststart + 2
  {
    hide OuterBytes, AltsPrefix, LevelBytes;
  }

  lemma OuterUnfold(outer: seq<Open>, holes: seq<seq<byte>>)
    requires |holes| == |outer| > 0 && outer[|outer| - 1].level.last == Empty
    ensures var n := |outer| - 1;
      var x := Head(outer[..n], outer[n].level.alts, holes[..n], holes[n]) + Bytes(outer[n].level.front);
      && OuterBytes(outer, holes) == x + GroupOpen(outer[n].reg, 0)
      && |x| == |OuterBytes(outer[..n], holes[..n])| + |LevelBytes(outer[n].level, holes[n])|
  {
    hide Bytes, AltsBytes, GroupOpen;
    EmptyBytes();
    var n := |outer| - 1;
    SameConcat(OuterBytes(outer[..n], holes[..n]), AltsBytes(outer[n].level.alts, holes[n]),
               Bytes(outer[n].level.front));
  }

  lemma GroupBytes(reg: nat, inner: nat, body: Re)
    ensures Bytes(Group(reg, inner, body)) == GroupOpen(reg, inner) + Bytes(body) + GroupClose(reg, inner, body.Alt?)
  {}

  lemma AltOfIsAlt(alts: seq<Re>, c: Re)
    requires !c.Alt?
    ensures AltOf(alts, c).Alt? <==> alts != []
  {}

  lemma OuterLast(outer: seq<Open>, base: nat)
    requires OuterOk(outer, base) && |outer| > 0
    ensures outer[|outer| - 1].level.last == Empty
  {}
}
