/** Small facts about the invariant: numbering, flags, and what the code at a
    place can be, given the work it stands for. */
module InvariantFacts {
  import opened Octets
  import opened RegexLang
  import opened Backtrack
  import opened Bytecode
  import opened Machine
  import opened Rewriting
  import opened Invariant

  // ----- numbering -----

  lemma {:induction false} AfterGrows(e: Re, b: nat)
    requires Numbered(e, b)
    ensures After(e, b) >= b
  {
    match e
    case Cat(l, r) => AfterGrows(l, b); AfterGrows(r, After(l, b));
    case Alt(l, r) => AfterGrows(l, b); AfterGrows(r, After(l, b));
    case Repeat(_, body) => AfterGrows(body, b);
    case _ =>
  }

  lemma {:induction false} NumberedLower(e: Re, b: nat, b': nat)
    requires Numbered(e, b) && b' <= b
    ensures Numbered(e, b') && After(e, b') <= After(e, b)
    decreases e
  {
    match e
    case Cat(l, r) => NumberedLower(l, b, b'); NumberedLower(r, After(l, b), After(l, b'));
    case Alt(l, r) => NumberedLower(l, b, b'); NumberedLower(r, After(l, b), After(l, b'));
    case Repeat(_, body) => NumberedLower(body, b, b');
    case _ =>
  }

  lemma {:induction false} FramesBelowMore(k: Kont, c: nat, c': nat)
    requires FramesBelow(k, c) && c <= c'
    ensures FramesBelow(k, c')
  {
    match k
    case Halt =>
    case Do(_, k') => FramesBelowMore(k', c, c');
    case Again(_, k') => FramesBelowMore(k', c, c');
    case Close(_, _, k') => FramesBelowMore(k', c, c');
    case Loop(_, _, k') => FramesBelowMore(k', c, c');
  }

  lemma LoopAfter(e: Re, b: nat, b': nat)
    requires IsGroupLoop(e)
    ensures After(e, b) == After(e, b') == e.body.reg + 1 + e.body.inner
  {
    assert After(e.body, b) == After(e.body, b');
  }

  lemma {:induction false} NumberedKLower(k: Kont, b: nat, b': nat, nsub: nat)
    requires NumberedK(k, b, nsub) && b' <= b && FramesBelow(k, b')
    ensures NumberedK(k, b', nsub)
    decreases k, 0
  {
    match k
    case Halt =>
    case Do(e, k') => LowerTail(e, k', b, b', nsub);
    case Again(e, k') => LowerTail(e, k', b, b', nsub);
    case Close(_, _, k') => NumberedKLower(k', b, b', nsub);
    case Loop(e, _, k') => LoopAfter(e, b, b');
  }

  lemma {:induction false} LowerTail(e: Re, k: Kont, b: nat, b': nat, nsub: nat)
    requires Numbered(e, b) && NumberedK(k, After(e, b), nsub) && b' <= b && FramesBelow(k, b')
    ensures Numbered(e, b') && NumberedK(k, After(e, b'), nsub)
    decreases k, 1
  {
    NumberedLower(e, b, b');
    AfterGrows(e, b');
    FramesBelowMore(k, b', After(e, b'));
    NumberedKLower(k, After(e, b), After(e, b'), nsub);
  }

  lemma {:induction false} NumberedKBound(k: Kont, b: nat, nsub: nat)
    requires NumberedK(k, b, nsub)
    ensures b <= nsub + 1
    decreases k
  {
    match k
    case Halt =>
    case Do(e, k') => AfterGrows(e, b); NumberedKBound(k', After(e, b), nsub);
    case Again(e, k') => AfterGrows(e, b); NumberedKBound(k', After(e, b), nsub);
    case Close(_, _, k') => NumberedKBound(k', b, nsub);
    case Loop(e, _, k') => NumberedKBound(k', After(e, b), nsub);
  }

  lemma {:induction false} NoFramesNoneBelow(k: Kont, c: nat)
    requires NoFrames(k)
    ensures FramesBelow(k, c)
  {
    match k
    case Halt =>
    case Do(_, k') => NoFramesNoneBelow(k', c);
    case Again(_, k') => NoFramesNoneBelow(k', c);
  }

  lemma {:induction false} EmptyCode(e: Re, b: nat)
    requires Len(e) == 0
    ensures Numbered(e, b) && After(e, b) == b
    decreases e
  {
    match e
    case Cat(l, r) => EmptyCode(l, b); EmptyCode(r, b);
    case _ =>
  }

  /** Code beginning with a group is numbered from that group. */
  lemma {:induction false} HeadStart(e: Re, code: seq<byte>, p: nat, b: nat)
    requires LaidOut(e, code, p) && Numbered(e, b) && Len(e) > 0
    requires Fetch(code, p).StartMemory?
    ensures var i := Fetch(code, p);
      b <= i.reg && Numbered(e, i.reg) && After(e, i.reg) == After(e, b) && i.reg + i.inner < After(e, b)
    decreases e
  {
    hide Fetch;
    match e
    case Cat(l, r) =>
      if Len(l) > 0 {
        HeadStart(l, code, p, b);
        AfterGrows(r, After(l, b));
      } else {
        EmptyCode(l, b);
        HeadStart(r, code, p, b);
        EmptyCode(l, Fetch(code, p).reg);
      }
    case Group(_, _, _) =>
    case _ =>
  }

  // ----- flags -----

  /** Flags carry over when active groups below `c` keep their entry and stay in
      range. */
  lemma {:induction false} FlagsMove(k: Kont, d: nat, low: nat, high: nat, info: seq<RegInfo>,
                                     low': nat, high': nat, info': seq<RegInfo>, c: nat)
    requires Flags(k, d, low, high, info) && FramesBelow(k, c) && |info'| == |info|
    requires forall r: nat :: low <= r <= high && r < c && r < |info| && info[r].active ==>
      low' <= r <= high' && info'[r] == info[r]
    ensures Flags(k, d, low', high', info')
    decreases k
  {
    match k
    case Halt =>
    case Do(_, k') => FlagsMove(k', d, low, high, info, low', high', info', c);
    case Again(_, k') => FlagsMove(k', d, low, high, info, low', high', info', c);
    case Close(_, _, k') => FlagsMove(k', d, low, high, info, low', high', info', c);
    case Loop(_, _, k') => FlagsMove(k', d, low, high, info, low', high', info', c);
  }

  lemma {:induction false} FlagsBelow(k: Kont, d: nat, low: nat, high: nat, info: seq<RegInfo>)
    requires Flags(k, d, low, high, info)
    ensures FramesBelow(k, |info|)
    decreases k
  {
    match k
    case Halt =>
    case Do(_, k') => FlagsBelow(k', d, low, high, info);
    case Again(_, k') => FlagsBelow(k', d, low, high, info);
    case Close(_, _, k') => FlagsBelow(k', d, low, high, info);
    case Loop(_, _, k') => FlagsBelow(k', d, low, high, info);
  }

  /** Consuming input marks every open group. */
  lemma {:induction false} FlagsConsume(k: Kont, d: nat, st: VState, n: nat)
    requires RangeOk(st) && Flags(k, d, st.low, st.high, st.info) && n > 0
    ensures Flags(k, d + n, st.low, st.high, SetMatched(st).info)
    decreases k
  {
    match k
    case Halt =>
    case Do(_, k') => FlagsConsume(k', d, st, n);
    case Again(_, k') => FlagsConsume(k', d, st, n);
    case Close(_, _, k') => FlagsConsume(k', d, st, n);
    case Loop(_, _, k') => FlagsConsume(k', d, st, n);
  }

  // ----- what the code can be -----

  ghost predicate IsClosingJump(i: Instr) {
    i.Jump? || i.MaybePopJump? || i.PopFailureJump? || (i.DummyFailureJump? && i.off < 0)
  }

  lemma {:induction false} HeadOf(e: Re, code: seq<byte>, p: nat)
    requires LaidOut(e, code, p) && Len(e) > 0
    ensures p < |code| && !IsClosingJump(Fetch(code, p))
    decreases e
  {
    match e
    case Cat(l, r) => if Len(l) > 0 { HeadOf(l, code, p); } else { HeadOf(r, code, p); }
    case Repeat(op, _) => assert op.Star? || op.Plus? || op.Opt?;
    case _ =>
  }

  /** Pending work never begins at a closing jump. */
  lemma {:induction false} HeadOfWork(code: seq<byte>, p: nat, k: Kont)
    requires Reps(code, p, k)
    ensures !IsClosingJump(Fetch(code, p))
    decreases k
  {
    hide Fetch, LaidOut, LoopAt, Boundary, Starts, Len;
    if Direct(code, p, k) {
      match k
      case Do(e, k') => if Len(e) > 0 { HeadOf(e, code, p); } else { HeadOfWork(code, p, k'); }
      case Halt => NoFetch(code);
      case Again(e, k') => LoopParts(e.body, code, p);
      case _ =>
    }
  }
}
