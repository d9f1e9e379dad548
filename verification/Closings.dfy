/** What leads to the closing jump of a loop.

    Only the end of the group the loop is over, or the byte it is over, stands in
    front of a closing jump, and no jump forward lands on one. */
module Closings {
  import opened Octets
  import opened RegexLang
  import opened Bytecode
  import opened Invariant
  import opened Layout

  ghost predicate Open(code: seq<byte>, y: int) {
    y >= 0 && !Fetch(code, y).MaybePopJump?
  }

  /** No jump forward, and no command but one that takes a byte or ends a group, leads
      to a closing jump. */
  ghost predicate LeadsOpen(code: seq<byte>, x: nat) {
    match Fetch(code, x)
    case OnFailureJump(off) => Open(code, x + 3) && Open(code, x + 3 + off)
    case JumpPastAlt(off) => Open(code, x + 3 + off)
    case DummyFailureJump(off) => Open(code, x + 3 + off)
    case StartMemory(_, _) => Open(code, x + 3)
    case BegLine => Open(code, x + 1)
    case EndLine => Open(code, x + 1)
    case PushDummyFailure => Open(code, x + 1)
    case _ => true
  }

  lemma PartOpen(e: Re, code: seq<byte>, p: nat, next: nat)
    requires LaidOut(e, code, p) && (Len(e) == 0 ==> Open(code, p)) && next == p
    ensures Open(code, next)
  {
    hide Fetch, LaidOut;
    if Len(e) > 0 { HeadOpen(e, code, p); }
  }

  lemma OwnedOpen(n: Re, code: seq<byte>, p: nat, x: nat)
    requires LaidOut(n, code, p) && Fit(n) && Owns(n, p, x) && (Shut(n) || Open(code, p + Len(n)))
    ensures LeadsOpen(code, x)
  {
    hide Fetch, LaidOut, LoopAt, Fit;
    match n
    case Alt(_, _) => AltOpen(n, code, p, x);
    case Group(_, _, body) =>
      GroupParts(n, code, p);
      PartOpen(body, code, p + 3, p + 3);
    case Repeat(_, _) => RepeatOpen(n, code, p, x);
    case _ => LeafOpen(n, code, p);
  }

  lemma AltOpen(n: Re, code: seq<byte>, p: nat, x: nat)
    requires n.Alt? && LaidOut(n, code, p) && Owns(n, p, x) && Open(code, p + Len(n))
    ensures LeadsOpen(code, x)
  {
    hide Fetch, LaidOut;
    AltParts(code, p, n);
    var l, r, m := n.l, n.r, p + 6 + Len(n.l);
    PartOpen(l, code, p + 3, p + 3);
    PartOpen(r, code, m, m);
    if r.Alt? { AltParts(code, m, r); }
    assert p + 3 + (Len(l) + 3) == m && p + 3 + Len(l) + 3 + PastAlt(r) == m + PastAlt(r);
  }

  lemma RepeatOpen(n: Re, code: seq<byte>, p: nat, x: nat)
    requires n.Repeat? && LaidOut(n, code, p) && Fit(n) && Owns(n, p, x) && Open(code, p + Len(n))
    ensures LeadsOpen(code, x)
  {
    hide Fetch, LaidOut, LoopAt;
    RepeatParts(n, code, p);
    var body := n.body;
    assert Len(body) > 0;
    match n.op
    case Opt => PartOpen(body, code, p + 3, p + 3);
    case Star =>
      LoopParts(body, code, p);
      PartOpen(body, code, p + 3, p + 3);
    case Plus =>
      LoopParts(body, code, p + 3);
      PartOpen(body, code, p + 6, p + 6);
  }

  lemma LeafOpen(e: Re, code: seq<byte>, p: nat)
    requires LaidOut(e, code, p) && (e.Exact? || e.Any? || e.Charset? || e.Bol? || e.Eol?)
    requires Shut(e) || Open(code, p + Len(e))
    ensures LeadsOpen(code, p)
  {
    hide Fetch;
  }

  lemma CodeOpen(e: Re, code: seq<byte>, x: nat)
    requires LaidOut(e, code, 0) && Len(e) == |code| && Fit(e) && Starts(code, x)
    ensures LeadsOpen(code, x)
  {
    hide Fetch, Boundary, LaidOut, LeadsOpen, Fit, Owns, Shut, Starts, Len;
    StartAtZero(code);
    NoFetch(code);
    StartAtMost(code, x);
    if x < |code| {
      var n, p := Owner(e, code, 0, x);
      InsideFit(n, e);
      OwnedOpen(n, code, p, x);
    } else {
      EndOpen(code);
    }
  }

  lemma EndOpen(code: seq<byte>)
    ensures LeadsOpen(code, |code|)
  {}

  /** What stands in front of a closing jump: the end of its group, or its byte. */
  ghost predicate ClosesBehind(code: seq<byte>, w: nat) {
    var x := w + Width(Fetch(code, w));
    Fetch(code, x).MaybePopJump? &&
    var t := x + 3 + Fetch(code, x).off;
    && t >= 0 && Fetch(code, t).OnFailureJump?
    && match Fetch(code, w)
       case StopMemory(reg, _) => Fetch(code, t + 3).StartMemory? && Fetch(code, t + 3).reg == reg
       case ExactN(_) => w == t + 3
       case AnyChar => w == t + 3
       case Bracket(_, _) => w == t + 3
       case _ => false
  }

  lemma ClosingBefore(e: Re, code: seq<byte>, w: nat)
    requires LaidOut(e, code, 0) && Len(e) == |code| && Fit(e) && Starts(code, w) && Fetch(code, w) != Bad
    requires Fetch(code, w + Width(Fetch(code, w))).MaybePopJump?
    ensures ClosesBehind(code, w)
  {
    hide Fetch, Boundary, Starts, LaidOut, LoopAt, Owns, Fit, EndOk;
    var x := w + Width(Fetch(code, w));
    StartsNext(code, w);
    StartAtZero(code);
    NoFetch(code);
    StartAtMost(code, x);
    var n, p := Owner(e, code, 0, x);
    InsideFit(n, e);
    var t := ClosedLoop(n, code, p, x);
    LoopEndsWith(n, code, t, w);
  }

  lemma LoopEndsWith(n: Re, code: seq<byte>, t: nat, w: nat)
    requires n.Repeat? && Fit(n) && Starts(code, t) && LoopAt(n.body, code, t) && Starts(code, w)
    requires Fetch(code, w) != Bad && w + Width(Fetch(code, w)) == t + 3 + Len(n.body)
    ensures ClosesBehind(code, w)
  {
    hide Fetch, Boundary, Starts, LaidOut, LoopAt, Len, ClosesBehind, Fit;
    var body := n.body;
    LoopParts(body, code, t);
    LoopStarts(body, code, t);
    RepeatBody(n);
    if w < t { Outside(code, w, t); }
    Outside(code, t, w);
    if body.Group? {
      GroupEndsWith(body, code, t, w);
    } else {
      ByteEndsWith(body, code, t, w);
    }
  }

  lemma RepeatBody(n: Re)
    requires n.Repeat? && Fit(n)
    ensures Len(n.body) > 0 && Shut(n.body)
  {}

  lemma GroupEndsWith(body: Re, code: seq<byte>, t: nat, w: nat)
    requires body.Group? && LaidOut(body, code, t + 3) && Starts(code, t + 3) && Starts(code, w) && t + 3 <= w
    requires Fetch(code, t) == OnFailureJump(Len(body) + 3)
    requires Fetch(code, t + 3 + Len(body)) == MaybePopJump(-(Len(body) + 6))
    requires Fetch(code, w) != Bad && w + Width(Fetch(code, w)) == t + 3 + Len(body)
    ensures ClosesBehind(code, w)
  {
    hide Fetch, Boundary, Starts, LaidOut, Len;
    GroupLast(body, code, t + 3, w);
  }

  lemma ByteEndsWith(body: Re, code: seq<byte>, t: nat, w: nat)
    requires Single(body) && LaidOut(body, code, t + 3) && Starts(code, t + 3) && Starts(code, w) && t + 3 <= w
    requires Fetch(code, t) == OnFailureJump(Len(body) + 3)
    requires Fetch(code, t + 3 + Len(body)) == MaybePopJump(-(Len(body) + 6))
    requires Fetch(code, w) != Bad && w + Width(Fetch(code, w)) == t + 3 + Len(body)
    ensures ClosesBehind(code, w)
  {
    hide Fetch, Boundary, Starts, LaidOut, Len;
    LeafByte(body, code, t + 3);
    Outside(code, t + 3, w);
  }

  /** The last instruction of a group. */
  lemma GroupLast(e: Re, code: seq<byte>, q: nat, w: nat)
    requires e.Group? && LaidOut(e, code, q) && Starts(code, q) && Starts(code, w) && Fetch(code, w) != Bad
    requires q <= w && w + Width(Fetch(code, w)) == q + Len(e)
    ensures Fetch(code, w).StopMemory? && Fetch(code, w).reg == e.reg
    ensures Fetch(code, q).StartMemory? && Fetch(code, q).reg == e.reg
  {
    hide Fetch, Boundary, Starts, LaidOut, Len;
    var stop := GroupStop(e, code, q);
    if w < stop { Outside(code, w, stop); } else { Outside(code, stop, w); }
  }

  lemma GroupStop(e: Re, code: seq<byte>, q: nat) returns (stop: nat)
    requires e.Group? && LaidOut(e, code, q) && Starts(code, q)
    ensures Starts(code, stop) && stop + 3 == q + Len(e)
    ensures Fetch(code, stop).StopMemory? && Fetch(code, stop).reg == e.reg
    ensures Fetch(code, q).StartMemory? && Fetch(code, q).reg == e.reg
  {
    hide Fetch, Boundary, Starts, LaidOut;
    GroupStarts(e, code, q);
    GroupParts(e, code, q);
    stop := q + 3 + Len(e.body);
    if e.body.Alt? {
      StartsNext(code, stop);
      stop := stop + 1;
    }
  }

  /** The part of the pattern a closing jump belongs to is a loop. */
  lemma ClosedLoop(n: Re, code: seq<byte>, p: nat, x: nat) returns (t: nat)
    requires Starts(code, p) && LaidOut(n, code, p) && Owns(n, p, x) && Fetch(code, x).MaybePopJump?
    ensures n.Repeat? && !n.op.Opt? && Starts(code, t) && LoopAt(n.body, code, t) && x == t + 3 + Len(n.body)
  {
    hide Fetch, Starts, Boundary, LaidOut, LoopAt;
    match n
    case Alt(_, _) => AltParts(code, p, n); assert false;
    case Group(_, _, _) => GroupParts(n, code, p); assert false;
    case Repeat(op, body) =>
      RepeatParts(n, code, p);
      if op.Plus? { StartsNext(code, p); }
      t := if op.Plus? then p + 3 else p;
      if !op.Opt? { LoopParts(body, code, t); }
    case _ => LeafClosed(n, code, p); assert false;
  }
}
