/** The opcodes the matcher overwrites while it runs.

    A `maybe_pop_jump` becomes `pop_failure_jump` or `jump`.  This module shows
    that the choice is fixed by the code as compiled: however much of it has been
    overwritten already, every other instruction reads as before and the choice at
    a jump not yet overwritten comes out the same. */
module Rewriting {
  import opened Octets
  import opened Bytecode

  /** The opcode a closing jump is settled to. */
  function Settled(code: seq<byte>, x: nat): byte {
    if CanPop(code, x) then POP_FAILURE_JUMP else JUMP
  }

  /** `code` is `code0` with some closing jumps settled. */
  ghost predicate Related(code0: seq<byte>, code: seq<byte>) {
    |code| == |code0| &&
    forall i | 0 <= i < |code0| ::
      code[i] == code0[i] ||
      (Starts(code0, i) && Fetch(code0, i).MaybePopJump? && code[i] == Settled(code0, i))
  }

  /** Decoding from the front reaches the end. */
  ghost predicate Whole(code: seq<byte>) {
    Starts(code, |code|)
  }

  lemma WholeFetch(code: seq<byte>, p: nat)
    requires Whole(code) && Starts(code, p) && p < |code|
    ensures Fetch(code, p) != Bad && p + Width(Fetch(code, p)) <= |code|
  {
    hide Fetch;
    NothingInside(code, 0, p, |code|);
  }

  /** Operand bytes are never overwritten. */
  lemma OperandsKept(code0: seq<byte>, code: seq<byte>, p: nat)
    requires Related(code0, code) && Whole(code0) && Starts(code0, p) && p < |code0|
    ensures p + Width(Fetch(code0, p)) <= |code0|
    ensures forall i :: p < i < p + Width(Fetch(code0, p)) ==> code[i] == code0[i]
  {
    hide Fetch;
    WholeFetch(code0, p);
    forall i | p < i < p + Width(Fetch(code0, p))
      ensures code[i] == code0[i]
    {
      if Starts(code0, i) { NothingInside(code0, 0, p, i); }
    }
  }

  /** An instruction reads as compiled, or as the settled form of its closing jump. */
  lemma FetchRelated(code0: seq<byte>, code: seq<byte>, p: nat)
    requires Related(code0, code) && Whole(code0) && Starts(code0, p) && p < |code0|
    ensures Fetch(code0, p) != Bad
    ensures !Fetch(code0, p).MaybePopJump? ==> Fetch(code, p) == Fetch(code0, p)
    ensures Fetch(code0, p).MaybePopJump? ==>
      var off := Fetch(code0, p).off;
      Fetch(code, p) == Fetch(code0, p) ||
      Fetch(code, p) == (if CanPop(code0, p) then PopFailureJump(off) else Jump(off))
  {
    hide CanPop;
    WholeFetch(code0, p);
    OperandsKept(code0, code, p);
    var w := Width(Fetch(code0, p));
    if code[p] == code0[p] {
      if code0[p] == EXACTN || code0[p] == CHARSET || code0[p] == CHARSET_NOT {
        assert code[p + 2..p + w] == code0[p + 2..p + w];
      }
    }
  }

  lemma {:induction false} SkipGroupsRelated(code0: seq<byte>, code: seq<byte>, p: nat)
    requires Related(code0, code) && Whole(code0) && Starts(code0, p)
    ensures SkipGroups(code, p) == SkipGroups(code0, p)
    ensures Starts(code0, SkipGroups(code0, p))
    decreases |code0| - p
  {
    if p < |code0| {
      hide Fetch, CanPop;
      FetchRelated(code0, code, p);
      if Fetch(code0, p).StartMemory? || Fetch(code0, p).StopMemory? {
        StartsNext(code0, p);
        SkipGroupsRelated(code0, code, p + 3);
      }
    }
  }

  /** The choice at a closing jump does not depend on what was overwritten. */
  lemma RelatedLength(code0: seq<byte>, code: seq<byte>)
    requires Related(code0, code)
    ensures |code| == |code0|
  {}

  lemma CanPopRelated(code0: seq<byte>, code: seq<byte>, x: nat)
    requires Related(code0, code) && Whole(code0) && Starts(code0, x) && x < |code0|
    requires Fetch(code0, x).MaybePopJump? && Fetch(code, x) == Fetch(code0, x)
    requires x + 6 + Fetch(code0, x).off >= 0 && Starts(code0, x + 6 + Fetch(code0, x).off)
    ensures CanPop(code, x) == CanPop(code0, x)
  {
    hide Fetch, Boundary, Starts, SkipGroups, Settled, Whole, Related, Bit;
    StartsNext(code0, x);
    SkipGroupsRelated(code0, code, x + 3);
    var p2 := SkipGroups(code0, x + 3);
    var body := x + 6 + Fetch(code0, x).off;
    RelatedLength(code0, code);
    StartAtMost(code0, p2);
    StartAtMost(code0, body);
    NoFetch(code0);
    NoFetch(code);
    if p2 < |code0| {
      FetchRelated(code0, code, p2);
      if body < |code0| { FetchRelated(code0, code, body); }
    }
  }

  /** Settling one more closing jump keeps the relation. */
  lemma SettleRelated(code0: seq<byte>, code: seq<byte>, x: nat)
    requires Related(code0, code) && Starts(code0, x) && x < |code0|
    requires Fetch(code0, x).MaybePopJump?
    ensures Related(code0, code[x := Settled(code0, x)])
  {
    hide Fetch, CanPop, Boundary;
  }

  lemma SelfRelated(code: seq<byte>)
    ensures Related(code, code)
  {}

  lemma SameLength(code0: seq<byte>, code: seq<byte>)
    requires Related(code0, code)
    ensures |code| == |code0|
  {}
}
