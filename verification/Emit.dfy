/** The bytes in the compiler's buffer, for what it has read so far.

    Each open group contributes the code of its finished alternatives, a hole of
    three bytes where the last of them will jump past the rest, the branch being
    read, and its `start_memory`. */
module Emit {
  import opened Octets
  import opened RegexLang
  import opened Bytecode
  import opened Codegen
  import opened Parse

  /** Finished alternatives, up to the hole after the last of them. */
  function AltsPrefix(alts: seq<Re>): seq<byte> {
    if |alts| == 0 then []
    else
      var n := |alts| - 1;
      (if n == 0 then [] else AltsPrefix(alts[..n]) + Op1(JUMP_PAST_ALT, 3 + Len(alts[n]))) +
      Op1(ON_FAILURE_JUMP, Len(alts[n]) + 3) + Bytes(alts[n])
  }

  function AltsBytes(alts: seq<Re>, hole: seq<byte>): seq<byte> {
    if |alts| == 0 then [] else AltsPrefix(alts) + hole
  }

  function LevelBytes(l: Level, hole: seq<byte>): seq<byte> {
    AltsBytes(l.alts, hole) + Bytes(l.front) + Bytes(l.last)
  }

  function OuterBytes(outer: seq<Open>, holes: seq<seq<byte>>): seq<byte>
    requires |holes| == |outer|
  {
    if |outer| == 0 then []
    else
      var n := |outer| - 1;
      OuterBytes(outer[..n], holes[..n]) + LevelBytes(outer[n].level, holes[n]) + GroupOpen(outer[n].reg, 0)
  }

  lemma {:induction false} AltOfSnoc(alts: seq<Re>, a: Re, c: Re)
    ensures AltOf(alts + [a], c) == AltOf(alts, Alt(a, c))
    decreases |alts|
  {
    if |alts| > 0 {
      assert (alts + [a])[1..] == alts[1..] + [a];
      AltOfSnoc(alts[1..], a, c);
    } else {
      assert (alts + [a])[1..] == [];
    }
  }

  /** Filling the last hole turns the buffer's alternatives into the code of the
      alternation. */
  lemma {:induction false} AltOfBytes(alts: seq<Re>, c: Re)
    requires |alts| > 0
    ensures Bytes(AltOf(alts, c)) == AltsPrefix(alts) + Op1(JUMP_PAST_ALT, PastAlt(c)) + Bytes(c)
    decreases |alts|
  {
    hide Op1, Bytes, AltOf, Len, AltsPrefix, PastAlt;
    var n := |alts| - 1;
    var a := alts[n];
    assert alts == alts[..n] + [a];
    AltOfSnoc(alts[..n], a, c);
    AltBytes(a, c);
    AltsPrefixSnoc(alts[..n], a);
    var fail, past := Op1(ON_FAILURE_JUMP, Len(a) + 3), Op1(JUMP_PAST_ALT, PastAlt(c));
    if n > 0 {
      AltOfBytes(alts[..n], Alt(a, c));
      Regroup(AltsPrefix(alts[..n]) + Op1(JUMP_PAST_ALT, 3 + Len(a)), fail, Bytes(a), past, Bytes(c));
    } else {
      assert [] + fail == fail;
      AltOfNone(Alt(a, c));
    }
  }

  lemma AltBytes(a: Re, c: Re)
    ensures Bytes(Alt(a, c)) ==
            Op1(ON_FAILURE_JUMP, Len(a) + 3) + Bytes(a) + Op1(JUMP_PAST_ALT, PastAlt(c)) + Bytes(c)
    ensures PastAlt(Alt(a, c)) == 3 + Len(a)
  {
    hide Op1, Len;
  }

  lemma AltOfNone(c: Re)
    ensures AltOf([], c) == c
  {}

  lemma Regroup(x: seq<byte>, a: seq<byte>, b: seq<byte>, c: seq<byte>, d: seq<byte>)
    ensures x + (a + b + c + d) == x + a + b + c + d
  {}

  lemma BranchBytes(l: Level)
    ensures Bytes(BranchRe(l)) == Bytes(l.front) + Bytes(l.last)
    ensures Len(BranchRe(l)) == Len(l.front) + Len(l.last)
  {}

  /** One more alternative finished. */
  lemma AltsPrefixSnoc(alts: seq<Re>, a: Re)
    ensures AltsPrefix(alts + [a]) ==
      AltsBytes(alts, Op1(JUMP_PAST_ALT, 3 + Len(a))) + Op1(ON_FAILURE_JUMP, Len(a) + 3) + Bytes(a)
  {
    hide Op1, Len, Bytes;
    assert (alts + [a])[..|alts|] == alts;
    assert (alts + [a])[|alts|] == a;
  }

  lemma OuterSnoc(outer: seq<Open>, holes: seq<seq<byte>>, o: Open, hole: seq<byte>)
    requires |holes| == |outer|
    ensures OuterBytes(outer + [o], holes + [hole]) ==
      OuterBytes(outer, holes) + LevelBytes(o.level, hole) + GroupOpen(o.reg, 0)
  {
    assert (outer + [o])[..|outer|] == outer;
    assert (holes + [hole])[..|outer|] == holes;
  }
}
