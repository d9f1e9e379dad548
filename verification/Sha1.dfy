/** The streaming hash object of `src/sha1.cpp`, proved to give the digest of
    FIPS PUB 180-1 for every message and every way of cutting it into pieces. */
module Sha1 {
  import opened Octets
  import opened Fips180

  const WORD: nat := 0x1_0000_0000
  const TOO_LONG: nat := 0x1_0000_0000_0000_0000

  // ----- the life of a hash object, on values -----

  /** What has been put in since the last reset; asked for its digest, an object
      takes no more; broken, it gives none. */
  datatype Life = Open(message: seq<byte>) | Closed(message: seq<byte>) | Broken

  function Put(life: Life, bytes: seq<byte>): Life {
    if bytes == [] then life
    else if life.Open? && 8 * (|life.message| + |bytes|) < TOO_LONG then Open(life.message + bytes)
    else Broken
  }

  function Finish(life: Life): Life {
    if life.Open? then Closed(life.message) else life
  }

  function PutAll(life: Life, pieces: seq<seq<byte>>): Life {
    if |pieces| == 0 then life else Put(PutAll(life, pieces[..|pieces| - 1]), pieces[|pieces| - 1])
  }

  function Joined(pieces: seq<seq<byte>>): seq<byte> {
    if |pieces| == 0 then [] else Joined(pieces[..|pieces| - 1]) + pieces[|pieces| - 1]
  }

  /** Cutting a message into pieces changes nothing. */
  lemma {:induction false} PiecesDoNotMatter(m: seq<byte>, pieces: seq<seq<byte>>)
    requires 8 * |m| < TOO_LONG
    ensures PutAll(Open(m), pieces) == Put(Open(m), Joined(pieces))
    decreases |pieces|
  {
    if |pieces| > 0 {
      var n := |pieces| - 1;
      PiecesDoNotMatter(m, pieces[..n]);
      assert m + (Joined(pieces[..n]) + pieces[n]) == (m + Joined(pieces[..n])) + pieces[n];
      if Joined(pieces[..n]) == [] { assert Joined(pieces) == pieces[n]; }
      if pieces[n] == [] { assert Joined(pieces) == Joined(pieces[..n]); }
    }
  }

  /** Once broken, or closed and put into, always broken. */
  lemma {:induction false} BrokenStays(life: Life, pieces: seq<seq<byte>>)
    requires !life.Open?
    ensures PutAll(life, pieces) == if Joined(pieces) == [] then life else Broken
    decreases |pieces|
  {
    if |pieces| > 0 {
      BrokenStays(life, pieces[..|pieces| - 1]);
    }
  }

  // ----- CircularShift -----

  /** Defined, as in C, for shifts that are shorter than the word both ways. */
  function CircularShift(bits: nat, w: word): (r: word)
    requires 0 < bits < 32
    ensures r == S(bits, w)
  {
    ((w << bits) & 0xFFFFFFFF) | ((w & 0xFFFFFFFF) >> (32 - bits))
  }

  class SHA1 {
    const H: array<word>
    var lengthLow: nat
    var lengthHigh: nat
    const messageBlock: array<byte>
    var messageBlockIndex: nat
    var computed: bool
    var corrupted: bool
    ghost var life: Life

    ghost predicate Shape()
      reads `messageBlockIndex
    {
      H.Length == 5 && messageBlock.Length == 64 && messageBlockIndex < 64
    }

    ghost function Hashed(): Hash
      requires H.Length == 5
      reads H
    {
      Hash(H[0], H[1], H[2], H[3], H[4])
    }

    /** The whole blocks of `m` are hashed, the rest is in the block. */
    ghost predicate Streaming(m: seq<byte>)
      requires Shape()
      reads `lengthLow, `lengthHigh, `messageBlockIndex, H, messageBlock
    {
      && 8 * |m| < TOO_LONG && messageBlockIndex == |m| % 64
      && lengthLow < WORD && lengthHigh < WORD && lengthHigh * WORD + lengthLow == 8 * |m|
      && messageBlock[..messageBlockIndex] == m[|m| - messageBlockIndex..]
      && Hashed() == Chain(m[..|m| - messageBlockIndex])
    }

    ghost predicate Valid()
      reads this, H, messageBlock
    {
      && Shape() && corrupted == life.Broken? && (!corrupted ==> computed == life.Closed?)
      && match life
         case Open(m) => Streaming(m)
         case Closed(m) => Hashed() == Digest(m)
         case Broken => true
    }

    constructor ()
      ensures Valid() && life == Open([]) && fresh(H) && fresh(messageBlock)
    {
      H := new word[5](_ => 0);
      messageBlock := new byte[64](_ => 0);
      messageBlockIndex := 0;
      new;
      Reset();
    }

    /** From any state, as a fresh object. */
    method Reset()
      requires H.Length == 5 && messageBlock.Length == 64
      modifies this, H
      ensures Valid() && life == Open([])
    {
      hide Chain, Compress, Digest;
      ChainEmpty();
      lengthLow, lengthHigh, messageBlockIndex := 0, 0, 0;
      H[0], H[1], H[2], H[3], H[4] := 0x67452301, 0xEFCDAB89, 0x98BADCFE, 0x10325476, 0xC3D2E1F0;
      computed, corrupted := false, false;
      life := Open([]);
    }

    /** The digest, or failure; asking again gives the same. */
    method Result() returns (ok: bool, digest: Hash)
      requires Valid()
      modifies this, H, messageBlock
      ensures Valid() && life == Finish(old(life))
      ensures ok == !old(life).Broken? && (ok ==> life == Closed(old(life).message) && digest == Digest(old(life).message))
    {
      digest := INITIAL;
      if corrupted { return false, digest; }
      if !computed {
        PadMessage(life.message);
        computed := true;
        life := Finish(life);
      }
      return true, Hash(H[0], H[1], H[2], H[3], H[4]);
    }

    /** The next part of the message. */
    method Input(bytes: seq<byte>)
      requires Valid()
      modifies this, H, messageBlock
      ensures Valid() && life == Put(old(life), bytes)
      ensures life == if bytes == [] then old(life)
                      else if old(life).Open? && 8 * (|old(life).message| + |bytes|) < 0x1_0000_0000_0000_0000
                      then Open(old(life).message + bytes) else Broken
    {
      hide Chain, Compress, Digest, Streaming;
      if |bytes| == 0 { return; }
      if computed || corrupted {
        corrupted := true;
        life := Broken;
        return;
      }
      ghost var m := life.message;
      var i := 0;
      Pieces(m, bytes, 0);
      while i < |bytes| && !corrupted
        invariant 0 <= i <= |bytes| && Shape() && !computed && life == Open(m)
        invariant !corrupted ==> Streaming(m + bytes[..i])
        invariant corrupted ==> 8 * (|m| + |bytes|) >= TOO_LONG
        decreases |bytes| - i
      {
        Pieces(m, bytes, i);
        PutByte(bytes[i], m + bytes[..i]);
        i := i + 1;
      }
      Pieces(m, bytes, |bytes|);
      if !corrupted { StreamingShort(m + bytes); }
      life := Put(life, bytes);
    }

    lemma StreamingShort(m: seq<byte>)
      requires Shape() && Streaming(m)
      ensures 8 * |m| < TOO_LONG
    {}

    /** One turn of the loop of `Input`. */
    method PutByte(b: byte, ghost m: seq<byte>)
      requires Shape() && Streaming(m) && !corrupted
      modifies this`lengthLow, this`lengthHigh, this`messageBlockIndex, this`corrupted, H, messageBlock
      ensures Shape() && corrupted == (8 * (|m| + 1) >= TOO_LONG)
      ensures !corrupted ==> Streaming(m + [b])
    {
      hide Compress, Chain;
      OneByteMore(m, b, messageBlockIndex);
      messageBlock[messageBlockIndex] := b;
      messageBlockIndex := messageBlockIndex + 1;
      CountByte(m);
      assert messageBlock[..messageBlockIndex] == old(messageBlock[..messageBlockIndex]) + [b];
      if messageBlockIndex == 64 { BlockFull(m, b); }
    }

    /** The block is complete: hash it. */
    method BlockFull(ghost m: seq<byte>, ghost b: byte)
      requires H.Length == 5 && messageBlock.Length == 64 && |m| % 64 == 63
      requires messageBlock[..64] == (m + [b])[|m| - 63..] && Hashed() == Chain(m[..|m| - 63])
      modifies this`messageBlockIndex, H
      ensures messageBlockIndex == 0 && Hashed() == Chain((m + [b])[..|m| + 1])
    {
      hide Compress, Chain;
      ghost var whole := m[..|m| - 63];
      assert messageBlock[..] == messageBlock[..64];
      ProcessMessageBlock();
      ChainSnoc(whole, messageBlock[..]);
      assert (m + [b])[..|m| + 1] == whole + messageBlock[..];
    }

    /** Eight more bits in the length, kept in two words. */
    method CountByte(ghost m: seq<byte>)
      requires lengthLow < WORD && lengthHigh < WORD && lengthHigh * WORD + lengthLow == 8 * |m| < TOO_LONG && !corrupted
      modifies this`lengthLow, this`lengthHigh, this`corrupted
      ensures lengthLow < WORD && lengthHigh < WORD
      ensures corrupted == (8 * (|m| + 1) >= TOO_LONG)
      ensures !corrupted ==> lengthHigh * WORD + lengthLow == 8 * (|m| + 1)
    {
      WholeBytes(lengthHigh, lengthLow, |m|);
      lengthLow := (lengthLow + 8) % WORD;
      if lengthLow == 0 {
        lengthHigh := (lengthHigh + 1) % WORD;
        if lengthHigh == 0 { corrupted := true; }
      }
    }

    // ----- the compression -----

    /** Four bytes of the block as a word. */
    method LoadWord(t: nat) returns (x: word)
      requires messageBlock.Length == 64 && t < 16
      ensures x == BlockWord(messageBlock[..], t)
    {
      x := (messageBlock[t * 4] as word) << 24;
      x := x | ((messageBlock[t * 4 + 1] as word) << 16);
      x := x | ((messageBlock[t * 4 + 2] as word) << 8);
      x := x | (messageBlock[t * 4 + 3] as word);
    }

    /** The word sequence of the block. */
    method Schedule() returns (w: array<word>)
      requires messageBlock.Length == 64
      ensures fresh(w) && w.Length == 80 && forall t | 0 <= t < 80 :: w[t] == W(messageBlock[..], t)
    {
      hide W, BlockWord, S;
      ghost var block := messageBlock[..];
      w := new word[80](_ => 0);
      for t := 0 to 16
        invariant forall i | 0 <= i < t :: w[i] == W(block, i)
      {
        WFirst(block, t);
        w[t] := LoadWord(t);
      }
      for t := 16 to 80
        invariant forall i | 0 <= i < t :: w[i] == W(block, i)
      {
        WNext(block, t);
        w[t] := CircularShift(1, w[t - 3] ^ w[t - 8] ^ w[t - 14] ^ w[t - 16]);
      }
    }

    /** Rounds 0 to 19. */
    method Rounds0(w: seq<word>, s: Hash, ghost h: Hash, ghost block: Block) returns (r: Hash)
      requires |w| == 80 && (forall t | 0 <= t < 80 :: w[t] == W(block, t)) && s == Rounds(h, block, 0)
      ensures r == Rounds(h, block, 20)
    {
      hide W, Rounds, S, F, K, Plus;
      var A, B, C, D, E := s.a, s.b, s.c, s.d, s.e;
      for t := 0 to 20
        invariant Hash(A, B, C, D, E) == Rounds(h, block, t)
      {
        RoundsNext(h, block, t);
        Stage(t, B, C, D);
        var temp := Plus(CircularShift(5, A), (B & C) | (!B & D), E, w[t], 0x5A827999);
        E := D;
        D := C;
        C := CircularShift(30, B);
        B := A;
        A := temp;
      }
      return Hash(A, B, C, D, E);
    }

    /** Rounds 20 to 39. */
    method Rounds20(w: seq<word>, s: Hash, ghost h: Hash, ghost block: Block) returns (r: Hash)
      requires |w| == 80 && (forall t | 0 <= t < 80 :: w[t] == W(block, t)) && s == Rounds(h, block, 20)
      ensures r == Rounds(h, block, 40)
    {
      hide W, Rounds, S, F, K, Plus;
      var A, B, C, D, E := s.a, s.b, s.c, s.d, s.e;
      for t := 20 to 40
        invariant Hash(A, B, C, D, E) == Rounds(h, block, t)
      {
        RoundsNext(h, block, t);
        Stage(t, B, C, D);
        var temp := Plus(CircularShift(5, A), B ^ C ^ D, E, w[t], 0x6ED9EBA1);
        E := D;
        D := C;
        C := CircularShift(30, B);
        B := A;
        A := temp;
      }
      return Hash(A, B, C, D, E);
    }

    /** Rounds 40 to 59. */
    method Rounds40(w: seq<word>, s: Hash, ghost h: Hash, ghost block: Block) returns (r: Hash)
      requires |w| == 80 && (forall t | 0 <= t < 80 :: w[t] == W(block, t)) && s == Rounds(h, block, 40)
      ensures r == Rounds(h, block, 60)
    {
      hide W, Rounds, S, F, K, Plus;
      var A, B, C, D, E := s.a, s.b, s.c, s.d, s.e;
      for t := 40 to 60
        invariant Hash(A, B, C, D, E) == Rounds(h, block, t)
      {
        RoundsNext(h, block, t);
        Stage(t, B, C, D);
        var temp := Plus(CircularShift(5, A), (B & C) | (B & D) | (C & D), E, w[t], 0x8F1BBCDC);
        E := D;
        D := C;
        C := CircularShift(30, B);
        B := A;
        A := temp;
      }
      return Hash(A, B, C, D, E);
    }

    /** Rounds 60 to 79. */
    method Rounds60(w: seq<word>, s: Hash, ghost h: Hash, ghost block: Block) returns (r: Hash)
      requires |w| == 80 && (forall t | 0 <= t < 80 :: w[t] == W(block, t)) && s == Rounds(h, block, 60)
      ensures r == Rounds(h, block, 80)
    {
      hide W, Rounds, S, F, K, Plus;
      var A, B, C, D, E := s.a, s.b, s.c, s.d, s.e;
      for t := 60 to 80
        invariant Hash(A, B, C, D, E) == Rounds(h, block, t)
      {
        RoundsNext(h, block, t);
        Stage(t, B, C, D);
        var temp := Plus(CircularShift(5, A), B ^ C ^ D, E, w[t], 0xCA62C1D6);
        E := D;
        D := C;
        C := CircularShift(30, B);
        B := A;
        A := temp;
      }
      return Hash(A, B, C, D, E);
    }

    /** The 80 rounds, 20 for each function, and the sum. */
    method ProcessMessageBlock()
      requires H.Length == 5 && messageBlock.Length == 64
      modifies this`messageBlockIndex, H
      ensures Hashed() == Compress(old(Hashed()), messageBlock[..]) && messageBlockIndex == 0
    {
      hide W, Rounds, S, F, K, Plus, Added;
      var schedule := Schedule();
      var w := schedule[..];
      ghost var h, block := Hashed(), messageBlock[..];
      RoundsNone(h, block);
      var r := Rounds0(w, Hash(H[0], H[1], H[2], H[3], H[4]), h, block);
      r := Rounds20(w, r, h, block);
      r := Rounds40(w, r, h, block);
      r := Rounds60(w, r, h, block);
      AddToHash(r);
      messageBlockIndex := 0;
    }

    method AddToHash(r: Hash)
      requires H.Length == 5
      modifies H
      ensures Hashed() == Added(old(Hashed()), r)
    {
      hide Add;
      H[0] := Add(H[0], r.a);
      H[1] := Add(H[1], r.b);
      H[2] := Add(H[2], r.c);
      H[3] := Add(H[3], r.d);
      H[4] := Add(H[4], r.e);
    }

    // ----- the padding -----

    /** Zero bytes from the index up to `end`. */
    method FillZeros(end: nat)
      requires messageBlock.Length == 64 && messageBlockIndex <= end <= 64
      modifies this`messageBlockIndex, messageBlock
      ensures messageBlockIndex == end
      ensures messageBlock[..end] == old(messageBlock[..messageBlockIndex]) + ZeroBytes(end - old(messageBlockIndex))
    {
      ghost var start := messageBlockIndex;
      while messageBlockIndex < end
        invariant start <= messageBlockIndex <= end
        invariant forall i | 0 <= i < start :: messageBlock[i] == old(messageBlock[i])
        invariant forall i | start <= i < messageBlockIndex :: messageBlock[i] == 0
      {
        messageBlock[messageBlockIndex] := 0;
        messageBlockIndex := messageBlockIndex + 1;
      }
    }

    /** The length in the last eight bytes. */
    method StoreLength(ghost bits: nat)
      requires messageBlock.Length == 64
      requires lengthLow < WORD && lengthHigh < WORD && lengthHigh * WORD + lengthLow == bits
      modifies messageBlock
      ensures messageBlock[..] == old(messageBlock[..56]) + BigEndian(bits, 8)
    {
      hide BigEndian;
      messageBlock[56] := lengthHigh / 0x100_0000 % 256;
      messageBlock[57] := lengthHigh / 0x1_0000 % 256;
      messageBlock[58] := lengthHigh / 0x100 % 256;
      messageBlock[59] := lengthHigh % 256;
      messageBlock[60] := lengthLow / 0x100_0000 % 256;
      messageBlock[61] := lengthLow / 0x1_0000 % 256;
      messageBlock[62] := lengthLow / 0x100 % 256;
      messageBlock[63] := lengthLow % 256;
      LengthBytes(lengthHigh, lengthLow);
      LengthStored(old(messageBlock[..]), messageBlock[..], BigEndian(bits, 8));
    }

    /** The 1 bit behind the message, and zeros up to `end`. */
    method PutOneBit(end: nat, ghost tail: seq<byte>)
      requires Shape() && messageBlock[..messageBlockIndex] == tail && |tail| < end <= 64
      modifies this`messageBlockIndex, messageBlock
      ensures messageBlockIndex == end && messageBlock[..end] == tail + [0x80] + ZeroBytes(end - |tail| - 1)
    {
      messageBlock[messageBlockIndex] := 0x80;
      messageBlockIndex := messageBlockIndex + 1;
      assert messageBlock[..messageBlockIndex] == tail + [0x80];
      FillZeros(end);
    }

    /** The first of two blocks, when the length does not fit behind the message. */
    method SpillBlock(ghost whole: seq<byte>, ghost tail: seq<byte>)
      requires Shape() && 55 < messageBlockIndex == |tail| && messageBlock[..messageBlockIndex] == tail
      requires |whole| % 64 == 0 && Hashed() == Chain(whole)
      modifies this`messageBlockIndex, H, messageBlock
      ensures Shape() && messageBlockIndex == 56 && messageBlock[..56] == ZeroBytes(56)
      ensures var done := whole + (tail + [0x80] + ZeroBytes(63 - |tail|));
        |done| % 64 == 0 && Hashed() == Chain(done)
    {
      hide Compress, Chain, ZeroBytes;
      PutOneBit(64, tail);
      ghost var first := messageBlock[..];
      assert first == messageBlock[..64];
      ProcessMessageBlock();
      ChainSnoc(whole, first);
      FillZeros(56);
    }

    /** `PadMessage`: into this block, or spilling into another. */
    method PadMessage(ghost m: seq<byte>)
      requires Shape() && Streaming(m)
      modifies this`messageBlockIndex, H, messageBlock
      ensures Shape() && Hashed() == Digest(m)
    {
      hide Compress, Chain, Digest, Pad, BigEndian, Zeros, ZeroBytes;
      ghost var index := messageBlockIndex;
      ghost var whole, tail := m[..|m| - index], m[|m| - index..];
      ghost var done := whole;
      if messageBlockIndex > 55 {
        SpillBlock(whole, tail);
        StoreLength(8 * |m|);
        done := whole + (tail + [0x80] + ZeroBytes(63 - index));
        PadSpilled(m, index, tail + [0x80] + ZeroBytes(63 - index), messageBlock[..]);
      } else {
        PutOneBit(56, tail);
        StoreLength(8 * |m|);
        PadHere(m, index, messageBlock[..]);
      }
      ChainSnoc(done, messageBlock[..]);
      ProcessMessageBlock();
      DigestIs(m);
    }
  }

  lemma OneByteMore(m: seq<byte>, b: byte, index: nat)
    requires index == |m| % 64
    ensures (m + [b])[|m| - index..] == m[|m| - index..] + [b] && (m + [b])[..|m| - index] == m[..|m| - index]
    ensures (|m| + 1) % 64 == if index == 63 then 0 else index + 1
  {}

  lemma ChainEmpty()
    ensures Chain([]) == INITIAL
  {}

  lemma DigestIs(m: seq<byte>)
    ensures Digest(m) == Chain(Pad(m))
  {}

  lemma WFirst(block: Block, t: nat)
    requires t < 16
    ensures W(block, t) == BlockWord(block, t)
  {
    hide BlockWord, S;
  }

  lemma WNext(block: Block, t: nat)
    requires 16 <= t < 80
    ensures W(block, t) == S(1, W(block, t - 3) ^ W(block, t - 8) ^ W(block, t - 14) ^ W(block, t - 16))
  {
    hide BlockWord, S;
  }

  lemma RoundsNone(h: Hash, block: Block)
    ensures Rounds(h, block, 0) == h
  {}

  lemma RoundsNext(h: Hash, block: Block, t: nat)
    requires t < 80
    ensures Rounds(h, block, t + 1) == Round(Rounds(h, block, t), t, W(block, t))
  {
    hide W, Round;
  }

  /** The function and the constant of each stage. */
  lemma Stage(t: nat, b: word, c: word, d: word)
    ensures t < 20 ==> F(t, b, c, d) == Choice(b, c, d) && K(t) == 0x5A827999
    ensures 20 <= t < 40 ==> F(t, b, c, d) == Parity(b, c, d) && K(t) == 0x6ED9EBA1
    ensures 40 <= t < 60 ==> F(t, b, c, d) == Majority(b, c, d) && K(t) == 0x8F1BBCDC
    ensures 60 <= t < 80 ==> F(t, b, c, d) == Parity(b, c, d) && K(t) == 0xCA62C1D6
  {
    hide Choice, Parity, Majority;
  }

  /** How many zeros the padding has, from where the message ends in its block. */
  lemma PadParts(m: seq<byte>, index: nat)
    requires index == |m| % 64
    ensures Zeros(|m|) == if index > 55 then 119 - index else 55 - index
  {}

  /** The padding in the block the message ends in. */
  lemma PadHere(m: seq<byte>, index: nat, block: Block)
    requires index == |m| % 64 <= 55
    requires block == m[|m| - index..] + [0x80] + ZeroBytes(55 - index) + BigEndian(8 * |m|, 8)
    ensures m[..|m| - index] + block == Pad(m)
  {
    hide BigEndian, Zeros, ZeroBytes, Pad;
    PadParts(m, index);
    TwoParts(m, |m| - index);
    PadJoins(m[..|m| - index], m[|m| - index..], 55 - index);
  }

  lemma PadJoins(front: seq<byte>, tail: seq<byte>, n: nat)
    requires n == Zeros(|front + tail|)
    ensures front + (tail + [0x80] + ZeroBytes(n) + BigEndian(8 * |front + tail|, 8)) == Pad(front + tail)
  {
    hide BigEndian, Zeros, ZeroBytes, Pad;
    PadIs(front + tail);
    Regroup(front, tail, [0x80], ZeroBytes(n), [], BigEndian(8 * |front + tail|, 8));
  }

  lemma PadSpills(front: seq<byte>, tail: seq<byte>, n: nat)
    requires n + 56 == Zeros(|front + tail|)
    ensures front + (tail + [0x80] + ZeroBytes(n)) + (ZeroBytes(56) + BigEndian(8 * |front + tail|, 8))
         == Pad(front + tail)
  {
    hide BigEndian, Zeros, ZeroBytes, Pad;
    PadIs(front + tail);
    MoreZeros(n, 56);
    Regroup(front, tail, [0x80], ZeroBytes(n), ZeroBytes(56), BigEndian(8 * |front + tail|, 8));
  }

  lemma Regroup(a: seq<byte>, b: seq<byte>, c: seq<byte>, y: seq<byte>, z: seq<byte>, e: seq<byte>)
    ensures a + (b + c + y) + (z + e) == (a + b) + c + (y + z) + e
    ensures a + (b + c + y + e) == (a + b) + c + y + e
  {}

  /** The padding spilling over into a second block. */
  lemma LengthStored(was: seq<byte>, now: seq<byte>, length: seq<byte>)
    requires |was| == |now| == 64 && |length| == 8
    requires forall i | 0 <= i < 56 :: now[i] == was[i]
    requires forall i | 56 <= i < 64 :: now[i] == length[i - 56]
    ensures now == was[..56] + length
  {}

  lemma TwoParts(s: seq<byte>, k: nat)
    requires k <= |s|
    ensures s == s[..k] + s[k..]
  {}

  lemma Pieces(m: seq<byte>, bytes: seq<byte>, i: nat)
    requires i <= |bytes|
    ensures m + bytes[..0] == m && m + bytes[..|bytes|] == m + bytes
    ensures i < |bytes| ==> m + bytes[..i + 1] == (m + bytes[..i]) + [bytes[i]]
  {
    if i < |bytes| { assert bytes[..i + 1] == bytes[..i] + [bytes[i]]; }
  }

  lemma MoreZeros(a: nat, b: nat)
    ensures ZeroBytes(a) + ZeroBytes(b) == ZeroBytes(a + b)
  {}

  lemma PadSpilled(m: seq<byte>, index: nat, first: Block, second: Block)
    requires index == |m| % 64 > 55
    requires first == m[|m| - index..] + [0x80] + ZeroBytes(63 - index)
    requires second == ZeroBytes(56) + BigEndian(8 * |m|, 8)
    ensures m[..|m| - index] + first + second == Pad(m)
  {
    hide BigEndian, Zeros, ZeroBytes, Pad;
    PadParts(m, index);
    TwoParts(m, |m| - index);
    PadSpills(m[..|m| - index], m[|m| - index..], 63 - index);
  }

  lemma PadIs(m: seq<byte>)
    ensures Pad(m) == m + [0x80] + ZeroBytes(Zeros(|m|)) + BigEndian(8 * |m|, 8)
  {}

  /** Four bytes off the end. */
  lemma FourBytes(n: nat, k: nat)
    ensures BigEndian(n, k + 4) ==
      BigEndian(n / 256 / 256 / 256 / 256, k) + [n / 256 / 256 / 256 % 256, n / 256 / 256 % 256, n / 256 % 256, n % 256]
  {
    var n1, n2, n3 := n / 256, n / 256 / 256, n / 256 / 256 / 256;
    assert BigEndian(n3, k + 1) == BigEndian(n3 / 256, k) + [n3 % 256];
    assert BigEndian(n2, k + 2) == BigEndian(n3, k + 1) + [n2 % 256];
    assert BigEndian(n1, k + 3) == BigEndian(n2, k + 2) + [n1 % 256];
    assert BigEndian(n, k + 4) == BigEndian(n1, k + 3) + [n % 256];
  }

  lemma Quotients(n: nat)
    ensures n / 256 / 256 == n / 0x1_0000 && n / 256 / 256 / 256 == n / 0x100_0000
  {}

  /** The bytes of the two words are those of the length. */
  lemma LengthBytes(high: nat, low: nat)
    requires high < WORD && low < WORD
    ensures BigEndian(high * WORD + low, 8) ==
      [high / 0x100_0000 % 256, high / 0x1_0000 % 256, high / 0x100 % 256, high % 256,
       low / 0x100_0000 % 256, low / 0x1_0000 % 256, low / 0x100 % 256, low % 256]
  {
    hide BigEndian;
    var n := high * WORD + low;
    FourBytes(n, 4);
    FourBytes(high, 0);
    LowBytes(high, low);
    Quotients(high);
    NoBytes(high / 256 / 256 / 256 / 256);
  }

  lemma NoBytes(n: nat)
    ensures BigEndian(n, 0) == []
  {}

  lemma LowBytes(high: nat, low: nat)
    requires low < WORD
    ensures var n := high * WORD + low;
      && n / 256 / 256 / 256 / 256 == high
      && n / 256 / 256 / 256 % 256 == low / 0x100_0000 % 256 && n / 256 / 256 % 256 == low / 0x1_0000 % 256
      && n / 256 % 256 == low / 0x100 % 256 && n % 256 == low % 256
  {
    ByteOff(high * 0x100_0000, low);
    ByteOff(high * 0x1_0000, low / 256);
    ByteOff(high * 0x100, low / 256 / 256);
    ByteOff(high, low / 256 / 256 / 256);
    Quotients(low);
  }

  /** The lowest byte. */
  lemma ByteOff(high: nat, low: nat)
    ensures (high * 256 + low) / 256 == high + low / 256 && (high * 256 + low) % 256 == low % 256
  {}

  /** The low word counts whole bytes, so that it wraps to zero only. */
  lemma WholeBytes(high: nat, low: nat, n: nat)
    requires low < WORD && high * WORD + low == 8 * n
    ensures low + 8 <= WORD && (low + 8) % WORD == if low + 8 == WORD then 0 else low + 8
  {
    assert low == 8 * (n - high * 0x2000_0000);
  }
}
