/** SHA-1 as FIPS PUB 180-1 defines it, sections 4 to 7, on messages of whole bytes. */
module Fips180 {
  import opened Octets

  type word = bv32

  datatype Hash = Hash(a: word, b: word, c: word, d: word, e: word)

  /** S^n(X) of section 3: shift left, and put what is shifted out in on the right. */
  function S(n: nat, x: word): word
    requires n < 32
  {
    (x << n) | (x >> (32 - n))
  }

  // ----- section 4: padding -----

  /** `n` as `k` bytes, the highest first. */
  function BigEndian(n: nat, k: nat): (b: seq<byte>)
    ensures |b| == k
  {
    if k == 0 then [] else BigEndian(n / 256, k - 1) + [n % 256]
  }

  function Value(b: seq<byte>): nat {
    if |b| == 0 then 0 else 256 * Value(b[..|b| - 1]) + b[|b| - 1]
  }

  function Power256(k: nat): nat {
    if k == 0 then 1 else 256 * Power256(k - 1)
  }

  lemma {:induction false} BigEndianValue(n: nat, k: nat)
    requires n < Power256(k)
    ensures Value(BigEndian(n, k)) == n
    decreases k
  {
    if k > 0 {
      BigEndianValue(n / 256, k - 1);
      assert BigEndian(n, k)[..k - 1] == BigEndian(n / 256, k - 1);
    }
  }

  /** Zero bytes between the 1 bit and the length. */
  function Zeros(size: nat): (z: nat)
    ensures z < 64 && (size + 9 + z) % 64 == 0
  {
    (119 - size % 64) % 64
  }

  function ZeroBytes(n: nat): (z: seq<byte>)
    ensures |z| == n && forall i | 0 <= i < n :: z[i] == 0
  {
    seq(n, _ => 0)
  }

  /** The message with a 1 bit, zeros, and its length in bits as 64 bits. */
  function Pad(m: seq<byte>): (p: seq<byte>)
    ensures |p| % 64 == 0 && |p| == |m| + 9 + Zeros(|m|)
  {
    m + [0x80] + ZeroBytes(Zeros(|m|)) + BigEndian(8 * |m|, 8)
  }

  /** No fewer bytes would do. */
  lemma PadLeast(m: seq<byte>, n: nat)
    requires n % 64 == 0 && n >= |m| + 9
    ensures |Pad(m)| <= n
  {
    hide Pad, Zeros;
    var j, k := |Pad(m)| / 64, n / 64;
    assert |Pad(m)| == 64 * j && n == 64 * k && 64 * j < 64 * k + 64;
  }

  lemma PadTail(m: seq<byte>)
    ensures |Pad(m)| >= 8 && Pad(m)[|Pad(m)| - 8..] == BigEndian(8 * |m|, 8)
    ensures Pad(m)[..|m|] == m
  {
    var front := m + [0x80] + ZeroBytes(Zeros(|m|));
    assert Pad(m) == front + BigEndian(8 * |m|, 8);
  }

  lemma LengthFits(size: nat)
    requires 8 * size < 0x1_0000_0000_0000_0000
    ensures 8 * size < Power256(8)
  {
    assert Power256(8) == 256 * Power256(7) == 65536 * Power256(6) == 0x100_0000 * Power256(5);
    assert Power256(5) == 256 * Power256(4) == 65536 * Power256(3) == 0x100_0000 * Power256(2);
    assert Power256(2) == 65536;
  }

  /** The padded stream has come from one message only. */
  lemma PadInjective(m1: seq<byte>, m2: seq<byte>)
    requires 8 * |m1| < 0x1_0000_0000_0000_0000 && 8 * |m2| < 0x1_0000_0000_0000_0000
    requires Pad(m1) == Pad(m2)
    ensures m1 == m2
  {
    PadTail(m1);
    PadTail(m2);
    LengthFits(|m1|);
    LengthFits(|m2|);
    BigEndianValue(8 * |m1|, 8);
    BigEndianValue(8 * |m2|, 8);
    assert |m1| == |m2|;
  }

  // ----- sections 5 and 6: functions and constants -----

  function Choice(b: word, c: word, d: word): word {
    (b & c) | (!b & d)
  }

  function Parity(b: word, c: word, d: word): word {
    b ^ c ^ d
  }

  function Majority(b: word, c: word, d: word): word {
    (b & c) | (b & d) | (c & d)
  }

  /** The first function takes each bit of `c` where `b` has a 1, and of `d` where it
      has a 0. */
  lemma ChoiceSelects(b: word, c: word, d: word)
    ensures Choice(b, c, d) & b == c & b
    ensures Choice(b, c, d) & !b == d & !b
  {}

  function F(t: nat, b: word, c: word, d: word): word {
    if t < 20 then Choice(b, c, d)
    else if t < 40 then Parity(b, c, d)
    else if t < 60 then Majority(b, c, d)
    else Parity(b, c, d)
  }

  function K(t: nat): word {
    if t < 20 then 0x5A827999
    else if t < 40 then 0x6ED9EBA1
    else if t < 60 then 0x8F1BBCDC
    else 0xCA62C1D6
  }

  // ----- section 7: the digest -----

  type Block = b: seq<byte> | |b| == 64 witness seq(64, _ => 0)

  /** Word `t` of a block, its first byte the highest. */
  function BlockWord(block: Block, t: nat): word
    requires t < 16
  {
    ((block[4 * t] as word) << 24) | ((block[4 * t + 1] as word) << 16) |
    ((block[4 * t + 2] as word) << 8) | (block[4 * t + 3] as word)
  }

  function W(block: Block, t: nat): word
    requires t < 80
  {
    if t < 16 then BlockWord(block, t)
    else S(1, W(block, t - 3) ^ W(block, t - 8) ^ W(block, t - 14) ^ W(block, t - 16))
  }

  function Add(x: word, y: word): word {
    x + y
  }

  /** The sum of five words, modulo 2^32. */
  function Plus(v: word, w: word, x: word, y: word, z: word): word {
    v + w + x + y + z
  }

  function Round(h: Hash, t: nat, w: word): Hash {
    var temp := Plus(S(5, h.a), F(t, h.b, h.c, h.d), h.e, w, K(t));
    Hash(temp, h.a, S(30, h.b), h.c, h.d)
  }

  /** A to E after `t` rounds. */
  function Rounds(h: Hash, block: Block, t: nat): Hash
    requires t <= 80
  {
    if t == 0 then h else Round(Rounds(h, block, t - 1), t - 1, W(block, t - 1))
  }

  function Added(h: Hash, r: Hash): Hash {
    Hash(Add(h.a, r.a), Add(h.b, r.b), Add(h.c, r.c), Add(h.d, r.d), Add(h.e, r.e))
  }

  function Compress(h: Hash, block: Block): Hash {
    var r := Rounds(h, block, 80);
    Added(h, r)
  }

  /** A block is worked on from the hash so far, and what comes of it is added to
      that. */
  lemma CompressAdds(h: Hash, block: Block)
    ensures Rounds(h, block, 0) == h
    ensures var r := Rounds(h, block, 80);
      Compress(h, block) == Hash(Add(h.a, r.a), Add(h.b, r.b), Add(h.c, r.c), Add(h.d, r.d), Add(h.e, r.e))
  {
    hide Add, Round, W;
  }

  const INITIAL: Hash := Hash(0x67452301, 0xEFCDAB89, 0x98BADCFE, 0x10325476, 0xC3D2E1F0)

  /** The hash after all blocks of `s`. */
  function Chain(s: seq<byte>): Hash
    requires |s| % 64 == 0
  {
    if |s| == 0 then INITIAL else Compress(Chain(s[..|s| - 64]), s[|s| - 64..])
  }

  function Digest(m: seq<byte>): Hash {
    Chain(Pad(m))
  }

  lemma ChainSnoc(s: seq<byte>, block: Block)
    requires |s| % 64 == 0
    ensures |s + block| % 64 == 0 && Chain(s + block) == Compress(Chain(s), block)
  {
    assert (s + block)[..|s|] == s && (s + block)[|s|..] == block;
  }
}
