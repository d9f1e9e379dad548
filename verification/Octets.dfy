/** Eight-bit bytes as a subset of the integers, and the bit operations the C
    sources apply to them, written out as arithmetic. */
module Octets {
  type byte = x: int | 0 <= x < 256

  /** `b & (1 << k)` is nonzero. */
  predicate Bit(b: nat, k: nat) {
    if k == 0 then b % 2 == 1 else Bit(b / 2, k - 1)
  }

  /** Bit `k` is the digit of 2^k in binary. */
  lemma {:induction false} BitIsDigit(b: nat, k: nat)
    ensures Bit(b, k) <==> b / Power2(k) % 2 == 1
    decreases k
  {
    if k > 0 {
      hide Bit;
      BitAbove(b, k);
      BitIsDigit(b / 2, k - 1);
      HalfFirst(b, Power2(k - 1));
    }
  }

  lemma BitAbove(b: nat, k: nat)
    requires k > 0
    ensures Bit(b, k) == Bit(b / 2, k - 1) && Power2(k) == 2 * Power2(k - 1)
  {}

  lemma HalfFirst(b: nat, n: nat)
    requires n > 0
    ensures b / (2 * n) == b / 2 / n
  {
    var q, r := b / 2 / n, b / 2 % n;
    assert b / 2 == n * q + r;
    QuotientIs(b, 2 * n, q, 2 * r + b % 2);
  }

  lemma LessTimes(a: nat, b: nat, c: nat)
    requires b <= c
    ensures a * b <= a * c
  {}

  lemma QuotientIs(b: nat, m: nat, q: nat, r: nat)
    requires b == m * q + r && r < m
    ensures b / m == q
  {
    var p := b / m;
    assert m * p <= b < m * p + m;
    if p < q {
      LessTimes(m, p + 1, q);
      assert false;
    }
    if q < p {
      LessTimes(m, q + 1, p);
      assert false;
    }
  }

  /** `b | (1 << k)`. */
  function SetBit(b: nat, k: nat): (r: nat)
    ensures forall j: nat :: Bit(r, j) == (j == k || Bit(b, j))
  {
    if k == 0 then b / 2 * 2 + 1 else SetBit(b / 2, k - 1) * 2 + b % 2
  }

  /** Setting one of the eight low bits keeps a byte a byte. */
  lemma {:induction false} SetBitStaysByte(b: nat, k: nat, width: nat, limit: nat)
    requires k < width && limit == Power2(width) && b < limit
    ensures SetBit(b, k) < limit
    decreases k
  {
    hide Bit, Power2, SetBit;
    Doubled(width);
    SetBitIs(b, k);
    if k > 0 {
      SetBitStaysByte(b / 2, k - 1, width - 1, Power2(width - 1));
    }
  }

  lemma Doubled(n: nat)
    requires n > 0
    ensures Power2(n) == 2 * Power2(n - 1)
  {}

  lemma SetBitIs(b: nat, k: nat)
    ensures SetBit(b, k) == if k == 0 then b / 2 * 2 + 1 else SetBit(b / 2, k - 1) * 2 + b % 2
  {
    hide Bit;
  }

  function Power2(n: nat): (p: nat)
    ensures p > 0
  {
    if n == 0 then 1 else 2 * Power2(n - 1)
  }

  function WithBit(b: byte, k: nat): (r: byte)
    requires k < 8
    ensures forall j: nat :: Bit(r, j) == (j == k || Bit(b, j))
  {
    assert SetBit(b, k) < 256 by {
      assert Power2(8) == 256;
      SetBitStaysByte(b, k, 8, 256);
    }
    SetBit(b, k)
  }

  // ----- C strings -----

  /** The bytes before the first NUL. */
  function CString(s: seq<byte>): (r: seq<byte>)
    ensures r <= s && 0 !in r
    ensures |r| < |s| ==> s[|r|] == 0
  {
    if |s| == 0 || s[0] == 0 then [] else [s[0]] + CString(s[1..])
  }

  lemma CStringWhole(s: seq<byte>)
    ensures CString(s) == s <==> 0 !in s
  {}
}
