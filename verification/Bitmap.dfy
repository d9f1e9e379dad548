/** The byte maps of bracket expressions: setting bits for characters and ranges,
    trimming zero bytes, and that the result accepts exactly the bytes listed. */
module Bitmap {
  import opened Octets
  import opened RegexLang
  import opened Ere

  type Map32 = m: seq<byte> | |m| == 32 witness seq(32, _ => 0)

  function Clear(): Map32 {
    seq(32, _ => 0)
  }

  /** SET_LIST_BIT. */
  function SetListBit(m: Map32, c: byte): (r: Map32)
    ensures forall x: byte :: InMap(r, x) <==> InMap(m, x) || x == c
  {
    var r := m[c / 8 := WithBit(m[c / 8], c % 8)];
    assert forall x: byte :: x == c <==> x / 8 == c / 8 && x % 8 == c % 8;
    r
  }

  /** The loop of `compile_range`. */
  function AddSpan(m: Map32, lo: nat, hi: byte): (r: Map32)
    ensures forall x: byte :: InMap(r, x) <==> InMap(m, x) || lo <= x <= hi
    decreases 256 - lo
  {
    if lo > hi then m else AddSpan(SetListBit(m, lo), lo + 1, hi)
  }

  function AddItem(m: Map32, item: Item): (r: Map32)
    ensures forall x: byte :: InMap(r, x) <==> InMap(m, x) || Lists(item, x)
  {
    match item
    case One(c) => SetListBit(m, c)
    case Span(lo, hi) => AddSpan(m, lo, hi)
  }

  function AddItems(m: Map32, items: seq<Item>): (r: Map32) {
    if |items| == 0 then m else AddItem(AddItems(m, items[..|items| - 1]), items[|items| - 1])
  }

  lemma ClearHasNone(x: byte)
    ensures !InMap(Clear(), x)
  {
    ZeroHasNone(x % 8);
  }

  lemma {:induction false} ZeroHasNone(k: nat)
    ensures !Bit(0, k)
    decreases k
  {
    if k > 0 { ZeroHasNone(k - 1); }
  }

  /** The map of a list holds exactly the bytes listed. */
  lemma {:induction false} AddItemsLists(items: seq<Item>, x: byte)
    ensures InMap(AddItems(Clear(), items), x) <==> Listed(items, x)
    decreases |items|
  {
    if |items| == 0 {
      ClearHasNone(x);
    } else {
      var n := |items| - 1;
      AddItemsLists(items[..n], x);
      if Listed(items, x) {
        var i :| 0 <= i < |items| && Lists(items[i], x);
        assert i < n ==> items[..n][i] == items[i];
      }
      if Listed(items[..n], x) {
        var i :| 0 <= i < n && Lists(items[..n][i], x);
        assert Lists(items[i], x);
      }
    }
  }

  /** Drop zero bytes from the end. */
  function Trim(m: seq<byte>): (r: seq<byte>)
    ensures |r| <= |m| && r == m[..|r|]
    ensures forall i | |r| <= i < |m| :: m[i] == 0
    ensures |r| > 0 ==> r[|r| - 1] != 0
  {
    if |m| > 0 && m[|m| - 1] == 0 then Trim(m[..|m| - 1]) else m
  }

  /** The one way to cut a map before its last zero bytes. */
  lemma {:induction false} TrimIs(m: seq<byte>, n: nat)
    requires n <= |m| && (n > 0 ==> m[n - 1] != 0) && forall i | n <= i < |m| :: m[i] == 0
    ensures Trim(m) == m[..n]
    decreases |m|
  {
    if n < |m| {
      TrimIs(m[..|m| - 1], n);
      assert m[..|m| - 1][..n] == m[..n];
    }
  }

  /** Trimming changes no answer. */
  lemma TrimKeeps(m: seq<byte>, x: byte)
    requires |m| <= 32
    ensures InMap(Trim(m), x) <==> InMap(m, x)
  {
    ZeroHasNone(x % 8);
  }

  function MapOf(items: seq<Item>): (r: seq<byte>)
    ensures |r| <= 32
  {
    Trim(AddItems(Clear(), items))
  }

  /** The emitted map of a bracket expression accepts exactly the listed bytes. */
  lemma MapOfLists(items: seq<Item>, x: byte)
    ensures InMap(MapOf(items), x) <==> Listed(items, x)
  {
    TrimKeeps(AddItems(Clear(), items), x);
    AddItemsLists(items, x);
  }

  /** A map is a full 32 bytes long exactly when a byte from 248 up is listed. */
  lemma FullMap(items: seq<Item>)
    ensures |MapOf(items)| == 32 <==> exists c: byte :: c >= 248 && Listed(items, c)
  {
    var m := AddItems(Clear(), items);
    var r := MapOf(items);
    if |r| == 32 {
      var k := SomeBit(m[31]);
      assert (248 + k) / 8 == 31 && (248 + k) % 8 == k;
      AddItemsLists(items, 248 + k);
      assert Listed(items, 248 + k);
    }
    if c: byte :| c >= 248 && Listed(items, c) {
      AddItemsLists(items, c);
      assert c / 8 == 31;
      ZeroHasNone(c % 8);
    }
  }

  /** A nonzero byte has a bit set. */
  lemma SomeBit(b: byte) returns (k: nat)
    requires b != 0
    ensures k < 8 && Bit(b, k)
  {
    assert Power2(8) == 256;
    k := SomeBitBelow(b, 8);
  }

  lemma {:induction false} SomeBitBelow(b: nat, n: nat) returns (k: nat)
    requires 0 < b < Power2(n)
    ensures k < n && Bit(b, k)
    decreases n
  {
    if b % 2 == 1 {
      k := 0;
    } else {
      k := SomeBitBelow(b / 2, n - 1);
      k := k + 1;
    }
  }
}
