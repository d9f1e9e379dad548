/** The growing byte buffer the compiler writes, with the in-place insertion of
    `insert_op1`. */
module CodeBuffer {
  import opened Octets
  import opened Bytecode
  import opened Codegen
  import opened Bitmap

  const INIT_BUF_SIZE: nat := 32
  const MAX_BUF_SIZE: nat := 65536

  /** No turn of the compiler needs more room than this. */
  const SLACK: nat := 48

  class Buffer {
    var bytes: array<byte>
    var used: nat

    ghost predicate Valid()
      reads this, bytes
    {
      used <= bytes.Length && 0 < bytes.Length <= MAX_BUF_SIZE
    }

    ghost function Contents(): (c: seq<byte>)
      reads this, bytes
      requires Valid()
      ensures |c| == used
    {
      bytes[..used]
    }

    constructor ()
      ensures Valid() && Contents() == [] && fresh(bytes)
    {
      bytes := new byte[INIT_BUF_SIZE](_ => 0);
      used := 0;
    }

    /** EXTEND_BUFFER: double the allocation, up to the limit. */
    method Extend() returns (ok: bool)
      requires Valid()
      modifies this`bytes
      ensures Valid() && Contents() == old(Contents())
      ensures ok <==> old(bytes.Length) != MAX_BUF_SIZE
      ensures ok ==> fresh(bytes) && bytes.Length == if 2 * old(bytes.Length) > 65536 then 65536 else 2 * old(bytes.Length)
      ensures !ok ==> bytes == old(bytes)
    {
      if bytes.Length == MAX_BUF_SIZE { return false; }
      var size := bytes.Length * 2;
      if size > MAX_BUF_SIZE { size := MAX_BUF_SIZE; }
      var larger := new byte[size](_ => 0);
      for i := 0 to bytes.Length
        invariant bytes == old(bytes) && larger.Length == size
        invariant larger[..i] == bytes[..i]
      {
        larger[i] := bytes[i];
      }
      assert larger[..bytes.Length][..used] == larger[..used];
      bytes := larger;
      return true;
    }

    /** GET_BUFFER_SPACE: room for `n` more bytes, or REG_ESIZE. */
    method GetSpace(n: nat) returns (ok: bool)
      requires Valid()
      modifies this`bytes
      ensures Valid() && Contents() == old(Contents())
      ensures ok ==> used + n <= bytes.Length
      ensures !ok ==> used + n > MAX_BUF_SIZE
      ensures bytes == old(bytes) || fresh(bytes)
      ensures used + n <= old(bytes.Length) ==> ok && bytes == old(bytes)
    {
      while used + n > bytes.Length
        invariant Valid() && Contents() == old(Contents())
        invariant bytes == old(bytes) || (fresh(bytes) && used + n > old(bytes.Length))
        decreases MAX_BUF_SIZE - bytes.Length
      {
        ok := Extend();
        if !ok { return false; }
      }
      return true;
    }

    /** BUF_PUSH. */
    method Push(c: byte) returns (ok: bool)
      requires Valid()
      modifies this, bytes
      ensures Valid() && (bytes == old(bytes) || fresh(bytes))
      ensures ok ==> Contents() == old(Contents()) + [c]
      ensures !ok ==> used == old(used) && used + 1 > MAX_BUF_SIZE
      ensures old(used) + 1 <= old(bytes.Length) ==> ok && bytes == old(bytes)
    {
      ok := GetSpace(1);
      if ok {
        bytes[used] := c;
        used := used + 1;
      }
    }

    /** BUF_PUSH_2. */
    method Push2(c1: byte, c2: byte) returns (ok: bool)
      requires Valid()
      modifies this, bytes
      ensures Valid() && (bytes == old(bytes) || fresh(bytes))
      ensures ok ==> Contents() == old(Contents()) + [c1, c2]
      ensures !ok ==> used == old(used) && used + 2 > MAX_BUF_SIZE
    {
      ok := GetSpace(2);
      if ok {
        bytes[used] := c1;
        bytes[used + 1] := c2;
        used := used + 2;
      }
    }

    /** BUF_PUSH_3. */
    method Push3(c1: byte, c2: byte, c3: byte) returns (ok: bool)
      requires Valid()
      modifies this, bytes
      ensures Valid() && (bytes == old(bytes) || fresh(bytes))
      ensures ok ==> Contents() == old(Contents()) + [c1, c2, c3]
      ensures !ok ==> used == old(used) && used + 3 > MAX_BUF_SIZE
    {
      ok := GetSpace(3);
      if ok {
        bytes[used] := c1;
        bytes[used + 1] := c2;
        bytes[used + 2] := c3;
        used := used + 3;
      }
    }

    /** `store_op1` at the end of the code, into room already made. */
    method Append(op: byte, arg: int)
      requires Valid() && used + 3 <= bytes.Length
      modifies this`used, bytes
      ensures Valid() && Contents() == old(Contents()) + Op1(op, arg)
    {
      bytes[used] := op;
      bytes[used + 1] := Bytes2(arg).0;
      bytes[used + 2] := Bytes2(arg).1;
      used := used + 3;
    }

    // ----- the map of a bracket expression, beyond the code -----

    ghost function Map(): (m: Map32)
      reads this, bytes
      requires Valid() && used + 32 <= bytes.Length
    {
      bytes[used..used + 32]
    }

    /** Clear the whole map. */
    method ClearMap()
      requires Valid() && used + 32 <= bytes.Length
      modifies bytes
      ensures Valid() && Contents() == old(Contents()) && Map() == Clear()
    {
      for i := 0 to 32
        invariant Contents() == old(Contents())
        invariant forall j | used <= j < used + i :: bytes[j] == 0
      {
        bytes[used + i] := 0;
      }
    }

    /** SET_LIST_BIT. */
    method SetBit(c: byte)
      requires Valid() && used + 32 <= bytes.Length
      modifies bytes
      ensures Valid() && Contents() == old(Contents()) && Map() == SetListBit(old(Map()), c)
    {
      bytes[used + c / 8] := WithBit(bytes[used + c / 8], c % 8);
    }

    /** Drop the zero bytes at the end of the map, lower its length to match, and
        take what is left into the code. */
    method TakeMap()
      requires Valid() && used + 32 <= bytes.Length && used > 0 && bytes[used - 1] == 32
      modifies this`used, bytes
      ensures Valid()
      ensures var r := Trim(old(Map()));
        Contents() == old(Contents())[..old(used) - 1] + [|r|] + r
    {
      hide Trim;
      ghost var bits, code := Map(), Contents();
      while bytes[used - 1] > 0 && bytes[used + bytes[used - 1] - 1] == 0
        invariant used == old(used) && bytes[used - 1] <= 32
        invariant forall i | 0 <= i < used - 1 :: bytes[i] == old(bytes[i])
        invariant forall i | 0 <= i < 32 :: bits[i] == bytes[used + i]
        invariant forall i | bytes[used - 1] <= i < 32 :: bits[i] == 0
        decreases bytes[used - 1]
      {
        assert bytes[used + bytes[used - 1] - 1] == bits[bytes[used - 1] - 1];
        bytes[used - 1] := bytes[used - 1] - 1;
      }
      ghost var n := bytes[used - 1];
      TrimIs(bits, n);
      ghost var at := used - 1;
      used := used + bytes[used - 1];
      TrimmedAt(code, bits, n, at, Contents());
    }

    /** Leave three bytes for a jump to be filled in later. */
    method Leave3() returns (ok: bool, ghost hole: seq<byte>)
      requires Valid()
      modifies this
      ensures Valid() && (bytes == old(bytes) || fresh(bytes))
      ensures ok ==> |hole| == 3 && Contents() == old(Contents()) + hole
      ensures !ok ==> used == old(used) && used + 3 > MAX_BUF_SIZE
    {
      hole := [];
      ok := GetSpace(3);
      if ok {
        hole := bytes[used..used + 3];
        used := used + 3;
      }
    }

    /** `store_op1` over bytes already written. */
    method Store(op: byte, loc: nat, arg: int)
      requires Valid() && loc + 3 <= used
      modifies bytes
      ensures Valid()
      ensures Contents() == Stored(old(Contents()), op, loc, arg)
    {
      bytes[loc] := op;
      bytes[loc + 1] := Bytes2(arg).0;
      bytes[loc + 2] := Bytes2(arg).1;
    }

    /** The copying loop of `insert_op1`, from the end backwards. */
    method MoveUp(loc: nat)
      requires Valid() && loc <= used && used + 3 <= bytes.Length
      modifies bytes
      ensures Valid()
      ensures forall i | 0 <= i < loc :: bytes[i] == old(bytes[i])
      ensures forall i | loc <= i < used :: bytes[i + 3] == old(bytes[i])
    {
      var from := used;
      var to := used + 3;
      while from != loc
        invariant loc <= from <= used && to == from + 3
        invariant forall i | 0 <= i < from :: bytes[i] == old(bytes[i])
        invariant forall i | from <= i < used :: bytes[i + 3] == old(bytes[i])
      {
        to := to - 1;
        from := from - 1;
        bytes[to] := bytes[from];
      }
    }

    /** `insert_op1`: move the bytes from `loc` up by three and store a jump there.
        The caller has made the room. */
    method Insert(op: byte, loc: nat, arg: int)
      requires Valid() && loc <= used && used + 3 <= bytes.Length
      modifies this`used, bytes
      ensures Valid()
      ensures Contents() == Inserted(old(Contents()), op, loc, arg)
    {
      ghost var code := Contents();
      MoveUp(loc);
      bytes[loc] := op;
      bytes[loc + 1] := Bytes2(arg).0;
      bytes[loc + 2] := Bytes2(arg).1;
      used := used + 3;
      InsertedAt(code, Contents(), op, loc, arg);
    }

    /** GET_BUFFER_SPACE and INSERT_JUMP. */
    method InsertJump(op: byte, loc: nat, arg: int) returns (ok: bool)
      requires Valid() && loc <= used
      modifies this, bytes
      ensures Valid() && (bytes == old(bytes) || fresh(bytes))
      ensures ok ==> Contents() == Inserted(old(Contents()), op, loc, arg)
      ensures !ok ==> used == old(used) && used + 3 > MAX_BUF_SIZE
    {
      ok := GetSpace(3);
      if ok { Insert(op, loc, arg); }
    }

    /** GET_BUFFER_SPACE and STORE_JUMP at the end. */
    method AppendJump(op: byte, arg: int) returns (ok: bool)
      requires Valid()
      modifies this, bytes
      ensures Valid() && (bytes == old(bytes) || fresh(bytes))
      ensures ok ==> Contents() == old(Contents()) + Op1(op, arg)
      ensures !ok ==> used == old(used) && used + 3 > MAX_BUF_SIZE
    {
      ok := GetSpace(3);
      if ok { Append(op, arg); }
    }

    /** Overwrite one byte. */
    method Put(loc: nat, c: byte)
      requires Valid() && loc < used
      modifies bytes
      ensures Valid() && Contents() == old(Contents())[loc := c]
    {
      bytes[loc] := c;
    }
  }

  lemma InsertedAt(code: seq<byte>, code': seq<byte>, op: byte, loc: nat, arg: int)
    requires loc <= |code| && |code'| == |code| + 3
    requires forall i | 0 <= i < loc :: code'[i] == code[i]
    requires forall i | loc <= i < |code| :: code'[i + 3] == code[i]
    requires code'[loc] == op && code'[loc + 1] == Bytes2(arg).0 && code'[loc + 2] == Bytes2(arg).1
    ensures code' == Inserted(code, op, loc, arg)
  {
    hide Bytes2;
    var r := Inserted(code, op, loc, arg);
    forall i | 0 <= i < |code'|
      ensures code'[i] == r[i]
    {
      if i >= loc + 3 { assert code'[(i - 3) + 3] == code[i - 3]; }
    }
  }

  /** The map cut to its first `n` bytes, behind its length at `at`. */
  lemma TrimmedAt(code: seq<byte>, bits: seq<byte>, n: byte, at: nat, code': seq<byte>)
    requires at <= |code| && n <= |bits| && |code'| == at + 1 + n
    requires forall i | 0 <= i < at :: code'[i] == code[i]
    requires code'[at] == n && forall i | 0 <= i < n :: code'[at + 1 + i] == bits[i]
    ensures code' == code[..at] + [n] + bits[..n]
  {
    forall i | at < i < |code'|
      ensures code'[i] == bits[i - at - 1]
    {
      assert code'[at + 1 + (i - at - 1)] == bits[i - at - 1];
    }
  }
}
