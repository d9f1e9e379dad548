/** The receive buffer and the writes of `src/client_socket.cpp`.

    What `select` and `recv` bring, and what `send` returns, are arguments.  The
    ghost fields remember the whole stream; `View` is the connection of module
    `Framing`, and each method takes it through one call. */
module ClientSocket {
  import opened Octets
  import opened Framing

  /** What `send` returned. */
  const SEND_FAILED: int := -1

  class ClientSocket {
    var buff: seq<byte>
    var connected: bool
    ghost var received: seq<byte>
    ghost var consumed: seq<byte>
    ghost var lines: seq<seq<byte>>

    ghost function View(): Conn
      reads this
    {
      Conn(buff, connected, received, consumed, lines)
    }

    /** Just connected. */
    constructor ()
      ensures View() == FRESH
    {
      buff, connected, received, consumed, lines := [], true, [], [], [];
    }

    /** Append what has arrived, one byte after another; `recv` is given room for
        4095.  No bytes from a readable socket means the other end has closed. */
    method Bufferize(a: Arrival)
      requires a.Data? ==> 0 < |a.bytes| <= 4095
      modifies this
      ensures View() == Arrive(old(View()), a)
      ensures buff == if a.Data? then old(buff) + a.bytes else old(buff)
      ensures connected <==> old(connected) && a != Hangup
    {
      match a
      case Quiet =>
      case Data(bytes) =>
        for i := 0 to |bytes|
          invariant buff == old(buff) + bytes[..i]
          invariant connected == old(connected) && received == old(received)
          invariant consumed == old(consumed) && lines == old(lines)
        {
          buff := buff + [bytes[i]];
        }
        assert bytes[..|bytes|] == bytes;
        received := received + bytes;
      case Hangup => connected := false;
    }

    /** Is there a complete line in the buffer? */
    method CanGetline(a: Arrival) returns (b: bool)
      requires a.Data? ==> 0 < |a.bytes| <= 4095
      modifies this
      ensures View() == Do(old(View()), Poll(a)) && b == (NEWLINE in buff)
    {
      Bufferize(a);
      for i := 0 to |buff|
        invariant NEWLINE !in buff[..i] && View() == Arrive(old(View()), a)
      {
        if buff[i] == NEWLINE { return true; }
      }
      assert buff[..|buff|] == buff;
      return false;
    }

    /** `can_getchar`, `can_getchars`. */
    method CanGetchar(a: Arrival) returns (b: bool)
      requires a.Data? ==> 0 < |a.bytes| <= 4095
      modifies this
      ensures View() == Do(old(View()), Poll(a)) && b == (|buff| > 0)
    {
      Bufferize(a);
      return |buff| > 0;
    }

    /** The oldest line, without its newline and one carriage return before it; the
        empty string when no line is complete. */
    method Getline(a: Arrival) returns (line: seq<byte>)
      requires a.Data? ==> 0 < |a.bytes| <= 4095
      modifies this
      ensures View() == Do(old(View()), ReadLine(a))
      ensures line == Output(old(View()), ReadLine(a))
      ensures var all := old(buff) + BytesOf(a);
        if NEWLINE in all then exists taken :: EndedLine(taken, line) && all == taken + buff
        else line == [] && buff == all
    {
      hide LineEnd, TakeLine, Take, EndedLine;
      HandedOut(View(), ReadLine(a));
      line := [];
      var can := CanGetline(a);
      HasLineEnd(buff);
      LineTaken(View());
      if can {
        line := FirstLine();
        DropThrough(|line| + 1);
        lines := lines + [Stripped(line)];
      }
      if |line| > 0 && line[|line| - 1] == RETURN { line := line[..|line| - 1]; }
    }

    /** The bytes before the first newline. */
    method FirstLine() returns (line: seq<byte>)
      requires LineEnd(buff) < |buff|
      ensures line == buff[..LineEnd(buff)]
    {
      line := [];
      var n := 0;
      while buff[n] != NEWLINE
        invariant 0 <= n <= LineEnd(buff) && line == buff[..n]
        decreases |buff| - n
      {
        line := line + [buff[n]];
        n := n + 1;
      }
      LineEndIs(buff, n);
    }

    /** Keep what is behind the first `n` bytes: copied into a new vector. */
    method DropThrough(n: nat)
      requires n <= |buff|
      modifies this`buff, this`consumed
      ensures View() == Take(old(View()), n)
    {
      var tmp := [];
      for i := n to |buff|
        invariant tmp == buff[n..i] && buff == old(buff) && consumed == old(consumed)
      {
        tmp := tmp + [buff[i]];
      }
      consumed := consumed + buff[..n];
      buff := tmp;
    }

    /** The first byte; an empty buffer throws. */
    method Getchar() returns (r: Thrown)
      modifies this
      ensures View() == Do(old(View()), ReadChar)
      ensures r == if |old(buff)| > 0 then Char(old(buff)[0]) else OutOfRange
      ensures Output(old(View()), ReadChar) == if r.Char? then [r.c] else []
      ensures |old(buff)| > 0 ==> buff == old(buff)[1..]
    {
      if |buff| == 0 { return OutOfRange; }
      var ch := buff[0];
      DropThrough(1);
      return Char(ch);
    }

    /** `getchars`, `getchars_as_string`: everything. */
    method Getchars() returns (chars: seq<byte>)
      modifies this
      ensures View() == Do(old(View()), ReadAll) && chars == old(buff) && buff == []
      ensures chars == Output(old(View()), ReadAll)
    {
      chars := [];
      for i := 0 to |buff|
        invariant chars == buff[..i] && View() == old(View())
      {
        chars := chars + [buff[i]];
      }
      consumed := consumed + buff;
      buff := [];
    }

    // ----- writing -----

    /** `write`: the bytes before the first NUL are offered to `send`, which takes
        `taken` of them or fails.  Anything but the length of `data` disconnects. */
    method Write(data: seq<byte>, taken: int) returns (len: int, offered: seq<byte>)
      requires SEND_FAILED <= taken <= |CString(data)|
      modifies this`connected
      ensures offered == if old(connected) then CString(data) else []
      ensures len == if old(connected) then taken else -1
      ensures connected <==> old(connected) && taken == |data|
      ensures connected ==> offered == data
    {
      if !connected { return -1, []; }
      offered := UpToNul(data);
      len := taken;
      if len != |data| { connected := false; }
    }

    /** `write_line`. */
    method WriteLine(data: seq<byte>, taken: int) returns (len: int, offered: seq<byte>)
      requires SEND_FAILED <= taken <= |CString(data + [NEWLINE])|
      modifies this`connected
      ensures offered == if old(connected) then CString(data + [NEWLINE]) else []
      ensures len == if old(connected) then taken else -1
      ensures connected <==> old(connected) && taken == |data| + 1
      ensures connected ==> offered == data + [NEWLINE]
    {
      len, offered := Write(data + [NEWLINE], taken);
    }
  }

  datatype Thrown = Char(c: byte) | OutOfRange

  /** The scan of `strlen`. */
  method UpToNul(s: seq<byte>) returns (r: seq<byte>)
    ensures r == CString(s)
  {
    var n := 0;
    while n < |s| && s[n] != 0
      invariant n <= |s| && 0 !in s[..n]
    {
      n := n + 1;
    }
    CStringIs(s, n);
    return s[..n];
  }

  lemma {:induction false} CStringIs(s: seq<byte>, n: nat)
    requires n <= |s| && 0 !in s[..n] && (n < |s| ==> s[n] == 0)
    ensures CString(s) == s[..n]
    decreases n
  {
    if n > 0 {
      assert s[0] == s[..n][0];
      assert s[1..][..n - 1] == s[..n][1..];
      CStringIs(s[1..], n - 1);
    }
  }

  lemma HasLineEnd(s: seq<byte>)
    ensures NEWLINE in s <==> LineEnd(s) < |s|
  {
    if NEWLINE !in s { LineEndIs(s, |s|); }
  }

  lemma LineTaken(c: Conn)
    ensures LineEnd(c.buff) <= |c.buff|
    ensures var n := LineEnd(c.buff);
      TakeLine(c) == if n == |c.buff| then c else Take(c, n + 1).(lines := c.lines + [Stripped(c.buff[..n])])
  {
    hide LineEnd, Stripped;
  }
}
