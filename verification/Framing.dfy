/** Lines in a stream of bytes, and a connection as a state machine on values.

    Whatever way the network cuts the stream, the lines taken out of the buffer
    are the lines of the stream. */
module Framing {
  import opened Octets

  const NEWLINE: byte := 10
  const RETURN: byte := 13

  /** Where the first line ends; the length when no line is complete. */
  function LineEnd(s: seq<byte>): (n: nat)
    ensures n <= |s| && forall i | 0 <= i < n :: s[i] != NEWLINE
    ensures n < |s| ==> s[n] == NEWLINE
  {
    if |s| == 0 || s[0] == NEWLINE then 0 else LineEnd(s[1..]) + 1
  }

  /** A line without one trailing carriage return. */
  function Stripped(line: seq<byte>): seq<byte> {
    if |line| > 0 && line[|line| - 1] == RETURN then line[..|line| - 1] else line
  }

  /** The complete lines of a stream. */
  function Lines(s: seq<byte>): seq<seq<byte>>
    decreases |s|
  {
    var n := LineEnd(s);
    if n == |s| then [] else [Stripped(s[..n])] + Lines(s[n + 1..])
  }

  predicate EndsLine(s: seq<byte>) {
    |s| > 0 ==> s[|s| - 1] == NEWLINE
  }

  lemma LineEndIs(s: seq<byte>, n: nat)
    requires n <= |s| && (forall i | 0 <= i < n :: s[i] != NEWLINE) && (n < |s| ==> s[n] == NEWLINE)
    ensures LineEnd(s) == n
  {
    assert LineEnd(s) <= |s|;
  }

  lemma {:induction false} LinesConcat(a: seq<byte>, b: seq<byte>)
    requires EndsLine(a)
    ensures Lines(a + b) == Lines(a) + Lines(b)
    decreases |a|
  {
    if |a| == 0 {
      assert a + b == b;
    } else {
      var n := LineEnd(a);
      assert a[|a| - 1] == NEWLINE;
      assert (a + b)[..n] == a[..n];
      LineEndIs(a + b, n);
      assert (a + b)[n + 1..] == a[n + 1..] + b;
      LinesConcat(a[n + 1..], b);
    }
  }

  // ----- connections -----

  /** What one look at the socket brings: nothing in time, some bytes, or the end. */
  datatype Arrival = Quiet | Data(bytes: seq<byte>) | Hangup

  function BytesOf(a: Arrival): seq<byte> {
    if a.Data? then a.bytes else []
  }

  /** `received` and `consumed` are all bytes so far, `lines` those `getline`
      has taken out of the buffer. */
  datatype Conn = Conn(buff: seq<byte>, connected: bool, received: seq<byte>, consumed: seq<byte>, lines: seq<seq<byte>>)

  datatype Call = Poll(a: Arrival) | ReadLine(a: Arrival) | ReadChar | ReadAll

  function Arrive(c: Conn, a: Arrival): Conn {
    c.(buff := c.buff + BytesOf(a), received := c.received + BytesOf(a), connected := c.connected && !a.Hangup?)
  }

  /** Take the first line, when there is one. */
  function TakeLine(c: Conn): Conn {
    var n := LineEnd(c.buff);
    if n == |c.buff| then c
    else c.(buff := c.buff[n + 1..], consumed := c.consumed + c.buff[..n + 1], lines := c.lines + [Stripped(c.buff[..n])])
  }

  function Take(c: Conn, n: nat): Conn
    requires n <= |c.buff|
  {
    c.(buff := c.buff[n..], consumed := c.consumed + c.buff[..n])
  }

  /** One call.  Reading a character from an empty buffer throws and changes nothing. */
  function Do(c: Conn, call: Call): Conn {
    match call
    case Poll(a) => Arrive(c, a)
    case ReadLine(a) => TakeLine(Arrive(c, a))
    case ReadChar => if |c.buff| > 0 then Take(c, 1) else c
    case ReadAll => Take(c, |c.buff|)
  }

  function DoAll(c: Conn, calls: seq<Call>): Conn {
    if |calls| == 0 then c else Do(DoAll(c, calls[..|calls| - 1]), calls[|calls| - 1])
  }

  const FRESH: Conn := Conn([], true, [], [], [])

  /** The bytes the calls bring. */
  function Stream(calls: seq<Call>): seq<byte> {
    if |calls| == 0 then []
    else
      var call := calls[|calls| - 1];
      Stream(calls[..|calls| - 1]) + (if call.Poll? || call.ReadLine? then BytesOf(call.a) else [])
  }

  predicate Conserved(c: Conn) {
    c.received == c.consumed + c.buff
  }

  lemma ArriveConserves(c: Conn, a: Arrival)
    requires Conserved(c)
    ensures Conserved(Arrive(c, a))
  {
    assert c.received + BytesOf(a) == c.consumed + (c.buff + BytesOf(a));
  }

  lemma TakeConserves(c: Conn, n: nat)
    requires Conserved(c) && n <= |c.buff|
    ensures c.received == (c.consumed + c.buff[..n]) + c.buff[n..]
  {
    assert c.buff == c.buff[..n] + c.buff[n..];
  }

  lemma DoConserves(c: Conn, call: Call)
    requires Conserved(c)
    ensures Conserved(Do(c, call))
  {
    match call
    case Poll(a) => ArriveConserves(c, a);
    case ReadLine(a) =>
      ArriveConserves(c, a);
      var d := Arrive(c, a);
      if LineEnd(d.buff) < |d.buff| { TakeConserves(d, LineEnd(d.buff) + 1); }
    case ReadChar => if |c.buff| > 0 { TakeConserves(c, 1); }
    case ReadAll => TakeConserves(c, |c.buff|);
  }

  /** Whatever the interleaving, no byte is lost, made up or moved. */
  lemma {:induction false} NothingLost(calls: seq<Call>)
    ensures var c := DoAll(FRESH, calls);
      c.received == Stream(calls) && c.received == c.consumed + c.buff
    decreases |calls|
  {
    if |calls| > 0 {
      NothingLost(calls[..|calls| - 1]);
      DoConserves(DoAll(FRESH, calls[..|calls| - 1]), calls[|calls| - 1]);
    }
  }

  // ----- what the caller is given -----

  /** The bytes a call hands out. */
  function Output(c: Conn, call: Call): seq<byte> {
    match call
    case Poll(_) => []
    case ReadLine(_) =>
      var d := Do(c, call);
      if |d.lines| > |c.lines| then d.lines[|d.lines| - 1] else []
    case ReadChar => if |c.buff| > 0 then [c.buff[0]] else []
    case ReadAll => c.buff
  }

  /** `taken` is a line with its ending, LF or CR LF, and `line` what is in front. */
  predicate EndedLine(taken: seq<byte>, line: seq<byte>) {
    && NEWLINE !in line
    && (|| taken == line + [13, 10]
        || (taken == line + [10] && (|line| > 0 ==> line[|line| - 1] != 13)))
  }

  /** What a call takes out of the buffer, at the front, is what it hands out; of a
      line, without its ending. */
  lemma HandedOut(c: Conn, call: Call)
    ensures var d, out, all := Do(c, call), Output(c, call), c.buff + if call.Poll? || call.ReadLine? then BytesOf(call.a) else [];
      && (!call.ReadLine? ==> all == out + d.buff)
      && (call.ReadLine? && NEWLINE !in all ==> out == [] && d.buff == all)
      && (call.ReadLine? && NEWLINE in all ==>
            exists taken :: EndedLine(taken, out) && all == taken + d.buff)
  {
    hide LineEnd, Stripped;
    if call.ReadLine? {
      LineOut(Arrive(c, call.a));
    }
  }

  lemma LineOut(c: Conn)
    ensures var d := TakeLine(c);
      if NEWLINE in c.buff
      then |d.lines| == |c.lines| + 1 && exists taken :: EndedLine(taken, d.lines[|c.lines|]) && c.buff == taken + d.buff
      else d == c
  {
    hide LineEnd, Stripped;
    var n := LineEnd(c.buff);
    if n < |c.buff| {
      LineSplit(c.buff, n);
      var taken := c.buff[..n + 1];
      assert c.buff == taken + c.buff[n + 1..];
      assert EndedLine(taken, Stripped(c.buff[..n]));
    } else {
      assert c.buff[..n] == c.buff;
    }
  }

  lemma LineSplit(s: seq<byte>, n: nat)
    requires n == LineEnd(s) < |s|
    ensures EndedLine(s[..n + 1], Stripped(s[..n]))
  {
    hide LineEnd, Stripped, EndedLine;
    assert s[..n + 1] == s[..n] + [NEWLINE];
    StrippedEnded(s[..n]);
  }

  lemma StrippedEnded(line: seq<byte>)
    requires NEWLINE !in line
    ensures EndedLine(line + [NEWLINE], Stripped(line))
  {
    var n := |line|;
    if n > 0 && line[n - 1] == RETURN {
      var front := line[..n - 1];
      assert line == front + [13];
      assert front + [13] + [10] == front + [13, 10];
    }
  }

  /** The outputs of the calls, joined. */
  function Outputs(calls: seq<Call>): seq<byte> {
    if |calls| == 0 then []
    else
      var before := calls[..|calls| - 1];
      Outputs(before) + Output(DoAll(FRESH, before), calls[|calls| - 1])
  }

  /** Read a byte at a time, or all there is, in any interleaving with arrivals: what
      has been handed out and what is left is what has come in. */
  lemma {:induction false} AllHandedOut(calls: seq<Call>)
    requires forall call | call in calls :: !call.ReadLine?
    ensures Outputs(calls) + DoAll(FRESH, calls).buff == Stream(calls)
    decreases |calls|
  {
    hide Do, Output;
    if |calls| > 0 {
      var before, call := calls[..|calls| - 1], calls[|calls| - 1];
      assert call in calls;
      AllHandedOut(before);
      HandedOut(DoAll(FRESH, before), call);
      Joined(Outputs(before), DoAll(FRESH, before).buff, if call.Poll? then BytesOf(call.a) else [],
             Output(DoAll(FRESH, before), call), DoAll(FRESH, calls).buff);
    }
  }

  lemma Joined(a: seq<byte>, b: seq<byte>, c: seq<byte>, d: seq<byte>, e: seq<byte>)
    requires b + c == d + e
    ensures (a + b) + c == (a + d) + e
  {
    assert (a + b) + c == a + (b + c);
    assert a + (d + e) == (a + d) + e;
  }

  /** The connection is up as long as no look at the socket has found it closed. */
  lemma {:induction false} UpUntilHangup(calls: seq<Call>)
    ensures DoAll(FRESH, calls).connected <==> Poll(Hangup) !in calls && ReadLine(Hangup) !in calls
    decreases |calls|
  {
    hide LineEnd;
    if |calls| > 0 {
      var n := |calls| - 1;
      UpUntilHangup(calls[..n]);
      assert calls == calls[..n] + [calls[n]];
    }
  }

  /** Only `getline` consumes. */
  predicate LinesOnly(calls: seq<Call>) {
    forall call | call in calls :: call.Poll? || call.ReadLine?
  }

  ghost predicate Framed(c: Conn) {
    Conserved(c) && EndsLine(c.consumed) && c.lines == Lines(c.consumed)
  }

  lemma LineAt(s: seq<byte>, line: seq<byte>, n: nat)
    requires n < |s| && s[n] == NEWLINE && line == s[..n] && NEWLINE !in line
    ensures s[..n + 1] == line + [NEWLINE]
    ensures Lines(s[..n + 1]) == [Stripped(line)] && EndsLine(s[..n + 1])
  {
    hide Lines, Stripped, LineEnd;
    assert s[..n + 1] == line + [NEWLINE];
    OneLine(line);
  }

  lemma FirstLine(s: seq<byte>)
    requires LineEnd(s) < |s|
    ensures var n := LineEnd(s);
      Lines(s[..n + 1]) == [Stripped(s[..n])] && EndsLine(s[..n + 1])
  {
    hide Lines, Stripped, LineEnd, EndsLine;
    LineAt(s, s[..LineEnd(s)], LineEnd(s));
  }

  lemma TakeLineFramed(c: Conn)
    requires Framed(c)
    ensures Framed(TakeLine(c))
  {
    hide Lines, Stripped;
    var n := LineEnd(c.buff);
    if n < |c.buff| {
      FirstLine(c.buff);
      LinesConcat(c.consumed, c.buff[..n + 1]);
      TakeConserves(c, n + 1);
    }
  }

  /** The lines taken so far are the first lines of the stream, and the rest of its
      lines are in the buffer, however the stream was cut. */
  lemma {:induction false} LinesOfStream(calls: seq<Call>)
    requires LinesOnly(calls)
    ensures var c := DoAll(FRESH, calls);
      Framed(c) && Lines(Stream(calls)) == c.lines + Lines(c.buff)
    decreases |calls|
  {
    hide Lines, Conserved;
    NothingLost(calls);
    if |calls| > 0 {
      var before, call := calls[..|calls| - 1], calls[|calls| - 1];
      LinesOfStream(before);
      assert call in calls;
      DoFramed(DoAll(FRESH, before), call);
    } else {
      FreshFramed();
    }
    var c := DoAll(FRESH, calls);
    LinesConcat(c.consumed, c.buff);
  }

  lemma FreshFramed()
    ensures Framed(FRESH)
  {}

  lemma DoFramed(c: Conn, call: Call)
    requires Framed(c) && (call.Poll? || call.ReadLine?)
    ensures Framed(Do(c, call))
  {
    hide Lines, TakeLine;
    ArriveConserves(c, call.a);
    if call.ReadLine? { TakeLineFramed(Arrive(c, call.a)); }
  }

  /** Two connections that read the same stream to the end, cut as they may be,
      have taken the same lines. */
  lemma CutsDoNotMatter(calls1: seq<Call>, calls2: seq<Call>)
    requires LinesOnly(calls1) && LinesOnly(calls2) && Stream(calls1) == Stream(calls2)
    requires NEWLINE !in DoAll(FRESH, calls1).buff && NEWLINE !in DoAll(FRESH, calls2).buff
    ensures DoAll(FRESH, calls1).lines == DoAll(FRESH, calls2).lines
  {
    LinesOfStream(calls1);
    LinesOfStream(calls2);
    NoLine(DoAll(FRESH, calls1).buff);
    NoLine(DoAll(FRESH, calls2).buff);
    assert Lines(Stream(calls1)) == DoAll(FRESH, calls1).lines;
    assert Lines(Stream(calls2)) == DoAll(FRESH, calls2).lines;
  }

  lemma NoLine(s: seq<byte>)
    requires NEWLINE !in s
    ensures Lines(s) == []
  {
    LineEndIs(s, |s|);
  }

  // ----- the other end -----

  /** The wire after `write_line` of each line, sent as far as `write` sends it. */
  function Wire(lines: seq<seq<byte>>): seq<byte> {
    if |lines| == 0 then [] else Wire(lines[..|lines| - 1]) + CString(lines[|lines| - 1] + [NEWLINE])
  }

  /** A line that comes out as it went in. */
  predicate Plain(line: seq<byte>) {
    NEWLINE !in line && 0 !in line && (|line| > 0 ==> line[|line| - 1] != RETURN)
  }

  lemma {:induction false} WireOfPlain(lines: seq<seq<byte>>)
    requires forall line | line in lines :: Plain(line)
    ensures Lines(Wire(lines)) == lines && EndsLine(Wire(lines))
    decreases |lines|
  {
    hide Lines, CString, Plain;
    if |lines| == 0 {
      NoLine([]);
    } else {
      var n := |lines| - 1;
      var line := lines[n];
      assert line in lines;
      WireOfPlain(lines[..n]);
      PlainSent(line);
      LinesConcat(Wire(lines[..n]), line + [NEWLINE]);
      assert lines == lines[..n] + [line];
    }
  }

  lemma PlainSent(line: seq<byte>)
    requires Plain(line)
    ensures CString(line + [NEWLINE]) == line + [NEWLINE] && Lines(line + [NEWLINE]) == [line]
  {
    hide Lines, CString;
    CStringWhole(line + [NEWLINE]);
    OneLine(line);
  }

  lemma OneLine(line: seq<byte>)
    requires NEWLINE !in line
    ensures Lines(line + [NEWLINE]) == [Stripped(line)]
  {
    var s := line + [NEWLINE];
    assert s[..|line|] == line;
    LineEndIs(s, |line|);
    assert s[|line| + 1..] == [];
  }

  /** A line goes through unchanged exactly when it holds no newline and no NUL and
      does not end in a carriage return. */
  lemma LineSurvives(line: seq<byte>)
    ensures Lines(CString(line + [NEWLINE])) == [line] <==> Plain(line)
  {
    var s := line + [NEWLINE];
    if 0 in line {
      var r := CString(s);
      CStringWhole(s);
      assert |r| <= |line|;
      ShortLines(r);
    } else {
      CStringWhole(s);
      if NEWLINE in line { SplitLine(line); } else { OneLine(line); }
    }
  }

  /** The lines of a stream are shorter than the stream. */
  lemma ShortLines(s: seq<byte>)
    ensures |Lines(s)| > 0 ==> |Lines(s)[0]| < |s|
  {}

  lemma SplitLine(line: seq<byte>)
    requires NEWLINE in line
    ensures Lines(line + [NEWLINE]) != [line]
  {
    var s := line + [NEWLINE];
    var n := LineEnd(s);
    var i :| 0 <= i < |line| && line[i] == NEWLINE;
    assert s[i] == NEWLINE;
    assert |Lines(s)[0]| <= n < |line|;
  }

  /** A line without a newline comes out of either ending, LF or CR LF; behind LF it
      must not end in a carriage return. */
  lemma EndingsOff(line: seq<byte>)
    requires NEWLINE !in line
    ensures Lines(line + [13, 10]) == [line]
    ensures Lines(line + [10]) == [line] <==> |line| == 0 || line[|line| - 1] != 13
  {
    hide Lines;
    OneLine(line);
    OneLine(line + [13]);
    assert (line + [13]) + [NEWLINE] == line + [13, 10];
    assert (line + [13])[..|line|] == line;
  }

  /** Lines with their endings, as another program sends them. */
  function Sent(lines: seq<seq<byte>>, cr: seq<bool>): seq<byte>
    requires |cr| == |lines|
  {
    if |lines| == 0 then []
    else
      var n := |lines| - 1;
      Sent(lines[..n], cr[..n]) + lines[n] + if cr[n] then [13, 10] else [10]
  }

  lemma {:induction false} LinesOfSent(lines: seq<seq<byte>>, cr: seq<bool>)
    requires |cr| == |lines| && forall i | 0 <= i < |lines| ::
      NEWLINE !in lines[i] && (cr[i] || |lines[i]| == 0 || lines[i][|lines[i]| - 1] != 13)
    ensures Lines(Sent(lines, cr)) == lines && EndsLine(Sent(lines, cr))
    decreases |lines|
  {
    hide Lines;
    if |lines| == 0 {
      NoLine([]);
    } else {
      var n := |lines| - 1;
      LinesOfSent(lines[..n], cr[..n]);
      LastSent(lines, cr);
    }
  }

  lemma LastSent(lines: seq<seq<byte>>, cr: seq<bool>)
    requires |cr| == |lines| > 0
    requires var n := |lines| - 1;
      && NEWLINE !in lines[n] && (cr[n] || |lines[n]| == 0 || lines[n][|lines[n]| - 1] != 13)
      && Lines(Sent(lines[..n], cr[..n])) == lines[..n] && EndsLine(Sent(lines[..n], cr[..n]))
    ensures Lines(Sent(lines, cr)) == lines && EndsLine(Sent(lines, cr))
  {
    hide Lines;
    var n := |lines| - 1;
    var line, end := lines[n], if cr[n] then [13, 10] else [10];
    EndingsOff(line);
    var before := Sent(lines[..n], cr[..n]);
    assert Sent(lines, cr) == before + (line + end);
    LinesConcat(before, line + end);
    assert lines == lines[..n] + [line];
  }

  /** Lines sent with CR LF or LF behind each, in any mixture, are read without their
      endings, in order, in whatever pieces they arrive. */
  lemma EndingsRoundTrip(lines: seq<seq<byte>>, cr: seq<bool>, calls: seq<Call>)
    requires |cr| == |lines| && forall i | 0 <= i < |lines| ::
      NEWLINE !in lines[i] && (cr[i] || |lines[i]| == 0 || lines[i][|lines[i]| - 1] != 13)
    requires LinesOnly(calls) && Stream(calls) == Sent(lines, cr) && NEWLINE !in DoAll(FRESH, calls).buff
    ensures DoAll(FRESH, calls).lines == lines && DoAll(FRESH, calls).buff == []
  {
    hide Lines;
    LinesOfSent(lines, cr);
    ReadToEnd(calls);
  }

  /** A stream of whole lines, read to the end. */
  lemma ReadToEnd(calls: seq<Call>)
    requires LinesOnly(calls) && EndsLine(Stream(calls)) && NEWLINE !in DoAll(FRESH, calls).buff
    ensures DoAll(FRESH, calls).lines == Lines(Stream(calls)) && DoAll(FRESH, calls).buff == []
  {
    hide Lines;
    LinesOfStream(calls);
    var c := DoAll(FRESH, calls);
    NoLine(c.buff);
    NothingLost(calls);
    LastOf(c.consumed, c.buff);
  }

  lemma LastOf(a: seq<byte>, b: seq<byte>)
    requires EndsLine(a + b) && NEWLINE !in b
    ensures b == []
  {}

  /** Lines written at one end are read at the other, unchanged and in order,
      once the wire has been delivered, in whatever pieces, and read to the end. */
  lemma RoundTrip(lines: seq<seq<byte>>, calls: seq<Call>)
    requires forall line | line in lines :: Plain(line)
    requires LinesOnly(calls) && Stream(calls) == Wire(lines) && NEWLINE !in DoAll(FRESH, calls).buff
    ensures DoAll(FRESH, calls).lines == lines && DoAll(FRESH, calls).buff == []
  {
    hide Lines;
    WireOfPlain(lines);
    ReadToEnd(calls);
  }
}
