/** The pattern trees a compiled buffer stands for, and the strings they match.

    `Re` has one node for each form of compiled code.  `Match(e, s, i, j)` is the
    meaning POSIX gives the node: `e` matches the bytes of `s.text` from `i` up to
    `j` (IEEE Std 1003.1, Base Definitions, sections 9.3.5 and 9.4). */
module RegexLang {
  import opened Octets

  datatype Op = Star | Plus | Opt

  datatype Re =
    | Empty
    | Exact(cs: seq<byte>)
    | Any
    | Charset(neg: bool, bits: seq<byte>)
    | Bol
    | Eol
    | Cat(l: Re, r: Re)
    | Alt(l: Re, r: Re)
    | Group(reg: nat, inner: nat, body: Re)
    | Repeat(op: Op, body: Re)

  /** A subject string with the two anchoring flags of `regexec`. */
  datatype Subject = Subject(text: seq<byte>, notBol: bool, notEol: bool)

  /** `c` has its bit in the map; bytes past the end of the map have none. */
  predicate InMap(bits: seq<byte>, c: byte) {
    c / 8 < |bits| && Bit(bits[c / 8], c % 8)
  }

  /** A node that consumes exactly one byte, whatever it matches. */
  predicate Single(e: Re) {
    e.Any? || e.Charset? || (e.Exact? && |e.cs| == 1)
  }

  predicate Accepts(e: Re, c: byte)
    requires Single(e)
  {
    match e
    case Any => c != 0
    case Charset(neg, m) => neg != InMap(m, c)
    case Exact(cs) => cs[0] == c
  }

  predicate Allows(op: Op, n: nat) {
    match op
    case Star => true
    case Plus => n >= 1
    case Opt => n <= 1
  }

  /** `e` matches `s.text[i..j]`. */
  ghost predicate Match(e: Re, s: Subject, i: nat, j: nat)
    decreases e, 0
  {
    i <= j <= |s.text| &&
    match e
    case Empty => i == j
    case Exact(cs) => s.text[i..j] == cs
    case Any => j == i + 1 && s.text[i] != 0
    case Charset(neg, m) => j == i + 1 && neg != InMap(m, s.text[i])
    case Bol => i == j == 0 && !s.notBol
    case Eol => i == j == |s.text| && !s.notEol
    case Cat(l, r) => exists k: nat :: Match(l, s, i, k) && Match(r, s, k, j)
    case Alt(l, r) => Match(l, s, i, j) || Match(r, s, i, j)
    case Group(_, _, body) => Match(body, s, i, j)
    case Repeat(op, body) => exists n: nat :: Allows(op, n) && Power(body, s, n, i, j)
  }

  /** `n` matches of `e` in a row take `i` to `j`. */
  ghost predicate Power(e: Re, s: Subject, n: nat, i: nat, j: nat)
    decreases e, n + 1
  {
    if n == 0 then i == j <= |s.text|
    else exists k: nat :: Match(e, s, i, k) && Power(e, s, n - 1, k, j)
  }

  /** A match never runs backwards or past the end. */
  lemma {:induction false} PowerBounds(e: Re, s: Subject, n: nat, i: nat, j: nat)
    requires Power(e, s, n, i, j)
    ensures i <= j <= |s.text|
    decreases n
  {
    if n > 0 {
      var k: nat :| Match(e, s, i, k) && Power(e, s, n - 1, k, j);
      PowerBounds(e, s, n - 1, k, j);
    }
  }

  /** Repetition applies to a group or to something one byte long, as the
      compiler arranges. */
  predicate Shaped(e: Re) {
    match e
    case Cat(l, r) => Shaped(l) && Shaped(r)
    case Alt(l, r) => Shaped(l) && Shaped(r)
    case Group(_, _, body) => Shaped(body)
    case Exact(cs) => |cs| > 0
    case Repeat(_, body) => Shaped(body) && (body.Group? || Single(body))
    case _ => true
  }

  /** Alternatives stand alone: at the top, in a group, or right of a `|`. */
  predicate Framed(e: Re) {
    match e
    case Cat(l, r) => !l.Alt? && !r.Alt? && Framed(l) && Framed(r)
    case Alt(l, r) => !l.Alt? && Framed(l) && Framed(r)
    case Group(_, _, body) => Framed(body)
    case Repeat(_, body) => !body.Alt? && Framed(body)
    case _ => true
  }
}
