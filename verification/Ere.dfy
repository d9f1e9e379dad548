/** Extended regular expressions as POSIX writes and means them (IEEE Std 1003.1,
    Base Definitions, sections 9.3.5 and 9.4), and their spelling.

    The spelling goes through tokens, one for each turn of the compiler's main
    loop: a run of repetition characters is one token, a bracket expression
    another. */
module Ere {
  import opened Octets
  import opened RegexLang

  datatype Item = One(c: byte) | Span(lo: byte, hi: byte)

  datatype Ere =
    | Nothing
    | Lit(c: byte)
    | Dot
    | Brackets(neg: bool, items: seq<Item>)
    | Caret
    | Dollar
    | Then(l: Ere, r: Ere)
    | Or(l: Ere, r: Ere)
    | Paren(body: Ere)
    | Iter(body: Ere, op: Op)

  // ----- meaning -----

  predicate Lists(item: Item, c: byte) {
    match item
    case One(x) => c == x
    case Span(lo, hi) => lo <= c <= hi
  }

  predicate Listed(items: seq<Item>, c: byte) {
    exists i | 0 <= i < |items| :: Lists(items[i], c)
  }

  /** `e` matches `s.text[i..j]`. */
  ghost predicate Means(e: Ere, s: Subject, i: nat, j: nat)
    decreases e, 0
  {
    i <= j <= |s.text| &&
    match e
    case Nothing => i == j
    case Lit(c) => j == i + 1 && s.text[i] == c
    case Dot => j == i + 1 && s.text[i] != 0
    case Brackets(neg, items) => j == i + 1 && neg != Listed(items, s.text[i])
    case Caret => i == j == 0 && !s.notBol
    case Dollar => i == j == |s.text| && !s.notEol
    case Then(l, r) => exists k: nat :: Means(l, s, i, k) && Means(r, s, k, j)
    case Or(l, r) => Means(l, s, i, j) || Means(r, s, i, j)
    case Paren(body) => Means(body, s, i, j)
    case Iter(body, op) => exists n: nat :: Allows(op, n) && Times(body, s, n, i, j)
  }

  /** `n` matches of `e` in a row take `i` to `j`. */
  ghost predicate Times(e: Ere, s: Subject, n: nat, i: nat, j: nat)
    decreases e, n + 1
  {
    if n == 0 then i == j <= |s.text|
    else exists k: nat :: Means(e, s, i, k) && Times(e, s, n - 1, k, j)
  }

  // ----- grammar -----

  predicate Atom(e: Ere) {
    e.Lit? || e.Dot? || e.Brackets? || e.Paren?
  }

  /** An atom under a run of repetition characters. */
  predicate Starred(e: Ere) {
    e.Iter? && (Atom(e.body) || Starred(e.body))
  }

  function Base(e: Ere): (a: Ere)
    ensures a == e || a < e
  {
    if e.Iter? then Base(e.body) else e
  }

  function Ops(e: Ere): seq<Op> {
    if e.Iter? then Ops(e.body) + [e.op] else []
  }

  /** A branch is a chain of pieces from the left; alternatives nest to the right;
      anchors are not repeated. */
  ghost predicate Branch(e: Ere)
    decreases e, 0
  {
    e.Nothing? || (e.Then? && Branch(e.l) && Piece(e.r))
  }

  ghost predicate Piece(e: Ere)
    decreases e, 0
  {
    match e
    case Lit(c) => c != 0
    case Dot => true
    case Brackets(neg, items) => Spelled(neg, items)
    case Caret => true
    case Dollar => true
    case Paren(body) => Alternatives(body)
    case Iter(_, _) => Starred(e) && Piece(Base(e))
    case _ => false
  }

  ghost predicate Alternatives(e: Ere)
    decreases e, 1
  {
    Branch(e) || (e.Or? && Branch(e.l) && Alternatives(e.r))
  }

  // ----- bracket expressions -----

  const HYPHEN: byte := 45
  const RBRACKET: byte := 93
  const LBRACKET: byte := 91
  const COLON: byte := 58
  const HAT: byte := 94

  function Lead(item: Item): byte {
    match item case One(c) => c case Span(lo, _) => lo
  }

  function ItemText(item: Item): (t: seq<byte>)
    ensures |t| >= 1 && t[0] == Lead(item)
  {
    match item
    case One(c) => [c]
    case Span(lo, hi) => [lo, HYPHEN, hi]
  }

  function ItemsText(items: seq<Item>): (t: seq<byte>)
    ensures |items| > 0 ==> |t| > 0 && t[0] == Lead(items[0])
  {
    if |items| == 0 then [] else ItemText(items[0]) + ItemsText(items[1..])
  }

  /** The list can be written between brackets so that every byte is read as
      meant: `]` only first, `-` only first or last, no `[:`, no leading `^` in a
      positive list, ranges in order. */
  predicate Spelled(neg: bool, items: seq<Item>) {
    && |items| > 0
    && (!neg ==> Lead(items[0]) != HAT)
    && forall i | 0 <= i < |items| :: SpelledItem(items, i)
  }

  predicate SpelledItem(items: seq<Item>, i: nat)
    requires i < |items|
  {
    && Lead(items[i]) != 0
    && (Lead(items[i]) == RBRACKET ==> i == 0)
    && match items[i]
       case One(c) =>
         && (c == HYPHEN ==> i == 0 || i == |items| - 1)
         && (c == LBRACKET && i + 1 < |items| ==> Lead(items[i + 1]) != COLON)
       case Span(lo, hi) => lo <= hi && hi != RBRACKET && lo != HYPHEN
  }

  // ----- spelling -----

  datatype Token =
    | TLit(c: byte)
    | TDot
    | TBrackets(neg: bool, items: seq<Item>)
    | TCaret
    | TDollar
    | TOpen
    | TClose
    | TBar
    | TOps(ops: seq<Op>)

  const BACKSLASH: byte := 92

  /** Bytes that stand for themselves only after a backslash: \ . [ * + ? ( ) | ^ $ { */
  predicate Special(c: byte) {
    c in {92, 46, 91, 42, 43, 63, 40, 41, 124, 94, 36, 123}
  }

  function OpByte(op: Op): byte {
    match op case Star => 42 case Plus => 43 case Opt => 63
  }

  function OpsText(ops: seq<Op>): (t: seq<byte>)
    ensures |t| == |ops| && forall i | 0 <= i < |ops| :: t[i] == OpByte(ops[i])
  {
    seq(|ops|, i requires 0 <= i < |ops| => OpByte(ops[i]))
  }

  function TokenText(t: Token): (r: seq<byte>)
    ensures (t.TOps? ==> |t.ops| > 0) ==> |r| > 0
  {
    match t
    case TLit(c) => if Special(c) then [BACKSLASH, c] else [c]
    case TDot => [46]
    case TBrackets(neg, items) => [LBRACKET] + (if neg then [HAT] else []) + ItemsText(items) + [RBRACKET]
    case TCaret => [HAT]
    case TDollar => [36]
    case TOpen => [40]
    case TClose => [41]
    case TBar => [124]
    case TOps(ops) => OpsText(ops)
  }

  function Text(ts: seq<Token>): seq<byte> {
    if |ts| == 0 then [] else TokenText(ts[0]) + Text(ts[1..])
  }

  function Tokens(e: Ere): seq<Token>
    decreases e
  {
    match e
    case Nothing => []
    case Lit(c) => [TLit(c)]
    case Dot => [TDot]
    case Brackets(neg, items) => [TBrackets(neg, items)]
    case Caret => [TCaret]
    case Dollar => [TDollar]
    case Then(l, r) => Tokens(l) + Tokens(r)
    case Or(l, r) => Tokens(l) + [TBar] + Tokens(r)
    case Paren(body) => [TOpen] + Tokens(body) + [TClose]
    case Iter(body, _) => Tokens(Base(e)) + [TOps(Ops(e))]
  }

  /** How the expression is written. */
  function Spelling(e: Ere): seq<byte> {
    Text(Tokens(e))
  }

  /** Tokens that can be written and read back. */
  ghost predicate TokenOk(t: Token) {
    match t
    case TLit(c) => c != 0
    case TBrackets(neg, items) => Spelled(neg, items)
    case TOps(ops) => |ops| > 0
    case _ => true
  }

  ghost predicate TokensOk(ts: seq<Token>) {
    forall t | t in ts :: TokenOk(t)
  }

  // ----- runs of repetition characters -----

  /** What two repetition characters in a row amount to. */
  function Compose(a: Op, b: Op): Op {
    if a == b then a else Star
  }

  /** The operator a run collapses to. */
  function Collapse(ops: seq<Op>): (op: Op)
    requires |ops| > 0
  {
    if |ops| == 1 then ops[0] else Compose(Collapse(ops[..|ops| - 1]), ops[|ops| - 1])
  }

  lemma {:induction false} TimesBounds(e: Ere, s: Subject, n: nat, i: nat, j: nat)
    requires Times(e, s, n, i, j)
    ensures i <= j <= |s.text|
    decreases n
  {
    if n > 0 {
      var k: nat :| Means(e, s, i, k) && Times(e, s, n - 1, k, j);
      TimesBounds(e, s, n - 1, k, j);
    }
  }

  lemma {:induction false} TimesAdd(e: Ere, s: Subject, m: nat, n: nat, i: nat, k: nat, j: nat)
    requires Times(e, s, m, i, k) && Times(e, s, n, k, j)
    ensures Times(e, s, m + n, i, j)
    decreases m
  {
    if m > 0 {
      var h: nat :| Means(e, s, i, h) && Times(e, s, m - 1, h, k);
      TimesAdd(e, s, m - 1, n, h, k, j);
      assert Means(e, s, i, h) && Times(e, s, m + n - 1, h, j);
    }
  }

  /** Repetitions of a repetition are repetitions. */
  lemma {:induction false} TimesFlatten(e: Ere, op: Op, s: Subject, n: nat, i: nat, j: nat) returns (m: nat)
    requires Times(Iter(e, op), s, n, i, j)
    ensures Times(e, s, m, i, j)
    ensures (op.Plus? ==> m >= n) && (op.Opt? ==> m <= n)
    decreases n
  {
    m := 0;
    if n > 0 {
      var k: nat :| Means(Iter(e, op), s, i, k) && Times(Iter(e, op), s, n - 1, k, j);
      var h: nat :| Allows(op, h) && Times(e, s, h, i, k);
      var rest := TimesFlatten(e, op, s, n - 1, k, j);
      TimesAdd(e, s, h, rest, i, k, j);
      m := h + rest;
    }
  }

  /** Each single repetition is a repetition of one. */
  lemma {:induction false} TimesLift(e: Ere, op: Op, s: Subject, n: nat, i: nat, j: nat)
    requires Times(e, s, n, i, j)
    ensures Times(Iter(e, op), s, n, i, j)
    decreases n
  {
    if n > 0 {
      var k: nat :| Means(e, s, i, k) && Times(e, s, n - 1, k, j);
      OnceLift(e, op, s, 1, i, k);
      TimesLift(e, op, s, n - 1, k, j);
    }
  }

  lemma OnceLift(e: Ere, op: Op, s: Subject, n: nat, i: nat, j: nat)
    requires n == 1 ==> Means(e, s, i, j)
    requires n != 1 ==> Times(e, s, n, i, j) && Allows(op, n)
    ensures Means(Iter(e, op), s, i, j)
  {
    if n == 1 {
      assert Times(e, s, 0, j, j);
      assert Times(e, s, 1, i, j);
      assert Allows(op, 1);
    } else {
      TimesBounds(e, s, n, i, j);
    }
  }

  /** Two repetition characters in a row mean the one they compose to. */
  lemma ComposeMeans(e: Ere, a: Op, b: Op, s: Subject, i: nat, j: nat)
    ensures Means(Iter(Iter(e, a), b), s, i, j) <==> Means(Iter(e, Compose(a, b)), s, i, j)
  {
    if Means(Iter(Iter(e, a), b), s, i, j) {
      var n: nat :| Allows(b, n) && Times(Iter(e, a), s, n, i, j);
      var m := TimesFlatten(e, a, s, n, i, j);
      assert Allows(Compose(a, b), m);
    }
    if Means(Iter(e, Compose(a, b)), s, i, j) {
      var n: nat :| Allows(Compose(a, b), n) && Times(e, s, n, i, j);
      Unflatten(e, a, b, s, n, i, j);
    }
  }

  lemma Unflatten(e: Ere, a: Op, b: Op, s: Subject, n: nat, i: nat, j: nat)
    requires Allows(Compose(a, b), n) && Times(e, s, n, i, j)
    ensures Means(Iter(Iter(e, a), b), s, i, j)
  {
    TimesBounds(e, s, n, i, j);
    if Allows(a, n) {
      assert Means(Iter(e, a), s, i, j);
      OnceLift(Iter(e, a), b, s, 1, i, j);
    } else if Allows(b, n) {
      TimesLift(e, a, s, n, i, j);
      assert Means(Iter(Iter(e, a), b), s, i, j);
    } else {
      assert false;
    }
  }

  /** A run of repetition characters means the operator it collapses to. */
  lemma {:induction false} CollapseMeans(e: Ere, s: Subject, i: nat, j: nat)
    requires Starred(e)
    ensures |Ops(e)| > 0
    ensures Means(e, s, i, j) <==> Means(Iter(Base(e), Collapse(Ops(e))), s, i, j)
    decreases e, 0
  {
    if e.body.Iter? {
      IterMonotone(e, s, i, j);
      var c := Collapse(Ops(e.body));
      assert Ops(e)[..|Ops(e)| - 1] == Ops(e.body);
      ComposeMeans(Base(e), c, e.op, s, i, j);
    } else {
      assert Ops(e) == [e.op];
    }
  }

  lemma {:induction false} IterMonotone(e: Ere, s: Subject, i: nat, j: nat)
    requires Starred(e) && e.body.Iter?
    ensures |Ops(e.body)| > 0
    ensures Means(e, s, i, j) <==> Means(Iter(Iter(Base(e.body), Collapse(Ops(e.body))), e.op), s, i, j)
    decreases e.body, 1
  {
    var b' := Iter(Base(e.body), Collapse(Ops(e.body)));
    forall x: nat, y: nat
      ensures Means(e.body, s, x, y) <==> Means(b', s, x, y)
    {
      CollapseMeans(e.body, s, x, y);
    }
    CollapseMeans(e.body, s, i, j);
    forall n: nat
      ensures Times(e.body, s, n, i, j) <==> Times(b', s, n, i, j)
    {
      TimesSame(e.body, b', s, n, i, j);
    }
  }

  lemma TimesSame(a: Ere, b: Ere, s: Subject, n: nat, i: nat, j: nat)
    requires forall x: nat, y: nat :: Means(a, s, x, y) <==> Means(b, s, x, y)
    ensures Times(a, s, n, i, j) <==> Times(b, s, n, i, j)
  {
    hide Means, Times;
    if Times(a, s, n, i, j) { TimesMore(a, b, s, n, i, j); }
    if Times(b, s, n, i, j) { TimesMore(b, a, s, n, i, j); }
  }

  lemma {:induction false} TimesMore(a: Ere, b: Ere, s: Subject, n: nat, i: nat, j: nat)
    requires forall x: nat, y: nat :: Means(a, s, x, y) ==> Means(b, s, x, y)
    requires Times(a, s, n, i, j)
    ensures Times(b, s, n, i, j)
    decreases n
  {
    hide Means;
    if n > 0 {
      var k: nat :| Means(a, s, i, k) && Times(a, s, n - 1, k, j);
      TimesMore(a, b, s, n - 1, k, j);
    }
  }
}
