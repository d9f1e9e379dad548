/** Patterns as bytes.

    How each construct of an expression is written, in bytes; and, for families of
    small patterns, in which texts `regex_match` finds them, said of the bytes of the
    pattern and of the text alone. */
module Literals {
  import opened Octets
  import opened RegexLang
  import opened Bytecode
  import opened Rewriting
  import opened Invariant
  import opened Layout
  import opened Closings
  import opened Codegen
  import opened Ere
  import opened Parse
  import opened MatchTheorem
  import opened Outcome
  import opened Compilation
  import opened SafeSets
  import opened QuietGroups
  import opened FastmapRoom
  import opened Posix

  // ----- how it is written -----

  /** Bytes that stand for themselves: not NUL, nor any of $ ( ) * + . ? [ \ ^ { | */
  predicate Ordinary(c: byte) {
    c !in [0, 36, 40, 41, 42, 43, 46, 63, 91, 92, 94, 123, 124]
  }

  lemma {:induction false} TextConcat(a: seq<Token>, b: seq<Token>)
    ensures Text(a + b) == Text(a) + Text(b)
  {
    hide TokenText;
    if |a| == 0 {
      assert a + b == b;
    } else {
      assert (a + b)[1..] == a[1..] + b;
      TextConcat(a[1..], b);
    }
  }

  lemma OneToken(t: Token)
    ensures Text([t]) == TokenText(t)
  {
    hide TokenText;
    assert Text([t][1..]) == [];
  }

  /** A byte is written as itself, or behind a backslash. */
  lemma SpellsByte(c: byte)
    ensures Spelling(Lit(c)) == if c == 0 || Ordinary(c) then [c] else [92, c]
  {
    OneToken(TLit(c));
  }

  lemma SpellsSigns()
    ensures Spelling(Nothing) == [] && Spelling(Dot) == [46] && Spelling(Caret) == [94] && Spelling(Dollar) == [36]
  {
    OneToken(TDot);
    OneToken(TCaret);
    OneToken(TDollar);
  }

  lemma SpellsThen(l: Ere, r: Ere)
    ensures Spelling(Then(l, r)) == Spelling(l) + Spelling(r)
  {
    hide Text;
    TextConcat(Tokens(l), Tokens(r));
  }

  lemma SpellsOr(l: Ere, r: Ere)
    ensures Spelling(Or(l, r)) == Spelling(l) + [124] + Spelling(r)
  {
    hide Text;
    TextConcat(Tokens(l), [TBar]);
    TextConcat(Tokens(l) + [TBar], Tokens(r));
    OneToken(TBar);
  }

  lemma SpellsParen(body: Ere)
    ensures Spelling(Paren(body)) == [40] + Spelling(body) + [41]
  {
    hide Text;
    TextConcat([TOpen], Tokens(body));
    TextConcat([TOpen] + Tokens(body), [TClose]);
    OneToken(TOpen);
    OneToken(TClose);
  }

  /** A repetition is written behind what it repeats, be that a repetition or not. */
  lemma SpellsRepetition(a: Ere)
    ensures Spelling(Iter(a, Star)) == Spelling(a) + [42]
    ensures Spelling(Iter(a, Plus)) == Spelling(a) + [43]
    ensures Spelling(Iter(a, Opt)) == Spelling(a) + [63]
  {
    hide Spelling;
    LastOperator(a, Star);
    LastOperator(a, Plus);
    LastOperator(a, Opt);
  }

  lemma LastOperator(a: Ere, op: Op)
    ensures Spelling(Iter(a, op)) == Spelling(a) + [OpByte(op)]
  {
    hide Text, Tokens, OpsText, OpByte;
    var e, ops := Iter(a, op), Ops(a);
    WrittenBehind(e);
    TextConcat(Tokens(Base(a)), [TOps(ops + [op])]);
    OneToken(TOps(ops + [op]));
    OpsSnoc(ops, op);
    if a.Iter? {
      WrittenBehind(a);
      TextConcat(Tokens(Base(a)), [TOps(ops)]);
      OneToken(TOps(ops));
    } else {
      NoOps(a);
    }
  }

  lemma WrittenBehind(e: Ere)
    requires e.Iter?
    ensures Tokens(e) == Tokens(Base(e)) + [TOps(Ops(e))]
  {
    hide Ops, Base;
  }

  lemma NoOps(a: Ere)
    requires !a.Iter?
    ensures Base(a) == a && Ops(a) == [] && OpsText([]) == []
  {}

  lemma OpsSnoc(ops: seq<Op>, op: Op)
    ensures OpsText(ops + [op]) == OpsText(ops) + [OpByte(op)]
  {
    hide OpByte;
  }

  /** A list is written between brackets, behind `^` when it is complemented. */
  lemma SpellsList(items: seq<Item>)
    ensures Spelling(Brackets(false, items)) == [91] + ItemsText(items) + [93]
    ensures Spelling(Brackets(true, items)) == [91, 94] + ItemsText(items) + [93]
  {
    hide ItemsText;
    OneToken(TBrackets(false, items));
    OneToken(TBrackets(true, items));
  }

  /** A byte in a list is written as itself, a range with a hyphen. */
  lemma SpellsItem(c: byte, lo: byte, hi: byte, items: seq<Item>)
    ensures ItemsText([One(c)] + items) == [c] + ItemsText(items)
    ensures ItemsText([Span(lo, hi)] + items) == [lo, 45, hi] + ItemsText(items)
    ensures ItemsText([]) == []
  {
    assert ([One(c)] + items)[1..] == items;
    assert ([Span(lo, hi)] + items)[1..] == items;
  }

  // ----- what is found -----

  lemma {:induction false} GroupsInside(n: Re, e: Re)
    requires Inside(n, e)
    ensures Groups(n) <= Groups(e)
  {
    if n != e {
      match e
      case Cat(l, r) => if Inside(n, l) { GroupsInside(n, l); } else { GroupsInside(n, r); }
      case Alt(l, r) => if Inside(n, l) { GroupsInside(n, l); } else { GroupsInside(n, r); }
      case Group(_, _, body) => GroupsInside(n, body);
      case Repeat(_, body) => GroupsInside(n, body);
    }
  }

  /** In code without groups no `stop_memory` stands before a closing jump. */
  lemma FreeLoop(n: Re, code: seq<byte>, p: nat, x: nat)
    requires Fit(n) && Groups(n) == 0 && Starts(code, p) && LaidOut(n, code, p) && Owns(n, p, x + 3)
    requires Starts(code, x) && Fetch(code, x + 3).MaybePopJump?
    ensures !Fetch(code, x).StopMemory?
  {
    hide Fetch, Starts, Boundary, LaidOut, LoopAt;
    if Fetch(code, x).StopMemory? {
      var t := ClosedLoop(n, code, p, x + 3);
      var body := n.body;
      LoopParts(body, code, t);
      LoopStarts(body, code, t);
      LeafByte(body, code, t + 3);
      Outside(code, t, x);
      Outside(code, t + 3, x);
      assert false;
    }
  }

  lemma FreeStop(e: Re, code: seq<byte>, x: nat)
    requires Fit(e) && Groups(e) == 0 && LaidOut(e, code, 0) && Len(e) == |code|
    requires Starts(code, x) && Fetch(code, x + 3).MaybePopJump?
    ensures !Fetch(code, x).StopMemory?
  {
    hide Fetch, LaidOut, Boundary, Fit, Groups, Owns, Starts, Len;
    if Fetch(code, x).StopMemory? {
      StartAtZero(code);
      StartsNext(code, x);
      NoFetch(code);
      StartAtMost(code, x + 3);
      var n, p := Owner(e, code, 0, x + 3);
      InsideFit(n, e);
      GroupsInside(n, e);
      FreeLoop(n, code, p, x);
    }
  }

  /** With no group there is nothing to peek at. */
  lemma NoGroupsPeekSafe(e: Re, code: seq<byte>)
    requires Compiled(e, code, 0)
    ensures PeekSafe(code)
  {
    hide Fetch, Starts, Boundary, LaidOut, Fit, Numbered, After, Groups;
    GroupsNumbered(e, 1);
    forall x: nat | Starts(code, x) && Fetch(code, x + 3).MaybePopJump?
      ensures !Fetch(code, x).StopMemory?
    {
      FreeStop(e, code, x);
    }
  }

  /** In an expression without groups, with no high byte in a repeated list, and not too
      long, what is found is what occurs. */
  lemma FoundIsThere(e: Ere, s: Subject)
    requires Supported(e) && Parens(e) == 0 && LowSets(e) && |Spelling(e)| <= 2730
    ensures |CodeOf(e)| <= MAX_CODE && Safe(CodeOf(e)) && (Finds(e, s) <==> Occurs(e, s))
  {
    hide CodeOf, CoreOf, Occurs, Finds, LowSets, PeekSafe, PopSafe, Spelling, MeansSame, Framed, Compiled, Alternatives;
    ShortFits(e);
    CoreFacts(e);
    NoGroupsPeekSafe(CoreOf(e), CodeOf(e));
    LowSetsPopSafe(e);
    FindsOccurs(e, s);
  }

  // ----- lines -----

  /** The expression by itself. */
  function Just(a: Ere): Ere {
    Then(Nothing, a)
  }

  /** The expression between `^` and `$`. */
  function Line(a: Ere): Ere {
    Then(Then(Then(Nothing, Caret), a), Dollar)
  }

  /** A branch and one piece more. */
  lemma Chained(l: Ere, r: Ere)
    requires Branch(l) && Piece(r) && Parens(l) + Parens(r) <= MAX_REGNUM && LowSets(l) && LowSets(r)
    ensures var e := Then(l, r);
      Branch(e) && Supported(e) && Parens(e) == Parens(l) + Parens(r) && LowSets(e) && Spelling(e) == Spelling(l) + Spelling(r)
  {
    hide Piece, Spelling;
    SpellsThen(l, r);
  }

  lemma JustFacts(a: Ere)
    requires Piece(a) && Parens(a) <= MAX_REGNUM && LowSets(a)
    ensures var e := Just(a);
      Branch(e) && Supported(e) && Parens(e) == Parens(a) && LowSets(e) && Spelling(e) == Spelling(a)
  {
    hide Piece, Spelling;
    Chained(Nothing, a);
    SpellsSigns();
    assert [] + Spelling(a) == Spelling(a);
  }

  lemma LineFacts(a: Ere)
    requires Piece(a) && Parens(a) <= MAX_REGNUM && LowSets(a)
    ensures var e := Line(a);
      Supported(e) && Parens(e) == Parens(a) && LowSets(e) && Spelling(e) == [94] + Spelling(a) + [36]
  {
    hide Spelling, Branch;
    JustFacts(Caret);
    Chained(Just(Caret), a);
    Chained(Then(Just(Caret), a), Dollar);
    SpellsSigns();
  }

  lemma JustMeans(a: Ere, s: Subject, i: nat, j: nat)
    ensures Means(Just(a), s, i, j) <==> Means(a, s, i, j)
  {
    if Means(a, s, i, j) { assert Means(Nothing, s, i, i); }
  }

  lemma JustOccurs(a: Ere, s: Subject)
    ensures Occurs(Just(a), s) <==> Occurs(a, s)
  {
    hide Means, Just;
    if i: nat, j: nat :| Means(Just(a), s, i, j) { JustMeans(a, s, i, j); }
    if i: nat, j: nat :| Means(a, s, i, j) { JustMeans(a, s, i, j); }
  }

  /** Between the anchors all of the text is to be taken. */
  lemma LineOccurs(a: Ere, s: Subject)
    ensures Occurs(Line(a), s) <==> !s.notBol && !s.notEol && Means(a, s, 0, |s.text|)
  {
    hide Means, Line;
    if i: nat, j: nat :| Means(Line(a), s, i, j) { LineMeans(a, s, i, j); }
    if !s.notBol && !s.notEol && Means(a, s, 0, |s.text|) { LineMeans(a, s, 0, |s.text|); }
  }

  lemma LineMeans(a: Ere, s: Subject, i: nat, j: nat)
    ensures Means(Line(a), s, i, j) <==>
      i == 0 && j == |s.text| && !s.notBol && !s.notEol && Means(a, s, 0, |s.text|)
  {
    var front := Then(Then(Nothing, Caret), a);
    forall k: nat
      ensures Means(front, s, i, k) <==> i == 0 && !s.notBol && Means(a, s, 0, k)
    {
      FrontMeans(a, s, i, k);
    }
  }

  lemma FrontMeans(a: Ere, s: Subject, i: nat, k: nat)
    ensures Means(Then(Then(Nothing, Caret), a), s, i, k) <==> i == 0 && !s.notBol && Means(a, s, 0, k)
  {
    forall m: nat
      ensures Means(Just(Caret), s, i, m) <==> i == m == 0 && !s.notBol
    {
      JustMeans(Caret, s, i, m);
    }
    assert Means(Then(Just(Caret), a), s, i, k) <==> exists m: nat :: Means(Just(Caret), s, i, m) && Means(a, s, m, k);
  }

  // ----- repetitions of a byte -----

  lemma {:induction false} TimesByte(x: byte, s: Subject, n: nat, i: nat, j: nat)
    ensures Times(Lit(x), s, n, i, j) <==> j == i + n && j <= |s.text| && forall k | i <= k < j :: s.text[k] == x
    decreases n
  {
    if n > 0 {
      TimesByte(x, s, n - 1, i + 1, j);
      NextByte(x, s, n, i, j);
    }
  }

  lemma NextByte(x: byte, s: Subject, n: nat, i: nat, j: nat)
    requires n > 0
    ensures Times(Lit(x), s, n, i, j) <==> i < |s.text| && s.text[i] == x && Times(Lit(x), s, n - 1, i + 1, j)
  {
    var once := exists k: nat :: Means(Lit(x), s, i, k) && Times(Lit(x), s, n - 1, k, j);
    assert Times(Lit(x), s, n, i, j) <==> once;
    if i < |s.text| && s.text[i] == x { assert Means(Lit(x), s, i, i + 1); }
    if once {
      var k: nat :| Means(Lit(x), s, i, k) && Times(Lit(x), s, n - 1, k, j);
      assert k == i + 1;
    }
  }

  lemma RepeatedByte(x: byte, op: Op, s: Subject, i: nat, j: nat)
    ensures Means(Iter(Lit(x), op), s, i, j) <==>
      i <= j <= |s.text| && Allows(op, j - i) && forall k | i <= k < j :: s.text[k] == x
  {
    hide Allows, Times;
    forall n: nat
      ensures Times(Lit(x), s, n, i, j) <==> j == i + n && j <= |s.text| && forall k | i <= k < j :: s.text[k] == x
    {
      TimesByte(x, s, n, i, j);
    }
    if i <= j { assert Times(Lit(x), s, j - i, i, j) ==> Allows(op, j - i) ==> exists n: nat :: Allows(op, n) && Times(Lit(x), s, n, i, j); }
  }

  lemma RepeatedPiece(x: byte, op: Op)
    requires Ordinary(x)
    ensures var a := Iter(Lit(x), op);
      Piece(a) && Parens(a) == 0 && LowSets(a) && Spelling(a) == [x, match op case Star => 42 case Plus => 43 case Opt => 63]
  {
    hide Spelling;
    SpellsRepetition(Lit(x));
    SpellsByte(x);
    assert Base(Lit(x)) == Lit(x);
  }

  /** `^x*$` is found in the texts of nothing but x. */
  lemma StarLine(x: byte, s: Subject)
    requires Ordinary(x)
    ensures var e := Line(Iter(Lit(x), Star));
      && Supported(e) && Spelling(e) == [94, x, 42, 36] && |CodeOf(e)| <= MAX_CODE
      && (Finds(e, s) <==> !s.notBol && !s.notEol && forall c | c in s.text :: c == x)
  {
    hide Line, Spelling, Finds, Supported, CodeOf;
    RepeatedLine(x, Star, s);
  }

  /** `^x+$` in those that are not empty. */
  lemma PlusLine(x: byte, s: Subject)
    requires Ordinary(x)
    ensures var e := Line(Iter(Lit(x), Plus));
      && Supported(e) && Spelling(e) == [94, x, 43, 36] && |CodeOf(e)| <= MAX_CODE
      && (Finds(e, s) <==> !s.notBol && !s.notEol && s.text != [] && forall c | c in s.text :: c == x)
  {
    hide Line, Spelling, Finds, Supported, CodeOf;
    RepeatedLine(x, Plus, s);
  }

  /** `^x?$` in the empty text and in x. */
  lemma OptLine(x: byte, s: Subject)
    requires Ordinary(x)
    ensures var e := Line(Iter(Lit(x), Opt));
      && Supported(e) && Spelling(e) == [94, x, 63, 36] && |CodeOf(e)| <= MAX_CODE
      && (Finds(e, s) <==> !s.notBol && !s.notEol && (s.text == [] || s.text == [x]))
  {
    hide Line, Spelling, Finds, Supported, CodeOf;
    RepeatedLine(x, Opt, s);
    AtMostOne(x, s.text);
  }

  lemma AtMostOne(x: byte, t: seq<byte>)
    ensures |t| <= 1 && (forall c | c in t :: c == x) <==> t == [] || t == [x]
  {
    if |t| == 1 { assert t[0] in t; }
  }

  lemma RepeatedLine(x: byte, op: Op, s: Subject)
    requires Ordinary(x)
    ensures var e := Line(Iter(Lit(x), op));
      && Supported(e) && Spelling(e) == [94, x, match op case Star => 42 case Plus => 43 case Opt => 63, 36]
      && |CodeOf(e)| <= MAX_CODE
      && (Finds(e, s) <==> !s.notBol && !s.notEol && Allows(op, |s.text|) && forall c | c in s.text :: c == x)
  {
    hide Line, Spelling, Means, Allows, Finds, Occurs, Supported, CodeOf, Piece, LowSets, Safe, Parens;
    var a := Iter(Lit(x), op);
    RepeatedPiece(x, op);
    LineFacts(a);
    FoundIsThere(Line(a), s);
    LineOccurs(a, s);
    RepeatedByte(x, op, s, 0, |s.text|);
    AllBytes(x, s.text);
  }

  lemma AllBytes(x: byte, t: seq<byte>)
    ensures (forall c | c in t :: c == x) <==> (forall k | 0 <= k < |t| :: t[k] == x)
  {
    forall k | 0 <= k < |t|
      ensures t[k] in t
    {}
  }

  lemma PlusOccurs(a: Ere, x: byte, s: Subject)
    requires forall i: nat, j: nat :: Means(a, s, i, j) <==> i < j <= |s.text| && forall k | i <= k < j :: s.text[k] == x
    ensures Occurs(a, s) <==> x in s.text
  {
    hide Means;
    if i: nat, j: nat :| Means(a, s, i, j) { assert s.text[i] == x; }
    if x in s.text {
      var i :| 0 <= i < |s.text| && s.text[i] == x;
      TheyOccur(a, s, i, i + 1);
    }
  }

  /** `x+` is found where there is an x. */
  lemma PlusFound(x: byte, s: Subject)
    requires Ordinary(x)
    ensures var e := Just(Iter(Lit(x), Plus));
      && Supported(e) && Spelling(e) == [x, 43] && |CodeOf(e)| <= MAX_CODE
      && (Finds(e, s) <==> x in s.text)
  {
    hide Just, Spelling, Means, Finds, Supported, CodeOf, Piece, LowSets, Safe, Parens, Occurs;
    var a := Iter(Lit(x), Plus);
    RepeatedPiece(x, Plus);
    JustFacts(a);
    FoundIsThere(Just(a), s);
    JustOccurs(a, s);
    forall i: nat, j: nat
      ensures Means(a, s, i, j) <==> i < j <= |s.text| && forall k | i <= k < j :: s.text[k] == x
    {
      RepeatedByte(x, Plus, s, i, j);
    }
    PlusOccurs(a, x, s);
  }

  // ----- anchors -----

  lemma ByteFacts(x: byte)
    requires Ordinary(x)
    ensures var a := Lit(x); Piece(a) && Parens(a) == 0 && LowSets(a) && Spelling(a) == [x]
  {
    SpellsByte(x);
  }

  lemma AnchorPieces()
    ensures Piece(Caret) && Parens(Caret) == 0 && LowSets(Caret)
    ensures Piece(Dollar) && Parens(Dollar) == 0 && LowSets(Dollar)
  {}

  /** `^x` is found in texts that begin with x, unless the beginning is not one. */
  lemma CaretFound(x: byte, s: Subject)
    requires Ordinary(x)
    ensures var e := Then(Just(Caret), Lit(x));
      && Supported(e) && Spelling(e) == [94, x] && |CodeOf(e)| <= MAX_CODE
      && (Finds(e, s) <==> !s.notBol && |s.text| > 0 && s.text[0] == x)
  {
    hide Spelling, Means, Finds, CodeOf, Piece, Safe, Ordinary;
    var e := Then(Just(Caret), Lit(x));
    ByteFacts(x);
    AnchorPieces();
    SpellsSigns();
    JustFacts(Caret);
    Chained(Just(Caret), Lit(x));
    FoundIsThere(e, s);
    forall i: nat, j: nat
      ensures Means(e, s, i, j) <==> i == 0 && !s.notBol && Means(Lit(x), s, 0, j)
    {
      FrontMeans(Lit(x), s, i, j);
    }
    ByteMeans(x, s);
    if |s.text| > 0 && s.text[0] == x && !s.notBol { TheyOccur(e, s, 0, 1); }
  }

  lemma ByteMeans(x: byte, s: Subject)
    ensures forall i: nat, j: nat :: Means(Lit(x), s, i, j) <==> j == i + 1 <= |s.text| && s.text[i] == x
  {}

  /** `x$` in texts that end with x, unless the end is not one. */
  lemma DollarFound(x: byte, s: Subject)
    requires Ordinary(x)
    ensures var e := Then(Just(Lit(x)), Dollar);
      && Supported(e) && Spelling(e) == [x, 36] && |CodeOf(e)| <= MAX_CODE
      && (Finds(e, s) <==> !s.notEol && |s.text| > 0 && s.text[|s.text| - 1] == x)
  {
    hide Just, Spelling, Means, Finds, CodeOf, Piece, Safe, Ordinary;
    var e := Then(Just(Lit(x)), Dollar);
    ByteFacts(x);
    AnchorPieces();
    SpellsSigns();
    JustFacts(Lit(x));
    Chained(Just(Lit(x)), Dollar);
    FoundIsThere(e, s);
    forall i: nat, j: nat
      ensures Means(e, s, i, j) <==> j == |s.text| && !s.notEol && Means(Lit(x), s, i, j)
    {
      EndMeans(Lit(x), s, i, j);
    }
    ByteMeans(x, s);
    var n := |s.text|;
    if n > 0 && s.text[n - 1] == x && !s.notEol { TheyOccur(e, s, n - 1, n); }
  }

  lemma EndMeans(a: Ere, s: Subject, i: nat, j: nat)
    ensures Means(Then(Just(a), Dollar), s, i, j) <==> j == |s.text| && !s.notEol && Means(a, s, i, j)
  {
    var e := Then(Just(a), Dollar);
    var some := exists k: nat :: Means(Just(a), s, i, k) && Means(Dollar, s, k, j);
    assert Means(e, s, i, j) <==> i <= j <= |s.text| && some;
    JustMeans(a, s, i, j);
    if some {
      var k: nat :| Means(Just(a), s, i, k) && Means(Dollar, s, k, j);
      assert k == j;
    }
    if Means(a, s, i, j) && j == |s.text| && !s.notEol { assert Means(Just(a), s, i, j) && Means(Dollar, s, j, j); }
  }

  // ----- lists -----

  /** The byte at `i` is a match. */
  ghost predicate TakesOne(a: Ere, s: Subject, i: nat) {
    i < |s.text| && Means(a, s, i, i + 1)
  }

  /** A single byte is found where there is one it takes. */
  lemma OneByteFound(a: Ere, s: Subject, takes: byte -> bool)
    requires a.Dot? || a.Brackets?
    requires forall i: nat | i < |s.text| :: TakesOne(a, s, i) <==> takes(s.text[i])
    ensures Occurs(Just(a), s) <==> exists c | c in s.text :: takes(c)
  {
    hide Just;
    JustOccurs(a, s);
    if i: nat, j: nat :| Means(a, s, i, j) {
      assert TakesOne(a, s, i);
      assert s.text[i] in s.text;
    }
    if c :| c in s.text && takes(c) {
      var i: nat :| i < |s.text| && s.text[i] == c;
      assert TakesOne(a, s, i);
      TheyOccur(a, s, i, i + 1);
    }
  }

  lemma RangeMeans(neg: bool, lo: byte, hi: byte, s: Subject, i: nat)
    requires i < |s.text|
    ensures TakesOne(Brackets(neg, [Span(lo, hi)]), s, i) <==> neg != (lo <= s.text[i] <= hi)
  {
    var items := [Span(lo, hi)];
    assert Listed(items, s.text[i]) <==> Lists(items[0], s.text[i]);
  }

  lemma RangePiece(neg: bool, lo: byte, hi: byte)
    requires 0 < lo <= hi && lo != 45 && (lo != 94 || neg) && hi != 93
    ensures var a := Brackets(neg, [Span(lo, hi)]);
      Piece(a) && Parens(a) == 0 && LowSets(a) && Spelling(a) == (if neg then [91, 94] else [91]) + [lo, 45, hi, 93]
  {
    hide Spelling;
    SpellsList([Span(lo, hi)]);
    SpellsItem(0, lo, hi, []);
    assert [Span(lo, hi)] + [] == [Span(lo, hi)];
  }

  /** `[lo-hi]` is found where there is a byte from lo to hi. */
  lemma RangeFound(lo: byte, hi: byte, s: Subject)
    requires 0 < lo <= hi && lo != 45 && lo != 94 && hi != 93
    ensures var e := Just(Brackets(false, [Span(lo, hi)]));
      && Supported(e) && Spelling(e) == [91, lo, 45, hi, 93] && |CodeOf(e)| <= MAX_CODE
      && (Finds(e, s) <==> exists c | c in s.text :: lo <= c <= hi)
  {
    hide Just, Spelling, Finds, Supported, CodeOf, Piece, LowSets, Safe, Parens, Occurs, TakesOne;
    var a := Brackets(false, [Span(lo, hi)]);
    RangePiece(false, lo, hi);
    JustFacts(a);
    FoundIsThere(Just(a), s);
    forall i: nat | i < |s.text|
      ensures TakesOne(a, s, i) <==> lo <= s.text[i] <= hi
    {
      RangeMeans(false, lo, hi, s, i);
    }
    OneByteFound(a, s, c => lo <= c <= hi);
  }

  /** `[^lo-hi]` where there is another. */
  lemma OtherFound(lo: byte, hi: byte, s: Subject)
    requires 0 < lo <= hi && lo != 45 && hi != 93
    ensures var e := Just(Brackets(true, [Span(lo, hi)]));
      && Supported(e) && Spelling(e) == [91, 94, lo, 45, hi, 93] && |CodeOf(e)| <= MAX_CODE
      && (Finds(e, s) <==> exists c | c in s.text :: !(lo <= c <= hi))
  {
    hide Just, Spelling, Finds, Supported, CodeOf, Piece, LowSets, Safe, Parens, Occurs, TakesOne;
    var a := Brackets(true, [Span(lo, hi)]);
    RangePiece(true, lo, hi);
    JustFacts(a);
    FoundIsThere(Just(a), s);
    forall i: nat | i < |s.text|
      ensures TakesOne(a, s, i) <==> !(lo <= s.text[i] <= hi)
    {
      RangeMeans(true, lo, hi, s, i);
    }
    OneByteFound(a, s, c => !(lo <= c <= hi));
  }

  lemma DotTakes(s: Subject, i: nat)
    requires i < |s.text|
    ensures TakesOne(Dot, s, i) <==> s.text[i] != 0
  {}

  /** `.` where there is a byte other than NUL. */
  lemma DotFound(s: Subject)
    ensures var e := Just(Dot);
      && Supported(e) && Spelling(e) == [46] && |CodeOf(e)| <= MAX_CODE
      && (Finds(e, s) <==> exists c | c in s.text :: c != 0)
  {
    hide Just, Spelling, Finds, Supported, CodeOf, Safe, Occurs, TakesOne;
    JustFacts(Dot);
    SpellsSigns();
    FoundIsThere(Just(Dot), s);
    forall i: nat | i < |s.text|
      ensures TakesOne(Dot, s, i) <==> s.text[i] != 0
    {
      DotTakes(s, i);
    }
    OneByteFound(Dot, s, c => c != 0);
  }

  // ----- strings -----

  /** The bytes of `w` in a row. */
  function Word(w: seq<byte>): Ere {
    if |w| == 0 then Nothing else Then(Word(w[..|w| - 1]), Lit(w[|w| - 1]))
  }

  lemma {:induction false} WordFacts(w: seq<byte>)
    requires forall c | c in w :: Ordinary(c)
    ensures var e := Word(w);
      Branch(e) && Parens(e) == 0 && LowSets(e) && Spelling(e) == w
    decreases |w|
  {
    hide Ordinary, Spelling;
    if |w| == 0 {
      SpellsSigns();
    } else {
      var n := |w| - 1;
      WordFacts(w[..n]);
      LitPiece(w[n]);
      SpellsByte(w[n]);
      Chained(Word(w[..n]), Lit(w[n]));
      assert w == w[..n] + [w[n]];
    }
  }

  lemma LitPiece(c: byte)
    requires Ordinary(c)
    ensures Piece(Lit(c)) && c != 0
  {}

  lemma {:induction false} WordMeans(w: seq<byte>, s: Subject, i: nat, j: nat)
    ensures Means(Word(w), s, i, j) <==> i <= j <= |s.text| && s.text[i..j] == w
    decreases |w|
  {
    if |w| > 0 {
      var n := |w| - 1;
      forall k: nat
        ensures Means(Word(w[..n]), s, i, k) <==> i <= k <= |s.text| && s.text[i..k] == w[..n]
      {
        WordMeans(w[..n], s, i, k);
      }
      WordEnds(w, s, i, j);
    }
  }

  lemma WordEnds(w: seq<byte>, s: Subject, i: nat, j: nat)
    requires |w| > 0
    requires forall k: nat :: Means(Word(w[..|w| - 1]), s, i, k) <==> i <= k <= |s.text| && s.text[i..k] == w[..|w| - 1]
    ensures Means(Word(w), s, i, j) <==> i <= j <= |s.text| && s.text[i..j] == w
  {
    var n := |w| - 1;
    if i < j <= |s.text| {
      assert s.text[i..j] == s.text[i..j - 1] + [s.text[j - 1]];
      assert w == w[..n] + [w[n]];
      assert Means(Lit(w[n]), s, j - 1, j) <==> s.text[j - 1] == w[n];
    }
  }

  predicate StandsAt(w: seq<byte>, text: seq<byte>, i: nat) {
    i + |w| <= |text| && text[i..i + |w|] == w
  }

  /** A string of ordinary bytes is its own pattern, and found where it stands. */
  lemma WordFound(w: seq<byte>, s: Subject)
    requires (forall c | c in w :: Ordinary(c)) && |w| <= 2730
    ensures var e := Word(w);
      && Supported(e) && Spelling(e) == w && |CodeOf(e)| <= MAX_CODE
      && (Finds(e, s) <==> exists i: nat :: StandsAt(w, s.text, i))
  {
    hide Word, Spelling, Means, Finds, CodeOf, Safe, Ordinary;
    WordFacts(w);
    FoundIsThere(Word(w), s);
    forall i: nat, j: nat
      ensures Means(Word(w), s, i, j) <==> i <= j <= |s.text| && s.text[i..j] == w
    {
      WordMeans(w, s, i, j);
    }
    if i: nat :| StandsAt(w, s.text, i) { TheyOccur(Word(w), s, i, i + |w|); }
    if i: nat, j: nat :| Means(Word(w), s, i, j) { assert StandsAt(w, s.text, i); }
  }

  // ----- the code of a string -----

  function Lits(w: seq<byte>): (ts: seq<Token>)
    ensures |ts| == |w| && forall i | 0 <= i < |w| :: ts[i] == TLit(w[i])
  {
    seq(|w|, i requires 0 <= i < |w| => TLit(w[i]))
  }

  lemma {:induction false} WordTokens(w: seq<byte>)
    ensures Tokens(Word(w)) == Lits(w)
    decreases |w|
  {
    if |w| > 0 {
      var n := |w| - 1;
      WordTokens(w[..n]);
      assert Tokens(Word(w)) == Tokens(Word(w[..n])) + [TLit(w[n])];
      assert Lits(w) == Lits(w[..n]) + [TLit(w[n])];
    }
  }

  /** The first bytes of a string, read. */
  function WordCtx(cs: seq<byte>): Ctx {
    Ctx([], Level([], NOTHING, Exact(cs), true, 1), 0)
  }

  lemma {:induction false} WordReads(w: seq<byte>, k: nat)
    requires 1 <= k <= |w| <= 255
    ensures ReadAll(WordCtx(w[..k]), Lits(w)[k..]) == Some(WordCtx(w))
    decreases |w| - k
  {
    hide ReadAll;
    var ts := Lits(w);
    if k == |w| {
      assert w[..k] == w && ts[k..] == [];
      ReadAllDone(WordCtx(w));
    } else {
      assert w[..k + 1] == w[..k] + [w[k]] && ts[k..] == [TLit(w[k])] + ts[k + 1..];
      ReadStep(WordCtx(w[..k]), TLit(w[k]), ts[k + 1..], WordCtx(w[..k + 1]));
      WordReads(w, k + 1);
    }
  }

  /** A string of up to 255 bytes is one literal: the opcode, its length, its bytes. */
  lemma WordCode(w: seq<byte>)
    requires 0 < |w| <= 255
    ensures CodeOf(Word(w)) == [1, |w|] + w
  {
    hide ReadAll, Tokens, Bytes;
    var ts := Lits(w);
    WordTokens(w);
    assert ts == [TLit(w[0])] + ts[1..] && w[..1] == [w[0]];
    ReadStep(InitCtx(), TLit(w[0]), ts[1..], WordCtx(w[..1]));
    WordReads(w, 1);
    assert CoreOf(Word(w)) == Cat(NOTHING, Exact(w));
    WordBytes(w);
  }

  lemma WordBytes(w: seq<byte>)
    requires 0 < |w| <= 255
    ensures Bytes(Cat(NOTHING, Exact(w))) == [1, |w|] + w
  {
    assert Bytes(NOTHING) == [];
    assert Bytes(Exact(w)) == [1, |w|] + w;
  }

  /** `u|v` is found where one of the two strings stands. */
  lemma EitherFound(u: seq<byte>, v: seq<byte>, s: Subject)
    requires (forall c | c in u :: Ordinary(c)) && (forall c | c in v :: Ordinary(c)) && |u| + |v| < 2730
    ensures var e := Or(Word(u), Word(v));
      && Supported(e) && Spelling(e) == u + [124] + v && |CodeOf(e)| <= MAX_CODE
      && (Finds(e, s) <==> (exists i: nat :: StandsAt(u, s.text, i)) || exists i: nat :: StandsAt(v, s.text, i))
  {
    hide Word, Spelling, Finds, CodeOf, Safe, Ordinary, Branch, Occurs, StandsAt;
    var e := Or(Word(u), Word(v));
    WordFacts(u);
    WordFacts(v);
    SpellsOr(Word(u), Word(v));
    OrFacts(Word(u), Word(v));
    FoundIsThere(e, s);
    OrOccurs(Word(u), Word(v), s);
    WordOccurs(u, s);
    WordOccurs(v, s);
  }

  lemma OrFacts(l: Ere, r: Ere)
    requires Branch(l) && Branch(r) && Parens(l) == Parens(r) == 0 && LowSets(l) && LowSets(r)
    ensures var e := Or(l, r); Supported(e) && Parens(e) == 0 && LowSets(e)
  {
    hide Branch;
    assert Alternatives(r);
  }

  lemma OrOccurs(l: Ere, r: Ere, s: Subject)
    ensures Occurs(Or(l, r), s) <==> Occurs(l, s) || Occurs(r, s)
  {
    if i: nat, j: nat :| Means(Or(l, r), s, i, j) { assert Means(l, s, i, j) || Means(r, s, i, j); }
    if i: nat, j: nat :| Means(l, s, i, j) {
      MeansBounds(l, s, i, j);
      TheyOccur(Or(l, r), s, i, j);
    }
    if i: nat, j: nat :| Means(r, s, i, j) {
      MeansBounds(r, s, i, j);
      TheyOccur(Or(l, r), s, i, j);
    }
  }

  lemma MeansBounds(e: Ere, s: Subject, i: nat, j: nat)
    requires Means(e, s, i, j)
    ensures i <= j <= |s.text|
  {}

  lemma WordOccurs(w: seq<byte>, s: Subject)
    ensures Occurs(Word(w), s) <==> exists i: nat :: StandsAt(w, s.text, i)
  {
    hide Word, Means;
    forall i: nat, j: nat
      ensures Means(Word(w), s, i, j) <==> i <= j <= |s.text| && s.text[i..j] == w
    {
      WordMeans(w, s, i, j);
    }
    if i: nat :| StandsAt(w, s.text, i) { TheyOccur(Word(w), s, i, i + |w|); }
    if i: nat, j: nat :| Means(Word(w), s, i, j) { assert StandsAt(w, s.text, i); }
  }

  // ----- groups -----

  function Copies(w: seq<byte>, n: nat): seq<byte> {
    if n == 0 then [] else w + Copies(w, n - 1)
  }

  lemma {:induction false} TimesWord(w: seq<byte>, s: Subject, n: nat, i: nat, j: nat)
    ensures Times(Paren(Word(w)), s, n, i, j) <==> i <= j <= |s.text| && s.text[i..j] == Copies(w, n)
    decreases n
  {
    hide Word, Means;
    var g, once := Paren(Word(w)), i + |w|;
    if n > 0 {
      forall k: nat
        ensures Means(g, s, i, k) <==> i <= k <= |s.text| && s.text[i..k] == w
      {
        GroupMeans(w, s, i, k);
      }
      TimesWord(w, s, n - 1, once, j);
      FirstCopy(w, s.text, Copies(w, n - 1), i, j);
      var some := exists k: nat :: Means(g, s, i, k) && Times(g, s, n - 1, k, j);
      assert Times(g, s, n, i, j) <==> some;
      if some {
        var k: nat :| Means(g, s, i, k) && Times(g, s, n - 1, k, j);
        assert k == once;
      }
    }
  }

  lemma GroupMeans(w: seq<byte>, s: Subject, i: nat, k: nat)
    ensures Means(Paren(Word(w)), s, i, k) <==> i <= k <= |s.text| && s.text[i..k] == w
  {
    hide Word;
    WordMeans(w, s, i, k);
  }

  lemma FirstCopy(w: seq<byte>, t: seq<byte>, rest: seq<byte>, i: nat, j: nat)
    ensures i <= j <= |t| && t[i..j] == w + rest <==>
      i + |w| <= j <= |t| && t[i..i + |w|] == w && t[i + |w|..j] == rest
  {
    if i <= j <= |t| {
      if t[i..j] == w + rest {
        assert t[i..j][..|w|] == w && t[i..j][|w|..] == rest;
        assert t[i..i + |w|] == t[i..j][..|w|] && t[i + |w|..j] == t[i..j][|w|..];
      }
      if i + |w| <= j { assert t[i..j] == t[i..i + |w|] + t[i + |w|..j]; }
    }
  }

  /** `^(w)*$`, for a string of ordinary bytes other than 5, is found in the texts that
      are copies of w in a row. */
  lemma CopiesLine(w: seq<byte>, s: Subject)
    requires (forall c | c in w :: Ordinary(c) && c != 5) && 0 < |w| <= 2700
    ensures var e := Line(Iter(Paren(Word(w)), Star));
      && Supported(e) && Spelling(e) == [94, 40] + w + [41, 42, 36] && |CodeOf(e)| <= MAX_CODE
      && (Finds(e, s) <==> !s.notBol && !s.notEol && exists n: nat :: s.text == Copies(w, n))
  {
    hide Line, Word, Spelling, Finds, CodeOf, Safe, Ordinary, Piece, LowSets, Quiet, Occurs, Means, Supported;
    var a := Iter(Paren(Word(w)), Star);
    GroupFacts(w);
    LineFacts(a);
    LineQuiet(a);
    assert [94] + ([40] + w + [41] + [42]) + [36] == [94, 40] + w + [41, 42, 36];
    ShortFits(Line(a));
    FoundExactly(Line(a), s);
    LineOccurs(a, s);
    StarOfGroup(w, s);
  }

  lemma Repeated(e: Ere, op: Op, s: Subject, n: nat, i: nat, j: nat)
    requires Allows(op, n) && Times(e, s, n, i, j)
    ensures Means(Iter(e, op), s, i, j)
  {
    TimesBounds(e, s, n, i, j);
  }

  lemma Repetitions(e: Ere, op: Op, s: Subject, i: nat, j: nat) returns (n: nat)
    requires Means(Iter(e, op), s, i, j)
    ensures Allows(op, n) && Times(e, s, n, i, j)
  {
    n :| Allows(op, n) && Times(e, s, n, i, j);
  }

  lemma StarOfGroup(w: seq<byte>, s: Subject)
    ensures Means(Iter(Paren(Word(w)), Star), s, 0, |s.text|) <==> exists n: nat :: s.text == Copies(w, n)
  {
    hide Word, Times, Means, Copies;
    var g, size := Paren(Word(w)), |s.text|;
    assert s.text[0..size] == s.text;
    if n: nat :| s.text == Copies(w, n) {
      TimesWord(w, s, n, 0, size);
      Repeated(g, Star, s, n, 0, size);
    }
    if Means(Iter(g, Star), s, 0, size) {
      var n := Repetitions(g, Star, s, 0, size);
      TimesWord(w, s, n, 0, size);
    }
  }

  lemma GroupFacts(w: seq<byte>)
    requires (forall c | c in w :: Ordinary(c) && c != 5) && |w| > 0
    ensures var a := Iter(Paren(Word(w)), Star);
      Piece(a) && Parens(a) == 1 && LowSets(a) && Quiet(a) && Spelling(a) == [40] + w + [41] + [42]
  {
    hide Word, Spelling, Branch, Ordinary;
    var g := Paren(Word(w));
    WordFacts(w);
    WordQuiet(w);
    SpellsParen(Word(w));
    SpellsRepetition(g);
    NoOps(g);
    assert Ops(Iter(g, Star)) == [Star] && Base(Iter(g, Star)) == g;
    assert Piece(g) && Parens(g) == 1 && LowSets(g) && Quiet(g);
  }

  lemma {:induction false} WordQuiet(w: seq<byte>)
    requires forall c | c in w :: c != 5
    ensures Quiet(Word(w)) && (|w| > 0 ==> EndsInLit(Word(w)))
    decreases |w|
  {
    if |w| > 0 {
      var n := |w| - 1;
      assert w[n] in w;
      forall c | c in w[..n]
        ensures c in w
      {}
      WordQuiet(w[..n]);
    }
  }

  lemma LineQuiet(a: Ere)
    requires Quiet(a)
    ensures Quiet(Line(a))
  {
    assert Quiet(Just(Caret)) && Quiet(Then(Just(Caret), a));
  }
}
