/** `regcomp`, `regexec`, and the library call `regex_match` built on them.

    The end-to-end statement: for an expression of the fragment, written as text,
    `regex_match` answers whether some part of the string is in its language. */
module Posix {
  import opened Octets
  import opened RegexLang
  import opened Machine
  import opened CodeBuffer
  import opened Ere
  import opened Codegen
  import opened Parse
  import opened ParseOk
  import opened Invariant
  import opened MatchTheorem
  import opened Plays
  import opened Outcome
  import opened Compiler
  import opened Compilation
  import opened Search
  import opened Room

  // ----- spellings as C strings -----

  lemma {:induction false} ItemsNoNul(items: seq<Item>, i: nat)
    requires i <= |items| && forall j | i <= j < |items| :: SpelledItem(items, j)
    ensures 0 !in ItemsText(items[i..])
    decreases |items| - i
  {
    if i < |items| {
      ItemsNoNul(items, i + 1);
      ItemsFrom(items, i);
      assert SpelledItem(items, i);
    } else {
      assert items[i..] == [];
    }
  }

  lemma TokenNoNul(t: Token)
    requires TokenOk(t)
    ensures 0 !in TokenText(t)
  {
    match t
    case TBrackets(neg, items) =>
      assert items[0..] == items;
      ItemsNoNul(items, 0);
    case TOps(ops) => forall i | 0 <= i < |ops| ensures OpsText(ops)[i] != 0 {}
    case _ =>
  }

  lemma {:induction false} TextNoNul(ts: seq<Token>)
    requires TokensOk(ts)
    ensures 0 !in Text(ts)
    decreases |ts|
  {
    if |ts| > 0 {
      assert ts[0] in ts;
      TokenNoNul(ts[0]);
      TextNoNul(ts[1..]);
    }
  }

  /** The whole of a spelled expression survives as a C string. */
  lemma SpellingIsCString(e: Ere)
    requires Alternatives(e)
    ensures CString(Spelling(e)) == Spelling(e)
  {
    SpelledTokens(e);
    TextNoNul(Tokens(e));
    CStringWhole(Spelling(e));
  }

  // ----- regexec -----

  /** Some part of the text is in the language. */
  ghost predicate Occurs(e: Ere, s: Subject) {
    exists i: nat, j: nat :: Means(e, s, i, j)
  }

  ghost predicate SomeMatch(r: Re, s: Subject) {
    exists i: nat :: MatchesAt(r, s, i)
  }

  lemma TheyOccur(e: Ere, s: Subject, i: nat, j: nat)
    requires Means(e, s, i, j)
    ensures Occurs(e, s)
  {
    hide Means;
  }

  /** The matcher finds something from some start. */
  ghost predicate SomeHit(r: Re, code0: seq<byte>, s: Subject) {
    exists i: nat :: Hit(r, code0, s, i)
  }

  /** It finds only what is there; and in safe code it does find something. */
  lemma SomeHitIs(r: Re, code0: seq<byte>, nsub: nat, s: Subject)
    requires Compiled(r, code0, nsub)
    ensures SomeHit(r, code0, s) ==> SomeMatch(r, s)
    ensures Safe(code0) ==> (SomeHit(r, code0, s) <==> SomeMatch(r, s))
  {
    hide Compiled, Hit, MatchesAt, Safe;
    if i: nat :| Hit(r, code0, s, i) { HitIs(r, code0, nsub, s, i); }
    if i: nat :| MatchesAt(r, s, i) { HitIs(r, code0, nsub, s, i); }
  }

  /** `regexec`: false stands for REG_NOMATCH, which is also the answer when the
      failure stack ran out of room before anything was found. */
  method Regexec(preg: PatternBuffer, subject: seq<byte>, notBol: bool, notEol: bool, limit: nat)
    returns (matched: bool)
    requires preg.Valid() && !preg.hasFastmap
    modifies preg`fastmapAccurate, preg`canBeNull, preg.fastmap, preg.buffer
    ensures preg.Valid()
    ensures var s := Subject(CString(subject), notBol, notEol);
      && (matched ==> SomeHit(preg.core, preg.code0, s))
      && (!matched ==> !SomeHit(preg.core, preg.code0, s) || RunsOut(preg.core, preg.code0, preg.nsub, s, 0, limit))
  {
    hide RunsOut, Returns, FirstHit, Compiled;
    var text := CString(subject);
    assert [] + text == text;
    var ret := preg.ReSearch2([], text, notBol, notEol, 0, |text|, limit);
    matched := ret >= 0;
    ghost var s := Subject(text, notBol, notEol);
    if ret != OVERFLOW { FirstHitAny(preg.core, preg.code0, s, 0, |text|); }
  }

  /** Whether there is a first hit. */
  lemma {:induction false} FirstHitAny(e: Re, code0: seq<byte>, s: Subject, first: nat, last: int)
    ensures var r := FirstHit(e, code0, s, first, last);
      if r == NO_MATCH then forall i: nat | first <= i <= last :: !Hit(e, code0, s, i) else r >= 0 && Hit(e, code0, s, r)
    decreases last - first
  {
    hide Hit;
    if first <= last && !Hit(e, code0, s, first) { FirstHitAny(e, code0, s, first + 1, last); }
  }

  lemma SameOccurs(r: Re, e: Ere, s: Subject)
    requires MeansSame(r, e)
    ensures SomeMatch(r, s) <==> Occurs(e, s)
  {
    hide Match, Means;
    if i: nat :| MatchesAt(r, s, i) {
      var j: nat :| Match(r, s, i, j);
      assert Means(e, s, i, j);
    }
    if i: nat, j: nat :| Means(e, s, i, j) {
      assert Match(r, s, i, j);
      assert MatchesAt(r, s, i);
    }
  }

  // ----- regex_match -----

  /** On the text `s` the failure stack has no room, before anything is found. */
  ghost predicate NoRoom(e: Ere, s: Subject, limit: nat) {
    RunsOut(CoreOf(e), CodeOf(e), Parens(e), s, 0, limit)
  }

  /** The matcher finds something of the expression in the text. */
  ghost predicate Finds(e: Ere, s: Subject) {
    SomeHit(CoreOf(e), CodeOf(e), s)
  }

  /** What is found occurs; and what occurs is found, when the code is safe. */
  lemma FindsOccurs(e: Ere, s: Subject)
    requires Supported(e) && |CodeOf(e)| <= MAX_CODE
    ensures Finds(e, s) ==> Occurs(e, s)
    ensures Safe(CodeOf(e)) ==> (Finds(e, s) <==> Occurs(e, s))
  {
    hide Supported, CodeOf, CoreOf, MeansSame, Compiled, Framed, Occurs, SomeMatch, SomeHit, Safe;
    CoreFacts(e);
    SomeHitIs(CoreOf(e), CodeOf(e), Parens(e), s);
    SameOccurs(CoreOf(e), e, s);
  }

  /** The expression and the text as the caller passes them, and the answer.  A yes
      is right; a no may be wrong for want of room, or when the code is not safe. */
  method RegexMatch(chaine: seq<byte>, expression: seq<byte>, limit: nat, ghost e: Ere)
    returns (r: bool)
    requires Supported(e) && CString(expression) == Spelling(e) && |CodeOf(e)| <= MAX_CODE
    ensures var s := Subject(CString(chaine), false, false);
      && (r ==> Occurs(e, s) && Finds(e, s))
      && (!r ==> NoRoom(e, s, limit) || (!Finds(e, s) && (Safe(CodeOf(e)) ==> !Occurs(e, s))))
  {
    hide Supported, Spelling, CodeOf, CoreOf, MeansSame, Compiled, Framed, Occurs, SomeHit, CString, RunsOut, Safe;
    var err, buf, nsub := RegexCompile(CString(expression), e);
    CoreFacts(e);
    ghost var core, s := CoreOf(e), Subject(CString(chaine), false, false);
    assert buf.Contents() == buf.bytes[..buf.used];
    var preg := new PatternBuffer(buf.bytes, buf.used, nsub, false, core);
    r := Regexec(preg, chaine, false, false, limit);
    FindsOccurs(e, s);
  }

  /** With room for so many failure points the stack suffices. */
  lemma RoomForAnswer(e: Ere, s: Subject, limit: nat)
    requires Supported(e) && |CodeOf(e)| <= MAX_CODE && Enough(|s.text|, |CodeOf(e)|, Parens(e)) <= limit
    ensures !NoRoom(e, s, limit)
  {
    hide MeansSame, CoreOf, CodeOf, Compiled, RunsOut, Alternatives, Enough;
    CoreFacts(e);
    EnoughRoom(CoreOf(e), CodeOf(e), Parens(e), s, 0, limit);
  }
}
