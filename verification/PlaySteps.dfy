/** The play of a pattern, one command at a time. */
module PlaySteps {
  import opened Octets
  import opened RegexLang
  import opened Backtrack
  import opened Bytecode
  import opened Machine
  import opened Invariant
  import opened Plays

  /** The text goes on with `cs`. */
  predicate Shows(s: Subject, i: nat, cs: seq<byte>) {
    i + |cs| <= |s.text| && s.text[i..i + |cs|] == cs
  }

  /** Work in front of an instruction that is no jump from an alternative. */
  lemma Here(code: seq<byte>, s: Subject, p: nat, e: Re, k: Kont, d: nat)
    requires d <= |s.text| && !Fetch(code, p).JumpPastAlt?
    ensures PlayOf(code, s, p, Do(e, k), d) == DoPlay(code, s, p, e, k, d)
  {
    hide Fetch, Direct;
  }

  lemma CatHere(code: seq<byte>, s: Subject, p: nat, l: Re, r: Re, k: Kont, d: nat)
    requires d <= |s.text| && !Fetch(code, p).JumpPastAlt?
    ensures PlayOf(code, s, p, Do(Cat(l, r), k), d) == PlayOf(code, s, p, Do(l, Do(r, k)), d)
  {
    hide Fetch, Direct;
    Here(code, s, p, Cat(l, r), k, d);
  }

  lemma LeafHere(code: seq<byte>, s: Subject, p: nat, e: Re, k: Kont, d: nat)
    requires Leaf(e) && d <= |s.text| && !Fetch(code, p).JumpPastAlt?
    ensures LeafEnd(s, e, d) <= |s.text|
    ensures PlayOf(code, s, p, Do(e, k), d) ==
            if LeafEnd(s, e, d) < 0 then Dead else PlayOf(code, s, p + Len(e), k, LeafEnd(s, e, d))
  {
    hide Fetch, Direct, PlayOf;
    Here(code, s, p, e, k, d);
    LeafEndBounds(s, e, d);
  }

  lemma LiteralHere(code: seq<byte>, s: Subject, p: nat, cs: seq<byte>, k: Kont, d: nat)
    requires d <= |s.text| && !Fetch(code, p).JumpPastAlt? && |cs| > 0
    ensures PlayOf(code, s, p, Do(Exact(cs), k), d) ==
            if Shows(s, d, cs) then PlayOf(code, s, p + 2 + |cs|, k, d + |cs|) else Dead
  {
    hide Fetch, Direct, PlayOf;
    LeafHere(code, s, p, Exact(cs), k, d);
  }

  lemma OptHere(code: seq<byte>, s: Subject, p: nat, body: Re, k: Kont, d: nat)
    requires d <= |s.text| && !Fetch(code, p).JumpPastAlt?
    ensures PlayOf(code, s, p, Do(Repeat(Opt, body), k), d) ==
            Try(PlayOf(code, s, p + 3, Do(body, k), d), PlayOf(code, s, p + 3 + Len(body), k, d))
  {
    hide Fetch, Direct, PlayOf;
    Here(code, s, p, Repeat(Opt, body), k, d);
  }

  lemma AgainAt(code: seq<byte>, s: Subject, p: nat, e: Re, k: Kont, d: nat)
    requires IsGroupLoop(e) && !Fetch(code, p).JumpPastAlt? && d <= |s.text|
    ensures PlayOf(code, s, p, Again(e, k), d) ==
            Try(PlayOf(code, s, p + 6, Do(e.body.body, Loop(e, d, k)), d), PlayOf(code, s, p + Len(e.body) + 6, k, d))
  {
    hide Fetch, Direct;
  }

  lemma EndHere(code: seq<byte>, s: Subject, d: nat)
    requires d <= |s.text|
    ensures PlayOf(code, s, |code|, Halt, d) == End(d)
  {
    NoFetch(code);
    hide Fetch;
  }

  /** Nothing to try, twice. */
  lemma DeadTwice(size: nat)
    ensures Visits(Try(Dead, Dead), [], size) == []
    ensures Visits(Dead, [], size) == []
  {
    assert Resume([Dead], size) == Visits(Dead, [], size) == Resume([], size) == [];
  }

  lemma ExactParts(cs: seq<byte>, code: seq<byte>, p: nat)
    requires LaidOut(Exact(cs), code, p)
    ensures |cs| > 0 && Fetch(code, p) == ExactN(cs)
  {}

  lemma StopBytes(code: seq<byte>, q: nat, reg: nat, inner: nat)
    requires reg < 256 && inner < 256 && Fetch(code, q) == StopMemory(reg, inner)
    ensures q + 3 <= |code| && code[q + 1] == reg
  {}

  lemma CatIs(l: Re, r: Re, s: Subject, i: nat, k: nat, j: nat)
    requires Match(l, s, i, k) && Match(r, s, k, j) && i <= j <= |s.text|
    ensures Match(Cat(l, r), s, i, j)
  {}
}
