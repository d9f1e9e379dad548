/** Searching: `re_compile_fastmap`, `re_search_2`.

    A pattern buffer holds the code, which matching rewrites, and a map of the
    bytes a match can begin with.  A search tries one start after another, or skips
    those the map rules out, and either way finds the first start at which the
    pattern matches. */
module Search {
  import opened Octets
  import opened RegexLang
  import opened Bytecode
  import opened Machine
  import opened Rewriting
  import opened Invariant
  import opened Layout
  import opened Fastmap
  import opened FastmapWalk
  import opened FastmapRoom
  import opened Plays
  import opened MatchTheorem
  import opened Outcome
  import opened Longest
  import opened Matcher

  class PatternBuffer {
    const buffer: array<byte>
    const used: nat
    const nsub: nat
    const fastmap: array<bool>
    const hasFastmap: bool
    var fastmapAccurate: bool
    var canBeNull: bool
    ghost const core: Re
    ghost const code0: seq<byte>

    /** A freshly compiled pattern. */
    constructor (buffer: array<byte>, used: nat, nsub: nat, withFastmap: bool, ghost core: Re)
      requires used <= buffer.Length && Compiled(core, buffer[..used], nsub) && Framed(core)
      ensures Valid() && fresh(fastmap) && this.buffer == buffer && this.core == core
      ensures this.used == used && this.nsub == nsub && code0 == buffer[..used]
      ensures hasFastmap == withFastmap && !fastmapAccurate
    {
      hide Compiled, Framed;
      this.buffer, this.used, this.nsub, this.core, code0 := buffer, used, nsub, core, buffer[..used];
      fastmap := new bool[256](_ => false);
      hasFastmap, fastmapAccurate, canBeNull := withFastmap, false, false;
    }

    /** The code is that of the pattern, up to settled closing jumps. */
    ghost predicate Valid()
      reads this, buffer, fastmap
    {
      && used <= buffer.Length && fastmap.Length == 256
      && Compiled(core, code0, nsub) && Framed(core) && Related(code0, buffer[..used])
      && (fastmapAccurate ==> Accurate())
    }

    /** The map and the flag say exactly what a match can begin with. */
    ghost predicate Accurate()
      reads this, fastmap
      requires fastmap.Length == 256
    {
      && canBeNull == Nullable(core)
      && (!canBeNull ==> forall c: byte :: fastmap[c] == Begins(core, c))
    }

    ghost predicate Walking(w: Walk)
      reads this, buffer, fastmap
    {
      && used <= buffer.Length && fastmap.Length == 256 && Wired(code0) && Related(code0, buffer[..used])
      && Covers(code0, w, fastmap[..]) && Compiled(core, code0, nsub) && Framed(core)
    }

    // ----- re_compile_fastmap -----

    method ClearFastmap()
      requires fastmap.Length == 256
      modifies fastmap
      ensures fastmap[..] == seq(256, _ => false)
    {
      for j := 0 to 256
        invariant forall i | 0 <= i < j :: !fastmap[i]
      {
        fastmap[j] := false;
      }
    }

    /** Enter the bytes the character command at `p` accepts. */
    method MarkSet(p: nat)
      requires used <= buffer.Length && fastmap.Length == 256 && Fetch(buffer[..used], p).Bracket?
      requires |Fetch(buffer[..used], p).bits| <= 32
      modifies fastmap
      ensures var i := Fetch(buffer[..used], p);
        forall c: byte :: fastmap[c] == (old(fastmap[c]) || i.neg != InMap(i.bits, c))
    {
      hide Fetch, Bit;
      Opcodes(buffer[..used], p);
      ghost var i := Fetch(buffer[..used], p);
      ghost var bits := i.bits;
      var not, size: nat := buffer[p] == CHARSET_NOT, buffer[p + 1];
      if not {
        for j := size * 8 to 256
          invariant forall c: byte :: fastmap[c] == (old(fastmap[c]) || size * 8 <= c < j)
        {
          fastmap[j] := true;
        }
      }
      var j := size * 8 - 1;
      while j >= 0
        invariant -1 <= j < size * 8
        invariant forall c: byte ::
          fastmap[c] == (old(fastmap[c]) || (not && size * 8 <= c) || (j < c < size * 8 && not != InMap(bits, c)))
      {
        if not != Bit(buffer[p + 2 + j / 8], j % 8) { fastmap[j] := true; }
        j := j - 1;
      }
    }

    method MarkAll()
      requires fastmap.Length == 256
      modifies fastmap
      ensures forall c: byte :: fastmap[c]
    {
      for j := 0 to 256
        invariant forall i | 0 <= i < j :: fastmap[i]
      {
        fastmap[j] := true;
      }
    }

    /** A command that takes a character: its bytes go into the map. */
    method VisitChar(p: nat, ghost w: Walk)
      requires Walking(w) && w.p == p < used && w.path
      requires var i := Fetch(buffer[..used], p); i.ExactN? || i.AnyChar? || i.Bracket?
      modifies fastmap
      ensures Walking(w.(p := used, path := false))
    {
      hide Fetch, Starts, Related, Wired, Covers, InMap, Compiled, Framed;
      ghost var code, was := buffer[..used], fastmap[..];
      SameLength(code0, code);
      CharFacts(code0, code, w, was);
      Opcodes(code, p);
      if buffer[p] == EXACTN {
        fastmap[buffer[p + 2]] := true;
      } else if buffer[p] == ANYCHAR {
        MarkAll();
      } else {
        MarkSet(p);
      }
      CoversTake(code0, w, was, fastmap[..]);
    }

    /** A jump: followed forwards, and at the end of a loop taken to lead behind it. */
    method VisitJump(p: nat, stack: seq<nat>, ghost w: Walk) returns (p': nat, stack': seq<nat>)
      requires Walking(w) && w == Walk(p, stack, true, canBeNull) && p < used
      requires IsJump(Fetch(buffer[..used], p)) && NoJumpOff(code0) && Roomy(core, code0, stack, p)
      ensures Walking(Walk(p', stack', true, canBeNull)) && Roomy(core, code0, stack', p')
      ensures p < p' && AllWays(used, stack') <= AllWays(used, stack)
    {
      hide Fetch, Starts, Related, Wired, Covers, Number, NoJumpOff, Ways, Compiled, Framed, Roomy;
      ghost var code := buffer[..used];
      Opcodes(code, p);
      SameLength(code0, code);
      JumpFacts(code0, code, w, fastmap[..]);
      JumpRoom(core, code0, code, nsub, stack, w, fastmap[..]);
      var j := Number(buffer[p + 1], buffer[p + 2]);
      var q := p + 3 + j;
      stack' := stack;
      if j > 0 { return q, stack'; }
      if buffer[q] != ON_FAILURE_JUMP { return q, stack'; }
      p' := q + 3 + Number(buffer[q + 1], buffer[q + 2]);
      if |stack| > 0 && stack[|stack| - 1] == p' {
        CoversRedundant(code0, w.(p := p'), fastmap[..]);
        RoomyLess(core, code0, stack, p');
        stack' := stack[..|stack| - 1];
      }
    }

    /** A failure jump: go on behind it, and put its target aside. */
    method VisitFork(p: nat, stack: seq<nat>, limit: nat, ghost w: Walk) returns (ok: bool, p': nat, stack': seq<nat>)
      requires Walking(w) && w == Walk(p, stack, true, canBeNull) && p < used
      requires Fetch(buffer[..used], p).OnFailureJump? && Roomy(core, code0, stack, p)
      modifies this`canBeNull
      ensures if ok then Walking(Walk(p', stack', true, canBeNull)) && Roomy(core, code0, stack', p')
        else limit <= 2 * nsub + 1
      ensures ok ==> Ways(used, p') + AllWays(used, stack') < Ways(used, p) + AllWays(used, stack)
    {
      hide Fetch, Starts, Related, Wired, Covers, Number, Ways, Compiled, Framed, Roomy;
      ghost var code := buffer[..used];
      Opcodes(code, p);
      SameLength(code0, code);
      CoversPlace(code0, w, fastmap[..]);
      ForkFacts(code0, code, p);
      ForkRoom(core, code0, nsub, stack, p);
      var j := Number(buffer[p + 1], buffer[p + 2]);
      CoversFork(code0, w, fastmap[..], j);
      ForkWays(used, p, p + 3 + j);
      stack', p' := stack, p + 3;
      if p + 3 + j < used {
        if |stack| >= limit { return false, p', stack'; }
        stack' := stack + [p + 3 + j];
        AllWaysSnoc(used, stack, p + 3 + j);
      } else {
        canBeNull := true;
      }
      return true, p', stack';
    }

    /** One command of the walk.  `done` says that nothing more can be learnt. */
    method Visit(p: nat, stack: seq<nat>, limit: nat, ghost w: Walk)
      returns (ok: bool, done: bool, p': nat, stack': seq<nat>, path': bool)
      requires Walking(w) && w == Walk(p, stack, true, canBeNull) && p < used && NoJumpOff(code0)
      requires Roomy(core, code0, stack, p)
      modifies this`canBeNull, fastmap
      ensures !ok ==> limit <= 2 * nsub + 1
      ensures ok && done ==> canBeNull && CodeNull(code0, 0)
      ensures ok && !done ==> Walking(Walk(p', stack', path', canBeNull)) && Roomy(core, code0, stack', p')
      ensures ok && !done ==> Ways(used, p') + AllWays(used, stack') < Ways(used, p) + AllWays(used, stack)
    {
      hide Fetch, Starts, Related, Wired, Covers, NoJumpOff, Ways, Compiled, Framed, Roomy;
      ghost var code := buffer[..used];
      SameLength(code0, code);
      CoversPlace(code0, w, fastmap[..]);
      FetchGrounded(code0, code, p);
      StepRoom(core, code0, code, nsub, stack, p);
      Opcodes(code, p);
      ok, done, p', stack', path' := true, false, p, stack, true;
      var op := buffer[p];
      if op == EXACTN || op == ANYCHAR || op == CHARSET || op == CHARSET_NOT {
        if canBeNull { CoversNull(code0, w, fastmap[..]); }
        VisitChar(p, w);
        if op == ANYCHAR && canBeNull { return true, true, p, stack, true; }
        p', path' := used, false;
      } else if op == ON_FAILURE_JUMP {
        ok, p', stack' := VisitFork(p, stack, limit, w);
        return;
      } else if op == START_MEMORY || op == STOP_MEMORY {
        StepOver(code0, code, w, fastmap[..]);
        p' := p + 3;
      } else if op == BEGLINE || op == ENDLINE || op == PUSH_DUMMY_FAILURE {
        StepOver(code0, code, w, fastmap[..]);
        p' := p + 1;
      } else {
        p', stack' := VisitJump(p, stack, w);
      }
      WaysShrink(used, p, p');
    }

    /** `re_compile_fastmap`; false when its stack has no room, for which the limit must
        be at most twice the number of groups and one. */
    method CompileFastmap(limit: nat) returns (ok: bool)
      requires Valid() && LastFilled(core)
      modifies this`fastmapAccurate, this`canBeNull, fastmap
      ensures fastmapAccurate && if ok then Valid() else limit <= 2 * nsub + 1
    {
      hide Starts, Related, Wired, Covers, NoJumpOff, Compiled, Ways, Framed, Roomy;
      CompiledFacts(core, code0, nsub);
      NoJumpOffCompiled(core, code0, nsub);
      ClearFastmap();
      CoversStart(code0);
      fastmapAccurate := true;
      canBeNull := false;
      var p, stack, path := 0, [], true;
      SameLength(code0, buffer[..used]);
      RoomyStart(core, code0);
      while p != used || |stack| > 0
        invariant Walking(Walk(p, stack, path, canBeNull)) && fastmapAccurate && Roomy(core, code0, stack, p)
        decreases Ways(used, p) + AllWays(used, stack)
      {
        ghost var size := Ways(used, p) + AllWays(used, stack);
        if p == used {
          CoversPop(code0, Walk(p, stack, path, canBeNull), fastmap[..]);
          RoomyPop(core, code0, stack, p);
          PopWays(used, stack);
          canBeNull := canBeNull || path;
          path := true;
          p := stack[|stack| - 1];
          stack := stack[..|stack| - 1];
        }
        CoversPath(code0, Walk(p, stack, path, canBeNull), fastmap[..]);
        var done;
        ok, done, p, stack, path := Visit(p, stack, limit, Walk(p, stack, true, canBeNull));
        if !ok { return false; }
        if done {
          WholeSame(core, code0, 0);
          return true;
        }
      }
      CoversDone(code0, Walk(p, stack, path, canBeNull), fastmap[..]);
      canBeNull := canBeNull || path;
      AllSame(core, code0);
      return true;
    }

    // ----- re_search_2 -----

    /** The fastmap as a search uses it: a start it rules out has no match. */
    lemma RuledOut(s: Subject, i: nat)
      requires Valid() && fastmapAccurate && !canBeNull
      requires i <= |s.text| && (i < |s.text| ==> !fastmap[s.text[i]])
      ensures !Hit(core, code0, s, i)
    {
      hide Compiled, Framed, Related, Begins, Nullable, Match, Returns;
      ReturnsRight(core, code0, nsub, s, i);
      if Hit(core, code0, s, i) { MatchBegins(core, s, i, i + Returns(core, code0, s, i)); }
    }

    /** Skip the starts the fastmap rules out, within the string `start` is in. */
    method Skip(string1: seq<byte>, string2: seq<byte>, start: nat, range: nat, ghost s: Subject) returns (range': nat)
      requires Valid() && fastmapAccurate && !canBeNull
      requires s.text == string1 + string2 && start + range <= |s.text| && 0 < range
      ensures range' <= range
      ensures forall i: nat | start <= i < start + (range - range') :: !Hit(core, code0, s, i)
    {
      hide Valid, Hit;
      var lim := 0;
      if start < |string1| && start + range >= |string1| { lim := range - (|string1| - start); }
      range' := range;
      var d := start;
      var inFirst := start < |string1|;
      FastmapLength();
      while range' > lim && !fastmap[if inFirst then string1[d] else string2[d - |string1|]]
        invariant lim <= range' <= range && d == start + (range - range')
        invariant forall i: nat | start <= i < d :: !Hit(core, code0, s, i)
      {
        RuledOut(s, d);
        d := d + 1;
        range' := range' - 1;
      }
    }

    lemma FastmapLength()
      requires Valid()
      ensures fastmap.Length == 256
    {}

    /** A map that can be used, if there is one. */
    method Prepare(limit: nat) returns (ok: bool)
      requires Valid() && (hasFastmap ==> LastFilled(core))
      modifies this`fastmapAccurate, this`canBeNull, fastmap
      ensures ok ==> Valid() && (hasFastmap ==> fastmapAccurate)
      ensures !ok ==> hasFastmap && limit <= 2 * nsub + 1
    {
      hide Compiled, Framed, Related;
      if hasFastmap && !fastmapAccurate {
        ok := CompileFastmap(limit);
        return;
      }
      return true;
    }

    /** `re_search_2` forwards: the first start in the range at which the matcher
        finds something, -1 when there is none, -2 when a stack ran out of room. */
    method ReSearch2(string1: seq<byte>, string2: seq<byte>, notBol: bool, notEol: bool,
                     startpos: int, range: nat, limit: nat)
      returns (result: int)
      requires Valid() && (hasFastmap ==> LastFilled(core))
      modifies this`fastmapAccurate, this`canBeNull, fastmap, buffer
      ensures Valid() || (result == OVERFLOW && hasFastmap && limit <= 2 * nsub + 1)
      ensures var s := Subject(string1 + string2, notBol, notEol);
        if startpos < 0 || startpos > |s.text| then result == NO_MATCH
        else if result == OVERFLOW then RunsOut(core, code0, nsub, s, startpos, limit) || (hasFastmap && limit <= 2 * nsub + 1)
        else result == FirstHit(core, code0, s, startpos, startpos + range)
    {
      hide Compiled, Framed, Related, Hit, Accurate, FirstHit, RunsOut;
      var total := |string1| + |string2|;
      ghost var s := Subject(string1 + string2, notBol, notEol);
      if startpos < 0 || startpos > total { return NO_MATCH; }
      var left: nat := if startpos + range > total then total - startpos else range;
      var ok := Prepare(limit);
      if !ok { return OVERFLOW; }
      FirstHitClipped(core, code0, s, startpos, startpos + range);
      result := Scan(string1, string2, notBol, notEol, startpos, left, limit);
    }

    /** The loop over the starts. */
    method Scan(string1: seq<byte>, string2: seq<byte>, notBol: bool, notEol: bool,
                startpos: nat, range: nat, limit: nat)
      returns (result: int)
      requires Valid() && (hasFastmap ==> fastmapAccurate) && startpos + range <= |string1| + |string2|
      modifies buffer
      ensures Valid()
      ensures var s := Subject(string1 + string2, notBol, notEol);
        if result == OVERFLOW then RunsOut(core, code0, nsub, s, startpos, limit)
        else result == FirstHit(core, code0, s, startpos, startpos + range)
    {
      hide Compiled, Framed, Related, Hit, Accurate, RunsOut, FirstHit;
      ghost var s, last := Subject(string1 + string2, notBol, notEol), startpos + range;
      var total := |string1| + |string2|;
      var start, left := startpos, range;
      while true
        invariant Valid() && startpos <= start && left >= 0 && start + left == last
        invariant forall i: nat | startpos <= i < start :: !Hit(core, code0, s, i)
        decreases left
      {
        var advance := false;
        if hasFastmap && start < total && !canBeNull {
          if left > 0 {
            var left' := Skip(string1, string2, start, left, s);
            start := start + (left - left');
            left := left';
          } else {
            FastmapLength();
            if !fastmap[if start >= |string1| then string2[start - |string1|] else string1[start]] {
              RuledOut(s, start);
              advance := true;
            }
          }
        }
        FirstHitSkip(core, code0, s, startpos, start, last);
        if !advance {
          if start == total && hasFastmap && !canBeNull {
            RuledOut(s, start);
            FirstHitNone(core, code0, s, start, last);
            return NO_MATCH;
          }
          var val := TryAt(string1, string2, notBol, notEol, startpos, start, limit);
          FirstHitHere(core, code0, s, start, last);
          if val >= 0 { return start; }
          if val == OVERFLOW { return OVERFLOW; }
        }
        if left == 0 { break; }
        left := left - 1;
        start := start + 1;
      }
      FirstHitNone(core, code0, s, startpos, last);
      return NO_MATCH;
    }

    /** `re_match_2` at one start, after it failed at those from `first` on. */
    method TryAt(string1: seq<byte>, string2: seq<byte>, notBol: bool, notEol: bool, ghost first: nat,
                 start: nat, limit: nat)
      returns (val: int)
      requires Valid() && first <= start <= |string1| + |string2|
      requires forall i: nat | first <= i < start ::
        !Hit(core, code0, Subject(string1 + string2, notBol, notEol), i)
      modifies buffer
      ensures Valid() && val >= OVERFLOW
      ensures var s := Subject(string1 + string2, notBol, notEol);
        if val == OVERFLOW then RunsOut(core, code0, nsub, s, first, limit) else (val >= 0 <==> Hit(core, code0, s, start))
    {
      hide Compiled, Framed, Related, Accurate, RunsTo, Answers, Returns;
      ghost var before := buffer[..used];
      val := ReMatch2(buffer, used, nsub, string1, string2, notBol, notEol, start, limit, core, code0);
      ghost var s := Subject(string1 + string2, notBol, notEol);
      AtLeast(core, code0, s, start, val);
      forall i: nat | first <= i < start
        ensures Returns(core, code0, s, i) < 0
      {
        assert !Hit(core, code0, s, i);
      }
    }
  }

  lemma AtLeast(e: Re, code0: seq<byte>, s: Subject, start: nat, result: int)
    requires Answers(e, code0, s, start, result)
    ensures result >= OVERFLOW
  {}

  /** The matcher finds something at `i`. */
  ghost predicate Hit(e: Re, code0: seq<byte>, s: Subject, i: nat) {
    i <= |s.text| && Returns(e, code0, s, i) >= 0
  }

  /** The first start from `first` to `last` at which it does, -1 if there is none. */
  ghost function FirstHit(e: Re, code0: seq<byte>, s: Subject, first: nat, last: int): (r: int)
    ensures r == NO_MATCH || first <= r <= last
    decreases last - first
  {
    if first > last then NO_MATCH
    else if Hit(e, code0, s, first) then first
    else FirstHit(e, code0, s, first + 1, last)
  }

  lemma {:induction false} FirstHitSkip(e: Re, code0: seq<byte>, s: Subject, first: nat, mid: nat, last: int)
    requires first <= mid <= last + 1 && forall i: nat | first <= i < mid :: !Hit(e, code0, s, i)
    ensures FirstHit(e, code0, s, first, last) == FirstHit(e, code0, s, mid, last)
    decreases mid - first
  {
    hide Hit;
    if first < mid { FirstHitSkip(e, code0, s, first + 1, mid, last); }
  }

  lemma FirstHitNone(e: Re, code0: seq<byte>, s: Subject, first: nat, last: int)
    requires first <= last + 1 && forall i: nat | first <= i <= last :: !Hit(e, code0, s, i)
    ensures FirstHit(e, code0, s, first, last) == NO_MATCH
  {
    hide Hit;
    FirstHitSkip(e, code0, s, first, last + 1, last);
  }

  lemma FirstHitHere(e: Re, code0: seq<byte>, s: Subject, start: nat, last: int)
    requires start <= last
    ensures Hit(e, code0, s, start) ==> FirstHit(e, code0, s, start, last) == start
  {
    hide Hit;
  }

  /** Nothing is found behind the end of the text. */
  lemma FirstHitClipped(e: Re, code0: seq<byte>, s: Subject, first: nat, last: int)
    requires first <= |s.text|
    ensures last > |s.text| ==> FirstHit(e, code0, s, first, last) == FirstHit(e, code0, s, first, |s.text|)
  {
    if last > |s.text| { Clip(e, code0, s, first, last); }
  }

  lemma {:induction false} Clip(e: Re, code0: seq<byte>, s: Subject, first: nat, last: int)
    requires first <= |s.text| < last
    ensures FirstHit(e, code0, s, first, last) == FirstHit(e, code0, s, first, |s.text|)
    decreases |s.text| - first
  {
    hide Returns;
    if first < |s.text| { Clip(e, code0, s, first + 1, last); }
    else if !Hit(e, code0, s, first) { FirstHitNone(e, code0, s, first + 1, last); }
  }

  ghost predicate MatchesAt(e: Re, s: Subject, i: nat) {
    exists j: nat :: Match(e, s, i, j)
  }

  /** What is found is there; and in safe code what is there is found. */
  lemma HitIs(e: Re, code0: seq<byte>, nsub: nat, s: Subject, i: nat)
    requires Compiled(e, code0, nsub)
    ensures Hit(e, code0, s, i) ==> MatchesAt(e, s, i)
    ensures Safe(code0) && MatchesAt(e, s, i) ==> Hit(e, code0, s, i)
  {
    hide Compiled, Returns, Safe, Match;
    if i <= |s.text| {
      ReturnsRight(e, code0, nsub, s, i);
    } else {
      NoMatchBeyond(e, s, i);
    }
  }

  lemma NoMatchBeyond(e: Re, s: Subject, i: nat)
    requires i > |s.text|
    ensures !MatchesAt(e, s, i)
  {}

  /** The first hit, in safe code, is the first start at which the pattern matches:
      whatever map is used, and however the text is cut in two. */
  lemma {:induction false} FirstHitIs(e: Re, code0: seq<byte>, nsub: nat, s: Subject, first: nat, last: int)
    requires Compiled(e, code0, nsub) && Safe(code0)
    ensures var r := FirstHit(e, code0, s, first, last);
      if r == NO_MATCH then forall i: nat | first <= i <= last :: !MatchesAt(e, s, i)
      else MatchesAt(e, s, r) && forall i: nat | first <= i < r :: !MatchesAt(e, s, i)
    decreases last - first
  {
    hide Compiled, Hit, Safe, MatchesAt;
    if first <= last {
      HitIs(e, code0, nsub, s, first);
      if !Hit(e, code0, s, first) { FirstHitIs(e, code0, nsub, s, first + 1, last); }
    }
  }

  /** The last top-level alternative is not empty. */
  ghost predicate LastFilled(e: Re) {
    e.Alt? ==> Len(LastAlt(e)) > 0
  }

  lemma CompiledFacts(e: Re, code: seq<byte>, nsub: nat)
    requires Compiled(e, code, nsub)
    ensures Wired(code) && LaidOut(e, code, 0) && Len(e) == |code|
  {
    hide Wired, LaidOut;
    CodeWired(e, code);
  }

  lemma NoJumpOffCompiled(e: Re, code: seq<byte>, nsub: nat)
    requires Compiled(e, code, nsub) && Framed(e) && LastFilled(e)
    ensures NoJumpOff(code)
  {
    hide LaidOut, Fetch, Starts, Framed, Compiled, LastFilled;
    forall x: nat | Starts(code, x) && Fetch(code, x) == JumpPastAlt(0)
      ensures Fetch(code, x + 3) == PushDummyFailure
    {
      DummyBehind(e, code, nsub, x);
    }
  }

  lemma DummyBehind(e: Re, code: seq<byte>, nsub: nat, x: nat)
    requires Compiled(e, code, nsub) && Framed(e) && LastFilled(e)
    requires Starts(code, x) && Fetch(code, x) == JumpPastAlt(0)
    ensures Fetch(code, x + 3) == PushDummyFailure
  {
    hide LaidOut, Fetch, Starts, Framed, Fit, Numbered, After;
    StartAtZero(code);
    NoFetch(code);
    StartAtMost(code, x);
    EmptyAltAhead(e, code, 0, x);
  }

  lemma CoversNull(code: seq<byte>, w: Walk, fastmap: seq<bool>)
    requires Covers(code, w, fastmap) && w.empty
    ensures CodeNull(code, 0)
  {}

  lemma CoversPath(code: seq<byte>, w: Walk, fastmap: seq<bool>)
    requires Covers(code, w, fastmap) && w.p != |code|
    ensures w.path && w.p < |code|
  {}

  lemma PopWays(size: nat, stack: seq<nat>)
    requires |stack| > 0
    ensures Ways(size, stack[|stack| - 1]) + AllWays(size, stack[..|stack| - 1]) < Ways(size, size) + AllWays(size, stack)
  {}

  lemma AllSame(e: Re, code: seq<byte>)
    requires LaidOut(e, code, 0) && Len(e) == |code|
    ensures CodeNull(code, 0) == Nullable(e)
    ensures forall c: byte :: CodeBegins(code, 0, c) == Begins(e, c)
  {
    hide LaidOut, CodeNull, CodeBegins, Begins;
    WholeSame(e, code, 0);
    forall c: byte
      ensures CodeBegins(code, 0, c) == Begins(e, c)
    {
      WholeSame(e, code, c);
    }
  }

  lemma StepOver(code0: seq<byte>, code: seq<byte>, w: Walk, fastmap: seq<bool>)
    requires Wired(code0) && Related(code0, code) && Covers(code0, w, fastmap) && w.path && w.p < |code0|
    requires var i := Fetch(code, w.p);
      i.StartMemory? || i.StopMemory? || i.BegLine? || i.EndLine? || i.PushDummyFailure?
    ensures Covers(code0, w.(p := w.p + Width(Fetch(code, w.p))), fastmap)
  {
    hide Fetch, Starts, Related, Covers;
    CoversPlace(code0, w, fastmap);
    FetchRelated(code0, code, w.p);
    JumpBack(code0, w, fastmap);
  }

  predicate IsJump(i: Instr) {
    i.Jump? || i.PopFailureJump? || i.MaybePopJump? || i.JumpPastAlt? || i.DummyFailureJump?
  }

  /** No jump behind an alternative goes nowhere at the end of the code, or to a
      failure jump. */
  ghost predicate NoJumpOff(code: seq<byte>) {
    forall x: nat :: Starts(code, x) && Fetch(code, x) == JumpPastAlt(0) ==> Fetch(code, x + 3) == PushDummyFailure
  }

  lemma CharFacts(code0: seq<byte>, code: seq<byte>, w: Walk, fastmap: seq<bool>)
    requires Wired(code0) && Related(code0, code) && Covers(code0, w, fastmap) && w.p < |code0|
    requires var i := Fetch(code, w.p); i.ExactN? || i.AnyChar? || i.Bracket?
    ensures Whole(code0) && |code0| == |code| && !CodeNull(code0, w.p)
    ensures match Fetch(code, w.p)
            case ExactN(cs) => |cs| > 0 && forall c: byte :: CodeBegins(code0, w.p, c) <==> c == cs[0]
            case AnyChar => forall c: byte :: CodeBegins(code0, w.p, c)
            case Bracket(neg, bits) => |bits| <= 32 && forall c: byte :: CodeBegins(code0, w.p, c) <==> neg != InMap(bits, c)
            case _ => true
  {
    hide Fetch, Starts, Related, InMap, Boundary;
    FetchRelated(code0, code, w.p);
    FetchGrounded(code0, code, w.p);
    SameLength(code0, code);
    Opcodes(code, w.p);
  }

  lemma JumpFacts(code0: seq<byte>, code: seq<byte>, w: Walk, fastmap: seq<bool>)
    requires Wired(code0) && Related(code0, code) && Covers(code0, w, fastmap) && w.p < |code0| && w.path
    requires IsJump(Fetch(code, w.p)) && NoJumpOff(code0)
    ensures |code| == |code0|
    ensures var j, p := Fetch(code, w.p).off, w.p;
      var q := p + 3 + j;
      if j >= 0 then
        && Covers(code0, w.(p := q), fastmap)
        && (j == 0 ==> q < |code| && code[q] == PUSH_DUMMY_FAILURE)
      else
        && 0 <= q && q + 3 <= |code| && code[q] == ON_FAILURE_JUMP
        && q + 3 + Number(code[q + 1], code[q + 2]) == p + 3
        && Covers(code0, w.(p := p + 3), fastmap)
  {
    hide Fetch, Starts, Related, Number, Covers;
    var p := w.p;
    CoversPlace(code0, w, fastmap);
    FetchRelated(code0, code, p);
    FetchGrounded(code0, code, p);
    SameLength(code0, code);
    var j := Fetch(code, p).off;
    var q := p + 3 + j;
    if j >= 0 {
      JumpAhead(code0, w, fastmap, j);
      if j == 0 {
        NoFetch(code0);
        StartAtMost(code0, q);
        FetchRelated(code0, code, q);
        Opcodes(code, q);
      }
    } else {
      NoFetch(code0);
      StartAtMost(code0, q);
      FetchSame(code0, code, q);
      Opcodes(code, q);
      JumpBack(code0, w, fastmap);
    }
  }

  lemma CoversPlace(code: seq<byte>, w: Walk, fastmap: seq<bool>)
    requires Covers(code, w, fastmap)
    ensures Starts(code, w.p) && w.p <= |code|
  {}

  lemma JumpAhead(code: seq<byte>, w: Walk, fastmap: seq<bool>, j: nat)
    requires Covers(code, w, fastmap) && w.path && Starts(code, w.p + 3 + j)
    requires Fetch(code, w.p) == JumpPastAlt(j) || Fetch(code, w.p) == DummyFailureJump(j)
    ensures Covers(code, w.(p := w.p + 3 + j), fastmap)
  {
    hide Fetch, Starts, CodeNull, CodeBegins, Covers;
    forall c: byte
      ensures CodeNull(code, w.p) == CodeNull(code, w.p + 3 + j)
      ensures CodeBegins(code, w.p, c) == CodeBegins(code, w.p + 3 + j, c)
    {
      HopSame(code, w.p, j, c);
    }
    HopSame(code, w.p, j, 0);
    CoversMove(code, w, fastmap, w.p + 3 + j);
  }

  /** Going on behind a command that takes no character. */
  lemma JumpBack(code: seq<byte>, w: Walk, fastmap: seq<bool>)
    requires Covers(code, w, fastmap) && w.path && Whole(code)
    requires var i := Fetch(code, w.p);
      i.StartMemory? || i.StopMemory? || i.BegLine? || i.EndLine? || i.PushDummyFailure? || i.MaybePopJump?
    ensures Covers(code, w.(p := w.p + Width(Fetch(code, w.p))), fastmap)
  {
    hide Fetch, Starts, CodeNull, CodeBegins, Covers;
    CoversPlace(code, w, fastmap);
    var q := w.p + Width(Fetch(code, w.p));
    forall c: byte
      ensures CodeBegins(code, w.p, c) == CodeBegins(code, q, c)
    {
      NextSame(code, w.p, c);
    }
    NextSame(code, w.p, 0);
    StartsNext(code, w.p);
    CoversMove(code, w, fastmap, q);
  }

  lemma ForkFacts(code0: seq<byte>, code: seq<byte>, p: nat)
    requires Wired(code0) && Related(code0, code) && Starts(code0, p) && p < |code0|
    requires Fetch(code, p).OnFailureJump?
    ensures Fetch(code0, p) == Fetch(code, p) && Fetch(code, p).off >= 0
    ensures Starts(code0, p + 3 + Fetch(code, p).off) && |code| == |code0|
  {
    hide Fetch, Starts, Related;
    FetchRelated(code0, code, p);
    FetchGrounded(code0, code, p);
    SameLength(code0, code);
  }

  // ----- room for the walk -----

  lemma CompiledRoom(e: Re, code: seq<byte>, nsub: nat)
    requires Compiled(e, code, nsub)
    ensures LaidOut(e, code, 0) && Len(e) == |code| && Fit(e) && Numbered(e, 1) && After(e, 1) <= nsub + 1
  {}

  lemma ForkRoom(e: Re, code0: seq<byte>, nsub: nat, stack: seq<nat>, p: nat)
    requires Compiled(e, code0, nsub) && Framed(e) && Starts(code0, p) && p < |code0|
    requires Roomy(e, code0, stack, p) && Fetch(code0, p).OnFailureJump? && Fetch(code0, p).off >= 0
    ensures |stack| <= 2 * nsub + 1
    ensures Roomy(e, code0, stack + [p + 3 + Fetch(code0, p).off], p + 3) && Roomy(e, code0, stack, p + 3)
  {
    hide Fetch, Starts, Compiled, Framed, Roomy, LaidOut, Numbered, After, Fit;
    CompiledRoom(e, code0, nsub);
    RoomyNext(e, code0, stack, p);
    RoomyFull(e, code0, stack, p, nsub);
  }

  lemma JumpRoom(e: Re, code0: seq<byte>, code: seq<byte>, nsub: nat, stack: seq<nat>, w: Walk, fastmap: seq<bool>)
    requires Compiled(e, code0, nsub) && Wired(code0) && Related(code0, code) && Covers(code0, w, fastmap)
    requires w.p < |code0| && Roomy(e, code0, stack, w.p) && IsJump(Fetch(code, w.p))
    ensures var i, p := Fetch(code, w.p), w.p;
      if i.off >= 0 then Roomy(e, code0, stack, p + 3 + i.off) else Roomy(e, code0, stack, p + 3)
  {
    hide Fetch, Starts, Related, Compiled, Roomy, LaidOut, Numbered, After, Fit, Covers;
    CoversPlace(code0, w, fastmap);
    FetchRelated(code0, code, w.p);
    FetchGrounded(code0, code, w.p);
    CompiledRoom(e, code0, nsub);
    RoomyNext(e, code0, stack, w.p);
  }

  lemma StepRoom(e: Re, code0: seq<byte>, code: seq<byte>, nsub: nat, stack: seq<nat>, p: nat)
    requires Compiled(e, code0, nsub) && Wired(code0) && Related(code0, code) && Starts(code0, p)
    requires p < |code0| && Roomy(e, code0, stack, p)
    ensures var i := Fetch(code, p);
      i.StartMemory? || i.StopMemory? || i.BegLine? || i.EndLine? || i.PushDummyFailure? ==>
      Roomy(e, code0, stack, p + Width(i))
    ensures Roomy(e, code0, stack, |code0|)
  {
    hide Fetch, Starts, Related, Compiled, LaidOut, Numbered, After, Fit, Aside;
    FetchRelated(code0, code, p);
    CompiledRoom(e, code0, nsub);
    RoomyNext(e, code0, stack, p);
  }

  lemma RoomyLess(e: Re, code: seq<byte>, stack: seq<nat>, p: nat)
    requires Roomy(e, code, stack, p) && |stack| > 0
    ensures Roomy(e, code, stack[..|stack| - 1], p)
  {
    hide Aside;
  }

  lemma RoomyPop(e: Re, code: seq<byte>, stack: seq<nat>, p: nat)
    requires Roomy(e, code, stack, p) && |stack| > 0
    ensures Roomy(e, code, stack[..|stack| - 1], stack[|stack| - 1])
  {
    hide Aside;
  }

  lemma ForkWays(size: nat, p: nat, q: nat)
    requires p + 3 <= q && p + 3 <= size
    ensures Ways(size, p + 3) + Ways(size, q) < Ways(size, p)
  {
    hide Ways;
    WaysShrink(size, p, p + 1);
    WaysShrink(size, p + 1, p + 3);
    WaysShrink(size, p + 1, q);
  }
}
