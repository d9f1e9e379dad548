/** What the walk of `re_compile_fastmap` has covered.

    The walk holds one place in the code and a stack of places still to visit.
    Together with the map filled so far they account for every first byte of the
    pattern, and for whether it can match nothing. */
module FastmapWalk {
  import opened Octets
  import opened RegexLang
  import opened Bytecode
  import opened Rewriting
  import opened Layout
  import opened Fastmap

  /** `path` says that nothing but the empty string was matched on the way to `p`,
      `empty` that some way to the end was found. */
  datatype Walk = Walk(p: nat, stack: seq<nat>, path: bool, empty: bool)

  ghost predicate SomeBegins(code: seq<byte>, stack: seq<nat>, c: byte) {
    exists q | q in stack :: CodeBegins(code, q, c)
  }

  ghost predicate SomeNull(code: seq<byte>, stack: seq<nat>) {
    exists q | q in stack :: CodeNull(code, q)
  }

  /** The first bytes are those in the map, and those of the places to visit. */
  ghost predicate Covers(code: seq<byte>, w: Walk, fastmap: seq<bool>) {
    && |fastmap| == 256 && Starts(code, w.p) && (!w.path ==> w.p == |code|)
    && (forall q | q in w.stack :: q < |code| && Starts(code, q))
    && (CodeNull(code, 0) <==> w.empty || (w.path && CodeNull(code, w.p)) || SomeNull(code, w.stack))
    && forall c: byte ::
         CodeBegins(code, 0, c) <==> fastmap[c] || CodeBegins(code, w.p, c) || SomeBegins(code, w.stack, c)
  }

  lemma StackSplit(code: seq<byte>, stack: seq<nat>, q: nat)
    ensures SomeNull(code, stack + [q]) <==> SomeNull(code, stack) || CodeNull(code, q)
    ensures forall c: byte :: SomeBegins(code, stack + [q], c) <==> SomeBegins(code, stack, c) || CodeBegins(code, q, c)
  {
    hide CodeNull, CodeBegins;
    var all := stack + [q];
    assert q in all;
    if SomeNull(code, stack) {
      var x :| x in stack && CodeNull(code, x);
      assert x in all;
    }
    forall c: byte | SomeBegins(code, stack, c)
      ensures SomeBegins(code, all, c)
    {
      var x :| x in stack && CodeBegins(code, x, c);
      assert x in all;
    }
  }

  /** Nothing but the start of the code to visit. */
  lemma CoversStart(code: seq<byte>)
    ensures Covers(code, Walk(0, [], true, false), seq(256, _ => false))
  {
    hide CodeNull, CodeBegins;
  }

  /** The place moves to one that counts for the same. */
  lemma CoversMove(code: seq<byte>, w: Walk, fastmap: seq<bool>, q: nat)
    requires Covers(code, w, fastmap) && w.path && Starts(code, q)
    requires CodeNull(code, q) == CodeNull(code, w.p)
    requires forall c: byte :: CodeBegins(code, q, c) == CodeBegins(code, w.p, c)
    ensures Covers(code, w.(p := q), fastmap)
  {
    hide CodeNull, CodeBegins, SomeBegins, SomeNull, Starts;
  }

  /** The bytes at the place go into the map, and the path ends. */
  lemma CoversTake(code: seq<byte>, w: Walk, fastmap: seq<bool>, fastmap': seq<bool>)
    requires Covers(code, w, fastmap) && w.path && !CodeNull(code, w.p) && |fastmap'| == 256 && Whole(code)
    requires forall c: byte :: fastmap'[c] <==> fastmap[c] || CodeBegins(code, w.p, c)
    ensures Covers(code, w.(p := |code|, path := false), fastmap')
  {
    hide CodeNull, CodeBegins, SomeBegins, SomeNull, Starts;
    EndBegins(code);
  }

  lemma EndBegins(code: seq<byte>)
    ensures CodeNull(code, |code|) && forall c: byte :: !CodeBegins(code, |code|, c)
  {}

  /** A failure jump: its target is put aside, or is the end. */
  lemma CoversFork(code: seq<byte>, w: Walk, fastmap: seq<bool>, off: nat)
    requires Covers(code, w, fastmap) && w.path && Fetch(code, w.p) == OnFailureJump(off)
    requires Starts(code, w.p + 3 + off)
    ensures Starts(code, w.p + 3)
    ensures w.p + 3 + off < |code| ==> Covers(code, w.(p := w.p + 3, stack := w.stack + [w.p + 3 + off]), fastmap)
    ensures w.p + 3 + off >= |code| ==> Covers(code, w.(p := w.p + 3, empty := true), fastmap)
  {
    hide CodeNull, CodeBegins, SomeBegins, SomeNull, Starts, Fetch;
    StartsNext(code, w.p);
    EndBegins(code);
    var q := w.p + 3 + off;
    StackSplit(code, w.stack, q);
    ForkAll(code, w.p, off);
    StartAtMost(code, q);
  }

  lemma ForkAll(code: seq<byte>, p: nat, off: nat)
    requires Fetch(code, p) == OnFailureJump(off)
    ensures CodeNull(code, p) <==> CodeNull(code, p + 3) || CodeNull(code, p + 3 + off)
    ensures forall c: byte ::
      CodeBegins(code, p, c) <==> CodeBegins(code, p + 3, c) || CodeBegins(code, p + 3 + off, c)
  {
    hide CodeNull, CodeBegins, Fetch;
    ForkSame(code, p, off, 0);
    forall c: byte
      ensures CodeBegins(code, p, c) <==> CodeBegins(code, p + 3, c) || CodeBegins(code, p + 3 + off, c)
    {
      ForkSame(code, p, off, c);
    }
  }

  /** The top of the stack is where the path is: drop it. */
  lemma CoversRedundant(code: seq<byte>, w: Walk, fastmap: seq<bool>)
    requires Covers(code, w, fastmap) && w.path && |w.stack| > 0 && w.stack[|w.stack| - 1] == w.p
    ensures Covers(code, w.(stack := w.stack[..|w.stack| - 1]), fastmap)
  {
    hide CodeNull, CodeBegins, SomeBegins, SomeNull, Starts;
    var rest := w.stack[..|w.stack| - 1];
    assert w.stack == rest + [w.p];
    assert forall q | q in rest :: q in w.stack;
    StackSplit(code, rest, w.p);
  }

  /** The path is at its end: go on from the top of the stack. */
  lemma CoversPop(code: seq<byte>, w: Walk, fastmap: seq<bool>)
    requires Covers(code, w, fastmap) && w.p == |code| && |w.stack| > 0
    ensures var n := |w.stack| - 1;
      w.stack[n] < |code| && Covers(code, Walk(w.stack[n], w.stack[..n], true, w.empty || w.path), fastmap)
  {
    hide CodeNull, CodeBegins, SomeBegins, SomeNull, Starts;
    var n := |w.stack| - 1;
    assert w.stack == w.stack[..n] + [w.stack[n]];
    StackSplit(code, w.stack[..n], w.stack[n]);
    EndBegins(code);
    assert w.stack[n] in w.stack;
    assert forall q | q in w.stack[..n] :: q in w.stack;
  }

  /** The walk is over. */
  lemma CoversDone(code: seq<byte>, w: Walk, fastmap: seq<bool>)
    requires Covers(code, w, fastmap) && w.p == |code| && w.stack == []
    ensures CodeNull(code, 0) <==> w.empty || w.path
    ensures forall c: byte :: CodeBegins(code, 0, c) <==> fastmap[c]
  {
    hide CodeNull, CodeBegins, Starts;
    EndBegins(code);
  }

  // ----- termination -----

  /** Ways left to go from `p`, at most. */
  function Ways(size: nat, p: nat): nat {
    if p >= size then 1 else Power2(size - p)
  }

  function AllWays(size: nat, stack: seq<nat>): nat {
    if |stack| == 0 then 0 else AllWays(size, stack[..|stack| - 1]) + Ways(size, stack[|stack| - 1])
  }

  lemma {:induction false} PowerGrows(m: nat, n: nat)
    requires m < n
    ensures Power2(m) >= 1 && 2 * Power2(m) <= Power2(n)
    decreases n
  {
    if m < n - 1 { PowerGrows(m, n - 1); }
    PowerPositive(m);
  }

  lemma {:induction false} PowerPositive(m: nat)
    ensures Power2(m) >= 1
  {
    if m > 0 { PowerPositive(m - 1); }
  }

  /** Going on costs at least half of the ways left. */
  lemma WaysShrink(size: nat, p: nat, q: nat)
    requires p < q && p < size
    ensures 2 * Ways(size, q) <= Ways(size, p) && Ways(size, q) >= 1
  {
    if q < size { PowerGrows(size - q, size - p); } else { PowerGrows(0, size - p); }
  }

  lemma AllWaysSnoc(size: nat, stack: seq<nat>, q: nat)
    ensures AllWays(size, stack + [q]) == AllWays(size, stack) + Ways(size, q)
  {
    assert (stack + [q])[..|stack|] == stack;
  }
}
