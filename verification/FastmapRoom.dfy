/** How much room the walk of `re_compile_fastmap` needs.

    `Height` bounds the places put aside when the walk is at a place of the code.  A
    group adds two at most, one for its alternatives and one for its repetition, so
    the stack is never higher than twice the number of groups and one more. */
module FastmapRoom {
  import opened Octets
  import opened RegexLang
  import opened Bytecode
  import opened Invariant
  import opened Layout

  function Greater(m: int, n: int): int {
    if m > n then m else n
  }

  /** Places that may still be aside behind `e`. */
  function Out(e: Re): nat {
    match e
    case Cat(l, r) => Out(l) + Out(r)
    case Alt(l, r) => Greater(1 + Out(l), Out(r))
    case Group(_, _, body) => Out(body)
    case Repeat(op, body) => if !body.Group? then 0 else if op.Plus? then Out(body) else 1 + Out(body)
    case _ => 0
  }

  /** Places aside at `p` at most, in the code of `e` at `q`, with `b` before it; `x`
      behind it, and at the jumps from one of its alternatives. */
  function Height(e: Re, q: nat, b: int, x: int, p: nat): int {
    if p >= q + Len(e) then x else
    match e
    case Cat(l, r) =>
      if p < q + Len(l) then Height(l, q, b, b + Out(l), p) else Height(r, q + Len(l), b + Out(l), x, p)
    case Alt(l, r) =>
      if p == q then b
      else if p < q + 3 + Len(l) then Height(l, q + 3, b + 1, b + 1 + Out(l), p)
      else if p < q + 6 + Len(l) then x
      else Height(r, q + 6 + Len(l), b, x, p)
    case Group(_, _, body) =>
      if p == q then b
      else if p < q + 3 + Len(body) then Height(body, q + 3, b, b + Out(body), p)
      else b + Out(body)
    case Repeat(Star, body) =>
      if p == q then b
      else if p < q + 3 + Len(body) then Height(body, q + 3, b + 1, b + 1 + Out(body), p)
      else b + Out(e)
    case Repeat(Plus, body) =>
      if p == q then b
      else if p < q + 6 then b - 1
      else if p < q + 6 + Len(body) then Height(body, q + 6, b, b + Out(body), p)
      else b + Out(e)
    case Repeat(Opt, body) =>
      if p == q then b else Height(body, q + 3, b + 1, b + 1 + Out(body), p)
    case _ => b
  }

  lemma {:induction false} Entry(e: Re, q: nat, b: int, x: int)
    ensures if Len(e) > 0 then Height(e, q, b, x, q) == b else Out(e) == 0 && Height(e, q, b, x, q) == x
  {
    if e.Cat? {
      Entry(e.l, q, b, b + Out(e.l));
      Entry(e.r, q + Len(e.l), b + Out(e.l), x);
    }
  }

  /** The walk from `y` goes to places in the code of `e` or just behind it, where at
      least as much may be aside; and a place put aside may be come back to. */
  ghost predicate Eases(code: seq<byte>, y: nat, e: Re, q: nat, b: int, x: int) {
    match Fetch(code, y)
    case OnFailureJump(off) =>
      Leads(e, q, b, x, y, y + 3, 1) && off >= 0 && Leads(e, q, b, x, y, y + 3 + off, 0)
    case JumpPastAlt(off) => off >= 0 && Leads(e, q, b, x, y, y + 3 + off, 0)
    case DummyFailureJump(off) => off >= 0 && Leads(e, q, b, x, y, y + 3 + off, 0)
    case ExactN(_) => true
    case AnyChar => true
    case Bracket(_, _) => true
    case Bad => true
    case i => Leads(e, q, b, x, y, y + Width(i), 0)
  }

  ghost predicate Leads(e: Re, q: nat, b: int, x: int, y: nat, z: nat, more: nat) {
    q <= z <= q + Len(e) && Height(e, q, b, x, y) + more <= Height(e, q, b, x, z)
  }

  /** What holds inside a part holds in the whole. */
  lemma EaseMore(code: seq<byte>, y: nat, c: Re, qc: nat, bc: int, xc: int, e: Re, q: nat, b: int, x: int)
    requires Eases(code, y, c, qc, bc, xc) && Height(c, qc, bc, xc, y) == Height(e, q, b, x, y)
    requires q <= qc && qc + Len(c) <= q + Len(e)
    requires forall z: nat | qc <= z <= qc + Len(c) :: Height(c, qc, bc, xc, z) <= Height(e, q, b, x, z)
    ensures Eases(code, y, e, q, b, x)
  {
    hide Fetch, Height, Len, Leads;
    forall z: nat, more: nat | Leads(c, qc, bc, xc, y, z, more)
      ensures Leads(e, q, b, x, y, z, more)
    {
      LeadsMore(c, qc, bc, xc, e, q, b, x, y, z, more);
    }
  }

  lemma LeadsMore(c: Re, qc: nat, bc: int, xc: int, e: Re, q: nat, b: int, x: int, y: nat, z: nat, more: nat)
    requires Leads(c, qc, bc, xc, y, z, more) && Height(c, qc, bc, xc, y) == Height(e, q, b, x, y)
    requires q <= qc && qc + Len(c) <= q + Len(e)
    requires forall z: nat | qc <= z <= qc + Len(c) :: Height(c, qc, bc, xc, z) <= Height(e, q, b, x, z)
    ensures Leads(e, q, b, x, y, z, more)
  {
    hide Height, Len;
  }

  lemma {:induction false} Eased(e: Re, code: seq<byte>, q: nat, b: int, x: int, y: nat)
    requires LaidOut(e, code, q) && Starts(code, q) && Starts(code, y) && q <= y < q + Len(e)
    requires Fit(e) && x >= b + Out(e)
    ensures Eases(code, y, e, q, b, x)
    decreases e, 1
  {
    hide Fetch, Boundary, Starts, LaidOut, LoopAt, Eases;
    match e
    case Cat(l, r) => CatEased(e, code, q, b, x, y);
    case Alt(_, _) => AltEased(e, code, q, b, x, y);
    case Group(_, _, _) => GroupEased(e, code, q, b, x, y);
    case Repeat(op, _) => RepeatEased(e, code, q, b, x, y);
    case Empty =>
    case _ => LeafEased(e, code, q, b, x, y);
  }

  lemma LeafEased(e: Re, code: seq<byte>, q: nat, b: int, x: int, y: nat)
    requires LaidOut(e, code, q) && Starts(code, q) && Starts(code, y) && q <= y < q + Len(e) && x >= b
    requires e.Exact? || e.Any? || e.Charset? || e.Bol? || e.Eol?
    ensures Eases(code, y, e, q, b, x)
  {
    hide Fetch, Boundary, Starts;
    Outside(code, q, y);
  }

  lemma {:induction false} CatEased(e: Re, code: seq<byte>, q: nat, b: int, x: int, y: nat)
    requires e.Cat? && LaidOut(e, code, q) && Starts(code, q) && Starts(code, y) && q <= y < q + Len(e)
    requires Fit(e) && x >= b + Out(e)
    ensures Eases(code, y, e, q, b, x)
    decreases e, 0
  {
    hide Fetch, Boundary, Starts, LaidOut, Eases, Height, Owns, Len, Out, Fit;
    var l, r, m := e.l, e.r, q + Len(e.l);
    CatLaidOut(l, r, code, q);
    LaidOutStarts(l, code, q);
    CatSizes(e);
    CatFit(e);
    CatHeights(e, q, b, x);
    if y < m {
      Eased(l, code, q, b, b + Out(l), y);
      EaseMore(code, y, l, q, b, b + Out(l), e, q, b, x);
    } else {
      Eased(r, code, m, b + Out(l), x, y);
      EaseMore(code, y, r, m, b + Out(l), x, e, q, b, x);
    }
  }

  lemma CatFit(e: Re)
    requires e.Cat? && Fit(e)
    ensures Fit(e.l) && Fit(e.r)
  {}

  lemma CatSizes(e: Re)
    requires e.Cat?
    ensures Len(e) == Len(e.l) + Len(e.r) && Out(e) == Out(e.l) + Out(e.r)
  {}

  lemma CatAt(e: Re, q: nat, b: int, x: int, z: nat)
    requires e.Cat? && q <= z < q + Len(e)
    ensures Height(e, q, b, x, z) ==
      if z < q + Len(e.l) then Height(e.l, q, b, b + Out(e.l), z)
      else Height(e.r, q + Len(e.l), b + Out(e.l), x, z)
  {
    hide Out;
  }

  lemma FirstHeight(e: Re, q: nat, b: int, x: int, z: nat)
    requires e.Cat? && x >= b + Out(e) && q <= z <= q + Len(e.l)
    ensures z < q + Len(e.l) ==> Height(e.l, q, b, b + Out(e.l), z) == Height(e, q, b, x, z)
    ensures Height(e.l, q, b, b + Out(e.l), z) <= Height(e, q, b, x, z)
  {
    hide Height, Len, Out;
    CatSizes(e);
    if z < q + Len(e.l) {
      CatAt(e, q, b, x, z);
    } else {
      PastEnd(e.l, q, b, b + Out(e.l), z);
      SecondHeight(e, q, b, x, z);
      Entry(e.r, z, b + Out(e.l), x);
    }
  }

  lemma SecondHeight(e: Re, q: nat, b: int, x: int, z: nat)
    requires e.Cat? && q + Len(e.l) <= z <= q + Len(e)
    ensures Height(e.r, q + Len(e.l), b + Out(e.l), x, z) == Height(e, q, b, x, z)
  {
    hide Height, Len, Out;
    CatSizes(e);
    if z < q + Len(e) {
      CatAt(e, q, b, x, z);
    } else {
      PastEnd(e, q, b, x, z);
      PastEnd(e.r, q + Len(e.l), b + Out(e.l), x, z);
    }
  }

  lemma CatHeights(e: Re, q: nat, b: int, x: int)
    requires e.Cat? && x >= b + Out(e)
    ensures var l, r, m, c := e.l, e.r, q + Len(e.l), b + Out(e.l);
      && m + Len(r) == q + Len(e)
      && (forall z: nat | q <= z < m :: Height(l, q, b, c, z) == Height(e, q, b, x, z))
      && (forall z: nat | q <= z <= m :: Height(l, q, b, c, z) <= Height(e, q, b, x, z))
      && (forall z: nat | m <= z <= m + Len(r) :: Height(r, m, c, x, z) == Height(e, q, b, x, z))
  {
    hide Height, Len, Out;
    CatSizes(e);
    forall z: nat | q <= z <= q + Len(e.l)
      ensures z < q + Len(e.l) ==> Height(e.l, q, b, b + Out(e.l), z) == Height(e, q, b, x, z)
      ensures Height(e.l, q, b, b + Out(e.l), z) <= Height(e, q, b, x, z)
    {
      FirstHeight(e, q, b, x, z);
    }
    forall z: nat | q + Len(e.l) <= z <= q + Len(e)
      ensures Height(e.r, q + Len(e.l), b + Out(e.l), x, z) == Height(e, q, b, x, z)
    {
      SecondHeight(e, q, b, x, z);
    }
  }

  lemma {:induction false} AltEased(e: Re, code: seq<byte>, q: nat, b: int, x: int, y: nat)
    requires e.Alt? && LaidOut(e, code, q) && Starts(code, q) && Starts(code, y) && q <= y < q + Len(e)
    requires Fit(e) && x >= b + Out(e)
    ensures Eases(code, y, e, q, b, x)
    decreases e, 0
  {
    hide Fetch, Boundary, Starts, LaidOut, Eases, Height, Len, Out, Fit;
    var l, r, m := e.l, e.r, q + 3 + Len(e.l);
    AltPlace(e, code, q, y);
    AltSizes(e);
    AltFit(e);
    if y == q || y == m {
      AltParts(code, q, e);
      AltOwn(e, code, q, b, x, y);
    } else if y < m {
      Eased(l, code, q + 3, b + 1, b + 1 + Out(l), y);
      LeftHeights(e, q, b, x);
      EaseMore(code, y, l, q + 3, b + 1, b + 1 + Out(l), e, q, b, x);
    } else {
      Eased(r, code, m + 3, b, x, y);
      RightHeights(e, q, b, x);
      EaseMore(code, y, r, m + 3, b, x, e, q, b, x);
    }
  }

  lemma AltFit(e: Re)
    requires e.Alt? && Fit(e)
    ensures Fit(e.l) && Fit(e.r)
  {}

  lemma AltAt(e: Re, q: nat, b: int, x: int, y: nat)
    requires e.Alt? && q <= y < q + Len(e)
    ensures var l, m := e.l, q + 3 + Len(e.l);
      && (y == q ==> Height(e, q, b, x, y) == b)
      && (q < y < m ==> Height(e, q, b, x, y) == Height(l, q + 3, b + 1, b + 1 + Out(l), y))
      && (m <= y < m + 3 ==> Height(e, q, b, x, y) == x)
      && (y >= m + 3 ==> Height(e, q, b, x, y) == Height(e.r, m + 3, b, x, y))
  {}

  lemma PastEnd(e: Re, q: nat, b: int, x: int, y: nat)
    requires y >= q + Len(e)
    ensures Height(e, q, b, x, y) == x
  {}

  lemma AltSizes(e: Re)
    requires e.Alt?
    ensures Len(e) == Len(e.l) + 6 + Len(e.r) && Out(e) >= 1 + Out(e.l) && Out(e) >= Out(e.r)
    ensures PastAlt(e.r) <= Len(e.r)
  {}

  lemma LeftHeights(e: Re, q: nat, b: int, x: int)
    requires e.Alt? && x >= b + Out(e)
    ensures var l, p, c := e.l, q + 3, b + 1;
      && p + Len(l) <= q + Len(e)
      && (forall z: nat | p <= z < p + Len(l) :: Height(l, p, c, c + Out(l), z) == Height(e, q, b, x, z))
      && (forall z: nat | p <= z <= p + Len(l) :: Height(l, p, c, c + Out(l), z) <= Height(e, q, b, x, z))
  {
    hide Height, Len, Out;
    AltSizes(e);
    forall z: nat | q + 3 <= z <= q + 3 + Len(e.l)
      ensures z < q + 3 + Len(e.l) ==> Height(e.l, q + 3, b + 1, b + 1 + Out(e.l), z) == Height(e, q, b, x, z)
      ensures Height(e.l, q + 3, b + 1, b + 1 + Out(e.l), z) <= Height(e, q, b, x, z)
    {
      AltAt(e, q, b, x, z);
      if z == q + 3 + Len(e.l) { PastEnd(e.l, q + 3, b + 1, b + 1 + Out(e.l), z); }
    }
  }

  lemma RightHeights(e: Re, q: nat, b: int, x: int)
    requires e.Alt?
    ensures var r, p := e.r, q + 6 + Len(e.l);
      && p + Len(r) == q + Len(e)
      && (forall z: nat | p <= z <= p + Len(r) :: Height(r, p, b, x, z) == Height(e, q, b, x, z))
  {
    hide Height, Len, Out;
    AltSizes(e);
    forall z: nat | q + 6 + Len(e.l) <= z <= q + Len(e)
      ensures Height(e.r, q + 6 + Len(e.l), b, x, z) == Height(e, q, b, x, z)
    {
      if z < q + Len(e) {
        AltAt(e, q, b, x, z);
      } else {
        PastEnd(e, q, b, x, z);
        PastEnd(e.r, q + 6 + Len(e.l), b, x, z);
      }
    }
  }

  lemma AltOwn(e: Re, code: seq<byte>, q: nat, b: int, x: int, y: nat)
    requires e.Alt? && x >= b + Out(e) && (y == q || y == q + 3 + Len(e.l))
    requires Fetch(code, q) == OnFailureJump(Len(e.l) + 3) && Fetch(code, q + 3 + Len(e.l)) == JumpPastAlt(PastAlt(e.r))
    ensures Eases(code, y, e, q, b, x)
  {
    hide Fetch, Height, Len, PastAlt, Out, Leads;
    AltLeads(e, q, b, x);
    assert q + 3 + (Len(e.l) + 3) == q + 6 + Len(e.l);
    assert q + 3 + Len(e.l) + 3 + PastAlt(e.r) == q + 6 + Len(e.l) + PastAlt(e.r);
  }

  lemma AltLeads(e: Re, q: nat, b: int, x: int)
    requires e.Alt? && x >= b + Out(e)
    ensures Leads(e, q, b, x, q, q + 3, 1) && Leads(e, q, b, x, q, q + 6 + Len(e.l), 0)
    ensures Leads(e, q, b, x, q + 3 + Len(e.l), q + 6 + Len(e.l) + PastAlt(e.r), 0)
  {
    hide Height, Len, PastAlt, Out;
    AltSizes(e);
    AltHeight(e, q, b, x);
  }

  /** The heights an alternation itself leads to. */
  lemma AltHeight(e: Re, q: nat, b: int, x: int)
    requires e.Alt? && x >= b + Out(e)
    ensures Height(e, q, b, x, q) == b && Height(e, q, b, x, q + 3) >= b + 1
    ensures Height(e, q, b, x, q + 3 + Len(e.l)) == x && Height(e, q, b, x, q + 6 + Len(e.l)) >= b
    ensures Height(e, q, b, x, q + 6 + Len(e.l) + PastAlt(e.r)) == x
    ensures q + 6 + Len(e.l) + PastAlt(e.r) <= q + Len(e)
  {
    hide Height, Len, PastAlt, Out;
    AltSizes(e);
    RightHeights(e, q, b, x);
    LeftHeights(e, q, b, x);
    Entry(e.l, q + 3, b + 1, b + 1 + Out(e.l));
    Entry(e.r, q + 6 + Len(e.l), b, x);
    PastHeight(e.r, q + 6 + Len(e.l), b, x);
    AltAt(e, q, b, x, q);
    AltAt(e, q, b, x, q + 3 + Len(e.l));
  }

  lemma PastHeight(r: Re, p: nat, b: int, x: int)
    ensures Height(r, p, b, x, p + PastAlt(r)) == x
  {}

  lemma {:induction false} GroupEased(e: Re, code: seq<byte>, q: nat, b: int, x: int, y: nat)
    requires e.Group? && LaidOut(e, code, q) && Starts(code, q) && Starts(code, y) && q <= y < q + Len(e)
    requires Fit(e) && x >= b + Out(e)
    ensures Eases(code, y, e, q, b, x)
    decreases e, 0
  {
    hide Fetch, Boundary, Starts, LaidOut, Eases, Len, Out, Height, Fit;
    var body, m := e.body, q + 3 + Len(e.body);
    GroupStarts(e, code, q);
    GroupParts(e, code, q);
    GroupFit(e);
    GroupSizes(e);
    Outside(code, q, y);
    if q < y < m {
      Eased(body, code, q + 3, b, b + Out(body), y);
      BodyHeights(e, q, b, x);
      EaseMore(code, y, body, q + 3, b, b + Out(body), e, q, b, x);
    } else {
      if y >= m { GroupEnds(e, code, q, y); }
      GroupOwn(e, code, q, b, x, y);
    }
  }

  lemma GroupFit(e: Re)
    requires e.Group? && Fit(e)
    ensures Fit(e.body)
  {}

  lemma BodyHeights(e: Re, q: nat, b: int, x: int)
    requires e.Group?
    ensures var r, p, c := e.body, q + 3, b + Out(e.body);
      forall z: nat | p <= z <= p + Len(r) :: Height(r, p, b, c, z) == Height(e, q, b, x, z)
  {
    hide Height, Len, Out;
    forall z: nat | q + 3 <= z <= q + 3 + Len(e.body)
      ensures Height(e.body, q + 3, b, b + Out(e.body), z) == Height(e, q, b, x, z)
    {
      if z < q + 3 + Len(e.body) {
        GroupAt(e, q, b, x, z);
      } else {
        GroupHeights(e, q, b, x);
        PastEnd(e.body, q + 3, b, b + Out(e.body), z);
      }
    }
  }

  lemma GroupOwn(e: Re, code: seq<byte>, q: nat, b: int, x: int, y: nat)
    requires e.Group? && x >= b + Out(e) && Owns(e, q, y) && LaidOut(e, code, q)
    ensures Eases(code, y, e, q, b, x)
  {
    hide Fetch, LaidOut, Len, Out, Height, Leads;
    GroupParts(e, code, q);
    GroupLeads(e, q, b, x);
  }

  lemma GroupLeads(e: Re, q: nat, b: int, x: int)
    requires e.Group? && x >= b + Out(e)
    ensures var m := q + 3 + Len(e.body);
      && Leads(e, q, b, x, q, q + 3, 0)
      && if e.body.Alt? then Leads(e, q, b, x, m, m + 1, 0) && Leads(e, q, b, x, m + 1, m + 4, 0)
         else Leads(e, q, b, x, m, m + 3, 0)
  {
    hide Height, Len, Out;
    GroupSizes(e);
    GroupHeights(e, q, b, x);
    PastEnd(e, q, b, x, q + Len(e));
  }

  lemma GroupSizes(e: Re)
    requires e.Group?
    ensures Len(e) == Len(e.body) + (if e.body.Alt? then 7 else 6) && Out(e) == Out(e.body)
  {}

  lemma GroupHeights(e: Re, q: nat, b: int, x: int)
    requires e.Group?
    ensures var m, c := q + 3 + Len(e.body), b + Out(e.body);
      && Height(e, q, b, x, q) == b && Height(e, q, b, x, q + 3) == b && Height(e, q, b, x, m) == c
      && (e.body.Alt? ==> Height(e, q, b, x, m + 1) == c)
  {
    hide Len, Out;
    GroupSizes(e);
    Entry(e.body, q + 3, b, b + Out(e.body));
  }

  lemma {:induction false} RepeatEased(e: Re, code: seq<byte>, q: nat, b: int, x: int, y: nat)
    requires e.Repeat? && LaidOut(e, code, q) && Starts(code, q) && Starts(code, y) && q <= y < q + Len(e)
    requires Fit(e) && x >= b + Out(e)
    ensures Eases(code, y, e, q, b, x)
    decreases e, 0
  {
    hide Fetch, Boundary, Starts, LaidOut, LoopAt, Eases;
    RepeatParts(e, code, q);
    var body, op := e.body, e.op;
    var inner := if op.Plus? then q + 6 else q + 3;
    var c := if op.Plus? then b else b + 1;
    RepeatPlace(e, code, q, y);
    if Owns(e, q, y) {
      RepeatOwn(e, code, q, b, x, y);
    } else if body.Group? {
      Eased(body, code, inner, c, c + Out(body), y);
      RepeatHeights(e, q, b, x, inner, c);
      EaseMore(code, y, body, inner, c, c + Out(body), e, q, b, x);
    } else {
      ByteEases(e, code, q, b, x, inner, y);
    }
  }

  lemma RepeatHeights(e: Re, q: nat, b: int, x: int, inner: nat, c: int)
    requires e.Repeat? && e.body.Group? && x >= b + Out(e)
    requires inner == (if e.op.Plus? then q + 6 else q + 3) && c == (if e.op.Plus? then b else b + 1)
    ensures inner + Len(e.body) <= q + Len(e)
    ensures forall z: nat | inner <= z <= inner + Len(e.body) ::
      Height(e.body, inner, c, c + Out(e.body), z) <= Height(e, q, b, x, z)
    ensures forall z: nat | inner <= z < inner + Len(e.body) ::
      Height(e.body, inner, c, c + Out(e.body), z) == Height(e, q, b, x, z)
  {
    assert e.op.Star? || e.op.Plus? || e.op.Opt?;
  }

  lemma RepeatOwn(e: Re, code: seq<byte>, q: nat, b: int, x: int, y: nat)
    requires e.Repeat? && x >= b + Out(e) && Owns(e, q, y) && LaidOut(e, code, q) && Fit(e)
    ensures Eases(code, y, e, q, b, x)
  {
    hide Fetch, LaidOut, LoopAt;
    RepeatParts(e, code, q);
    var body := e.body;
    assert Len(body) > 0;
    Entry(body, q + 3, b + 1, b + 1 + Out(body));
    Entry(body, q + 6, b, b + Out(body));
    match e.op
    case Opt =>
    case Star => LoopParts(body, code, q);
    case Plus => LoopParts(body, code, q + 3);
  }

  /** A body of one byte ends the path. */
  lemma ByteEases(e: Re, code: seq<byte>, q: nat, b: int, x: int, inner: nat, y: nat)
    requires e.Repeat? && Single(e.body) && LaidOut(e.body, code, inner) && Starts(code, inner) && Starts(code, y)
    requires inner <= y < inner + Len(e.body)
    ensures Eases(code, y, e, q, b, x)
  {
    hide Boundary, Starts;
    LeafByte(e.body, code, inner);
    hide Fetch, LaidOut;
    Outside(code, inner, y);
  }

  // ----- the bound -----

  function Groups(e: Re): nat {
    match e
    case Cat(l, r) => Groups(l) + Groups(r)
    case Alt(l, r) => Groups(l) + Groups(r)
    case Group(_, _, body) => 1 + Groups(body)
    case Repeat(_, body) => Groups(body)
    case _ => 0
  }

  function Bound(e: Re): nat {
    2 * Groups(e) + if e.Alt? then 1 else 0
  }

  lemma {:induction false} OutBound(e: Re)
    requires Framed(e)
    ensures Out(e) <= Bound(e)
  {
    match e
    case Cat(l, r) => OutBound(l); OutBound(r);
    case Alt(l, r) => OutBound(l); OutBound(r);
    case Group(_, _, body) => OutBound(body);
    case Repeat(_, body) => 
      if body.Group? {
        OutBound(body.body);
        assert Out(body) == Out(body.body) && Groups(body) == 1 + Groups(body.body);
      }
    case _ =>
  }

  /** Where a place is put aside there are not too many yet. */
  lemma {:induction false} ForkHeight(e: Re, code: seq<byte>, q: nat, b: int, x: int, y: nat)
    requires LaidOut(e, code, q) && Starts(code, q) && Starts(code, y) && q <= y < q + Len(e)
    requires Fit(e) && Framed(e) && Fetch(code, y).OnFailureJump?
    ensures Height(e, q, b, x, y) <= b + Bound(e)
    decreases e, 1
  {
    hide Fetch, Boundary, Starts, LaidOut, LoopAt;
    match e
    case Cat(_, _) => CatFork(e, code, q, b, x, y);
    case Alt(_, _) => AltFork(e, code, q, b, x, y);
    case Group(_, _, body) => GroupFork(e, code, q, b, x, y);
    case Repeat(_, _) => RepeatFork(e, code, q, b, x, y);
    case Empty =>
    case _ => LeafFork(e, code, q, y);
  }

  lemma {:induction false} CatFork(e: Re, code: seq<byte>, q: nat, b: int, x: int, y: nat)
    requires e.Cat? && LaidOut(e, code, q) && Starts(code, q) && Starts(code, y) && q <= y < q + Len(e)
    requires Fit(e) && Framed(e) && Fetch(code, y).OnFailureJump?
    ensures Height(e, q, b, x, y) <= b + Bound(e)
    decreases e, 0
  {
    hide Fetch, Boundary, Starts, LaidOut, Height;
    var l, r := e.l, e.r;
    CatLaidOut(l, r, code, q);
    LaidOutStarts(l, code, q);
    OutBound(l);
    if y < q + Len(l) {
      ForkHeight(l, code, q, b, b + Out(l), y);
      CatAt(e, q, b, x, y);
    } else {
      ForkHeight(r, code, q + Len(l), b + Out(l), x, y);
      CatAt(e, q, b, x, y);
    }
  }

  lemma {:induction false} AltFork(e: Re, code: seq<byte>, q: nat, b: int, x: int, y: nat)
    requires e.Alt? && LaidOut(e, code, q) && Starts(code, q) && Starts(code, y) && q <= y < q + Len(e)
    requires Fit(e) && Framed(e) && Fetch(code, y).OnFailureJump?
    ensures Height(e, q, b, x, y) <= b + Bound(e)
    decreases e, 0
  {
    hide Fetch, Boundary, Starts, LaidOut, Height;
    var l, r, m := e.l, e.r, q + 3 + Len(e.l);
    AltPlace(e, code, q, y);
    AltParts(code, q, e);
    AltAt(e, q, b, x, y);
    if q < y < m {
      ForkHeight(l, code, q + 3, b + 1, b + 1 + Out(l), y);
    } else if y > m {
      ForkHeight(r, code, m + 3, b, x, y);
    }
  }

  lemma LeafFork(e: Re, code: seq<byte>, q: nat, y: nat)
    requires LaidOut(e, code, q) && Starts(code, q) && Starts(code, y) && q <= y < q + Len(e)
    requires e.Exact? || e.Any? || e.Charset? || e.Bol? || e.Eol?
    ensures !Fetch(code, y).OnFailureJump?
  {
    hide Fetch, Boundary, Starts;
    Outside(code, q, y);
  }

  lemma {:induction false} GroupFork(e: Re, code: seq<byte>, q: nat, b: int, x: int, y: nat)
    requires e.Group? && LaidOut(e, code, q) && Starts(code, q) && Starts(code, y) && q <= y < q + Len(e)
    requires Fit(e) && Framed(e) && Fetch(code, y).OnFailureJump?
    ensures Height(e, q, b, x, y) <= b + Bound(e) - 1
    decreases e, 0
  {
    hide Fetch, Boundary, Starts, LaidOut, Height, Owns;
    var body, m := e.body, q + 3 + Len(e.body);
    GroupInner(e, code, q, y);
    ForkHeight(body, code, q + 3, b, b + Out(body), y);
    GroupAt(e, q, b, x, y);
  }

  lemma GroupAt(e: Re, q: nat, b: int, x: int, y: nat)
    requires e.Group? && q + 3 <= y < q + 3 + Len(e.body)
    ensures Height(e, q, b, x, y) == Height(e.body, q + 3, b, b + Out(e.body), y)
  {}

  /** A failure jump in the code of a group is in its body. */
  lemma GroupInner(e: Re, code: seq<byte>, q: nat, y: nat)
    requires e.Group? && LaidOut(e, code, q) && Starts(code, q) && Starts(code, y) && q <= y < q + Len(e)
    requires Fetch(code, y).OnFailureJump?
    ensures LaidOut(e.body, code, q + 3) && Starts(code, q + 3) && q + 3 <= y < q + 3 + Len(e.body)
  {
    hide Fetch, Boundary, Starts, LaidOut;
    GroupStarts(e, code, q);
    GroupParts(e, code, q);
    Outside(code, q, y);
    if y >= q + 3 + Len(e.body) { GroupEnds(e, code, q, y); }
  }

  lemma {:induction false} RepeatFork(e: Re, code: seq<byte>, q: nat, b: int, x: int, y: nat)
    requires e.Repeat? && LaidOut(e, code, q) && Starts(code, q) && Starts(code, y) && q <= y < q + Len(e)
    requires Fit(e) && Framed(e) && Fetch(code, y).OnFailureJump?
    ensures Height(e, q, b, x, y) <= b + Bound(e)
    decreases e, 0
  {
    hide Fetch, Boundary, Starts, LaidOut, LoopAt;
    RepeatPlace(e, code, q, y);
    var body, op := e.body, e.op;
    var inner, c := if op.Plus? then q + 6 else q + 3, if op.Plus? then b else b + 1;
    if Owns(e, q, y) {
      RepeatOwnFork(e, code, q, b, x, y);
    } else if body.Group? {
      assert Height(e, q, b, x, y) == Height(body, inner, c, c + Out(body), y);
      GroupFork(body, code, inner, c, c + Out(body), y);
    } else {
      LeafByte(body, code, inner);
      Outside(code, inner, y);
    }
  }

  lemma RepeatOwnFork(e: Re, code: seq<byte>, q: nat, b: int, x: int, y: nat)
    requires e.Repeat? && LaidOut(e, code, q) && Owns(e, q, y) && Fit(e) && Fetch(code, y).OnFailureJump?
    ensures Height(e, q, b, x, y) <= b + Bound(e)
  {
    hide Fetch, LaidOut, LoopAt;
    RepeatParts(e, code, q);
    match e.op
    case Opt =>
    case Star => LoopParts(e.body, code, q);
    case Plus => LoopParts(e.body, code, q + 3);
  }

  /** There are no more groups than their numbers leave room for. */
  lemma {:induction false} GroupsNumbered(e: Re, b: nat)
    requires Numbered(e, b)
    ensures b + Groups(e) <= After(e, b)
    decreases e
  {
    match e
    case Cat(l, r) => GroupsNumbered(l, b); GroupsNumbered(r, After(l, b));
    case Alt(l, r) => GroupsNumbered(l, b); GroupsNumbered(r, After(l, b));
    case Group(reg, inner, body) => GroupsNumbered(body, reg + 1);
    case Repeat(_, body) => GroupsNumbered(body, b);
    case _ =>
  }

  // ----- the walk -----

  /** Places aside at `p`, in the code of the whole pattern. */
  function Aside(e: Re, p: nat): int {
    Height(e, 0, 0, Out(e), p)
  }

  /** The stack is no higher than that, nor was it when its places were put aside. */
  ghost predicate Roomy(e: Re, code: seq<byte>, stack: seq<nat>, p: nat) {
    && (p < |code| ==> |stack| <= Aside(e, p))
    && forall i | 0 <= i < |stack| :: i <= Aside(e, stack[i])
  }

  lemma RoomyStart(e: Re, code: seq<byte>)
    requires Len(e) == |code|
    ensures Roomy(e, code, [], 0)
  {
    Entry(e, 0, 0, Out(e));
  }

  /** One command of the walk keeps it so. */
  lemma RoomyNext(e: Re, code: seq<byte>, stack: seq<nat>, p: nat)
    requires LaidOut(e, code, 0) && Len(e) == |code| && Fit(e) && Starts(code, p) && p < |code| && Roomy(e, code, stack, p)
    ensures match Fetch(code, p)
            case OnFailureJump(off) =>
              && p + 3 + off >= 0 && Roomy(e, code, stack + [p + 3 + off], p + 3) && Roomy(e, code, stack, p + 3)
            case JumpPastAlt(off) => off >= 0 && Roomy(e, code, stack, p + 3 + off)
            case DummyFailureJump(off) => off >= 0 && Roomy(e, code, stack, p + 3 + off)
            case ExactN(_) => true
            case AnyChar => true
            case Bracket(_, _) => true
            case Bad => true
            case i => Roomy(e, code, stack, p + Width(i))
  {
    hide Fetch, LaidOut, Leads, Starts, Boundary, Roomy;
    StartAtZero(code);
    Eased(e, code, 0, 0, Out(e), p);
    forall z: nat, more: nat | Leads(e, 0, 0, Out(e), p, z, more)
      ensures Roomy(e, code, stack, z)
      ensures more == 1 ==> forall t: nat | Leads(e, 0, 0, Out(e), p, t, 0) :: Roomy(e, code, stack + [t], z)
    {
      RoomyMove(e, code, stack, p, z, more);
    }
  }

  lemma RoomyMove(e: Re, code: seq<byte>, stack: seq<nat>, p: nat, z: nat, more: nat)
    requires Len(e) == |code| && p < |code| && Roomy(e, code, stack, p) && Leads(e, 0, 0, Out(e), p, z, more)
    ensures Roomy(e, code, stack, z)
    ensures more == 1 ==> forall t: nat | Leads(e, 0, 0, Out(e), p, t, 0) :: Roomy(e, code, stack + [t], z)
  {
    hide Height;
  }

  /** When there is no room for another place, there was none for twice the groups and
      one. */
  lemma RoomyFull(e: Re, code: seq<byte>, stack: seq<nat>, p: nat, nsub: nat)
    requires LaidOut(e, code, 0) && Len(e) == |code| && Fit(e) && Framed(e) && Starts(code, p) && p < |code|
    requires Numbered(e, 1) && After(e, 1) <= nsub + 1
    requires Roomy(e, code, stack, p) && Fetch(code, p).OnFailureJump?
    ensures |stack| <= 2 * nsub + 1
  {
    hide Fetch, LaidOut, Height, Starts, Boundary;
    StartAtZero(code);
    ForkHeight(e, code, 0, 0, Out(e), p);
    GroupsNumbered(e, 1);
  }
}
