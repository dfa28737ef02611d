/** The states the compiler goes through for each kind of statement, from the first to the last. */
module StmtStates {
  import opened Squirrel
  import opened Bytecode
  import opened Layout
  import opened CodeOf
  import opened FuncState
  import opened ExprEmit
  import opened StmtEmit

  /** The target of an expression is popped again. */
  function Dropped(a: FS, s1: FS): (b: FS) {
    s1.(targets := a.targets, names := a.names)
  }

  // ---------- Tests ----------

  /** An expression and a jump that is taken when it is false. */
  ghost predicate TestSteps(a: FS, s1: FS, s2: FS, c: Expr) {
    EmitsE(a, s1, |a.names|, c) && s2 == Emit(Dropped(a, s1), JZ(Target(c, |a.names|), 0))
  }

  lemma TestFacts(a: FS, s1: FS, s2: FS, c: Expr)
    requires TestSteps(a, s1, s2, c)
    ensures Grows(a, s2) && s2.names == a.names && s2.targets == a.targets && Plain(s2.code, |a.code|)
    ensures s1.code <= s2.code && |s2.code| == |s1.code| + 1 && s2.code[|s1.code|] == JZ(Target(c, |a.names|), 0)
    ensures s2.lits == s1.lits && s2.stacksize == s1.stacksize
  {
    EmitAt(Dropped(a, s1), JZ(Target(c, |a.names|), 0));
  }

  // ---------- if ----------

  ghost predicate IfSteps(a: FS, s1: FS, s2: FS, s3: FS, b: FS, s: Stmt, jz: nat, off: int) {
    && s.If? && TestSteps(a, s1, s2, s.c) && EmitsS(s2, s3, s.thn)
    && jz == |s1.code| < |s3.code| && off == |s3.code| - 1 - jz && b == Patch(s3, jz, off)
  }

  ghost predicate IfShape(a: FS, s1: FS, s2: FS, s3: FS, b: FS, s: Stmt)
    requires s.If?
  {
    var o1, o2, end := |s1.code|, |s2.code|, |b.code|;
    && |a.code| <= o1 && o2 == o1 + 1 && o2 <= |s3.code| == end
    && Copies(b, s1, |a.code|) && Copies(b, s3, o2) && b.code[o1] == JZ(Target(s.c, |a.names|), end - o2)
  }

  lemma IfShapes(a: FS, s1: FS, s2: FS, s3: FS, b: FS, s: Stmt, jz: nat, off: int)
    requires IfSteps(a, s1, s2, s3, b, s, jz, off)
    ensures IfShape(a, s1, s2, s3, b, s) && Steady(a, b) && a.names == b.names
  {
    TestFacts(a, s1, s2, s.c);
    PatchAt(s3, jz, off);
    assert s1.code <= s2.code <= s3.code;
    ListedPart(b.code, |a.code|, s3.code, |s2.code|, b.breaks, BreakHole, |a.breaks|);
    ListedPart(b.code, |a.code|, s3.code, |s2.code|, b.continues, ContinueHole, |a.continues|);
  }

  lemma IfLaid(a: FS, s1: FS, s2: FS, s3: FS, b: FS, s: Stmt, q: Prog, x: Ctx, end: int)
    requires s.If? && IfShape(a, s1, s2, s3, b, s) && TestSteps(a, s1, s2, s.c) && EmitsS(s2, s3, s.thn)
    requires Fits(a, x) && Fills(q, b, |a.code|, x) && end == |b.code|
    ensures IsS(q, s, |a.names|, x, |a.code|, end)
  {
    var d, o, o1, o2 := |a.names|, |a.code|, |s1.code|, |s2.code|;
    TestFacts(a, s1, s2, s.c);
    FillsAgrees(q, b, s1, o, o, x);
    FillsPart(q, b, s3, o, o2, x);
    assert FilledAt(b.code[o1], q.code[o1], o1, x);
    MakeIf(q, s, d, x, o, o1, o2, end);
  }

  lemma IfEmits(a: FS, s1: FS, s2: FS, s3: FS, b: FS, s: Stmt, jz: nat, off: int)
    requires IfSteps(a, s1, s2, s3, b, s, jz, off)
    ensures EmitsS(a, b, s)
  {
    IfShapes(a, s1, s2, s3, b, s, jz, off);
    forall q, x | Fits(a, x) && Fills(q, b, |a.code|, x)
      ensures IsS(q, s, |a.names|, x, |a.code|, |b.code|)
    {
      IfLaid(a, s1, s2, s3, b, s, q, x, |b.code|);
    }
  }

  // ---------- if-else ----------

  ghost predicate IfElseSteps(a: FS, s1: FS, s2: FS, s3: FS, s4: FS, s5: FS, b: FS, s: Stmt, jz: nat, jzoff: int,
      jmp: nat, jmpoff: int) {
    && s.IfElse? && TestSteps(a, s1, s2, s.c) && EmitsS(s2, s3, s.thn) && s4 == Emit(s3, JMP(0))
      && EmitsS(s4, s5, s.els)
    && jz == |s1.code| < |s5.code| && jmp == |s3.code| < |s5.code|
    && jmpoff == |s5.code| - 1 - jmp && jzoff == jmp - 1 - jz + 1 && b == Patch(Patch(s5, jmp, jmpoff), jz, jzoff)
  }

  ghost predicate IfElseShape(a: FS, s1: FS, s2: FS, s3: FS, s4: FS, s5: FS, b: FS, s: Stmt)
    requires s.IfElse?
  {
    var o1, o2, o3, o4, end := |s1.code|, |s2.code|, |s3.code|, |s4.code|, |b.code|;
    && |a.code| <= o1 && o2 == o1 + 1 && o2 <= o3 && o4 == o3 + 1 && o4 <= |s5.code| == end
    && Copies(b, s1, |a.code|) && Copies(b, s3, o2) && Copies(b, s5, o4)
    && b.code[o1] == JZ(Target(s.c, |a.names|), o4 - o2) && b.code[o3] == JMP(end - o4)
  }

  lemma IfElseShapes(a: FS, s1: FS, s2: FS, s3: FS, s4: FS, s5: FS, b: FS, s: Stmt, jz: nat, jzoff: int, jmp: nat,
      jmpoff: int)
    requires IfElseSteps(a, s1, s2, s3, s4, s5, b, s, jz, jzoff, jmp, jmpoff)
    ensures IfElseShape(a, s1, s2, s3, s4, s5, b, s)
  {
    TestFacts(a, s1, s2, s.c);
    EmitAt(s3, JMP(0));
    PatchAt(s5, jmp, jmpoff);
    PatchAt(Patch(s5, jmp, jmpoff), jz, jzoff);
    assert s1.code <= s2.code <= s3.code <= s4.code <= s5.code;
  }

  /** The jumps that wait are those of both branches. */
  lemma IfElseListed(a: FS, s1: FS, s2: FS, s3: FS, s4: FS, s5: FS, b: FS, s: Stmt, hole: Instr, l3: seq<nat>,
      l5: seq<nat>, n: nat)
    requires s.IfElse? && IfElseShape(a, s1, s2, s3, s4, s5, b, s) && Plain(s1.code, |a.code|)
    requires (hole == BreakHole || hole == ContinueHole) && l3 <= l5
    requires Listed(s3.code, hole, l3, |s2.code|, n) && Listed(s5.code, hole, l5, |s4.code|, |l3|)
    ensures Listed(b.code, hole, l5, |a.code|, n)
  {
    ListedJoin(b.code, |a.code|, s3.code, |s2.code|, l3, s5.code, |s4.code|, l5, hole, n);
  }

  lemma IfElseSteady(a: FS, s1: FS, s2: FS, s3: FS, s4: FS, s5: FS, b: FS, s: Stmt, jz: nat, jzoff: int, jmp: nat,
      jmpoff: int)
    requires IfElseSteps(a, s1, s2, s3, s4, s5, b, s, jz, jzoff, jmp, jmpoff)
      && IfElseShape(a, s1, s2, s3, s4, s5, b, s)
    ensures Steady(a, b)
  {
    TestFacts(a, s1, s2, s.c);
    IfElseListed(a, s1, s2, s3, s4, s5, b, s, BreakHole, s3.breaks, s5.breaks, |a.breaks|);
    IfElseListed(a, s1, s2, s3, s4, s5, b, s, ContinueHole, s3.continues, s5.continues, |a.continues|);
  }

  lemma IfElseLaid(a: FS, s1: FS, s2: FS, s3: FS, s4: FS, s5: FS, b: FS, s: Stmt, q: Prog, x: Ctx, end: int)
    requires s.IfElse? && IfElseShape(a, s1, s2, s3, s4, s5, b, s) && TestSteps(a, s1, s2, s.c)
    requires EmitsS(s2, s3, s.thn) && s4 == Emit(s3, JMP(0)) && EmitsS(s4, s5, s.els)
    requires Fits(a, x) && Fills(q, b, |a.code|, x) && end == |b.code|
    ensures IsS(q, s, |a.names|, x, |a.code|, end)
  {
    var d, o, o1, o2, o3, o4 := |a.names|, |a.code|, |s1.code|, |s2.code|, |s3.code|, |s4.code|;
    TestFacts(a, s1, s2, s.c);
    FillsAgrees(q, b, s1, o, o, x);
    FillsPart(q, b, s3, o, o2, x);
    FillsPart(q, b, s5, o, o4, x);
    assert FilledAt(b.code[o1], q.code[o1], o1, x) && FilledAt(b.code[o3], q.code[o3], o3, x);
    MakeIfElse(q, s, d, x, o, o1, o2, o3, o4, end);
  }

  lemma IfElseEmits(a: FS, s1: FS, s2: FS, s3: FS, s4: FS, s5: FS, b: FS, s: Stmt, jz: nat, jzoff: int, jmp: nat,
      jmpoff: int)
    requires IfElseSteps(a, s1, s2, s3, s4, s5, b, s, jz, jzoff, jmp, jmpoff)
    ensures EmitsS(a, b, s)
  {
    TestFacts(a, s1, s2, s.c);
    IfElseShapes(a, s1, s2, s3, s4, s5, b, s, jz, jzoff, jmp, jmpoff);
    IfElseSteady(a, s1, s2, s3, s4, s5, b, s, jz, jzoff, jmp, jmpoff);
    forall q, x | Fits(a, x) && Fills(q, b, |a.code|, x)
      ensures IsS(q, s, |a.names|, x, |a.code|, |b.code|)
    {
      IfElseLaid(a, s1, s2, s3, s4, s5, b, s, q, x, |b.code|);
    }
  }

  // ---------- Expression statements, assignments, throw ----------

  /** The instruction behind the expression of a simple statement. */
  function Tail(s: Stmt, d: nat): (r: seq<Instr>)
    requires s.Eval? || s.Assign? || s.Throw?
  {
    match s case Eval(_) => [] case Assign(v, e) => [MOVE(v, Target(e, d))] case Throw(e) => [THROW(Target(e, d))]
  }

  lemma SimpleEmits(a: FS, a1: FS, s1: FS, b: FS, s: Stmt)
    requires (s.Eval? || s.Assign? || s.Throw?) && (s.Assign? ==> s.pos < |a.names|)
    requires a1 == a.(targets := a1.targets) && EmitsE(a1, s1, |a.names|, s.e)
    requires b == s1.(targets := a.targets, names := a.names, code := s1.code + Tail(s, |a.names|))
    ensures EmitsS(a, b, s)
  {
    var d, o, o1 := |a.names|, |a.code|, |s1.code|;
    ListedNone(b.code, o, a.breaks, BreakHole);
    ListedNone(b.code, o, a.continues, ContinueHole);
    assert Copies(b, s1, o);
    forall q, x | Fits(a, x) && Fills(q, b, o, x)
      ensures IsS(q, s, d, x, o, |b.code|)
    {
      FillsAgrees(q, b, s1, o, o, x);
      if !s.Eval? {
        assert b.code[o1] == Tail(s, d)[0];
        assert FilledAt(b.code[o1], q.code[o1], o1, x);
      }
      MakeSimple(q, s, d, x, o, o1, |b.code|);
    }
  }

  // ---------- Jumps and returns ----------

  /** Traps are popped before leaving try blocks. */
  function WithPop(a: FS, count: nat): (b: FS) {
    if count > 0 then Emit(a, POPTRAP(count)) else a
  }

  /** `end` is behind the jump at `o1`; the traps are popped from `o` on. */
  ghost predicate JumpShape(b: FS, o: nat, o1: nat, count: nat, hole: Instr) {
    && |b.code| == o1 + 1 && b.code[o1] == hole
    && if count > 0 then o1 == o + 1 && b.code[o] == POPTRAP(count) else o1 == o
  }

  lemma JumpLaid(b: FS, s: Stmt, j: Jump, hole: Instr, d: nat, o: nat, o1: nat, q: Prog, x: Ctx)
    requires (s.Break? && j == x.brk && hole == BreakHole) || (s.Continue? && j == x.cont && hole == ContinueHole)
    requires j.Jump? && JumpShape(b, o, o1, j.tries, hole) && Fills(q, b, o, x)
    ensures IsS(q, s, d, x, o, |b.code|)
  {
    assert FilledAt(b.code[o], q.code[o], o, x) && FilledAt(b.code[o1], q.code[o1], o1, x);
    MakeJump(q, s, j, d, x, o, o1, |b.code|);
  }

  /** One jump waits more, and no jump of the other kind. */
  lemma JumpListed(b: FS, o: nat, o1: nat, count: nat, hole: Instr, other: Instr, list: seq<nat>, others: seq<nat>)
    requires JumpShape(b, o, o1, count, hole)
    requires (hole == BreakHole && other == ContinueHole) || (hole == ContinueHole && other == BreakHole)
    ensures Listed(b.code, hole, list + [o1], o, |list|) && Listed(b.code, other, others, o, |others|)
  {
    assert (list + [o1])[|list|] == o1;
    ListedNone(b.code, o, others, other);
  }

  lemma BreakSteady(a: FS, s1: FS, b: FS)
    requires a.breaktargets != [] && s1 == WithPop(a, a.breaktargets[|a.breaktargets| - 1])
    requires b == Emit(s1, BreakHole).(breaks := a.breaks + [|s1.code|])
    ensures Steady(a, b) && JumpShape(b, |a.code|, |s1.code|, a.breaktargets[|a.breaktargets| - 1], BreakHole)
  {
    var o, o1, n := |a.code|, |s1.code|, a.breaktargets[|a.breaktargets| - 1];
    EmitAt(s1, BreakHole);
    assert JumpShape(b, o, o1, n, BreakHole);
    JumpListed(b, o, o1, n, BreakHole, ContinueHole, a.breaks, a.continues);
  }

  lemma BreakEmits(a: FS, s1: FS, b: FS)
    requires a.breaktargets != [] && s1 == WithPop(a, a.breaktargets[|a.breaktargets| - 1])
    requires b == Emit(s1, BreakHole).(breaks := a.breaks + [|s1.code|])
    ensures EmitsS(a, b, Break)
  {
    var o, o1 := |a.code|, |s1.code|;
    BreakSteady(a, s1, b);
    forall q, x | Fits(a, x) && Fills(q, b, o, x)
      ensures IsS(q, Break, |a.names|, x, o, |b.code|)
    {
      JumpLaid(b, Break, x.brk, BreakHole, |a.names|, o, o1, q, x);
    }
  }

  lemma ContinueSteady(a: FS, s1: FS, b: FS)
    requires a.continuetargets != [] && s1 == WithPop(a, a.continuetargets[|a.continuetargets| - 1])
    requires b == Emit(s1, ContinueHole).(continues := a.continues + [|s1.code|])
    ensures Steady(a, b) && JumpShape(b, |a.code|, |s1.code|, a.continuetargets[|a.continuetargets| - 1], ContinueHole)
  {
    var o, o1, n := |a.code|, |s1.code|, a.continuetargets[|a.continuetargets| - 1];
    EmitAt(s1, ContinueHole);
    assert JumpShape(b, o, o1, n, ContinueHole);
    JumpListed(b, o, o1, n, ContinueHole, BreakHole, a.continues, a.breaks);
  }

  lemma ContinueEmits(a: FS, s1: FS, b: FS)
    requires a.continuetargets != [] && s1 == WithPop(a, a.continuetargets[|a.continuetargets| - 1])
    requires b == Emit(s1, ContinueHole).(continues := a.continues + [|s1.code|])
    ensures EmitsS(a, b, Continue)
  {
    var o, o1 := |a.code|, |s1.code|;
    ContinueSteady(a, s1, b);
    forall q, x | Fits(a, x) && Fills(q, b, o, x)
      ensures IsS(q, Continue, |a.names|, x, o, |b.code|)
    {
      JumpLaid(b, Continue, x.cont, ContinueHole, |a.names|, o, o1, q, x);
    }
  }

  lemma ReturnCode(a: FS, s1: FS, b: FS, s: Stmt)
    requires s.Return? && EmitsE(a, s1, |a.names|, s.e)
    requires b == Emit(Dropped(a, WithPop(s1, a.traps)), RETURN(true, Target(s.e, |a.names|)))
    ensures Copies(b, s1, |a.code|) && a.code <= b.code && Plain(b.code, |a.code|)
    ensures b.code[|b.code| - 1] == RETURN(true, Target(s.e, |a.names|))
    ensures if a.traps > 0 then |b.code| == |s1.code| + 2 && b.code[|s1.code|] == POPTRAP(a.traps)
      else |b.code| == |s1.code| + 1
  {
    EmitAt(Dropped(a, WithPop(s1, a.traps)), RETURN(true, Target(s.e, |a.names|)));
  }

  lemma ReturnLaid(a: FS, s1: FS, b: FS, s: Stmt, q: Prog, x: Ctx)
    requires s.Return? && EmitsE(a, s1, |a.names|, s.e)
    requires b == Emit(Dropped(a, WithPop(s1, a.traps)), RETURN(true, Target(s.e, |a.names|)))
    requires Fits(a, x) && Fills(q, b, |a.code|, x)
    ensures IsS(q, s, |a.names|, x, |a.code|, |b.code|)
  {
    var d, o, o1, o2 := |a.names|, |a.code|, |s1.code|, |b.code| - 1;
    ReturnCode(a, s1, b, s);
    FillsAgrees(q, b, s1, o, o, x);
    assert FilledAt(b.code[o1], q.code[o1], o1, x) && FilledAt(b.code[o2], q.code[o2], o2, x);
    MakeReturn(q, s, d, x, o, o1, o2, |b.code|);
  }

  lemma ReturnEmits(a: FS, s1: FS, b: FS, s: Stmt)
    requires s.Return? && EmitsE(a, s1, |a.names|, s.e)
    requires b == Emit(Dropped(a, WithPop(s1, a.traps)), RETURN(true, Target(s.e, |a.names|)))
    ensures EmitsS(a, b, s)
  {
    var o := |a.code|;
    ReturnCode(a, s1, b, s);
    ListedNone(b.code, o, a.breaks, BreakHole);
    ListedNone(b.code, o, a.continues, ContinueHole);
    forall q, x | Fits(a, x) && Fills(q, b, o, x)
      ensures IsS(q, s, |a.names|, x, o, |b.code|)
    {
      ReturnLaid(a, s1, b, s, q, x);
    }
  }

  lemma ReturnNullLaid(a: FS, b: FS, q: Prog, x: Ctx)
    requires b == Emit(WithPop(a, a.traps), RETURN(false, 0)) && Fits(a, x) && Fills(q, b, |a.code|, x)
    ensures IsS(q, ReturnNull, |a.names|, x, |a.code|, |b.code|)
  {
    var d, o, o1 := |a.names|, |a.code|, |b.code| - 1;
    EmitAt(WithPop(a, a.traps), RETURN(false, 0));
    assert a.traps > 0 ==> b.code[o] == POPTRAP(a.traps);
    assert FilledAt(b.code[o], q.code[o], o, x) && FilledAt(b.code[o1], q.code[o1], o1, x);
    assert LaidPop(q, x.tries, o, o1) && RetAt(q, o1, |b.code|, false, 0);
    UnfoldS(q, ReturnNull, d, x, o, |b.code|);
  }

  lemma ReturnNullEmits(a: FS, b: FS)
    requires b == Emit(WithPop(a, a.traps), RETURN(false, 0))
    ensures EmitsS(a, b, ReturnNull)
  {
    var o := |a.code|;
    EmitAt(WithPop(a, a.traps), RETURN(false, 0));
    assert a.traps > 0 ==> b.code[o] == POPTRAP(a.traps);
    ListedNone(b.code, o, a.breaks, BreakHole);
    ListedNone(b.code, o, a.continues, ContinueHole);
    forall q, x | Fits(a, x) && Fills(q, b, o, x)
      ensures IsS(q, ReturnNull, |a.names|, x, o, |b.code|)
    {
      ReturnNullLaid(a, b, q, x);
    }
  }

  // ---------- Blocks ----------

  lemma EmptyEmits(a: FS)
    ensures EmitsS(a, a, Empty) && EmitsI(a, a, Done)
  {
    ListedNone(a.code, |a.code|, a.breaks, BreakHole);
    ListedNone(a.code, |a.code|, a.continues, ContinueHole);
    forall q, x | Fills(q, a, |a.code|, x)
      ensures IsS(q, Empty, |a.names|, x, |a.code|, |a.code|) && IsI(q, Done, |a.names|, x, |a.code|, |a.code|)
    {
      UnfoldS(q, Empty, |a.names|, x, |a.code|, |a.code|);
      UnfoldI(q, Done, |a.names|, x, |a.code|, |a.code|);
    }
  }

  lemma BlockEmits(a: FS, s1: FS, b: FS, s: Stmt)
    requires s.Block? && EmitsI(a, s1, s.items) && b == s1.(names := a.names)
    ensures EmitsS(a, b, s)
  {
    forall q, x | Fits(a, x) && Fills(q, b, |a.code|, x)
      ensures IsS(q, s, |a.names|, x, |a.code|, |b.code|)
    {
      FillsPart(q, b, s1, |a.code|, |a.code|, x);
      assert CodeMaps(q).I(s.items, |a.names|, x, |a.code|, |b.code|);
      UnfoldS(q, s, |a.names|, x, |a.code|, |b.code|);
    }
  }

  lemma ThenEmits(a: FS, s1: FS, b: FS, items: Items)
    requires items.Then? && EmitsS(a, s1, items.s) && EmitsI(s1, b, items.rest)
    ensures EmitsI(a, b, items)
  {
    assert Copies(b, s1, 0);
    ListedJoin(b.code, |a.code|, s1.code, |a.code|, s1.breaks, b.code, |s1.code|, b.breaks, BreakHole, |a.breaks|);
    ListedJoin(b.code, |a.code|, s1.code, |a.code|, s1.continues, b.code, |s1.code|, b.continues, ContinueHole,
        |a.continues|);
    forall q, x | Fits(a, x) && Fills(q, b, |a.code|, x)
      ensures IsI(q, items, |a.names|, x, |a.code|, |b.code|)
    {
      FillsPart(q, b, s1, |a.code|, |a.code|, x);
      FillsPart(q, b, b, |a.code|, |s1.code|, x);
      MakeThen(q, items, |a.names|, x, |a.code|, |s1.code|, |b.code|);
    }
  }

  /** A new variable: `s2` is the state behind its declaration. */
  lemma DeclEmits(a: FS, s1: FS, s2: FS, b: FS, items: Items)
    requires items.Decl? && EmitsE(a, s1, |a.names|, items.e) && EmitsI(s2, b, items.rest)
    requires s2.code == Moved(s1, |a.names|, Target(items.e, |a.names|)).code
    requires s2 == s1.(code := s2.code, targets := a.targets, names := a.names + [true],
        stacksize := AtLeast(s1.stacksize, |a.names| + 1))
    requires items.e.Local? ==> items.e.pos < |a.names|
    ensures EmitsI(a, b, items)
  {
    var d, o, o1, o2 := |a.names|, |a.code|, |s1.code|, |s2.code|;
    assert s1.code <= s2.code <= b.code;
    assert Plain(s2.code, o);
    ListedPart(b.code, o, b.code, o2, b.breaks, BreakHole, |a.breaks|);
    ListedPart(b.code, o, b.code, o2, b.continues, ContinueHole, |a.continues|);
    assert Copies(b, s1, o);
    forall q, x | Fits(a, x) && Fills(q, b, o, x)
      ensures IsI(q, items, d, x, o, |b.code|)
    {
      FillsAgrees(q, b, s1, o, o, x);
      FillsPart(q, b, b, o, o2, x);
      assert LaidMove(q, d, Target(items.e, d), o1, o2) by {
        if d != Target(items.e, d) { assert FilledAt(b.code[o1], q.code[o1], o1, x) && b.code[o1] == s2.code[o1]; }
      }
      MakeDecl(q, items, d, |s2.names|, x, o, o1, o2, |b.code|);
    }
  }

  lemma DeclNullEmits(a: FS, s1: FS, b: FS, items: Items)
    requires items.DeclNull? && EmitsI(s1, b, items.rest)
    requires s1 == Emit(a, LOADNULLS(|a.names|, 1)).(names := a.names + [true],
        stacksize := AtLeast(a.stacksize, |a.names| + 1))
    ensures EmitsI(a, b, items)
  {
    var d, o, o1 := |a.names|, |a.code|, |s1.code|;
    EmitAt(a, LOADNULLS(d, 1));
    assert s1.code[o] == b.code[o];
    ListedPart(b.code, o, b.code, o1, b.breaks, BreakHole, |a.breaks|);
    ListedPart(b.code, o, b.code, o1, b.continues, ContinueHole, |a.continues|);
    forall q, x | Fits(a, x) && Fills(q, b, o, x)
      ensures IsI(q, items, d, x, o, |b.code|)
    {
      FillsPart(q, b, b, o, o1, x);
      assert FilledAt(b.code[o], q.code[o], o, x);
      MakeDeclNull(q, items, d, |s1.names|, x, o, o1, |b.code|);
    }
  }
}
