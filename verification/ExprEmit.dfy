/** Code generation for expressions, and a proof that what it emits is the code of the expression. */
module ExprEmit {
  import opened Squirrel
  import opened Bytecode
  import opened Layout
  import opened CodeOf
  import opened FuncState

  /** Every variable of `e` is a named position. */
  predicate ScopedE(e: Expr, names: seq<bool>) {
    match e
    case Const(_) => true
    case Local(p) => p < |names| && names[p]
    case Un(_, e1) => ScopedE(e1, names)
    case Bin(_, l, r) => ScopedE(l, names) && ScopedE(r, names)
    case AndE(l, r) => ScopedE(l, names) && ScopedE(r, names)
    case OrE(l, r) => ScopedE(l, names) && ScopedE(r, names)
    case Cond(c, a, b) => ScopedE(c, names) && ScopedE(a, names) && ScopedE(b, names)
  }

  /** The program `q` contains the code of `b` from `o` on, its literals, and enough stack. */
  ghost predicate Agrees(q: Prog, b: FS, o: nat) {
    && |b.code| <= |q.code| && (forall i :: o <= i < |b.code| ==> q.code[i] == b.code[i])
    && b.lits <= q.lits && b.stacksize <= q.stacksize
  }

  /** From `a` to `b`, code, literals and stack only grew, and the jumps that wait stayed. */
  ghost predicate Grows(a: FS, b: FS) {
    && a.code <= b.code && a.lits <= b.lits && a.stacksize <= b.stacksize
    && a.breaktargets == b.breaktargets && a.continuetargets == b.continuetargets
    && a.breaks == b.breaks && a.continues == b.continues && a.traps == b.traps && a.blind == b.blind
  }

  /** No jump in the code from `o` on waits for its target. */
  ghost predicate Plain(code: seq<Instr>, o: nat) {
    forall i :: o <= i < |code| ==> !code[i].BreakHole? && !code[i].ContinueHole?
  }

  /** From `a` to `b`, the code of `e` was added: any program that contains it has the code of `e` there. */
  ghost predicate EmitsE(a: FS, b: FS, n: nat, e: Expr) {
    && Grows(a, b) && Plain(b.code, |a.code|) && (e.Local? <==> |b.code| == |a.code|)
      && (e.Local? || |a.names| < b.stacksize)
    && b.targets == a.targets + [Target(e, |a.names|)]
    && b.names == (if e.Local? then a.names else a.names + [false])
    && forall q {:trigger Agrees(q, b, |a.code|)} :: Agrees(q, b, |a.code|) ==>
      IsE(q, n, e, |a.names|, |a.code|, |b.code|)
  }

  /** Popping the target of `e` undoes its effect on the stack positions, whatever code came after. */
  lemma PopsE(a: FS, b: FS, c: FS, n: nat, e: Expr, names: seq<bool>)
    requires EmitsE(a, b, n, e) && ScopedE(e, names) && names <= a.names && c.targets == b.targets && c.names == b.names
    ensures CanPop(c) && c.targets[|c.targets| - 1] == Target(e, |a.names|)
    ensures Popped(c) == c.(targets := a.targets, names := a.names)
  {
    if !e.Local? { assert b.names[..|b.names| - 1] == a.names; }
    assert b.targets[..|b.targets| - 1] == a.targets;
  }

  /** A piece of code in the middle of `c` is there for every program that contains `c`. */
  lemma AgreesPart(q: Prog, b: FS, c: FS, o: nat, o': nat)
    requires Agrees(q, c, o) && o <= o' && |b.code| <= |c.code| && b.lits <= c.lits && b.stacksize <= c.stacksize
    requires forall i :: o' <= i < |b.code| ==> c.code[i] == b.code[i]
    ensures Agrees(q, b, o')
  {
  }

  // ---------- Code of the parts makes code of the whole ----------

  lemma MakeUn(q: Prog, n: nat, e: Expr, d: nat, o: int, o1: int, end: int)
    requires e.Un? && d < q.stacksize && IsE(q, n, e.e, d, o, o1) && UnAt(q, o1, end, e.op, d, Target(e.e, d))
    ensures IsE(q, n, e, d, o, end)
  {
    assert EMap(q)(n, e.e, d, o, o1);
    UnfoldE(q, n, e, d, o, end);
  }

  lemma MakeBin(q: Prog, n: nat, e: Expr, d: nat, d1: nat, o: int, o1: int, o2: int, end: int)
    requires e.Bin? && d < q.stacksize && d1 == After(e.l, d) && IsE(q, n, e.l, d, o, o1) && IsE(q, n, e.r, d1, o1, o2)
    requires BinAt(q, o2, end, e.bop, d, Target(e.r, d1), Target(e.l, d))
    ensures IsE(q, n, e, d, o, end)
  {
    assert EMap(q)(n, e.l, d, o, o1) && EMap(q)(n, e.r, d1, o1, o2);
    UnfoldE(q, n, e, d, o, end);
  }

  lemma MakeLogic(q: Prog, n: nat, e: Expr, d: nat, o: int, o1: int, o2: int, o3: int, end: int)
    requires (e.AndE? || e.OrE?) && d < q.stacksize && IsE(q, n, e.l, d, o, o1)
    requires if e.AndE? then AndAt(q, o1, o2, d, end, Target(e.l, d)) else OrAt(q, o1, o2, d, end, Target(e.l, d))
    requires LaidMove(q, d, Target(e.l, d), o2, o3) && LaidOperand(q, EMap(q), n, e.r, d, o3, end)
    ensures IsE(q, n, e, d, o, end)
  {
    assert EMap(q)(n, e.l, d, o, o1);
    UnfoldE(q, n, e, d, o, end);
  }

  lemma MakeCond(q: Prog, n: nat, e: Expr, d: nat, o: int, o1: int, o2: int, o3: int, o4: int, end: int)
    requires e.Cond? && d < q.stacksize && IsE(q, n, e.c, d, o, o1) && JzAt(q, o1, o2, Target(e.c, d), o4)
    requires LaidOperand(q, EMap(q), n, e.a, d, o2, o3) && JmpAt(q, o3, o4, end)
      && LaidOperand(q, EMap(q), n, e.b, d, o4, end)
    ensures IsE(q, n, e, d, o, end)
  {
    assert EMap(q)(n, e.c, d, o, o1);
    UnfoldE(q, n, e, d, o, end);
  }

  // ---------- Each kind of expression ----------

  lemma ConstEmits(a: FS, b: FS, n: nat, e: Expr, i: Instr)
    requires e.Const? && LoadsConst(i, |a.names|, e.v, b.lits) && a.lits <= b.lits
    requires b == Emit(Alloc(a), i).(targets := a.targets + [|a.names|], lits := b.lits)
    ensures EmitsE(a, b, n, e)
  {
    forall q | Agrees(q, b, |a.code|)
      ensures IsE(q, n, e, |a.names|, |a.code|, |b.code|)
    {
      assert q.code[|a.code|] == i;
      UnfoldE(q, n, e, |a.names|, |a.code|, |b.code|);
    }
  }

  lemma LocalEmits(a: FS, b: FS, names: seq<bool>, e: Expr)
    requires e.Local? && ScopedE(e, names) && b == a.(targets := a.targets + [e.pos])
    ensures EmitsE(a, b, |names|, e)
  {
    forall q | Agrees(q, b, |a.code|)
      ensures IsE(q, |names|, e, |a.names|, |a.code|, |b.code|)
    {
      UnfoldE(q, |names|, e, |a.names|, |a.code|, |b.code|);
    }
  }

  lemma UnEmits(a: FS, s1: FS, b: FS, n: nat, e: Expr)
    requires e.Un? && EmitsE(a, s1, n, e.e)
    requires b == Emit(Alloc(s1.(targets := a.targets, names := a.names)), UN(e.op, |a.names|, Target(e.e, |a.names|)))
                    .(targets := a.targets + [|a.names|])
    ensures EmitsE(a, b, n, e)
  {
    var d, o := |a.names|, |a.code|;
    forall q | Agrees(q, b, o)
      ensures IsE(q, n, e, d, o, |b.code|)
    {
      AgreesPart(q, s1, b, o, o);
      MakeUn(q, n, e, d, o, |s1.code|, |b.code|);
    }
  }

  lemma BinEmits(a: FS, s1: FS, s2: FS, b: FS, n: nat, e: Expr)
    requires e.Bin? && EmitsE(a, s1, n, e.l) && EmitsE(s1, s2, n, e.r)
    requires b == Emit(Alloc(s2.(targets := a.targets, names := a.names)),
                       BIN(e.bop, |a.names|, Target(e.r, |s1.names|), Target(e.l, |a.names|)))
                    .(targets := a.targets + [|a.names|])
    ensures EmitsE(a, b, n, e)
  {
    var d, o := |a.names|, |a.code|;
    forall q | Agrees(q, b, o)
      ensures IsE(q, n, e, d, o, |b.code|)
    {
      AgreesPart(q, s1, b, o, o);
      AgreesPart(q, s2, b, o, |s1.code|);
      MakeBin(q, n, e, d, |s1.names|, o, |s1.code|, |s2.code|, |b.code|);
    }
  }

  /** A move, unless it would do nothing. */
  function Moved(a: FS, t: nat, s: nat): (b: FS) {
    if t != s then Emit(a, MOVE(t, s)) else a
  }

  lemma EmitAt(a: FS, i: Instr)
    ensures Emit(a, i).code[|a.code|] == i && a.code <= Emit(a, i).code
  {
  }

  lemma PatchAt(a: FS, pos: nat, off: int)
    requires pos < |a.code|
    ensures |Patch(a, pos, off).code| == |a.code| && Patch(a, pos, off).code[pos] == WithOffset(a.code[pos], off)
    ensures forall i :: 0 <= i < |a.code| && i != pos ==> Patch(a, pos, off).code[i] == a.code[i]
  {
  }

  /** An operand compiled above position `t` and moved down to it. */
  lemma OperandEmits(a: FS, s1: FS, b: FS, q: Prog, n: nat, e: Expr, t: nat, o: int, end: int)
    requires EmitsE(a, s1, n, e) && |a.names| == t + 1 && Agrees(q, b, |a.code|) && o == |a.code| && end == |b.code|
    requires b.lits == s1.lits && b.stacksize == s1.stacksize && b.code == Moved(s1, t, Target(e, |a.names|)).code
    ensures LaidOperand(q, EMap(q), n, e, t, o, end)
  {
    AgreesPart(q, s1, b, |a.code|, |a.code|);
    assert EMap(q)(n, e, |a.names|, o, |s1.code|);
    assert LaidMove(q, t, Target(e, |a.names|), |s1.code|, end);
  }

  /** The state in which the second operand of `&&` or `||` is compiled. */
  function SecondOperand(a: FS, s1: FS, i: Instr, t1: nat): (b: FS) {
    Moved(Emit(Alloc(s1.(targets := a.targets, names := a.names)).(targets := a.targets + [|a.names|]), i),
        |a.names|, t1)
  }

  /** The state behind an operand that was moved down to `t`. */
  function Settled(a: FS, s1: FS, t: nat, s: nat): (b: FS) {
    Moved(s1.(targets := a.targets, names := a.names), t, s)
  }

  /** `b` has the code of `c` from `o` to its end. */
  ghost predicate Copies(b: FS, c: FS, o: nat) {
    && |c.code| <= |b.code| && (forall i :: o <= i < |c.code| ==> b.code[i] == c.code[i])
    && c.lits <= b.lits && c.stacksize <= b.stacksize
  }

  lemma AgreesCopy(q: Prog, b: FS, c: FS, o: nat, o': nat)
    requires Agrees(q, b, o) && Copies(b, c, o') && o <= o'
    ensures Agrees(q, c, o')
  {
  }

  ghost predicate LogicShape(a: FS, s1: FS, s2: FS, s4: FS, b: FS, e: Expr)
    requires e.AndE? || e.OrE?
  {
    var d, o1, end, t1 := |a.names|, |s1.code|, |b.code|, Target(e.l, |a.names|);
    && |a.code| <= o1 < |s2.code| <= |s4.code| == end && d < b.stacksize
    && Copies(b, s1, |a.code|) && Copies(b, s4, |s2.code|)
    && b.code[o1] == (if e.AndE? then AND(d, end - (o1 + 1), t1) else OR(d, end - (o1 + 1), t1))
    && if d == t1 then |s2.code| == o1 + 1 else |s2.code| == o1 + 2 && b.code[o1 + 1] == MOVE(d, t1)
  }

  lemma LogicMove(a: FS, s1: FS, s2: FS, s4: FS, b: FS, q: Prog, e: Expr)
    requires (e.AndE? || e.OrE?) && LogicShape(a, s1, s2, s4, b, e) && Agrees(q, b, |a.code|)
    ensures |s1.code| < |q.code| && q.code[|s1.code|] == b.code[|s1.code|]
    ensures LaidMove(q, |a.names|, Target(e.l, |a.names|), |s1.code| + 1, |s2.code|)
  {
    var d, o1, t1 := |a.names|, |s1.code|, Target(e.l, |a.names|);
    assert q.code[o1] == b.code[o1];
    if d != t1 { assert q.code[o1 + 1] == b.code[o1 + 1]; }
  }

  lemma LogicLaid(a: FS, s1: FS, s2: FS, s3: FS, s4: FS, b: FS, q: Prog, n: nat, e: Expr, end: int)
    requires (e.AndE? || e.OrE?) && LogicShape(a, s1, s2, s4, b, e) && Agrees(q, b, |a.code|) && end == |b.code|
    requires EmitsE(a, s1, n, e.l) && EmitsE(s2, s3, n, e.r) && |s2.names| == |a.names| + 1
    requires s4.lits == s3.lits && s4.stacksize == s3.stacksize
      && s4.code == Moved(s3, |a.names|, Target(e.r, |s2.names|)).code
    ensures IsE(q, n, e, |a.names|, |a.code|, end)
  {
    var d, o, o1, o2, o3, t1 := |a.names|, |a.code|, |s1.code|, |s1.code| + 1, |s2.code|, Target(e.l, |a.names|);
    AgreesCopy(q, b, s1, o, o);
    AgreesCopy(q, b, s4, o, o3);
    OperandEmits(s2, s3, s4, q, n, e.r, d, o3, end);
    LogicMove(a, s1, s2, s4, b, q, e);
    MakeLogic(q, n, e, d, o, o1, o2, o3, end);
  }

  lemma LogicPlain(a: FS, s1: FS, s2: FS, s3: FS, s4: FS, b: FS, e: Expr, t: nat, u: nat)
    requires (e.AndE? || e.OrE?) && LogicShape(a, s1, s2, s4, b, e)
    requires Plain(s1.code, |a.code|) && Plain(s3.code, |s2.code|) && s4.code == Moved(s3, t, u).code
    ensures Plain(b.code, |a.code|)
  {
  }

  lemma LogicLaidAll(a: FS, s1: FS, s2: FS, s3: FS, s4: FS, b: FS, n: nat, e: Expr)
    requires (e.AndE? || e.OrE?) && LogicShape(a, s1, s2, s4, b, e)
    requires EmitsE(a, s1, n, e.l) && EmitsE(s2, s3, n, e.r) && |s2.names| == |a.names| + 1
    requires s4.lits == s3.lits && s4.stacksize == s3.stacksize
      && s4.code == Moved(s3, |a.names|, Target(e.r, |s2.names|)).code
    ensures forall q :: Agrees(q, b, |a.code|) ==> IsE(q, n, e, |a.names|, |a.code|, |b.code|)
    ensures Plain(b.code, |a.code|)
  {
    LogicPlain(a, s1, s2, s3, s4, b, e, |a.names|, Target(e.r, |s2.names|));
    forall q | Agrees(q, b, |a.code|)
      ensures IsE(q, n, e, |a.names|, |a.code|, |b.code|)
    {
      LogicLaid(a, s1, s2, s3, s4, b, q, n, e, |b.code|);
    }
  }

  lemma LogicShapes(a: FS, s1: FS, s2: FS, s3: FS, s4: FS, b: FS, e: Expr, i: Instr, pos: nat, off: int)
    requires (e.AndE? || e.OrE?) && Grows(a, s1) && Grows(s2, s3)
    requires i == if e.AndE? then AND(|a.names|, 0, Target(e.l, |a.names|))
      else OR(|a.names|, 0, Target(e.l, |a.names|))
    requires s2 == SecondOperand(a, s1, i, Target(e.l, |a.names|))
      && s4 == Settled(s2, s3, |a.names|, Target(e.r, |s2.names|))
    requires pos == |s1.code| < |s4.code| && off == |s4.code| - 1 - pos && b == Patch(s4, pos, off)
    ensures LogicShape(a, s1, s2, s4, b, e)
    ensures Grows(a, b) && b.targets == a.targets + [|a.names|] && b.names == a.names + [false]
  {
    EmitAt(Alloc(s1.(targets := a.targets, names := a.names)).(targets := a.targets + [|a.names|]), i);
    PatchAt(s4, pos, off);
    assert a.code <= s1.code && s2.code[pos] == i && s2.code <= s4.code;
  }

  lemma LogicEmits(a: FS, s1: FS, s2: FS, s3: FS, s4: FS, b: FS, n: nat, e: Expr, i: Instr, pos: nat, off: int)
    requires e.AndE? || e.OrE?
    requires EmitsE(a, s1, n, e.l) && EmitsE(s2, s3, n, e.r)
    requires i == if e.AndE? then AND(|a.names|, 0, Target(e.l, |a.names|))
      else OR(|a.names|, 0, Target(e.l, |a.names|))
    requires s2 == SecondOperand(a, s1, i, Target(e.l, |a.names|))
      && s4 == Settled(s2, s3, |a.names|, Target(e.r, |s2.names|))
    requires pos == |s1.code| < |s4.code| && off == |s4.code| - 1 - pos && b == Patch(s4, pos, off)
    ensures EmitsE(a, b, n, e)
  {
    LogicShapes(a, s1, s2, s3, s4, b, e, i, pos, off);
    LogicLaidAll(a, s1, s2, s3, s4, b, n, e);
  }

  ghost predicate CondShape(a: FS, s1: FS, s2: FS, s4: FS, s5: FS, s8: FS, b: FS, e: Expr)
    requires e.Cond?
  {
    var d, o1, o2, o3, o4, end := |a.names|, |s1.code|, |s2.code|, |s4.code|, |s5.code|, |b.code|;
    && |a.code| <= o1 && o2 == o1 + 1 && o2 <= o3 && o4 == o3 + 1 && o4 <= |s8.code| == end && d < b.stacksize
    && Copies(b, s1, |a.code|) && Copies(b, s4, o2) && Copies(b, s8, o4)
    && b.code[o1] == JZ(Target(e.c, d), o4 - o2) && b.code[o3] == JMP(end - o4)
  }

  lemma CondLaid(a: FS, s1: FS, s2: FS, s3: FS, s4: FS, s5: FS, s7: FS, s8: FS, b: FS, q: Prog, n: nat, e: Expr,
      end: int)
    requires e.Cond? && CondShape(a, s1, s2, s4, s5, s8, b, e) && Agrees(q, b, |a.code|) && end == |b.code|
    requires EmitsE(a, s1, n, e.c) && EmitsE(s2, s3, n, e.a) && EmitsE(s5, s7, n, e.b)
    requires |s2.names| == |s5.names| == |a.names| + 1
    requires s4.lits == s3.lits && s4.stacksize == s3.stacksize
      && s4.code == Moved(s3, |a.names|, Target(e.a, |s2.names|)).code
    requires s8.lits == s7.lits && s8.stacksize == s7.stacksize
      && s8.code == Moved(s7, |a.names|, Target(e.b, |s5.names|)).code
    ensures IsE(q, n, e, |a.names|, |a.code|, end)
  {
    var d, o, o1, o2, o3, o4 := |a.names|, |a.code|, |s1.code|, |s2.code|, |s4.code|, |s5.code|;
    AgreesCopy(q, b, s1, o, o);
    AgreesCopy(q, b, s4, o, o2);
    AgreesCopy(q, b, s8, o, o4);
    OperandEmits(s2, s3, s4, q, n, e.a, d, o2, o3);
    OperandEmits(s5, s7, s8, q, n, e.b, d, o4, end);
    assert q.code[o1] == b.code[o1] && q.code[o3] == b.code[o3];
    MakeCond(q, n, e, d, o, o1, o2, o3, o4, end);
  }

  /** The states the compiler goes through: test, first branch, second branch, patches. */
  /** The state in which the first branch of a conditional is compiled. */
  function FirstBranch(a: FS, s1: FS, e: Expr): (b: FS)
    requires e.Cond?
  {
    Alloc(Emit(s1.(targets := a.targets, names := a.names), JZ(Target(e.c, |a.names|), 0)))
      .(targets := a.targets + [|a.names|])
  }

  /** From there to the end: the branches leave their values in position `d`, and the jumps get their targets. */
  ghost predicate BranchSteps(s2: FS, s3: FS, s5: FS, s7: FS, s8: FS, b: FS, e: Expr, d: nat,
      jmppos: nat, jmpoff: int, jzpos: nat, jzoff: int)
    requires e.Cond?
  {
    && s5 == Emit(Settled(s2, s3, d, Target(e.a, |s2.names|)), JMP(0))
    && s8 == Settled(s5, s7, d, Target(e.b, |s5.names|))
    && jzpos < |s8.code| && jmppos == |s5.code| - 1 && |s5.code| <= |s8.code|
    && jmpoff == |s8.code| - |s5.code| && jzoff == |s5.code| - 1 - jzpos
    && b == Patch(Patch(s8, jmppos, jmpoff), jzpos, jzoff)
  }

  ghost predicate CondSteps(a: FS, s1: FS, s2: FS, s3: FS, s5: FS, s7: FS, s8: FS, b: FS, e: Expr,
      jmppos: nat, jmpoff: int, jzpos: nat, jzoff: int)
    requires e.Cond?
  {
    && s2 == FirstBranch(a, s1, e) && jzpos == |s1.code|
    && BranchSteps(s2, s3, s5, s7, s8, b, e, |a.names|, jmppos, jmpoff, jzpos, jzoff)
  }

  lemma CondShapes(a: FS, s1: FS, s2: FS, s3: FS, s5: FS, s7: FS, s8: FS, b: FS, e: Expr,
      jmppos: nat, jmpoff: int, jzpos: nat, jzoff: int)
    requires e.Cond? && CondSteps(a, s1, s2, s3, s5, s7, s8, b, e, jmppos, jmpoff, jzpos, jzoff) && Grows(a, s1)
      && Grows(s2, s3) && Grows(s5, s7)
    ensures CondShape(a, s1, s2, Settled(s2, s3, |a.names|, Target(e.a, |s2.names|)), s5, s8, b, e)
    ensures Grows(a, b) && b.targets == a.targets + [|a.names|] && b.names == a.names + [false]
  {
    var d := |a.names|;
    var s4 := Settled(s2, s3, d, Target(e.a, |s2.names|));
    EmitAt(s1.(targets := a.targets, names := a.names), JZ(Target(e.c, d), 0));
    EmitAt(s4, JMP(0));
    PatchAt(s8, jmppos, jmpoff);
    PatchAt(Patch(s8, jmppos, jmpoff), jzpos, jzoff);
    assert s2.code[jzpos] == JZ(Target(e.c, d), 0) && s2.code <= s4.code <= s5.code <= s8.code;
  }

  lemma CondPlain(a: FS, s1: FS, s2: FS, s3: FS, s4: FS, s5: FS, s7: FS, s8: FS, b: FS, e: Expr, t: nat, u: nat, v: nat)
    requires e.Cond? && CondShape(a, s1, s2, s4, s5, s8, b, e)
    requires Plain(s1.code, |a.code|) && Plain(s3.code, |s2.code|) && Plain(s7.code, |s5.code|)
    requires s4.code == Moved(s3, t, u).code && s8.code == Moved(s7, t, v).code
    ensures Plain(b.code, |a.code|)
  {
  }

  lemma CondLaidAll(a: FS, s1: FS, s2: FS, s3: FS, s4: FS, s5: FS, s7: FS, s8: FS, b: FS, n: nat, e: Expr)
    requires e.Cond? && CondShape(a, s1, s2, s4, s5, s8, b, e)
    requires EmitsE(a, s1, n, e.c) && EmitsE(s2, s3, n, e.a) && EmitsE(s5, s7, n, e.b)
    requires |s2.names| == |s5.names| == |a.names| + 1
    requires s4.lits == s3.lits && s4.stacksize == s3.stacksize
      && s4.code == Moved(s3, |a.names|, Target(e.a, |s2.names|)).code
    requires s8.lits == s7.lits && s8.stacksize == s7.stacksize
      && s8.code == Moved(s7, |a.names|, Target(e.b, |s5.names|)).code
    ensures forall q :: Agrees(q, b, |a.code|) ==> IsE(q, n, e, |a.names|, |a.code|, |b.code|)
    ensures Plain(b.code, |a.code|)
  {
    CondPlain(a, s1, s2, s3, s4, s5, s7, s8, b, e, |a.names|, Target(e.a, |s2.names|), Target(e.b, |s5.names|));
    forall q | Agrees(q, b, |a.code|)
      ensures IsE(q, n, e, |a.names|, |a.code|, |b.code|)
    {
      CondLaid(a, s1, s2, s3, s4, s5, s7, s8, b, q, n, e, |b.code|);
    }
  }

  lemma CondEmits(a: FS, s1: FS, s2: FS, s3: FS, s5: FS, s7: FS, s8: FS, b: FS, n: nat, e: Expr,
      jmppos: nat, jmpoff: int, jzpos: nat, jzoff: int)
    requires e.Cond? && CondSteps(a, s1, s2, s3, s5, s7, s8, b, e, jmppos, jmpoff, jzpos, jzoff)
    requires EmitsE(a, s1, n, e.c) && EmitsE(s2, s3, n, e.a) && EmitsE(s5, s7, n, e.b)
    ensures EmitsE(a, b, n, e)
  {
    CondShapes(a, s1, s2, s3, s5, s7, s8, b, e, jmppos, jmpoff, jzpos, jzoff);
    CondLaidAll(a, s1, s2, s3, Settled(s2, s3, |a.names|, Target(e.a, |s2.names|)), s5, s7, s8, b, n, e);
  }
}
