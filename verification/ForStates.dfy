/** The states the compiler goes through for a for loop, whose third clause moves behind the body. */
module ForStates {
  import opened Squirrel
  import opened Bytecode
  import opened Layout
  import opened CodeOf
  import opened FuncState
  import opened ExprEmit
  import opened StmtEmit
  import opened StmtStates
  import opened LoopStates
  import opened Relocation

  /** The jump of the test is patched unless it is the first instruction of the function. */
  function PatchTest(a: FS, jz: nat, off: int): (b: FS)
    requires jz < |a.code|
  {
    Patch(a, jz, off).(blind := a.blind || jz == 0)
  }

  /** The third clause: compiled behind the test, it has no jumps that wait. */
  ghost predicate ClauseSteps(s2: FS, s3: FS, s4: FS, exp: seq<Instr>, inc: Stmt) {
    && (inc.Empty? || inc.Eval? || inc.Assign?) && EmitsS(s2, s3, inc) && s3.breaks == s2.breaks
      && s3.continues == s2.continues
    && exp == s3.code[|s2.code|..] && s4 == s3.(code := s2.code)
  }

  /** What is known behind the body of the loop. */
  lemma HeadFacts(a: FS, s1: FS, s2: FS, s3: FS, s4: FS, s5: FS, s: Stmt, exp: seq<Instr>)
    requires s.For? && TestSteps(a, s1, s2, s.c) && ClauseSteps(s2, s3, s4, exp, s.inc)
    requires EmitsS(LoopIn(s4), s5, s.body)
    ensures |s1.code| < |s5.code| && s5.code[|s1.code|] == JZ(Target(s.c, |a.names|), 0) && CanResolve(s5, a)
    ensures s5.breaktargets == a.breaktargets + [0] && s5.continuetargets == a.continuetargets + [0]
  {
    TestFacts(a, s1, s2, s.c);
  }

  ghost predicate ForSteps(a: FS, s1: FS, s2: FS, s3: FS, s4: FS, s5: FS, s6: FS, s7: FS, s8: FS, b: FS, s: Stmt,
      exp: seq<Instr>, jz: nat, off: int, back: int) {
    && s.For? && TestSteps(a, s1, s2, s.c) && ClauseSteps(s2, s3, s4, exp, s.inc)
    && EmitsS(LoopIn(s4), s5, s.body) && s6 == s5.(code := s5.code + exp)
    && back == |a.code| - |s6.code| - 1 && s7 == Emit(s6, JMP(back))
    && jz == |s1.code| < |s7.code| && off == |s7.code| - 1 - jz && s8 == PatchTest(s7, jz, off)
    && CanResolve(s8, a) && b == Resolved(s8, a, |s5.code|)
  }

  ghost predicate ForShape(a: FS, s1: FS, s2: FS, s3: FS, s5: FS, s6: FS, b: FS, s: Stmt, k: int)
    requires s.For?
  {
    var o1, o2, o3, o4, end := |s1.code|, |s2.code|, |s5.code|, |s6.code|, |b.code|;
    && |a.code| <= o1 && o2 == o1 + 1 && o2 <= o3 && o2 <= |s3.code| && k == o3 - o2 && o4 == |s3.code| + k
      && end == o4 + 1
    && Copies(b, s1, |a.code|) && LoopCopies(b, s5, o2, end, o3) && s3.lits <= b.lits && s3.stacksize <= b.stacksize
    && (forall i :: o2 <= i < |s3.code| ==> b.code[i + k] == s3.code[i]) && Plain(s3.code, o2)
    && b.code[o1] == JZ(Target(s.c, |a.names|), end - o2) && b.code[o4] == JMP(|a.code| - end)
  }

  lemma ClausePlain(s2: FS, s3: FS, s4: FS, exp: seq<Instr>, inc: Stmt)
    requires ClauseSteps(s2, s3, s4, exp, inc)
    ensures Plain(s3.code, |s2.code|) && |exp| == |s3.code| - |s2.code| && forall i :: 0 <= i < |exp| ==>
      exp[i] == s3.code[|s2.code| + i]
  {
  }

  /** What the code before the patches looks like. */
  ghost predicate ForCode(a: FS, s1: FS, s2: FS, s5: FS, s6: FS, s8: FS, s: Stmt, exp: seq<Instr>, jz: nat, off: int,
      back: int)
    requires s.For?
  {
    && a.code <= s1.code <= s8.code && |s2.code| == jz + 1 && |s2.code| <= |s5.code| && |s6.code| == |s5.code| + |exp|
      && |s8.code| == |s6.code| + 1
    && jz == |s1.code| && s8.code[jz] == JZ(Target(s.c, |a.names|), off)
      && s8.code[|s6.code|] == JMP(back)
    && (forall i :: |s2.code| <= i < |s5.code| ==> s8.code[i] == s5.code[i])
    && (forall i :: 0 <= i < |exp| ==> s8.code[|s5.code| + i] == exp[i])
  }

  lemma ForCodes(a: FS, s1: FS, s2: FS, s5: FS, s6: FS, s7: FS, s8: FS, s: Stmt, exp: seq<Instr>, jz: nat, off: int,
      back: int)
    requires s.For? && a.code <= s1.code <= s2.code <= s5.code && jz == |s1.code| && |s2.code| == jz + 1
    requires s2.code[jz] == JZ(Target(s.c, |a.names|), 0)
    requires s6.code == s5.code + exp && s7 == Emit(s6, JMP(back)) && s8 == PatchTest(s7, jz, off)
    ensures ForCode(a, s1, s2, s5, s6, s8, s, exp, jz, off, back)
  {
    assert forall i :: 0 <= i < |exp| ==> s6.code[|s5.code| + i] == exp[i];
    EmitAt(s6, JMP(back));
    PatchAt(s7, jz, off);
  }

  lemma ForOpen(a: FS, s1: FS, s2: FS, s3: FS, s4: FS, s5: FS, s6: FS, s7: FS, s8: FS, b: FS, s: Stmt,
      exp: seq<Instr>, jz: nat, off: int, back: int)
    requires ForSteps(a, s1, s2, s3, s4, s5, s6, s7, s8, b, s, exp, jz, off, back)
      && ForCode(a, s1, s2, s5, s6, s8, s, exp, jz, off, back)
    ensures Open(a, s8)
  {
    TestFacts(a, s1, s2, s.c);
    ClausePlain(s2, s3, s4, exp, s.inc);
    ForHoles(a, s1, s2, s3, s5, s6, s8, s, exp, jz, off, back, BreakHole);
    ForHoles(a, s1, s2, s3, s5, s6, s8, s, exp, jz, off, back, ContinueHole);
    ListedPart(s8.code, |a.code|, s5.code, |s2.code|, s8.breaks, BreakHole, |a.breaks|);
    ListedPart(s8.code, |a.code|, s5.code, |s2.code|, s8.continues, ContinueHole, |a.continues|);
  }

  /** Only the body has jumps that wait. */
  lemma ForHoles(a: FS, s1: FS, s2: FS, s3: FS, s5: FS, s6: FS, s8: FS, s: Stmt, exp: seq<Instr>, jz: nat, off: int,
      back: int, hole: Instr)
    requires s.For? && ForCode(a, s1, s2, s5, s6, s8, s, exp, jz, off, back)
      && (hole == BreakHole || hole == ContinueHole)
    requires Plain(s1.code, |a.code|) && Plain(s3.code, |s2.code|)
    requires |exp| == |s3.code| - |s2.code| && forall i :: 0 <= i < |exp| ==> exp[i] == s3.code[|s2.code| + i]
    ensures forall i :: |a.code| <= i < |s8.code| ==>
      (s8.code[i] == hole <==> (|s2.code| <= i < |s5.code| && s5.code[i] == hole))
  {
    forall i | |a.code| <= i < |s8.code|
      ensures s8.code[i] == hole <==> (|s2.code| <= i < |s5.code| && s5.code[i] == hole)
    {
      if i < jz {
        assert s8.code[i] == s1.code[i];
      } else if |s5.code| <= i < |s6.code| {
        var j := i - |s5.code|;
        assert s8.code[|s5.code| + j] == exp[j] && exp[j] == s3.code[|s2.code| + j];
      }
    }
  }

  /** What the patches make of the code before them. */
  lemma ForPatched(a: FS, s1: FS, s2: FS, s3: FS, s5: FS, s8: FS, b: FS, exp: seq<Instr>, k: int)
    requires LoopCopies(b, s8, |a.code|, |b.code|, |s5.code|) && |b.code| == |s8.code| && s1.code <= s8.code
      && |a.code| <= |s1.code| <= |s2.code|
    requires Plain(s1.code, |a.code|) && Plain(s3.code, |s2.code|)
    requires |exp| == |s3.code| - |s2.code| && (forall i :: 0 <= i < |exp| ==> exp[i] == s3.code[|s2.code| + i])
    requires |s5.code| + |exp| <= |s8.code| && |s2.code| <= |s5.code| && k == |s5.code| - |s2.code|
    requires forall i :: 0 <= i < |exp| ==> s8.code[|s5.code| + i] == exp[i]
    ensures forall i :: |a.code| <= i < |s1.code| ==> b.code[i] == s1.code[i]
    ensures forall i :: |s2.code| <= i < |s3.code| ==> b.code[i + k] == s3.code[i]
  {
    forall i | |a.code| <= i < |s1.code|
      ensures b.code[i] == s1.code[i]
    {
      assert b.code[i] == LoopFix(s8.code[i], i, |b.code|, |s5.code|);
    }
    forall i | |s2.code| <= i < |s3.code|
      ensures b.code[i + k] == s3.code[i]
    {
      var j := i - |s2.code|;
      assert exp[j] == s3.code[i] && s8.code[|s5.code| + j] == exp[j];
      assert b.code[i + k] == LoopFix(s8.code[i + k], i + k, |b.code|, |s5.code|);
    }
  }

  lemma ForShapes(a: FS, s1: FS, s2: FS, s3: FS, s4: FS, s5: FS, s6: FS, s7: FS, s8: FS, b: FS, s: Stmt,
      exp: seq<Instr>, jz: nat, off: int, back: int, k: int)
    requires ForSteps(a, s1, s2, s3, s4, s5, s6, s7, s8, b, s, exp, jz, off, back) && k == |s5.code| - |s2.code|
    ensures ForShape(a, s1, s2, s3, s5, s6, b, s, k) && Steady(a, b)
  {
    TestFacts(a, s1, s2, s.c);
    ClausePlain(s2, s3, s4, exp, s.inc);
    ForCodes(a, s1, s2, s5, s6, s7, s8, s, exp, jz, off, back);
    ForOpen(a, s1, s2, s3, s4, s5, s6, s7, s8, b, s, exp, jz, off, back);
    Resolves(a, s8, b, |s5.code|);
    ForPatched(a, s1, s2, s3, s5, s8, b, exp, k);
  }

  /** The third clause as a part of the whole: moved by `k`. */
  lemma ClauseLaid(a: FS, s2: FS, s3: FS, b: FS, inc: Stmt, q: Prog, x: Ctx, k: int, o3: int, o4: int)
    requires (inc.Empty? || inc.Eval? || inc.Assign?) && EmitsS(s2, s3, inc) && Plain(s3.code, |s2.code|)
      && |s2.code| > 0
    requires Fits(s2, x) && s3.lits <= b.lits && s3.stacksize <= b.stacksize && b.lits <= q.lits
      && b.stacksize <= q.stacksize
    requires k >= 0 && o3 == |s2.code| + k && o4 == |s3.code| + k && forall i :: |s2.code| <= i < |s3.code| ==>
      0 <= i + k < |q.code| && q.code[i + k] == s3.code[i]
    ensures IsS(q, inc, |s2.names|, x, o3, o4)
  {
    var p := Prog(s3.code, q.lits, s3.stacksize, q.sem);
    assert Fills(p, s3, |s2.code|, x);
    forall i | |s2.code| <= i < |s3.code| && 0 <= i < |p.code|
      ensures SameAt(p, q, i, k)
    {
      assert p.code[i] == s3.code[i];
    }
    assert Shifted(p, q, |s2.code|, |s3.code|, k);
    RelocClause(p, q, inc, |s2.names|, x, |s2.code|, |s3.code|, k, o3, o4);
  }

  lemma ForLaid(a: FS, s1: FS, s2: FS, s3: FS, s4: FS, s5: FS, s6: FS, b: FS, s: Stmt, exp: seq<Instr>, k: int,
      q: Prog, x: Ctx, o: int, end: int)
    requires s.For? && ForShape(a, s1, s2, s3, s5, s6, b, s, k) && TestSteps(a, s1, s2, s.c)
    requires ClauseSteps(s2, s3, s4, exp, s.inc) && EmitsS(LoopIn(s4), s5, s.body)
    requires Fits(a, x) && Fills(q, b, |a.code|, x) && o == |a.code| && end == |b.code|
    ensures IsS(q, s, |a.names|, x, o, end)
  {
    var d, o1, o2, o3, o4 := |a.names|, |s1.code|, |s2.code|, |s5.code|, |s6.code|;
    TestFacts(a, s1, s2, s.c);
    FillsAgrees(q, b, s1, o, o, x);
    FillsLoop(q, b, s5, o, o2, x, end, o3);
    assert FilledAt(b.code[o1], q.code[o1], o1, x) && FilledAt(b.code[o4], q.code[o4], o4, x);
    assert Fits(LoopIn(s4), InLoop(x, end, o3)) && Fits(s2, x);
    forall i | o2 <= i < |s3.code|
      ensures 0 <= i + k < |q.code| && q.code[i + k] == s3.code[i]
    {
      assert FilledAt(b.code[i + k], q.code[i + k], i + k, x);
    }
    ClauseLaid(a, s2, s3, b, s.inc, q, x, k, o3, o4);
    MakeFor(q, s, d, x, o, o1, o2, o3, o4, end);
  }

  lemma ForEmits(a: FS, s1: FS, s2: FS, s3: FS, s4: FS, s5: FS, s6: FS, s7: FS, s8: FS, b: FS, s: Stmt,
      exp: seq<Instr>, jz: nat, off: int, back: int)
    requires ForSteps(a, s1, s2, s3, s4, s5, s6, s7, s8, b, s, exp, jz, off, back)
    ensures EmitsS(a, b, s)
  {
    var k := |s5.code| - |s2.code|;
    TestFacts(a, s1, s2, s.c);
    ForShapes(a, s1, s2, s3, s4, s5, s6, s7, s8, b, s, exp, jz, off, back, k);
    forall q, x | Fits(a, x) && Fills(q, b, |a.code|, x)
      ensures IsS(q, s, |a.names|, x, |a.code|, |b.code|)
    {
      ForLaid(a, s1, s2, s3, s4, s5, s6, b, s, exp, k, q, x, |a.code|, |b.code|);
    }
  }
}
