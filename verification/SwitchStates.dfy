/** The states the compiler goes through for a switch. */
module SwitchStates {
  import opened Squirrel
  import opened Bytecode
  import opened Layout
  import opened CodeOf
  import opened FuncState
  import opened ExprEmit
  import opened StmtEmit
  import opened StmtStates

  // ---------- Cases ----------

  lemma DefaultEmits(a: FS, s1: FS, b: FS, cases: Cases, t: nat)
    requires cases.Default? && EmitsI(a, s1, cases.body) && b == s1.(names := a.names)
    ensures EmitsC(a, b, cases, t, |a.code|)
  {
    forall q, x | Fits(a, x) && Fills(q, b, |a.code|, x)
      ensures IsC(q, cases, t, |a.names|, x, |a.code|, |a.code|, |b.code|)
    {
      FillsPart(q, b, s1, |a.code|, |a.code|, x);
      assert CodeMaps(q).I(cases.body, |a.names|, x, |a.code|, |b.code|);
      UnfoldC(q, cases, t, |a.names|, x, |a.code|, |a.code|, |b.code|);
    }
  }

  /** The test of a case: equality with the tested value, and a jump to the next test. */
  ghost predicate CaseTest(a: FS, s1: FS, s2: FS, c: Expr, t: nat) {
    && EmitsE(a, s1, |a.names|, c)
    && s2 == Dropped(a, s1).(code := s1.code + [BIN(Eq, |a.names|, Target(c, |a.names|), t), JZ(|a.names|, 0)],
                             stacksize := AtLeast(s1.stacksize, |a.names| + 1))
  }

  lemma CaseTestFacts(a: FS, s1: FS, s2: FS, c: Expr, t: nat)
    requires CaseTest(a, s1, s2, c, t)
    ensures Grows(a, s2) && s2.names == a.names && s2.targets == a.targets && Plain(s2.code, |a.code|)
      && |a.names| < s2.stacksize
    ensures s1.code <= s2.code && |s2.code| == |s1.code| + 2 && s1.stacksize <= s2.stacksize && s1.lits == s2.lits
    ensures s2.code[|s1.code|] == BIN(Eq, |a.names|, Target(c, |a.names|), t)
      && s2.code[|s1.code| + 1] == JZ(|a.names|, 0)
  {
  }

  function Skip(a: FS, rest: Cases): (b: FS) {
    if rest.Case? then Emit(a, JMP(0)) else a
  }

  ghost predicate CaseSteps(a: FS, s1: FS, s2: FS, s3: FS, s4: FS, s5: FS, s6: FS, b: FS, cases: Cases, t: nat,
      jz: nat, jzoff: int, skip: nat, skipoff: int, body1: int) {
    && cases.Case? && CaseTest(a, s1, s2, cases.c, t) && EmitsI(s2, s3, cases.body)
      && s4 == Skip(s3.(names := a.names), cases.rest)
    && jz == |s1.code| + 1 < |s4.code| && jzoff == |s4.code| - 1 - jz && s5 == Patch(s4, jz, jzoff)
    && EmitsC(s5, s6, cases.rest, t, body1) && skip == |s3.code| && skipoff == body1 - 1 - skip
    && (cases.rest.Default? ==> body1 == |s5.code|)
    && if cases.rest.Case? then skip < |s6.code| && b == Patch(s6, skip, skipoff) else b == s6
  }

  ghost predicate CaseShape(a: FS, s1: FS, s2: FS, s3: FS, s5: FS, s6: FS, b: FS, cases: Cases, t: nat, body1: int)
    requires cases.Case?
  {
    var d, o1, o2, body, o3, o4, end := |a.names|, |s1.code|, |s1.code| + 1, |s2.code|, |s3.code|, |s5.code|, |b.code|;
    && |a.code| <= o1 && body == o2 + 1 && body <= o3 <= o4 <= |s6.code| == end && d < b.stacksize
    && Copies(b, s1, |a.code|) && Copies(b, s3, body) && Copies(b, s6, o4)
    && b.code[o1] == BIN(Eq, d, Target(cases.c, d), t) && b.code[o2] == JZ(d, o4 - body)
    && if cases.rest.Case? then o4 == o3 + 1 && b.code[o3] == JMP(body1 - o4) else o4 == o3
  }

  /** `b` is `a` with more at the end. */
  ghost predicate Extends(a: FS, b: FS) {
    a.code <= b.code && a.lits <= b.lits && a.stacksize <= b.stacksize
  }

  lemma CaseShapes(a: FS, s1: FS, s2: FS, s3: FS, s4: FS, s5: FS, s6: FS, b: FS, cases: Cases, t: nat,
      jz: nat, jzoff: int, skip: nat, skipoff: int, body1: int)
    requires cases.Case? && Extends(a, s1) && Extends(s1, s2) && Extends(s2, s3) && Extends(s5, s6)
      && |a.names| < s2.stacksize
    requires |s2.code| == |s1.code| + 2 && s2.code[|s1.code|] == BIN(Eq, |a.names|, Target(cases.c, |a.names|), t)
    requires jz == |s1.code| + 1 && s2.code[jz] == JZ(|a.names|, 0)
    requires s4 == Skip(s3.(names := a.names), cases.rest) && jz < |s4.code| && jzoff == |s4.code| - 1 - jz
      && s5 == Patch(s4, jz, jzoff)
    requires skip == |s3.code| && skipoff == body1 - 1 - skip
    requires if cases.rest.Case? then skip < |s6.code| && b == Patch(s6, skip, skipoff) else b == s6
    ensures CaseShape(a, s1, s2, s3, s5, s6, b, cases, t, body1) && a.code <= b.code
  {
    EmitAt(s3.(names := a.names), JMP(0));
    PatchAt(s4, jz, jzoff);
    if cases.rest.Case? { PatchAt(s6, skip, skipoff); }
    assert s3.code <= s4.code;
  }

  /** Only the bodies have jumps that wait. */
  lemma CaseHoles(a: FS, s1: FS, s2: FS, s3: FS, s5: FS, s6: FS, b: FS, cases: Cases, t: nat, body1: int, hole: Instr)
    requires cases.Case? && CaseShape(a, s1, s2, s3, s5, s6, b, cases, t, body1) && Plain(s1.code, |a.code|)
    requires hole == BreakHole || hole == ContinueHole
    ensures HolesFrom(b.code, |a.code|, s3.code, |s2.code|, s6.code, |s5.code|, hole)
  {
    forall i | |a.code| <= i < |b.code|
      ensures b.code[i] == hole <==>
        (|s2.code| <= i < |s3.code| && s3.code[i] == hole) || (|s5.code| <= i < |s6.code| && s6.code[i] == hole)
    {
      if i < |s1.code| {
        assert b.code[i] == s1.code[i];
      } else if |s2.code| <= i < |s3.code| {
        assert b.code[i] == s3.code[i];
      } else if |s5.code| <= i {
        assert b.code[i] == s6.code[i];
      }
    }
  }

  lemma CaseSteady(a: FS, s1: FS, s2: FS, s3: FS, s4: FS, s5: FS, s6: FS, b: FS, cases: Cases, t: nat,
      jz: nat, jzoff: int, skip: nat, skipoff: int, body1: int)
    requires CaseSteps(a, s1, s2, s3, s4, s5, s6, b, cases, t, jz, jzoff, skip, skipoff, body1)
    requires CaseShape(a, s1, s2, s3, s5, s6, b, cases, t, body1) && a.code <= b.code
    ensures Steady(a, b)
  {
    CaseTestFacts(a, s1, s2, cases.c, t);
    CaseHoles(a, s1, s2, s3, s5, s6, b, cases, t, body1, BreakHole);
    CaseHoles(a, s1, s2, s3, s5, s6, b, cases, t, body1, ContinueHole);
    ListedJoin(b.code, |a.code|, s3.code, |s2.code|, s3.breaks, s6.code, |s5.code|, s6.breaks, BreakHole, |a.breaks|);
    ListedJoin(b.code, |a.code|, s3.code, |s2.code|, s3.continues, s6.code, |s5.code|, s6.continues, ContinueHole,
        |a.continues|);
  }

  lemma CaseLaid(a: FS, s1: FS, s2: FS, s3: FS, s5: FS, s6: FS, b: FS, cases: Cases, t: nat, body1: int, q: Prog,
      x: Ctx, o2: int, end: int)
    requires cases.Case? && CaseShape(a, s1, s2, s3, s5, s6, b, cases, t, body1)
    requires EmitsE(a, s1, |a.names|, cases.c) && EmitsI(s2, s3, cases.body) && EmitsC(s5, s6, cases.rest, t, body1)
    requires s2.names == s5.names == a.names && Fits(s2, x) && Fits(s5, x)
      && (cases.rest.Default? ==> body1 == |s5.code|)
    requires Fills(q, b, |a.code|, x) && o2 == |s1.code| + 1 && end == |b.code|
    ensures IsC(q, cases, t, |a.names|, x, |a.code|, |s2.code|, end)
  {
    var d, o, o1, body, o3, o4 := |a.names|, |a.code|, |s1.code|, |s2.code|, |s3.code|, |s5.code|;
    FillsAgrees(q, b, s1, o, o, x);
    FillsPart(q, b, s3, o, body, x);
    FillsPart(q, b, s6, o, o4, x);
    assert FilledAt(b.code[o1], q.code[o1], o1, x) && FilledAt(b.code[o2], q.code[o2], o2, x);
    assert LaidSkip(q, cases.rest, o3, o4, body1) by {
      if cases.rest.Case? { assert FilledAt(b.code[o3], q.code[o3], o3, x); }
    }
    MakeCase(q, cases, t, d, x, o, o1, o2, o3, o4, body, body1, end);
  }

  lemma CaseEmits(a: FS, s1: FS, s2: FS, s3: FS, s4: FS, s5: FS, s6: FS, b: FS, cases: Cases, t: nat,
      jz: nat, jzoff: int, skip: nat, skipoff: int, body1: int)
    requires CaseSteps(a, s1, s2, s3, s4, s5, s6, b, cases, t, jz, jzoff, skip, skipoff, body1)
    ensures EmitsC(a, b, cases, t, |s2.code|)
  {
    CaseTestFacts(a, s1, s2, cases.c, t);
    CaseShapes(a, s1, s2, s3, s4, s5, s6, b, cases, t, jz, jzoff, skip, skipoff, body1);
    CaseSteady(a, s1, s2, s3, s4, s5, s6, b, cases, t, jz, jzoff, skip, skipoff, body1);
    forall q, x | Fits(a, x) && Fills(q, b, |a.code|, x)
      ensures IsC(q, cases, t, |a.names|, x, |a.code|, |s2.code|, |b.code|)
    {
      CaseLaid(a, s1, s2, s3, s5, s6, b, cases, t, body1, q, x, jz, |b.code|);
    }
  }

  // ---------- switch ----------

  ghost predicate SwitchSteps(a: FS, s1: FS, s2: FS, b: FS, s: Stmt, body: int) {
    && s.Switch? && EmitsE(a, s1, |a.names|, s.e)
    && EmitsC(s1.(breaktargets := a.breaktargets + [0]), s2, s.cases, Target(s.e, |a.names|), body)
    && |a.breaks| <= |s2.breaks| && (forall j :: |a.breaks| <= j < |s2.breaks| ==> s2.breaks[j] < |s2.code|)
    && b == Dropped(a, s2).(breaktargets := a.breaktargets, breaks := s2.breaks[..|a.breaks|],
                            code := FixAll(s2.code, s2.breaks, |a.breaks|, |s2.code|))
  }

  /** `b` has the code of `c` from `o` on, its breaks leading to `brk`. */
  ghost predicate SwitchCopies(b: FS, c: FS, o: nat, brk: int) {
    && |c.code| <= |b.code| && c.lits <= b.lits && c.stacksize <= b.stacksize
    && forall i :: o <= i < |c.code| ==> b.code[i] == if c.code[i] == BreakHole then JMP(brk - i - 1) else c.code[i]
  }

  lemma FillsSwitch(q: Prog, b: FS, c: FS, o: nat, o': nat, x: Ctx, brk: int)
    requires Fills(q, b, o, x) && o <= o' && SwitchCopies(b, c, o', brk)
    ensures Fills(q, c, o', InSwitch(x, brk))
  {
    forall i | o' <= i < |c.code|
      ensures FilledAt(c.code[i], q.code[i], i, InSwitch(x, brk))
    {
      assert FilledAt(b.code[i], q.code[i], i, x);
    }
  }

  lemma SwitchShapes(a: FS, s1: FS, s2: FS, b: FS, s: Stmt, body: int)
    requires SwitchSteps(a, s1, s2, b, s, body)
    ensures Steady(a, b) && Copies(b, s1, |a.code|) && SwitchCopies(b, s2, |s1.code|, |b.code|)
      && |b.code| == |s2.code| >= |s1.code|
  {
    assert a.code <= s1.code <= s2.code;
    ListedPart(s2.code, |a.code|, s2.code, |s1.code|, s2.breaks, BreakHole, |a.breaks|);
    FixesHoles(s2.code, BreakHole, s2.breaks, |a.code|, |a.breaks|, |s2.code|);
    assert b.breaks == a.breaks;
    ListedNone(b.code, |a.code|, a.breaks, BreakHole);
    ListedPart(b.code, |a.code|, s2.code, |s1.code|, b.continues, ContinueHole, |a.continues|);
  }

  lemma SwitchLaid(a: FS, s1: FS, s2: FS, b: FS, s: Stmt, body: int, q: Prog, x: Ctx, d1: nat, end: int)
    requires SwitchSteps(a, s1, s2, b, s, body) && d1 == |s1.names|
      && end == |b.code| == |s2.code| >= |s1.code| >= |a.code|
    requires Copies(b, s1, |a.code|) && SwitchCopies(b, s2, |s1.code|, end)
    requires Fits(a, x) && Fills(q, b, |a.code|, x)
    ensures IsS(q, s, |a.names|, x, |a.code|, end)
  {
    var d, o, o1, t := |a.names|, |a.code|, |s1.code|, Target(s.e, |a.names|);
    FillsAgrees(q, b, s1, o, o, x);
    FillsSwitch(q, b, s2, o, o1, x, end);
    assert Fits(s1.(breaktargets := a.breaktargets + [0]), InSwitch(x, end));
    MakeSwitch(q, s, d, d1, t, x, o, o1, body, end);
  }

  lemma SwitchEmits(a: FS, s1: FS, s2: FS, b: FS, s: Stmt, body: int)
    requires SwitchSteps(a, s1, s2, b, s, body)
    ensures EmitsS(a, b, s)
  {
    SwitchShapes(a, s1, s2, b, s, body);
    assert a.code <= s1.code;
    forall q, x | Fits(a, x) && Fills(q, b, |a.code|, x)
      ensures IsS(q, s, |a.names|, x, |a.code|, |b.code|)
    {
      SwitchLaid(a, s1, s2, b, s, body, q, x, |s1.names|, |b.code|);
    }
  }
}
