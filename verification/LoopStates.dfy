/** The states the compiler goes through for loops, whose breaks and continues are patched at the end. */
module LoopStates {
  import opened Squirrel
  import opened Bytecode
  import opened Layout
  import opened CodeOf
  import opened FuncState
  import opened ExprEmit
  import opened StmtEmit
  import opened StmtStates

  /** The state in which the body of a loop is compiled. */
  function LoopIn(a: FS): (b: FS) {
    a.(breaktargets := a.breaktargets + [0], continuetargets := a.continuetargets + [0])
  }

  predicate CanResolve(s: FS, a: FS) {
    && |a.breaks| <= |s.breaks| && |a.continues| <= |s.continues|
    && (forall j :: |a.breaks| <= j < |s.breaks| ==> s.breaks[j] < |s.code| && (s.blind ==> s.breaks[j] > 0))
    && (forall j :: |a.continues| <= j < |s.continues| ==>
          s.continues[j] < |s.code| && (s.blind ==> s.continues[j] > 0))
  }

  /** Leaving a loop that began in state `a`: continues lead to `to`, breaks to the end of the code. */
  function Resolved(s: FS, a: FS, to: int): (b: FS)
    requires CanResolve(s, a)
  {
    s.(code := FixAll(FixAll(s.code, s.continues, |a.continues|, to), s.breaks, |a.breaks|, |s.code|),
       breaks := s.breaks[..|a.breaks|], continues := s.continues[..|a.continues|],
       breaktargets := a.breaktargets, continuetargets := a.continuetargets)
  }

  function LoopFix(i: Instr, pos: int, brk: int, cont: int): (j: Instr) {
    match i case BreakHole => JMP(brk - pos - 1) case ContinueHole => JMP(cont - pos - 1) case _ => i
  }

  /** `b` has the code of `c` from `o` on, its jumps leading to `brk` and `cont`. */
  ghost predicate LoopCopies(b: FS, c: FS, o: nat, brk: int, cont: int) {
    && |c.code| <= |b.code| && c.lits <= b.lits && c.stacksize <= b.stacksize
    && forall i :: o <= i < |c.code| ==> b.code[i] == LoopFix(c.code[i], i, brk, cont)
  }

  lemma FillsLoop(q: Prog, b: FS, c: FS, o: nat, o': nat, x: Ctx, brk: int, cont: int)
    requires Fills(q, b, o, x) && o <= o' && LoopCopies(b, c, o', brk, cont)
    ensures Fills(q, c, o', InLoop(x, brk, cont))
  {
    forall i | o' <= i < |c.code|
      ensures FilledAt(c.code[i], q.code[i], i, InLoop(x, brk, cont))
    {
      assert FilledAt(b.code[i], q.code[i], i, x);
    }
  }

  /** The state before the jumps are patched: like `a`, with more code and jumps that wait. */
  ghost predicate Open(a: FS, s: FS) {
    && a.code <= s.code && a.lits <= s.lits && a.stacksize <= s.stacksize && s.targets == a.targets
      && s.traps == a.traps
    && a.breaks <= s.breaks && a.continues <= s.continues
    && Listed(s.code, BreakHole, s.breaks, |a.code|, |a.breaks|)
    && Listed(s.code, ContinueHole, s.continues, |a.code|, |a.continues|)
  }

  /** The first pass: the continues of the loop get their target, and the breaks still wait. */
  lemma ContinuePass(a: FS, s: FS, to: int) returns (code: seq<Instr>)
    requires Open(a, s) && CanResolve(s, a)
    ensures code == FixAll(s.code, s.continues, |a.continues|, to) && |code| == |s.code| && a.code <= code
    ensures forall i :: |a.code| <= i < |code| ==>
      code[i] == if s.code[i] == ContinueHole then JMP(to - i - 1) else s.code[i]
    ensures Listed(code, BreakHole, s.breaks, |a.code|, |a.breaks|)
  {
    code := FixAll(s.code, s.continues, |a.continues|, to);
    FixesHoles(s.code, ContinueHole, s.continues, |a.code|, |a.continues|, to);
    ListedPart(code, |a.code|, s.code, |a.code|, s.breaks, BreakHole, |a.breaks|);
  }

  /** The second pass: the breaks get theirs, the end of the code. */
  lemma BreakPass(a: FS, code: seq<Instr>, breaks: seq<nat>, n: nat) returns (fixed: seq<Instr>)
    requires Listed(code, BreakHole, breaks, |a.code|, n) && a.code <= code
    ensures fixed == FixAll(code, breaks, n, |code|) && |fixed| == |code| && a.code <= fixed
    ensures forall i :: |a.code| <= i < |code| ==>
      fixed[i] == if code[i] == BreakHole then JMP(|code| - i - 1) else code[i]
  {
    fixed := FixAll(code, breaks, n, |code|);
    FixesHoles(code, BreakHole, breaks, |a.code|, n, |code|);
  }

  lemma Resolves(a: FS, s: FS, b: FS, to: int)
    requires Open(a, s) && CanResolve(s, a) && b == Resolved(s, a, to)
    ensures Steady(a, b) && LoopCopies(b, s, |a.code|, |b.code|, to) && |b.code| == |s.code|
  {
    var code := ContinuePass(a, s, to);
    var fixed := BreakPass(a, code, s.breaks, |a.breaks|);
    NoneWaits(a, s.code, code, fixed, to);
    assert b.breaks == a.breaks && b.continues == a.continues;
  }

  /** Behind both passes. */
  lemma NoneWaits(a: FS, code0: seq<Instr>, code: seq<Instr>, fixed: seq<Instr>, to: int)
    requires |a.code| <= |code0| == |code| == |fixed|
    requires forall i :: |a.code| <= i < |code| ==>
      code[i] == if code0[i] == ContinueHole then JMP(to - i - 1) else code0[i]
    requires forall i :: |a.code| <= i < |code| ==>
      fixed[i] == if code[i] == BreakHole then JMP(|code| - i - 1) else code[i]
    ensures forall i :: |a.code| <= i < |code| ==> fixed[i] == LoopFix(code0[i], i, |code|, to)
    ensures Listed(fixed, BreakHole, a.breaks, |a.code|, |a.breaks|)
    ensures Listed(fixed, ContinueHole, a.continues, |a.code|, |a.continues|)
  {
    ListedNone(fixed, |a.code|, a.breaks, BreakHole);
    ListedNone(fixed, |a.code|, a.continues, ContinueHole);
  }

  // ---------- while ----------

  ghost predicate WhileSteps(a: FS, s1: FS, s2: FS, s3: FS, s4: FS, s5: FS, b: FS, s: Stmt, jz: nat, off: int,
      back: int) {
    && s.While? && TestSteps(a, s1, s2, s.c) && EmitsS(LoopIn(s2), s3, s.body)
    && back == |a.code| - |s3.code| - 1 && s4 == Emit(s3, JMP(back))
    && jz == |s1.code| < |s4.code| && off == |s4.code| - 1 - jz && s5 == Patch(s4, jz, off)
    && CanResolve(s5, a) && b == Resolved(s5, a, |a.code|)
  }

  ghost predicate WhileShape(a: FS, s1: FS, s2: FS, s3: FS, b: FS, s: Stmt)
    requires s.While?
  {
    var o1, o2, o3, end := |s1.code|, |s2.code|, |s3.code|, |b.code|;
    && |a.code| <= o1 && o2 == o1 + 1 && o2 <= o3 && end == o3 + 1
    && Copies(b, s1, |a.code|) && LoopCopies(b, s3, o2, end, |a.code|)
    && b.code[o1] == JZ(Target(s.c, |a.names|), end - o2) && b.code[o3] == JMP(|a.code| - end)
  }

  lemma WhileCode(a: FS, s1: FS, s2: FS, s3: FS, s4: FS, s5: FS, b: FS, s: Stmt, jz: nat, off: int, back: int)
    requires WhileSteps(a, s1, s2, s3, s4, s5, b, s, jz, off, back)
    ensures s1.code <= s5.code && |s5.code| == |s3.code| + 1 && s5.code[jz] == JZ(Target(s.c, |a.names|), off)
      && s5.code[|s3.code|] == JMP(back)
    ensures forall i :: |s2.code| <= i < |s3.code| ==> s5.code[i] == s3.code[i]
  {
    TestFacts(a, s1, s2, s.c);
    EmitAt(s3, JMP(back));
    PatchAt(s4, jz, off);
    assert s1.code <= s2.code <= s3.code <= s4.code;
  }

  lemma WhileOpen(a: FS, s1: FS, s2: FS, s3: FS, s4: FS, s5: FS, b: FS, s: Stmt, jz: nat, off: int, back: int)
    requires WhileSteps(a, s1, s2, s3, s4, s5, b, s, jz, off, back)
    ensures Open(a, s5) && s1.code <= s5.code
    ensures |s5.code| == |s3.code| + 1 && s5.code[jz] == JZ(Target(s.c, |a.names|), off)
      && s5.code[|s3.code|] == JMP(back)
    ensures forall i :: |s2.code| <= i < |s3.code| ==> s5.code[i] == s3.code[i]
  {
    TestFacts(a, s1, s2, s.c);
    WhileCode(a, s1, s2, s3, s4, s5, b, s, jz, off, back);
    ListedPart(s5.code, |a.code|, s3.code, |s2.code|, s5.breaks, BreakHole, |a.breaks|);
    ListedPart(s5.code, |a.code|, s3.code, |s2.code|, s5.continues, ContinueHole, |a.continues|);
  }

  lemma WhileShapes(a: FS, s1: FS, s2: FS, s3: FS, s4: FS, s5: FS, b: FS, s: Stmt, jz: nat, off: int, back: int)
    requires WhileSteps(a, s1, s2, s3, s4, s5, b, s, jz, off, back)
    ensures WhileShape(a, s1, s2, s3, b, s) && Steady(a, b)
  {
    TestFacts(a, s1, s2, s.c);
    WhileOpen(a, s1, s2, s3, s4, s5, b, s, jz, off, back);
    Resolves(a, s5, b, |a.code|);
    forall i | |a.code| <= i < |s1.code|
      ensures b.code[i] == s1.code[i]
    {
      assert b.code[i] == LoopFix(s5.code[i], i, |b.code|, |a.code|);
    }
  }

  lemma WhileLaid(a: FS, s1: FS, s2: FS, s3: FS, b: FS, s: Stmt, q: Prog, x: Ctx, o: int, end: int)
    requires s.While? && WhileShape(a, s1, s2, s3, b, s) && TestSteps(a, s1, s2, s.c) && EmitsS(LoopIn(s2), s3, s.body)
    requires Fits(a, x) && Fills(q, b, |a.code|, x) && o == |a.code| && end == |b.code|
    ensures IsS(q, s, |a.names|, x, o, end)
  {
    var d, o1, o2, o3 := |a.names|, |s1.code|, |s2.code|, |s3.code|;
    TestFacts(a, s1, s2, s.c);
    FillsAgrees(q, b, s1, o, o, x);
    FillsLoop(q, b, s3, o, o2, x, end, o);
    assert FilledAt(b.code[o1], q.code[o1], o1, x) && FilledAt(b.code[o3], q.code[o3], o3, x);
    assert Fits(LoopIn(s2), InLoop(x, end, o));
    MakeWhile(q, s, d, x, o, o1, o2, o3, end);
  }

  lemma WhileEmits(a: FS, s1: FS, s2: FS, s3: FS, s4: FS, s5: FS, b: FS, s: Stmt, jz: nat, off: int, back: int)
    requires WhileSteps(a, s1, s2, s3, s4, s5, b, s, jz, off, back)
    ensures EmitsS(a, b, s)
  {
    TestFacts(a, s1, s2, s.c);
    WhileShapes(a, s1, s2, s3, s4, s5, b, s, jz, off, back);
    forall q, x | Fits(a, x) && Fills(q, b, |a.code|, x)
      ensures IsS(q, s, |a.names|, x, |a.code|, |b.code|)
    {
      WhileLaid(a, s1, s2, s3, b, s, q, x, |a.code|, |b.code|);
    }
  }

  // ---------- do-while ----------

  ghost predicate DoWhileSteps(a: FS, s1: FS, s2: FS, s3: FS, s4: FS, b: FS, s: Stmt, back: int) {
    && s.DoWhile? && EmitsS(LoopIn(a), s1, s.body) && EmitsE(s1, s2, |a.names|, s.c)
    && s3 == Emit(Dropped(s1, s2), JZ(Target(s.c, |a.names|), 1))
    && back == |a.code| - |s3.code| - 1 && s4 == Emit(s3, JMP(back))
    && CanResolve(s4, a) && b == Resolved(s4, a, |s1.code|)
  }

  ghost predicate DoWhileShape(a: FS, s1: FS, s2: FS, s3: FS, b: FS, s: Stmt)
    requires s.DoWhile?
  {
    var o1, o2, o3, end := |s1.code|, |s2.code|, |s3.code|, |b.code|;
    && |a.code| <= o1 <= o2 && o3 == o2 + 1 && end == o3 + 1
    && LoopCopies(b, s1, |a.code|, end, o1) && Copies(b, s2, o1)
    && b.code[o2] == JZ(Target(s.c, |a.names|), 1) && b.code[o3] == JMP(|a.code| - end)
  }

  lemma DoWhileCode(a: FS, s1: FS, s2: FS, s3: FS, s4: FS, b: FS, s: Stmt, back: int)
    requires DoWhileSteps(a, s1, s2, s3, s4, b, s, back)
    ensures s1.code <= s2.code <= s4.code && |s4.code| == |s2.code| + 2 && Plain(s4.code, |s1.code|)
    ensures s4.code[|s2.code|] == JZ(Target(s.c, |a.names|), 1) && s4.code[|s2.code| + 1] == JMP(back)
  {
    EmitAt(Dropped(s1, s2), JZ(Target(s.c, |a.names|), 1));
    EmitAt(s3, JMP(back));
    assert s1.code <= s2.code <= s3.code <= s4.code;
  }

  lemma DoWhileOpen(a: FS, s1: FS, s2: FS, s3: FS, s4: FS, b: FS, s: Stmt, back: int)
    requires DoWhileSteps(a, s1, s2, s3, s4, b, s, back)
    ensures Open(a, s4) && s1.code <= s2.code <= s4.code && |s4.code| == |s2.code| + 2
    ensures s4.code[|s2.code|] == JZ(Target(s.c, |a.names|), 1) && s4.code[|s2.code| + 1] == JMP(back)
  {
    DoWhileCode(a, s1, s2, s3, s4, b, s, back);
    ListedLonger(s4.code, s1.code, |a.code|, s4.breaks, BreakHole, |a.breaks|);
    ListedLonger(s4.code, s1.code, |a.code|, s4.continues, ContinueHole, |a.continues|);
  }

  lemma DoWhileShapes(a: FS, s1: FS, s2: FS, s3: FS, s4: FS, b: FS, s: Stmt, back: int)
    requires DoWhileSteps(a, s1, s2, s3, s4, b, s, back)
    ensures DoWhileShape(a, s1, s2, s3, b, s) && Steady(a, b)
  {
    DoWhileOpen(a, s1, s2, s3, s4, b, s, back);
    Resolves(a, s4, b, |s1.code|);
    forall i | |s1.code| <= i < |s2.code|
      ensures b.code[i] == s2.code[i]
    {
      assert b.code[i] == LoopFix(s4.code[i], i, |b.code|, |s1.code|);
    }
  }

  lemma DoWhileLaid(a: FS, s1: FS, s2: FS, s3: FS, b: FS, s: Stmt, q: Prog, x: Ctx, o: int, end: int)
    requires s.DoWhile? && DoWhileShape(a, s1, s2, s3, b, s) && EmitsS(LoopIn(a), s1, s.body)
      && EmitsE(s1, s2, |a.names|, s.c)
    requires Fits(a, x) && Fills(q, b, |a.code|, x)
    requires o == |a.code| && end == |b.code|
    ensures IsS(q, s, |a.names|, x, o, end)
  {
    var d, o1, o2, o3 := |a.names|, |s1.code|, |s2.code|, |s3.code|;
    FillsLoop(q, b, s1, o, o, x, end, o1);
    FillsAgrees(q, b, s2, o, o1, x);
    assert FilledAt(b.code[o2], q.code[o2], o2, x) && FilledAt(b.code[o3], q.code[o3], o3, x);
    assert Fits(LoopIn(a), InLoop(x, end, o1));
    MakeDoWhile(q, s, d, x, o, o1, o2, o3, end);
  }

  lemma DoWhileEmits(a: FS, s1: FS, s2: FS, s3: FS, s4: FS, b: FS, s: Stmt, back: int)
    requires DoWhileSteps(a, s1, s2, s3, s4, b, s, back)
    ensures EmitsS(a, b, s)
  {
    DoWhileShapes(a, s1, s2, s3, s4, b, s, back);
    forall q, x | Fits(a, x) && Fills(q, b, |a.code|, x)
      ensures IsS(q, s, |a.names|, x, |a.code|, |b.code|)
    {
      DoWhileLaid(a, s1, s2, s3, b, s, q, x, |a.code|, |b.code|);
    }
  }

  // ---------- try-catch ----------

  function Deeper(tries: seq<nat>): (r: seq<nat>) {
    if tries == [] then [] else tries[..|tries| - 1] + [tries[|tries| - 1] + 1]
  }

  /** The state in which the body of a try block is compiled. */
  function TryIn(a: FS): (b: FS) {
    Emit(a, PUSHTRAP(0, 0)).(traps := a.traps + 1, breaktargets := Deeper(a.breaktargets),
        continuetargets := Deeper(a.continuetargets))
  }

  /** The state behind the body: it is over, and the variable of the handler is there. */
  function CatchIn(a: FS, s1: FS, off: int): (b: FS)
    requires |a.code| < |s1.code| + 2
  {
    var code := s1.code + [POPTRAP(1), JMP(0)];
    s1.(traps := a.traps, breaktargets := a.breaktargets, continuetargets := a.continuetargets,
        code := code[|a.code| := PUSHTRAP(|a.names|, off)],
        names := a.names + [true], stacksize := AtLeast(s1.stacksize, |a.names| + 1))
  }

  ghost predicate TrySteps(a: FS, s1: FS, s2: FS, s3: FS, b: FS, s: Stmt, trapoff: int, jmp: nat, jmpoff: int) {
    && s.TryCatch? && EmitsS(TryIn(a), s1, s.body) && |a.code| < |s1.code| + 2
    && trapoff == |s1.code| + 1 - |a.code| && s2 == CatchIn(a, s1, trapoff) && EmitsS(s2, s3, s.handler)
    && jmp == |s1.code| + 1 < |s3.code| && jmpoff == |s3.code| - 1 - jmp
    && b == Patch(s3, jmp, jmpoff).(names := a.names)
  }

  ghost predicate TryShape(a: FS, s1: FS, s2: FS, s3: FS, b: FS) {
    var o, o1, o2, o3, o4, end := |a.code|, |a.code| + 1, |s1.code|, |s1.code| + 1, |s2.code|, |b.code|;
    && o1 <= o2 && o4 == o3 + 1 && o4 <= |s3.code| == end && |a.names| < b.stacksize
    && Copies(b, s1, o1) && Copies(b, s3, o4)
    && b.code[o] == PUSHTRAP(|a.names|, o4 - o1) && b.code[o2] == POPTRAP(1) && b.code[o3] == JMP(end - o4)
  }

  lemma TryShapes(a: FS, s1: FS, s2: FS, s3: FS, b: FS, s: Stmt, trapoff: int, jmp: nat, jmpoff: int)
    requires TrySteps(a, s1, s2, s3, b, s, trapoff, jmp, jmpoff)
    ensures TryShape(a, s1, s2, s3, b)
  {
    assert TryIn(a).code <= s1.code && s2.code <= s3.code;
    CatchCode(a, s1, trapoff);
    PatchAt(s3, jmp, jmpoff);
  }

  lemma CatchCode(a: FS, s1: FS, off: int)
    requires |a.code| < |s1.code|
    ensures var code, o := CatchIn(a, s1, off).code, |s1.code|;
      && |code| == o + 2 && code[|a.code|] == PUSHTRAP(|a.names|, off) && code[o] == POPTRAP(1) && code[o + 1] == JMP(0)
      && forall i :: |a.code| < i < o ==> code[i] == s1.code[i]
  {
  }

  /** The jumps that wait in a try statement are those of its body and those of its handler. */
  lemma TryListed(a: FS, s1: FS, s2: FS, s3: FS, b: FS, hole: Instr, l1: seq<nat>, l3: seq<nat>, n: nat)
    requires TryShape(a, s1, s2, s3, b) && (hole == BreakHole || hole == ContinueHole) && l1 <= l3
    requires Listed(s1.code, hole, l1, |a.code| + 1, n) && Listed(s3.code, hole, l3, |s2.code|, |l1|)
    ensures Listed(b.code, hole, l3, |a.code|, n)
  {
    ListedJoin(b.code, |a.code|, s1.code, |a.code| + 1, l1, s3.code, |s2.code|, l3, hole, n);
  }

  lemma TrySteady(a: FS, s1: FS, s2: FS, s3: FS, b: FS, s: Stmt, trapoff: int, jmp: nat, jmpoff: int)
    requires TrySteps(a, s1, s2, s3, b, s, trapoff, jmp, jmpoff) && TryShape(a, s1, s2, s3, b)
    ensures Steady(a, b)
  {
    assert TryIn(a).code <= s1.code;
    assert a.code <= b.code;
    TryListed(a, s1, s2, s3, b, BreakHole, s1.breaks, s3.breaks, |a.breaks|);
    TryListed(a, s1, s2, s3, b, ContinueHole, s1.continues, s3.continues, |a.continues|);
  }

  lemma FillsTry(q: Prog, b: FS, o: nat, x: Ctx)
    requires Fills(q, b, o, x)
    ensures Fills(q, b, o, InTry(x))
  {
    forall i | o <= i < |b.code|
      ensures FilledAt(b.code[i], q.code[i], i, InTry(x))
    {
      assert FilledAt(b.code[i], q.code[i], i, x);
    }
  }

  lemma TryBodyLaid(a: FS, s1: FS, b: FS, s: Stmt, q: Prog, x: Ctx, o1: int, o2: int)
    requires s.TryCatch? && EmitsS(TryIn(a), s1, s.body) && o1 == |a.code| + 1 && o2 == |s1.code| && Copies(b, s1, o1)
    requires Fits(a, x) && Fills(q, b, |a.code|, x)
    ensures IsS(q, s.body, |a.names|, InTry(x), o1, o2)
  {
    FillsPart(q, b, s1, |a.code|, o1, x);
    FillsTry(q, s1, o1, x);
    assert Fits(TryIn(a), InTry(x));
    assert |TryIn(a).code| == o1;
  }

  lemma TryLaid(a: FS, s1: FS, s2: FS, s3: FS, b: FS, s: Stmt, q: Prog, x: Ctx, d1: nat, o1: int, o3: int, end: int)
    requires s.TryCatch? && TryShape(a, s1, s2, s3, b) && EmitsS(s2, s3, s.handler) && |s2.names| == d1 == |a.names| + 1
    requires IsS(q, s.body, |a.names|, InTry(x), o1, |s1.code|) && Fits(s2, x)
    requires Fills(q, b, |a.code|, x) && o1 == |a.code| + 1 && o3 == |s1.code| + 1 && end == |b.code|
    ensures IsS(q, s, |a.names|, x, |a.code|, end)
  {
    var d, o, o2, o4 := |a.names|, |a.code|, |s1.code|, |s2.code|;
    TryFrame(a, s1, s2, s3, b, q, x, o1, o3, end);
    FillsPart(q, b, s3, o, o4, x);
    MakeTry(q, s, d, d1, x, o, o1, o2, o3, o4, end);
  }

  /** The instructions around the two blocks. */
  lemma TryFrame(a: FS, s1: FS, s2: FS, s3: FS, b: FS, q: Prog, x: Ctx, o1: int, o3: int, end: int)
    requires TryShape(a, s1, s2, s3, b) && Fills(q, b, |a.code|, x)
    requires o1 == |a.code| + 1 && o3 == |s1.code| + 1 && end == |b.code|
    ensures TrapAt(q, |a.code|, o1, |a.names|, |s2.code|) && LaidPop(q, 1, |s1.code|, o3)
    ensures JmpAt(q, o3, |s2.code|, end)
  {
    var o, o2 := |a.code|, |s1.code|;
    assert FilledAt(b.code[o], q.code[o], o, x) && FilledAt(b.code[o2], q.code[o2], o2, x)
      && FilledAt(b.code[o3], q.code[o3], o3, x);
  }

  lemma TryEmits(a: FS, s1: FS, s2: FS, s3: FS, b: FS, s: Stmt, trapoff: int, jmp: nat, jmpoff: int)
    requires TrySteps(a, s1, s2, s3, b, s, trapoff, jmp, jmpoff)
    ensures EmitsS(a, b, s)
  {
    TryShapes(a, s1, s2, s3, b, s, trapoff, jmp, jmpoff);
    TrySteady(a, s1, s2, s3, b, s, trapoff, jmp, jmpoff);
    forall q, x | Fits(a, x) && Fills(q, b, |a.code|, x)
      ensures IsS(q, s, |a.names|, x, |a.code|, |b.code|)
    {
      assert Fits(s2, x);
      TryBodyLaid(a, s1, b, s, q, x, |a.code| + 1, |s1.code|);
      TryLaid(a, s1, s2, s3, b, s, q, x, |s2.names|, |a.code| + 1, jmp, |b.code|);
    }
  }
}
