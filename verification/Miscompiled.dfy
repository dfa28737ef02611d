/** Functions whose code does not do what they mean, as they come out of the compiler. */
module Miscompiled {
  import opened Squirrel
  import opened Bytecode
  import opened Layout
  import opened CodeOf
  import opened FunctionCorrect
  import opened FuncState
  import opened StmtEmit
  import opened Resources
  import opened EndToEnd

  // ---------- A test at the start ----------

  const BLIND_TEST := For(Local(0), Empty, Return(Const(Integer(1))))

  lemma BlindTestCode(q: Prog, M: Maps, end: int)
    requires MapsCode(q, M) && M.S(BLIND_TEST, 1, TOP, 0, end)
    ensures q.stacksize > 1 && |q.code| > 2 && q.code[0].JZ? && q.code[0].s == 0
    ensures q.code[1] == LOADINT(1, 1) && q.code[2] == RETURN(true, 1)
  {
    assert LaidS(q, M, BLIND_TEST, 1, TOP, 0, end);
    var o1, o2, o3, o4 :| M.E(1, Local(0), 1, 0, o1) && JzAt(q, o1, o2, 0, end)
      && M.S(BLIND_TEST.body, 1, InLoop(TOP, end, o3), o2, o3) && M.S(Empty, 1, TOP, o3, o4) && JmpAt(q, o4, end, 0);
    assert LaidE(q, M.E, 1, Local(0), 1, 0, o1);
    ReturnOneCode(q, M, InLoop(TOP, end, o3), o2, o3);
  }

  lemma ReturnOneCode(q: Prog, M: Maps, x: Ctx, o: int, end: int)
    requires MapsCode(q, M) && M.S(BLIND_TEST.body, 1, x, o, end) && x.tries == 0
    ensures q.stacksize > 1 && Has(q, o, LOADINT(1, 1)) && Has(q, o + 1, RETURN(true, 1))
  {
    assert LaidS(q, M, BLIND_TEST.body, 1, x, o, end);
    var r, r1 :| M.E(1, Const(Integer(1)), 1, o, r) && LaidPop(q, 0, r, r1) && RetAt(q, r1, end, true, 1);
    assert LaidE(q, M.E, 1, Const(Integer(1)), 1, o, r);
  }

  lemma BlindTestIs(q: Prog)
    requires IsF(q, BLIND_TEST, 1)
    ensures q.stacksize > 1 && |q.code| > 2 && q.code[0].JZ? && q.code[0].s == 0
    ensures q.code[1] == LOADINT(1, 1) && q.code[2] == RETURN(true, 1)
  {
    CodeMapsMap(q);
    var end := BodyIs(q, BLIND_TEST, 1);
    BlindTestCode(q, CodeMaps(q), end);
  }

  lemma BlindTestStored(code: seq<Instr>, wide: seq<Instr>)
    requires Stored(code, wide, true)
    requires |wide| > 2 && wide[0].JZ? && wide[0].s == 0 && wide[1] == LOADINT(1, 1) && wide[2] == RETURN(true, 1)
    ensures |code| > 2 && code[0] == JZ(0, 0) && code[1] == LOADINT(1, 1) && code[2] == RETURN(true, 1)
  {
  }

  lemma BlindTestSteps(p: Prog, start: Config)
    requires Has(p, 0, JZ(0, 0)) && Has(p, 1, LOADINT(1, 1)) && Has(p, 2, RETURN(true, 1)) && p.stacksize > 1
    requires Called(p, start, [Null])
    ensures StepN(p, 3, start) == Returned(Integer(1), NoTrap)
  {
    var regs := start.regs;
    Three(p, start, Run(1, regs, NoTrap), Run(2, regs[1 := Integer(1)], NoTrap), Returned(Integer(1), NoTrap));
  }

  lemma BlindTestMeans(sem: Sem)
    ensures ExecS(sem, BLIND_TEST, [Null], 1) == Normal([Null])
  {
  }

  /** Called with null the loop does nothing; run as it is stored, the code answers 1. */
  lemma BlindTestRuns(q: Prog, p: Prog, start: Config)
    requires IsF(q, BLIND_TEST, 1) && Stored(p.code, q.code, true) && p.stacksize == q.stacksize
    requires Called(p, start, [Null])
    ensures ExecS(p.sem, BLIND_TEST, [Null], 1) == Normal([Null])
    ensures StepN(p, 3, start) == Returned(Integer(1), NoTrap)
  {
    BlindTestIs(q);
    BlindTestStored(p.code, q.code);
    BlindTestMeans(p.sem);
    BlindTestSteps(p, start);
  }

  lemma Three(p: Prog, c0: Config, c1: Config, c2: Config, c3: Config)
    requires Step(p, c0) == c1 && Step(p, c1) == c2 && Step(p, c2) == c3
    ensures StepN(p, 3, c0) == c3
  {
    assert StepN(p, 3, c0) == StepN(p, 2, c1) == StepN(p, 1, c2) == StepN(p, 0, c3);
  }

  lemma BlindTestAccepted()
    ensures Accepted(BLIND_TEST, 1) && TestFirst(BLIND_TEST)
  {
    assert RoomS(BLIND_TEST.body, 1, 1);
    assert LitsS(BLIND_TEST) == [];
  }

  /**
    The compiler takes `function(x) { for(; x;) return 1; }`. Called with null the body means to end
    and answer null; the compiled code answers 1.
   */
  method CompileBlindTest() returns (code: seq<Instr>, lits: seq<Value>, stacksize: nat)
    ensures forall sem, start :: Called(Prog(code, lits, stacksize, sem), start, [Null]) ==>
      StepN(Prog(code, lits, stacksize, sem), 3, start) == Returned(Integer(1), NoTrap)
        && ExecS(sem, BLIND_TEST, [Null], 1) == Normal([Null])
  {
    var ok;
    ghost var wide;
    BlindTestAccepted();
    ok, code, lits, stacksize, wide := CompileFunction(1, BLIND_TEST);
    forall sem, start | Called(Prog(code, lits, stacksize, sem), start, [Null])
      ensures StepN(Prog(code, lits, stacksize, sem), 3, start) == Returned(Integer(1), NoTrap)
      ensures ExecS(sem, BLIND_TEST, [Null], 1) == Normal([Null])
    {
      BlindTestRuns(Prog(wide, lits, stacksize, sem), Prog(code, lits, stacksize, sem), start);
    }
  }

  // ---------- A catch variable beyond the bytes ----------

  const CATCH_FAR := TryCatch(Throw(Local(1)), Return(Local(0x100)))

  lemma CatchFarCode(q: Prog, M: Maps, end: int)
    requires MapsCode(q, M) && M.S(CATCH_FAR, 0x100, TOP, 0, end)
    ensures q.stacksize > 0x100
    ensures Has(q, 0, PUSHTRAP(0x100, 3)) && Has(q, 1, THROW(1)) && Has(q, 4, RETURN(true, 0x100))
  {
    var d1, o1, o2, o3, o4 := TryParts(q, M, CATCH_FAR, 0x100, TOP, 0, end);
    assert LaidS(q, M, CATCH_FAR.body, 0x100, InTry(TOP), o1, o2);
    var t :| M.E(0x100, Local(1), 0x100, o1, t) && ThrowAt(q, t, o2, 1);
    assert LaidE(q, M.E, 0x100, Local(1), 0x100, o1, t);
    assert LaidS(q, M, CATCH_FAR.handler, d1, TOP, o4, end);
    var r, r1 :| M.E(d1, Local(0x100), d1, o4, r) && LaidPop(q, 0, r, r1) && RetAt(q, r1, end, true, 0x100);
    assert LaidE(q, M.E, d1, Local(0x100), d1, o4, r);
  }

  lemma CatchFarIs(q: Prog)
    requires IsF(q, CATCH_FAR, 0x100)
    ensures q.stacksize > 0x100
    ensures Has(q, 0, PUSHTRAP(0x100, 3)) && Has(q, 1, THROW(1)) && Has(q, 4, RETURN(true, 0x100))
  {
    CodeMapsMap(q);
    var end := BodyIs(q, CATCH_FAR, 0x100);
    CatchFarCode(q, CodeMaps(q), end);
  }

  lemma CatchFarStored(code: seq<Instr>, wide: seq<Instr>)
    requires Stored(code, wide, false)
    requires |wide| > 4 && wide[0] == PUSHTRAP(0x100, 3) && wide[1] == THROW(1) && wide[4] == RETURN(true, 0x100)
    ensures |code| > 4 && code[0] == PUSHTRAP(0, 3) && code[1] == THROW(1) && code[4] == RETURN(true, 0x100)
  {
  }

  /** The error goes to register 0, and what register 256 happened to hold is returned. */
  lemma CatchFar(q: Prog, p: Prog, args: seq<Value>, start: Config)
    requires IsF(q, CATCH_FAR, 0x100) && Stored(p.code, q.code, false) && p.stacksize == q.stacksize
    requires |args| == 0x100 && Called(p, start, args)
    ensures |start.regs| > 0x100 && StepN(p, 4, start) == Returned(start.regs[0x100], NoTrap)
    ensures ExecS(p.sem, CATCH_FAR, args, 1) == Ret(args[1])
  {
    CatchFarIs(q);
    CatchFarStored(p.code, q.code);
    CatchFarMeans(p.sem, args);
    CatchFarRuns(p, args, start);
  }

  lemma CatchFarAccepted()
    ensures Accepted(CATCH_FAR, 0x100) && !TestFirst(CATCH_FAR) && !Compilable(CATCH_FAR, 0x100)
  {
    assert RoomS(CATCH_FAR.body, 0x100, 0x100) && RoomS(CATCH_FAR.handler, 0x101, 0x101);
    assert LitsS(CATCH_FAR) == [];
  }

  /**
    The compiler takes `function(this, x1, ..., x255) { try throw x1; catch(e) return e; }`. It means
    to answer its second argument; the compiled code answers what register 256 happened to hold.
   */
  method CompileCatchFar() returns (code: seq<Instr>, lits: seq<Value>, stacksize: nat)
    ensures forall sem, args, start :: |args| == 0x100 && Called(Prog(code, lits, stacksize, sem), start, args) ==>
      |start.regs| > 0x100
        && StepN(Prog(code, lits, stacksize, sem), 4, start) == Returned(start.regs[0x100], NoTrap)
        && ExecS(sem, CATCH_FAR, args, 1) == Ret(args[1])
  {
    var ok;
    ghost var wide;
    CatchFarAccepted();
    ok, code, lits, stacksize, wide := CompileFunction(0x100, CATCH_FAR);
    forall sem, args, start | |args| == 0x100 && Called(Prog(code, lits, stacksize, sem), start, args)
      ensures |start.regs| > 0x100
      ensures StepN(Prog(code, lits, stacksize, sem), 4, start) == Returned(start.regs[0x100], NoTrap)
      ensures ExecS(sem, CATCH_FAR, args, 1) == Ret(args[1])
    {
      CatchFar(Prog(wide, lits, stacksize, sem), Prog(code, lits, stacksize, sem), args, start);
    }
  }

  lemma CatchFarMeans(sem: Sem, args: seq<Value>)
    requires |args| == 0x100
    ensures ExecS(sem, CATCH_FAR, args, 1) == Ret(args[1])
  {
    assert ExecS(sem, CATCH_FAR.body, args, 1) == Threw(args[1], args);
  }

  lemma CatchFarRuns(p: Prog, args: seq<Value>, start: Config)
    requires Has(p, 0, PUSHTRAP(0, 3)) && Has(p, 1, THROW(1)) && Has(p, 4, RETURN(true, 0x100)) && p.stacksize > 0x100
    requires |args| == 0x100 && Called(p, start, args)
    ensures |start.regs| > 0x100 && StepN(p, 4, start) == Returned(start.regs[0x100], NoTrap)
  {
    var c1 := Run(1, start.regs, Trap(4, 0, NoTrap));
    var c2 := Raise(args[1], start.regs, Trap(4, 0, NoTrap));
    var c3 := Run(4, start.regs[0 := args[1]], NoTrap);
    Four(p, start, c1, c2, c3, Returned(start.regs[0x100], NoTrap));
  }

  lemma Four(p: Prog, c0: Config, c1: Config, c2: Config, c3: Config, c4: Config)
    requires Step(p, c0) == c1 && Step(p, c1) == c2 && Step(p, c2) == c3 && Step(p, c3) == c4
    ensures StepN(p, 4, c0) == c4
  {
    assert StepN(p, 4, c0) == StepN(p, 3, c1) == StepN(p, 2, c2) == StepN(p, 1, c3) == StepN(p, 0, c4);
  }

  // ---------- A remainder that fails ----------

  const REMAINDER := TryCatch(Return(Bin(Mod, Local(0), Local(1))), ReturnNull)

  lemma RemainderCode(p: Prog, M: Maps, end: int)
    requires MapsCode(p, M) && M.S(REMAINDER, 2, TOP, 0, end)
    ensures p.stacksize > 2 && |p.code| > 3 && p.code[0].PUSHTRAP?
    ensures Has(p, 1, BIN(Mod, 2, 1, 0)) && Has(p, 2, POPTRAP(1)) && Has(p, 3, RETURN(true, 2))
  {
    var d1, o1, o2, o3, o4 := TryParts(p, M, REMAINDER, 2, TOP, 0, end);
    ReturnRemainderCode(p, M, o1, o2);
  }

  lemma ReturnRemainderCode(p: Prog, M: Maps, o: int, end: int)
    requires MapsCode(p, M) && M.S(REMAINDER.body, 2, InTry(TOP), o, end)
    ensures p.stacksize > 2
    ensures Has(p, o, BIN(Mod, 2, 1, 0)) && Has(p, o + 1, POPTRAP(1)) && Has(p, o + 2, RETURN(true, 2))
  {
    assert LaidS(p, M, REMAINDER.body, 2, InTry(TOP), o, end);
    var e := Bin(Mod, Local(0), Local(1));
    var r, r1 :| M.E(2, e, 2, o, r) && LaidPop(p, 1, r, r1) && RetAt(p, r1, end, true, 2);
    RemainderExprCode(p, M.E, o, r);
  }

  lemma RemainderExprCode(p: Prog, L: ExprMap, o: int, end: int)
    requires MapsExprs(p, L) && L(2, Bin(Mod, Local(0), Local(1)), 2, o, end)
    ensures p.stacksize > 2 && Has(p, o, BIN(Mod, 2, 1, 0)) && end == o + 1
  {
    assert LaidE(p, L, 2, Bin(Mod, Local(0), Local(1)), 2, o, end);
    var a, b :| L(2, Local(0), 2, o, a) && L(2, Local(1), 2, a, b) && BinAt(p, b, end, Mod, 2, 1, 0);
    assert LaidE(p, L, 2, Local(0), 2, o, a) && LaidE(p, L, 2, Local(1), 2, a, b);
  }

  /**
    For `function(x, y) { try return x % y; catch(e) return null; }` and operands whose remainder is
    an error, as 1 and 0, the handler is not entered: what register 2 happened to hold is returned.
   */
  lemma RemainderStrays(p: Prog, args: seq<Value>, start: Config)
    requires IsF(p, REMAINDER, 2)
    requires |args| == 2 && Called(p, start, args) && !p.sem.bin(Mod, args[0], args[1]).Ok?
    ensures Strays(p.sem, REMAINDER, args)
    ensures |start.regs| > 2 && StepN(p, 4, start) == Returned(start.regs[2], NoTrap)
  {
    CodeMapsMap(p);
    var end := BodyIs(p, REMAINDER, 2);
    RemainderCode(p, CodeMaps(p), end);
    RemainderMeans(p.sem, args);
    RemainderRuns(p, args, start);
  }

  lemma RemainderMeans(sem: Sem, args: seq<Value>)
    requires |args| == 2 && !sem.bin(Mod, args[0], args[1]).Ok?
    ensures Strays(sem, REMAINDER, args)
  {
    assert EvalE(sem, REMAINDER.body.e, args) == Lost;
    assert ExecS(sem, REMAINDER.body, args, 1) == Strayed;
    assert ExecS(sem, REMAINDER, args, 1).Strayed?;
  }

  lemma RemainderRuns(p: Prog, args: seq<Value>, start: Config)
    requires |p.code| > 3 && p.code[0].PUSHTRAP?
    requires Has(p, 1, BIN(Mod, 2, 1, 0)) && Has(p, 2, POPTRAP(1)) && Has(p, 3, RETURN(true, 2))
    requires |args| == 2 && Called(p, start, args) && |start.regs| > 2 && !p.sem.bin(Mod, args[0], args[1]).Ok?
    ensures StepN(p, 4, start) == Returned(start.regs[2], NoTrap)
  {
    var regs := start.regs;
    var traps := Trap(1 + p.code[0].off, p.code[0].ext, NoTrap);
    assert Drop(traps, 1) == Drop(NoTrap, 0) == NoTrap;
    Four(p, start, Run(1, regs, traps), Run(2, regs, traps), Run(3, regs, NoTrap), Returned(regs[2], NoTrap));
  }
}
