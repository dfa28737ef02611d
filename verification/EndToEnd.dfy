/** From a function to its runs: compiling and running does what the function means. */
module EndToEnd {
  import opened Squirrel
  import opened Bytecode
  import opened Layout
  import opened CodeOf
  import opened FunctionCorrect
  import opened FuncState
  import opened StmtEmit
  import opened Relocation
  import opened ByteFits
  import opened Resources
  import Compiler

  /**
    What a call of the compiled function is: unless a `%` fails on the way, it halts just when the
    body ends, with the same answer, and never gets stuck.
   */
  ghost predicate RunsAs(p: Prog, s: Stmt, args: seq<Value>, start: Config) {
    && (!Strays(p.sem, s, args) ==> (Halts(p, start) <==> Ends(p.sem, s, args)))
    && (forall n: nat, fuel: nat :: Halted(StepN(p, n, start)) && Final(ExecS(p.sem, s, args, fuel)) ==>
          AnswersAs(StepN(p, n, start), ExecS(p.sem, s, args, fuel)))
    && (!Strays(p.sem, s, args) ==> forall n: nat :: StepN(p, n, start) != Stuck)
  }

  ghost predicate AnswersAs(c: Config, out: Outcome) {
    (out.Normal? || out.Ret? || out.Threw?) && c == Answer(out)
  }

  /** The code is the code of the function body, and a return. */
  ghost predicate IsF(p: Prog, s: Stmt, params: nat) {
    exists end, next :: IsS(p, s, params, TOP, 0, end) && RetAt(p, end, next, false, 0)
  }

  lemma LaidMeaning(p: Prog, M: Maps, s: Stmt, args: seq<Value>, end: int, start: Config)
    requires LaidF(p, M, s, |args|, end) && Called(p, start, args)
    ensures RunsAs(p, s, args, start)
  {
    FunctionRuns(p, M, s, args, end, start);
  }

  lemma BodyIs(p: Prog, s: Stmt, params: nat) returns (end: int)
    requires IsF(p, s, params)
    ensures IsS(p, s, params, TOP, 0, end) && RetAt(p, end, end + 1, false, 0)
  {
    var next;
    end, next :| IsS(p, s, params, TOP, 0, end) && RetAt(p, end, next, false, 0);
  }

  lemma FunctionMeaning(p: Prog, s: Stmt, params: nat, args: seq<Value>, start: Config)
    requires IsF(p, s, params) && |args| == params && Called(p, start, args)
    ensures RunsAs(p, s, args, start)
  {
    CodeMapsMap(p);
    var end := BodyIs(p, s, params);
    LaidMeaning(p, CodeMaps(p), s, args, end, start);
  }

  /**
    What the source must be for its code to be right: it does not start with the test of a for loop
    over a variable, and every register and every number of traps it needs in a byte fits in one.
   */
  predicate Compilable(s: Stmt, params: nat) {
    !TestFirst(s) && FitsS(s, params, Nest(0, -1, -1))
  }

  /** The first instruction goes on whatever the test says. */
  ghost predicate Blind(p: Prog) {
    forall regs, traps :: Step(p, Run(0, regs, traps)) == Run(1, regs, traps) || Step(p, Run(0, regs, traps)) == Stuck
  }

  /**
    Compiles a function of `params` parameters. It succeeds if and only if the body is accepted. What
    it means to store, `wide`, is then the code of the body; the stored code is that if and only if
    the body is compilable, and every call then runs as the body means. A body that starts with a
    test has the test ignored.
   */
  method CompileFunction(params: nat, s: Stmt)
    returns (ok: bool, code: seq<Instr>, lits: seq<Value>, stacksize: nat, ghost wide: seq<Instr>)
    requires Compiler.ScopedS(s, seq(params, _ => true))
    ensures ok <==> Accepted(s, params)
    ensures ok ==> Stored(code, wide, TestFirst(s)) && forall sem :: IsF(Prog(wide, lits, stacksize, sem), s, params)
    ensures ok ==> forall sem :: IsF(Prog(code, lits, stacksize, sem), s, params) <==> Compilable(s, params)
    ensures ok && Compilable(s, params) ==> forall sem, args, start ::
      |args| == params && Called(Prog(code, lits, stacksize, sem), start, args) ==>
        RunsAs(Prog(code, lits, stacksize, sem), s, args, start)
    ensures ok && TestFirst(s) ==> forall sem :: Blind(Prog(code, lits, stacksize, sem))
  {
    var fs := new SQFuncState(params);
    ghost var a := fs.State();
    ok := Compiler.Statement(fs, s);
    ghost var b := fs.State();
    if ok { fs.AddInstruction(RETURN(false, 0)); }
    code, lits, stacksize, wide := fs.instructions, fs.lits, fs.stacksize, fs.wide;
    AcceptedWhen(s, params);
    if ok { Compiled(a, b, params, s, code, wide, lits, stacksize); }
  }

  lemma Compiled(a: FS, b: FS, params: nat, s: Stmt, code: seq<Instr>, wide: seq<Instr>, lits: seq<Value>,
      stacksize: nat)
    requires a == FS([], [], a.names, [], params, [], [], [], [], 0, false) && |a.names| == params && EmitsS(a, b, s)
    requires wide == b.code + [RETURN(false, 0)] && Stored(code, wide, TestFirst(s))
    requires lits == b.lits && stacksize == b.stacksize
    ensures forall sem :: IsF(Prog(wide, lits, stacksize, sem), s, params)
    ensures forall sem :: IsF(Prog(code, lits, stacksize, sem), s, params) <==> Compilable(s, params)
    ensures Compilable(s, params) ==> forall sem, args, start ::
      |args| == params && Called(Prog(code, lits, stacksize, sem), start, args) ==>
        RunsAs(Prog(code, lits, stacksize, sem), s, args, start)
    ensures TestFirst(s) ==> forall sem :: Blind(Prog(code, lits, stacksize, sem))
  {
    forall sem
      ensures IsF(Prog(wide, lits, stacksize, sem), s, params)
      ensures IsF(Prog(code, lits, stacksize, sem), s, params) <==> Compilable(s, params)
      ensures TestFirst(s) ==> Blind(Prog(code, lits, stacksize, sem))
    {
      WideIs(a, b, s, Prog(wide, lits, stacksize, sem), params);
      Emitted(Prog(wide, lits, stacksize, sem), Prog(code, lits, stacksize, sem), s, params, |b.code|);
    }
    forall sem, args, start | Compilable(s, params) && |args| == params
      && Called(Prog(code, lits, stacksize, sem), start, args)
      ensures RunsAs(Prog(code, lits, stacksize, sem), s, args, start)
    {
      FunctionMeaning(Prog(code, lits, stacksize, sem), s, params, args, start);
    }
  }

  lemma NoHoles(code: seq<Instr>, hole: Instr, i: nat)
    requires Listed(code, hole, [], 0, 0) && i < |code|
    ensures code[i] != hole
  {
  }

  // ---------- The first instruction of a body that starts with a test ----------

  lemma {:induction false} OrderS(p: Prog, s: Stmt, d: nat, x: Ctx, o: int, end: int)
    requires IsS(p, s, d, x, o, end)
    ensures o <= end && (CodeFree(s) ==> o == end)
    decreases s
  {
    UnfoldS(p, s, d, x, o, end);
    var M := CodeMaps(p);
    match s {
      case Empty =>
      case Eval(e) => FirstE(p, d, e, d, o, end);
      case Assign(v, e) =>
        var o1 :| M.E(d, e, d, o, o1) && MoveAt(p, o1, end, v, Target(e, d));
        FirstE(p, d, e, d, o, o1);
      case Throw(e) =>
        var o1 :| M.E(d, e, d, o, o1) && ThrowAt(p, o1, end, Target(e, d));
        FirstE(p, d, e, d, o, o1);
      case Return(e) =>
        var o1, o2 :| M.E(d, e, d, o, o1) && LaidPop(p, x.tries, o1, o2) && RetAt(p, o2, end, true, Target(e, d));
        FirstE(p, d, e, d, o, o1);
      case ReturnNull =>
      case Break =>
      case Continue =>
      case Block(items) => OrderI(p, items, d, x, o, end);
      case Switch(e, cases) =>
        var o1, b :| M.E(d, e, d, o, o1) && M.C(cases, Target(e, d), After(e, d), InSwitch(x, end), o1, b, end);
        FirstE(p, d, e, d, o, o1);
        OrderC(p, cases, Target(e, d), After(e, d), InSwitch(x, end), o1, b, end);
      case _ => OrderParts(p, s, d, x, o, end);
    }
  }

  lemma {:induction false} OrderParts(p: Prog, s: Stmt, d: nat, x: Ctx, o: int, end: int)
    requires LaidS(p, CodeMaps(p), s, d, x, o, end)
      && (s.If? || s.IfElse? || s.While? || s.DoWhile? || s.For? || s.TryCatch?)
    ensures o <= end
    decreases s, 0
  {
    var M := CodeMaps(p);
    match s {
      case If(c, t) =>
        var o1, o2 :| M.E(d, c, d, o, o1) && JzAt(p, o1, o2, Target(c, d), end) && M.S(t, d, x, o2, end);
        FirstE(p, d, c, d, o, o1);
        OrderS(p, t, d, x, o2, end);
      case IfElse(c, t, f) =>
        var o1, o2, o3, o4 :| M.E(d, c, d, o, o1) && JzAt(p, o1, o2, Target(c, d), o4)
          && M.S(t, d, x, o2, o3) && JmpAt(p, o3, o4, end) && M.S(f, d, x, o4, end);
        FirstE(p, d, c, d, o, o1);
        OrderS(p, t, d, x, o2, o3);
        OrderS(p, f, d, x, o4, end);
      case While(c, b) =>
        var o1, o2, o3 :| M.E(d, c, d, o, o1) && JzAt(p, o1, o2, Target(c, d), end)
          && M.S(b, d, InLoop(x, end, o), o2, o3) && JmpAt(p, o3, end, o);
        FirstE(p, d, c, d, o, o1);
        OrderS(p, b, d, InLoop(x, end, o), o2, o3);
      case DoWhile(b, c) =>
        var o1, o2, o3 :| M.S(b, d, InLoop(x, end, o1), o, o1)
          && M.E(d, c, d, o1, o2) && JzAt(p, o2, o3, Target(c, d), end) && JmpAt(p, o3, end, o);
        OrderS(p, b, d, InLoop(x, end, o1), o, o1);
        FirstE(p, d, c, d, o1, o2);
      case For(c, inc, b) =>
        var o1, o2, o3, o4 :| M.E(d, c, d, o, o1) && JzAt(p, o1, o2, Target(c, d), end)
          && M.S(b, d, InLoop(x, end, o3), o2, o3) && M.S(inc, d, x, o3, o4) && JmpAt(p, o4, end, o);
        FirstE(p, d, c, d, o, o1);
        OrderS(p, b, d, InLoop(x, end, o3), o2, o3);
        OrderS(p, inc, d, x, o3, o4);
      case TryCatch(b, h) =>
        var d1: nat, o1, o2, o3, o4 :| d1 == d + 1 && TrapAt(p, o, o1, d, o4) && M.S(b, d, InTry(x), o1, o2)
          && LaidPop(p, 1, o2, o3) && JmpAt(p, o3, o4, end) && M.S(h, d1, x, o4, end);
        OrderS(p, b, d, InTry(x), o1, o2);
        OrderS(p, h, d1, x, o4, end);
    }
  }

  lemma {:induction false} OrderI(p: Prog, items: Items, d: nat, x: Ctx, o: int, end: int)
    requires IsI(p, items, d, x, o, end)
    ensures o <= end && (CodeFreeI(items) ==> o == end)
    decreases items
  {
    UnfoldI(p, items, d, x, o, end);
    var M := CodeMaps(p);
    match items {
      case Done =>
      case Decl(e, rest) =>
        var d1: nat, o1, o2 :| d1 == d + 1 && M.E(d, e, d, o, o1) && LaidMove(p, d, Target(e, d), o1, o2)
          && M.I(rest, d1, x, o2, end);
        FirstE(p, d, e, d, o, o1);
        OrderI(p, rest, d1, x, o2, end);
      case DeclNull(rest) =>
        var d1: nat, o1 :| d1 == d + 1 && NullAt(p, o, o1, d) && M.I(rest, d1, x, o1, end);
        OrderI(p, rest, d1, x, o1, end);
      case Then(s, rest) =>
        var o1 :| M.S(s, d, x, o, o1) && M.I(rest, d, x, o1, end);
        OrderS(p, s, d, x, o, o1);
        OrderI(p, rest, d, x, o1, end);
    }
  }

  lemma {:induction false} OrderC(p: Prog, cases: Cases, t: nat, d: nat, x: Ctx, o: int, b: int, end: int)
    requires IsC(p, cases, t, d, x, o, b, end)
    ensures o <= end && (cases.Default? && CodeFreeI(cases.body) ==> o == end)
    decreases cases
  {
    UnfoldC(p, cases, t, d, x, o, b, end);
    var M := CodeMaps(p);
    match cases {
      case Default(body) => OrderI(p, body, d, x, o, end);
      case Case(c, body, rest) =>
        var o1, o2, o3, o4, b1 :| M.E(d, c, d, o, o1) && BinAt(p, o1, o2, Eq, d, Target(c, d), t)
          && JzAt(p, o2, b, d, o4) && M.I(body, d, x, b, o3) && LaidSkip(p, rest, o3, o4, b1)
            && M.C(rest, t, d, x, o4, b1, end);
        FirstE(p, d, c, d, o, o1);
        OrderI(p, body, d, x, b, o3);
        OrderC(p, rest, t, d, x, o4, b1, end);
    }
  }

  lemma FirstE(p: Prog, n: nat, e: Expr, d: nat, o: int, end: int)
    requires IsE(p, n, e, d, o, end)
    ensures o <= end && (e.Local? ==> o == end)
  {
    OrderE(p, n, e, d, o, end);
    UnfoldE(p, n, e, d, o, end);
  }

  /** Code that starts with a test has a jump there that leads on. */
  lemma {:induction false} TestLeads(p: Prog, s: Stmt, d: nat, x: Ctx, o: int, end: int)
    requires IsS(p, s, d, x, o, end) && TestFirst(s)
    ensures 0 <= o < |p.code| && p.code[o].JZ? && p.code[o].off > 0
    decreases s
  {
    UnfoldS(p, s, d, x, o, end);
    var M := CodeMaps(p);
    match s {
      case For(c, inc, b) =>
        var o1, o2, o3, o4 :| M.E(d, c, d, o, o1) && JzAt(p, o1, o2, Target(c, d), end)
          && M.S(b, d, InLoop(x, end, o3), o2, o3) && M.S(inc, d, x, o3, o4) && JmpAt(p, o4, end, o);
        FirstE(p, d, c, d, o, o1);
        OrderS(p, b, d, InLoop(x, end, o3), o2, o3);
        OrderS(p, inc, d, x, o3, o4);
      case DoWhile(b, c) =>
        var o1, o2, o3 :| M.S(b, d, InLoop(x, end, o1), o, o1)
          && M.E(d, c, d, o1, o2) && JzAt(p, o2, o3, Target(c, d), end) && JmpAt(p, o3, end, o);
        TestLeads(p, b, d, InLoop(x, end, o1), o, o1);
      case Block(items) => TestLeadsI(p, items, d, x, o, end);
      case Switch(e, cases) =>
        var o1, b :| M.E(d, e, d, o, o1) && M.C(cases, Target(e, d), After(e, d), InSwitch(x, end), o1, b, end);
        FirstE(p, d, e, d, o, o1);
        UnfoldC(p, cases, Target(e, d), After(e, d), InSwitch(x, end), o1, b, end);
        TestLeadsI(p, cases.body, After(e, d), InSwitch(x, end), o1, end);
    }
  }

  lemma {:induction false} TestLeadsI(p: Prog, items: Items, d: nat, x: Ctx, o: int, end: int)
    requires IsI(p, items, d, x, o, end) && TestFirstI(items)
    ensures 0 <= o < |p.code| && p.code[o].JZ? && p.code[o].off > 0
    decreases items
  {
    UnfoldI(p, items, d, x, o, end);
    var M := CodeMaps(p);
    var o1 :| M.S(items.s, d, x, o, o1) && M.I(items.rest, d, x, o1, end);
    if TestFirst(items.s) {
      TestLeads(p, items.s, d, x, o, o1);
    } else {
      OrderS(p, items.s, d, x, o, o1);
      TestLeadsI(p, items.rest, d, x, o1, end);
    }
  }

  // ---------- What is stored and what was meant ----------

  lemma ByteTwice(i: Instr)
    ensures Byte(Byte(i)) == Byte(i)
  {
  }

  lemma StoredIsWhole(code: seq<Instr>, wide: seq<Instr>, blind: bool, end: int)
    requires Stored(code, wide, blind)
    ensures Whole(code, 0, end)
  {
    forall i | 0 <= i < end && 0 <= i < |code|
      ensures Byte(code[i]) == code[i]
    {
      ByteTwice(wide[i]);
      NarrowOffset(Byte(wide[i]), 0);
    }
  }

  /** The code as it was meant, before the bytes were filled. */
  lemma WideIs(a: FS, b: FS, s: Stmt, q: Prog, params: nat)
    requires a == FS([], [], a.names, [], params, [], [], [], [], 0, false) && |a.names| == params && EmitsS(a, b, s)
    requires q.code == b.code + [RETURN(false, 0)] && q.lits == b.lits && q.stacksize == b.stacksize
    ensures IsS(q, s, params, TOP, 0, |b.code|) && IsF(q, s, params)
  {
    forall i | 0 <= i < |b.code|
      ensures FilledAt(b.code[i], q.code[i], i, TOP)
    {
      NoHoles(b.code, BreakHole, i);
      NoHoles(b.code, ContinueHole, i);
    }
    assert Fits(a, TOP) && Fills(q, b, 0, TOP);
    IsBody(q, s, params, |b.code|);
  }

  lemma IsBody(p: Prog, s: Stmt, params: nat, end: int)
    requires IsS(p, s, params, TOP, 0, end) && Has(p, end, RETURN(false, 0))
    ensures IsF(p, s, params)
  {
    assert RetAt(p, end, end + 1, false, 0);
  }

  /** Code that is the code of the body is compilable, for what is stored has lost nothing. */
  lemma StoredFits(p: Prog, wide: seq<Instr>, blind: bool, s: Stmt, params: nat, end: int)
    requires Stored(p.code, wide, blind) && IsS(p, s, params, TOP, 0, end)
    ensures FitsS(s, params, Nest(0, -1, -1))
  {
    CodeMapsMap(p);
    StmtWhole(p, CodeMaps(p), s, params, TOP, 0, end);
    StoredIsWhole(p.code, wide, blind, end);
  }

  /** A body that fits is stored as it was meant. */
  lemma FitsStored(q: Prog, p: Prog, s: Stmt, params: nat, end: int)
    requires Stored(p.code, q.code, false) && p == q.(code := p.code)
    requires IsS(q, s, params, TOP, 0, end) && RetAt(q, end, end + 1, false, 0) && |q.code| == end + 1
    requires FitsS(s, params, Nest(0, -1, -1))
    ensures p == q
  {
    CodeMapsMap(q);
    StmtWhole(q, CodeMaps(q), s, params, TOP, 0, end);
    assert p.code == q.code;
  }

  /** Code that was stored without its first offset does not start with a test. */
  lemma BlindIsNot(p: Prog, s: Stmt, params: nat, end: int)
    requires p.code != [] && p.code[0].JZ? && p.code[0].off == 0 && IsS(p, s, params, TOP, 0, end)
    ensures !TestFirst(s)
  {
    if TestFirst(s) { TestLeads(p, s, params, TOP, 0, end); }
  }

  lemma BlindFirst(code: seq<Instr>, wide: seq<Instr>)
    requires Stored(code, wide, true)
    ensures code != [] && code[0].JZ? && code[0].off == 0
  {
    assert code[0] == First(wide[0], true);
  }

  lemma BlindIs(p: Prog)
    requires p.code != [] && p.code[0].JZ? && p.code[0].off == 0
    ensures Blind(p)
  {
  }

  /** Code `p` is stored of code `q`; if it is the code of the body, the body is compilable. */
  lemma OnlyCompilable(q: Prog, p: Prog, s: Stmt, params: nat)
    requires Stored(p.code, q.code, TestFirst(s)) && IsF(p, s, params)
    ensures Compilable(s, params)
  {
    var end := BodyIs(p, s, params);
    StoredFits(p, q.code, TestFirst(s), s, params, end);
    if TestFirst(s) {
      BlindFirst(p.code, q.code);
      BlindIsNot(p, s, params, end);
    }
  }

  /** Code `p` is stored of code `q`, which is that of the body. */
  lemma Emitted(q: Prog, p: Prog, s: Stmt, params: nat, end: int)
    requires Stored(p.code, q.code, TestFirst(s)) && p == q.(code := p.code)
    requires IsS(q, s, params, TOP, 0, end) && Has(q, end, RETURN(false, 0)) && |q.code| == end + 1
    ensures IsF(p, s, params) <==> Compilable(s, params)
    ensures TestFirst(s) ==> Blind(p)
  {
    if Compilable(s, params) {
      FitsStored(q, p, s, params, end);
      IsBody(p, s, params, end);
    }
    if IsF(p, s, params) { OnlyCompilable(q, p, s, params); }
    if TestFirst(s) {
      BlindFirst(p.code, q.code);
      BlindIs(p);
    }
  }
}
