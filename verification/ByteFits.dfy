/**
  Which functions have code whose registers fit in the bytes instructions have for them. It is
  read off the function: the number of a register is the depth at which the value is needed.
 */
module ByteFits {
  import opened Squirrel
  import opened Bytecode
  import opened Layout
  import opened FuncState

  predicate Small(t: int) {
    t < MAX_REGISTERS
  }

  /** How many try blocks surround a statement, and how many of them a break and a continue leave (-1: none allowed). */
  datatype Nest = Nest(tries: nat, brk: int, cont: int)

  function Around(k: Nest): (r: Nest) {
    Nest(k.tries + 1, if k.brk < 0 then k.brk else k.brk + 1, if k.cont < 0 then k.cont else k.cont + 1)
  }

  function NestOf(x: Ctx): (k: Nest) {
    Nest(x.tries, if x.brk.Jump? then x.brk.tries else -1, if x.cont.Jump? then x.cont.tries else -1)
  }

  predicate FitsMove(t: nat, s: nat) {
    t == s || Small(t)
  }

  predicate FitsOperand(e: Expr, t: nat)
    decreases e, 1
  {
    FitsE(e, t + 1) && FitsMove(t, Target(e, t + 1))
  }

  predicate FitsE(e: Expr, d: nat)
    decreases e, 0
  {
    match e
    case Const(_) => Small(d)
    case Local(_) => true
    case Un(_, e1) => FitsE(e1, d) && Small(d)
    case Bin(_, l, r) => FitsE(l, d) && FitsE(r, After(l, d)) && Small(d) && Small(Target(l, d))
    case AndE(l, r) => FitsE(l, d) && Small(d) && Small(Target(l, d)) && FitsOperand(r, d)
    case OrE(l, r) => FitsE(l, d) && Small(d) && Small(Target(l, d)) && FitsOperand(r, d)
    case Cond(c, a, b) => FitsE(c, d) && Small(Target(c, d)) && FitsOperand(a, d) && FitsOperand(b, d)
  }

  /** The test of a statement. */
  predicate FitsTest(c: Expr, d: nat) {
    FitsE(c, d) && Small(Target(c, d))
  }

  predicate FitsS(s: Stmt, d: nat, k: Nest) {
    match s
    case Empty => true
    case Eval(e) => FitsE(e, d)
    case Assign(v, e) => FitsE(e, d) && Small(v)
    case If(c, t) => FitsTest(c, d) && FitsS(t, d, k)
    case IfElse(c, t, f) => FitsTest(c, d) && FitsS(t, d, k) && FitsS(f, d, k)
    case While(c, b) => FitsTest(c, d) && FitsS(b, d, Nest(k.tries, 0, 0))
    case DoWhile(b, c) => FitsS(b, d, Nest(k.tries, 0, 0)) && FitsTest(c, d)
    case For(c, inc, b) => FitsTest(c, d) && FitsS(b, d, Nest(k.tries, 0, 0)) && FitsS(inc, d, k)
    case Switch(e, cases) => FitsE(e, d) && FitsC(cases, Target(e, d), After(e, d), Nest(k.tries, 0, k.cont))
    case TryCatch(b, h) => Small(d) && FitsS(b, d, Around(k)) && FitsS(h, d + 1, k)
    case Throw(e) => FitsE(e, d) && Small(Target(e, d))
    case Return(e) => FitsE(e, d) && Small(k.tries)
    case ReturnNull => Small(k.tries)
    case Break => Small(k.brk)
    case Continue => Small(k.cont)
    case Block(items) => FitsI(items, d, k)
  }

  predicate FitsI(items: Items, d: nat, k: Nest) {
    match items
    case Done => true
    case Decl(e, rest) => FitsE(e, d) && FitsMove(d, Target(e, d)) && FitsI(rest, d + 1, k)
    case DeclNull(rest) => Small(d) && FitsI(rest, d + 1, k)
    case Then(s, rest) => FitsS(s, d, k) && FitsI(rest, d, k)
  }

  predicate FitsC(cases: Cases, t: nat, d: nat, k: Nest) {
    match cases
    case Default(body) => FitsI(body, d, k)
    case Case(c, body, rest) => FitsE(c, d) && Small(d) && Small(t) && FitsI(body, d, k) && FitsC(rest, t, d, k)
  }

  // ---------- The code fits just when the function does ----------

  /** Nothing is lost of the instructions from `o` to `end`. */
  ghost predicate Whole(code: seq<Instr>, o: int, end: int) {
    forall i :: o <= i < end && 0 <= i < |code| ==> Byte(code[i]) == code[i]
  }

  lemma WholeJoin(code: seq<Instr>, o: int, m: int, end: int)
    requires o <= m <= end
    ensures Whole(code, o, end) <==> Whole(code, o, m) && Whole(code, m, end)
  {
  }

  lemma WholeJoin3(code: seq<Instr>, o: int, o1: int, o2: int, end: int)
    requires o <= o1 <= o2 <= end
    ensures Whole(code, o, end) <==> Whole(code, o, o1) && Whole(code, o1, o2) && Whole(code, o2, end)
  {
    WholeJoin(code, o, o1, end);
    WholeJoin(code, o1, o2, end);
  }

  lemma WholeJoin4(code: seq<Instr>, o: int, o1: int, o2: int, o3: int, end: int)
    requires o <= o1 <= o2 <= o3 <= end
    ensures Whole(code, o, end) <==>
      Whole(code, o, o1) && Whole(code, o1, o2) && Whole(code, o2, o3) && Whole(code, o3, end)
  {
    WholeJoin(code, o, o1, end);
    WholeJoin3(code, o1, o2, o3, end);
  }

  lemma WholeJoin5(code: seq<Instr>, o: int, o1: int, o2: int, o3: int, o4: int, end: int)
    requires o <= o1 <= o2 <= o3 <= o4 <= end
    ensures Whole(code, o, end) <==>
      Whole(code, o, o1) && Whole(code, o1, o2) && Whole(code, o2, o3) && Whole(code, o3, o4) && Whole(code, o4, end)
  {
    WholeJoin(code, o, o1, end);
    WholeJoin4(code, o1, o2, o3, o4, end);
  }

  /** One instruction, and whether it fits. */
  lemma WholeAt(p: Prog, o: int, next: int, i: Instr)
    requires Has(p, o, i) && next == o + 1
    ensures Whole(p.code, o, next) <==> Byte(i) == i
  {
    WholeOne(p.code, o);
  }

  lemma WholeOne(code: seq<Instr>, o: int)
    requires 0 <= o < |code|
    ensures Whole(code, o, o + 1) <==> Byte(code[o]) == code[o]
  {
  }

  lemma MoveWhole(p: Prog, t: nat, s: nat, o: int, end: int)
    requires LaidMove(p, t, s, o, end)
    ensures o <= end && (Whole(p.code, o, end) <==> FitsMove(t, s))
  {
    if t != s { WholeOne(p.code, o); }
  }

  lemma ConstWhole(i: Instr, t: nat, v: Value, lits: seq<Value>)
    requires LoadsConst(i, t, v, lits)
    ensures Byte(i) == i <==> Small(t)
  {
  }

  /** The code of an expression and what it takes to fit. */
  ghost predicate WholeE(p: Prog, e: Expr, d: nat, o: int, end: int) {
    o <= end && (Whole(p.code, o, end) <==> FitsE(e, d))
  }

  ghost predicate WholeOperand(p: Prog, e: Expr, t: nat, o: int, end: int) {
    o <= end && (Whole(p.code, o, end) <==> FitsOperand(e, t))
  }

  lemma {:induction false} ExprWhole(p: Prog, L: ExprMap, n: nat, e: Expr, d: nat, o: int, end: int)
    requires MapsExprs(p, L) && L(n, e, d, o, end)
    ensures WholeE(p, e, d, o, end)
    decreases e, 1
  {
    assert LaidE(p, L, n, e, d, o, end);
    match e {
      case Const(v) =>
        WholeOne(p.code, o);
        ConstWhole(p.code[o], d, v, p.lits);
      case Local(_) =>
      case Un(_, _) => UnWhole(p, L, n, e, d, o, end);
      case Bin(_, _, _) => BinWhole(p, L, n, e, d, o, end);
      case AndE(_, _) => LogicWhole(p, L, n, e, d, o, end);
      case OrE(_, _) => LogicWhole(p, L, n, e, d, o, end);
      case Cond(_, _, _) => CondWhole(p, L, n, e, d, o, end);
    }
  }

  lemma {:induction false} UnWhole(p: Prog, L: ExprMap, n: nat, e: Expr, d: nat, o: int, end: int)
    requires e.Un? && MapsExprs(p, L) && LaidE(p, L, n, e, d, o, end)
    ensures WholeE(p, e, d, o, end)
    decreases e, 0
  {
    var o1 :| L(n, e.e, d, o, o1) && UnAt(p, o1, end, e.op, d, Target(e.e, d));
    ExprWhole(p, L, n, e.e, d, o, o1);
    WholeAt(p, o1, end, UN(e.op, d, Target(e.e, d)));
    WholeJoin(p.code, o, o1, end);
  }

  lemma {:induction false} BinWhole(p: Prog, L: ExprMap, n: nat, e: Expr, d: nat, o: int, end: int)
    requires e.Bin? && MapsExprs(p, L) && LaidE(p, L, n, e, d, o, end)
    ensures WholeE(p, e, d, o, end)
    decreases e, 0
  {
    var d1 := After(e.l, d);
    var o1, o2 :| L(n, e.l, d, o, o1) && L(n, e.r, d1, o1, o2)
      && BinAt(p, o2, end, e.bop, d, Target(e.r, d1), Target(e.l, d));
    ExprWhole(p, L, n, e.l, d, o, o1);
    ExprWhole(p, L, n, e.r, d1, o1, o2);
    WholeAt(p, o2, end, BIN(e.bop, d, Target(e.r, d1), Target(e.l, d)));
    WholeJoin3(p.code, o, o1, o2, end);
  }

  lemma {:induction false} LogicWhole(p: Prog, L: ExprMap, n: nat, e: Expr, d: nat, o: int, end: int)
    requires (e.AndE? || e.OrE?) && MapsExprs(p, L) && LaidE(p, L, n, e, d, o, end)
    ensures WholeE(p, e, d, o, end)
    decreases e, 0
  {
    var t1 := Target(e.l, d);
    var o1, o2, o3 :| L(n, e.l, d, o, o1) && (e.AndE? ==> AndAt(p, o1, o2, d, end, t1))
      && (e.OrE? ==> OrAt(p, o1, o2, d, end, t1))
      && LaidMove(p, d, t1, o2, o3) && LaidOperand(p, L, n, e.r, d, o3, end);
    ExprWhole(p, L, n, e.l, d, o, o1);
    OperandWhole(p, L, n, e.r, d, o3, end);
    LogicJoins(p, e, d, o, o1, o2, o3, end);
  }

  lemma LogicJoins(p: Prog, e: Expr, d: nat, o: int, o1: int, o2: int, o3: int, end: int)
    requires (e.AndE? || e.OrE?) && WholeE(p, e.l, d, o, o1) && WholeOperand(p, e.r, d, o3, end)
    requires if e.AndE? then AndAt(p, o1, o2, d, end, Target(e.l, d)) else OrAt(p, o1, o2, d, end, Target(e.l, d))
    requires LaidMove(p, d, Target(e.l, d), o2, o3)
    ensures WholeE(p, e, d, o, end)
  {
    var t1 := Target(e.l, d);
    WholeAt(p, o1, o2, if e.AndE? then AND(d, end - o2, t1) else OR(d, end - o2, t1));
    MoveWhole(p, d, t1, o2, o3);
    WholeJoin4(p.code, o, o1, o2, o3, end);
  }

  lemma {:induction false} CondWhole(p: Prog, L: ExprMap, n: nat, e: Expr, d: nat, o: int, end: int)
    requires e.Cond? && MapsExprs(p, L) && LaidE(p, L, n, e, d, o, end)
    ensures WholeE(p, e, d, o, end)
    decreases e, 0
  {
    var o1, o2, o3, o4 :| L(n, e.c, d, o, o1) && JzAt(p, o1, o2, Target(e.c, d), o4)
      && LaidOperand(p, L, n, e.a, d, o2, o3) && JmpAt(p, o3, o4, end) && LaidOperand(p, L, n, e.b, d, o4, end);
    ExprWhole(p, L, n, e.c, d, o, o1);
    OperandWhole(p, L, n, e.a, d, o2, o3);
    OperandWhole(p, L, n, e.b, d, o4, end);
    CondJoins(p, e, d, o, o1, o2, o3, o4, end);
  }

  lemma CondJoins(p: Prog, e: Expr, d: nat, o: int, o1: int, o2: int, o3: int, o4: int, end: int)
    requires e.Cond? && WholeE(p, e.c, d, o, o1) && WholeOperand(p, e.a, d, o2, o3) && WholeOperand(p, e.b, d, o4, end)
    requires JzAt(p, o1, o2, Target(e.c, d), o4) && JmpAt(p, o3, o4, end)
    ensures WholeE(p, e, d, o, end)
  {
    WholeAt(p, o1, o2, JZ(Target(e.c, d), o4 - o2));
    WholeAt(p, o3, o4, JMP(end - o4));
    WholeJoin5(p.code, o, o1, o2, o3, o4, end);
  }

  lemma {:induction false} OperandWhole(p: Prog, L: ExprMap, n: nat, e: Expr, t: nat, o: int, end: int)
    requires MapsExprs(p, L) && LaidOperand(p, L, n, e, t, o, end)
    ensures WholeOperand(p, e, t, o, end)
    decreases e, 2
  {
    var d: nat, o1 :| d == t + 1 && L(n, e, d, o, o1) && LaidMove(p, t, Target(e, d), o1, end);
    ExprWhole(p, L, n, e, d, o, o1);
    MoveWhole(p, t, Target(e, d), o1, end);
    WholeJoin(p.code, o, o1, end);
  }

  // ---------- Statements ----------

  ghost predicate WholeS(p: Prog, s: Stmt, d: nat, k: Nest, o: int, end: int) {
    o <= end && (Whole(p.code, o, end) <==> FitsS(s, d, k))
  }

  ghost predicate WholeI(p: Prog, items: Items, d: nat, k: Nest, o: int, end: int) {
    o <= end && (Whole(p.code, o, end) <==> FitsI(items, d, k))
  }

  ghost predicate WholeC(p: Prog, cases: Cases, t: nat, d: nat, k: Nest, o: int, end: int) {
    o <= end && (Whole(p.code, o, end) <==> FitsC(cases, t, d, k))
  }

  lemma PopWhole(p: Prog, count: nat, o: int, end: int)
    requires LaidPop(p, count, o, end)
    ensures o <= end && (Whole(p.code, o, end) <==> Small(count))
  {
    if count > 0 { WholeOne(p.code, o); }
  }

  /** A test: an expression and a jump on it. */
  lemma TestWhole(p: Prog, c: Expr, d: nat, o: int, o1: int, o2: int, to: int)
    requires WholeE(p, c, d, o, o1) && JzAt(p, o1, o2, Target(c, d), to)
    ensures o <= o2 && (Whole(p.code, o, o2) <==> FitsTest(c, d))
  {
    WholeAt(p, o1, o2, JZ(Target(c, d), to - o2));
    WholeJoin(p.code, o, o1, o2);
  }

  lemma JmpWhole(p: Prog, o: int, next: int, to: int)
    requires JmpAt(p, o, next, to)
    ensures o <= next && Whole(p.code, o, next)
  {
    WholeAt(p, o, next, JMP(to - next));
  }

  lemma {:induction false} StmtWhole(p: Prog, M: Maps, s: Stmt, d: nat, x: Ctx, o: int, end: int)
    requires MapsCode(p, M) && M.S(s, d, x, o, end)
    ensures WholeS(p, s, d, NestOf(x), o, end)
    decreases s, 1
  {
    assert LaidS(p, M, s, d, x, o, end);
    match s {
      case Empty =>
      case Eval(e) => ExprWhole(p, M.E, d, e, d, o, end);
      case Assign(_, _) => SimpleWhole(p, M, s, d, x, o, end);
      case Throw(_) => SimpleWhole(p, M, s, d, x, o, end);
      case Return(_) => ReturnWhole(p, M, s, d, x, o, end);
      case ReturnNull => JumpWhole(p, M, s, d, x, o, end);
      case Break => JumpWhole(p, M, s, d, x, o, end);
      case Continue => JumpWhole(p, M, s, d, x, o, end);
      case If(_, _) => IfWhole(p, M, s, d, x, o, end);
      case IfElse(_, _, _) => IfElseWhole(p, M, s, d, x, o, end);
      case While(_, _) => WhileWhole(p, M, s, d, x, o, end);
      case DoWhile(_, _) => DoWhileWhole(p, M, s, d, x, o, end);
      case For(_, _, _) => ForWhole(p, M, s, d, x, o, end);
      case Switch(e, cases) =>
        var o1, b :| M.E(d, e, d, o, o1) && M.C(cases, Target(e, d), After(e, d), InSwitch(x, end), o1, b, end);
        ExprWhole(p, M.E, d, e, d, o, o1);
        CasesWhole(p, M, cases, Target(e, d), After(e, d), InSwitch(x, end), o1, b, end);
        WholeJoin(p.code, o, o1, end);
      case TryCatch(_, _) => TryWhole(p, M, s, d, x, o, end);
      case Block(items) => ItemsWhole(p, M, items, d, x, o, end);
    }
  }

  lemma SimpleWhole(p: Prog, M: Maps, s: Stmt, d: nat, x: Ctx, o: int, end: int)
    requires MapsCode(p, M) && (s.Assign? || s.Throw?) && LaidS(p, M, s, d, x, o, end)
    ensures WholeS(p, s, d, NestOf(x), o, end)
  {
    var t := Target(s.e, d);
    var o1 :| M.E(d, s.e, d, o, o1) && (s.Assign? ==> MoveAt(p, o1, end, s.pos, t))
      && (s.Throw? ==> ThrowAt(p, o1, end, t));
    ExprWhole(p, M.E, d, s.e, d, o, o1);
    WholeAt(p, o1, end, if s.Assign? then MOVE(s.pos, t) else THROW(t));
    WholeJoin(p.code, o, o1, end);
  }

  lemma ReturnWhole(p: Prog, M: Maps, s: Stmt, d: nat, x: Ctx, o: int, end: int)
    requires MapsCode(p, M) && s.Return? && LaidS(p, M, s, d, x, o, end)
    ensures WholeS(p, s, d, NestOf(x), o, end)
  {
    var o1, o2 :| M.E(d, s.e, d, o, o1) && LaidPop(p, x.tries, o1, o2) && RetAt(p, o2, end, true, Target(s.e, d));
    ExprWhole(p, M.E, d, s.e, d, o, o1);
    PopWhole(p, x.tries, o1, o2);
    WholeAt(p, o2, end, RETURN(true, Target(s.e, d)));
    WholeJoin3(p.code, o, o1, o2, end);
  }

  lemma JumpWhole(p: Prog, M: Maps, s: Stmt, d: nat, x: Ctx, o: int, end: int)
    requires (s.ReturnNull? || s.Break? || s.Continue?) && LaidS(p, M, s, d, x, o, end)
    ensures WholeS(p, s, d, NestOf(x), o, end)
  {
    match s {
      case ReturnNull =>
        var o1, r :| LaidPop(p, x.tries, o, o1) && RetAt(p, o1, end, false, r);
        PopWhole(p, x.tries, o, o1);
        WholeAt(p, o1, end, RETURN(false, r));
        WholeJoin(p.code, o, o1, end);
      case Break =>
        var o1 :| LaidPop(p, x.brk.tries, o, o1) && JmpAt(p, o1, end, x.brk.at);
        PopWhole(p, x.brk.tries, o, o1);
        JmpWhole(p, o1, end, x.brk.at);
        WholeJoin(p.code, o, o1, end);
      case Continue =>
        var o1 :| LaidPop(p, x.cont.tries, o, o1) && JmpAt(p, o1, end, x.cont.at);
        PopWhole(p, x.cont.tries, o, o1);
        JmpWhole(p, o1, end, x.cont.at);
        WholeJoin(p.code, o, o1, end);
    }
  }

  lemma {:induction false} IfWhole(p: Prog, M: Maps, s: Stmt, d: nat, x: Ctx, o: int, end: int)
    requires MapsCode(p, M) && s.If? && LaidS(p, M, s, d, x, o, end)
    ensures WholeS(p, s, d, NestOf(x), o, end)
    decreases s, 0
  {
    var o1, o2 :| M.E(d, s.c, d, o, o1) && JzAt(p, o1, o2, Target(s.c, d), end) && M.S(s.thn, d, x, o2, end);
    ExprWhole(p, M.E, d, s.c, d, o, o1);
    TestWhole(p, s.c, d, o, o1, o2, end);
    StmtWhole(p, M, s.thn, d, x, o2, end);
    WholeJoin(p.code, o, o2, end);
  }

  lemma {:induction false} IfElseWhole(p: Prog, M: Maps, s: Stmt, d: nat, x: Ctx, o: int, end: int)
    requires MapsCode(p, M) && s.IfElse? && LaidS(p, M, s, d, x, o, end)
    ensures WholeS(p, s, d, NestOf(x), o, end)
    decreases s, 0
  {
    var o1, o2, o3, o4 :| M.E(d, s.c, d, o, o1) && JzAt(p, o1, o2, Target(s.c, d), o4)
      && M.S(s.thn, d, x, o2, o3) && JmpAt(p, o3, o4, end) && M.S(s.els, d, x, o4, end);
    ExprWhole(p, M.E, d, s.c, d, o, o1);
    TestWhole(p, s.c, d, o, o1, o2, o4);
    StmtWhole(p, M, s.thn, d, x, o2, o3);
    JmpWhole(p, o3, o4, end);
    StmtWhole(p, M, s.els, d, x, o4, end);
    WholeJoin4(p.code, o, o2, o3, o4, end);
  }

  lemma {:induction false} WhileWhole(p: Prog, M: Maps, s: Stmt, d: nat, x: Ctx, o: int, end: int)
    requires MapsCode(p, M) && s.While? && LaidS(p, M, s, d, x, o, end)
    ensures WholeS(p, s, d, NestOf(x), o, end)
    decreases s, 0
  {
    var o1, o2, o3 := WhileParts(p, M, s, d, x, o, end);
    ExprWhole(p, M.E, d, s.c, d, o, o1);
    TestWhole(p, s.c, d, o, o1, o2, end);
    StmtWhole(p, M, s.body, d, InLoop(x, end, o), o2, o3);
    JmpWhole(p, o3, end, o);
    WholeJoin3(p.code, o, o2, o3, end);
  }

  lemma {:induction false} DoWhileWhole(p: Prog, M: Maps, s: Stmt, d: nat, x: Ctx, o: int, end: int)
    requires MapsCode(p, M) && s.DoWhile? && LaidS(p, M, s, d, x, o, end)
    ensures WholeS(p, s, d, NestOf(x), o, end)
    decreases s, 0
  {
    var o1, o2, o3 := DoWhileParts(p, M, s, d, x, o, end);
    StmtWhole(p, M, s.body, d, InLoop(x, end, o1), o, o1);
    ExprWhole(p, M.E, d, s.c, d, o1, o2);
    TestWhole(p, s.c, d, o1, o2, o3, end);
    JmpWhole(p, o3, end, o);
    WholeJoin3(p.code, o, o1, o3, end);
  }

  lemma {:induction false} ForWhole(p: Prog, M: Maps, s: Stmt, d: nat, x: Ctx, o: int, end: int)
    requires MapsCode(p, M) && s.For? && LaidS(p, M, s, d, x, o, end)
    ensures WholeS(p, s, d, NestOf(x), o, end)
    decreases s, 0
  {
    var o1, o2, o3, o4 := ForParts(p, M, s, d, x, o, end);
    ExprWhole(p, M.E, d, s.c, d, o, o1);
    TestWhole(p, s.c, d, o, o1, o2, end);
    StmtWhole(p, M, s.body, d, InLoop(x, end, o3), o2, o3);
    StmtWhole(p, M, s.inc, d, x, o3, o4);
    JmpWhole(p, o4, end, o);
    WholeJoin4(p.code, o, o2, o3, o4, end);
  }

  lemma {:induction false} TryWhole(p: Prog, M: Maps, s: Stmt, d: nat, x: Ctx, o: int, end: int)
    requires MapsCode(p, M) && s.TryCatch? && LaidS(p, M, s, d, x, o, end)
    ensures WholeS(p, s, d, NestOf(x), o, end)
    decreases s, 0
  {
    var d1, o1, o2, o3, o4 := TryParts(p, M, s, d, x, o, end);
    StmtWhole(p, M, s.body, d, InTry(x), o1, o2);
    StmtWhole(p, M, s.handler, d1, x, o4, end);
    TryJoins(p, s, d, x, o, o1, o2, o3, o4, end);
  }

  lemma TryJoins(p: Prog, s: Stmt, d: nat, x: Ctx, o: int, o1: int, o2: int, o3: int, o4: int, end: int)
    requires s.TryCatch? && TrapAt(p, o, o1, d, o4) && LaidPop(p, 1, o2, o3) && JmpAt(p, o3, o4, end)
    requires WholeS(p, s.body, d, NestOf(InTry(x)), o1, o2) && WholeS(p, s.handler, d + 1, NestOf(x), o4, end)
    ensures WholeS(p, s, d, NestOf(x), o, end)
  {
    WholeAt(p, o, o1, PUSHTRAP(d, o4 - o1));
    PopWhole(p, 1, o2, o3);
    JmpWhole(p, o3, o4, end);
    WholeJoin5(p.code, o, o1, o2, o3, o4, end);
  }

  lemma {:induction false} ItemsWhole(p: Prog, M: Maps, items: Items, d: nat, x: Ctx, o: int, end: int)
    requires MapsCode(p, M) && M.I(items, d, x, o, end)
    ensures WholeI(p, items, d, NestOf(x), o, end)
    decreases items, 0
  {
    assert LaidI(p, M, items, d, x, o, end);
    match items {
      case Done =>
      case Decl(e, rest) =>
        var d1: nat, o1, o2 :| d1 == d + 1 && M.E(d, e, d, o, o1) && LaidMove(p, d, Target(e, d), o1, o2)
          && M.I(rest, d1, x, o2, end);
        ExprWhole(p, M.E, d, e, d, o, o1);
        MoveWhole(p, d, Target(e, d), o1, o2);
        ItemsWhole(p, M, rest, d1, x, o2, end);
        WholeJoin3(p.code, o, o1, o2, end);
      case DeclNull(rest) =>
        var d1: nat, o1 :| d1 == d + 1 && NullAt(p, o, o1, d) && M.I(rest, d1, x, o1, end);
        WholeAt(p, o, o1, LOADNULLS(d, 1));
        ItemsWhole(p, M, rest, d1, x, o1, end);
        WholeJoin(p.code, o, o1, end);
      case Then(s, rest) =>
        var o1 :| M.S(s, d, x, o, o1) && M.I(rest, d, x, o1, end);
        StmtWhole(p, M, s, d, x, o, o1);
        ItemsWhole(p, M, rest, d, x, o1, end);
        WholeJoin(p.code, o, o1, end);
    }
  }

  lemma {:induction false} CasesWhole(p: Prog, M: Maps, cases: Cases, t: nat, d: nat, x: Ctx, o: int, b: int, end: int)
    requires MapsCode(p, M) && M.C(cases, t, d, x, o, b, end)
    ensures WholeC(p, cases, t, d, NestOf(x), o, end)
    decreases cases, 0
  {
    assert LaidC(p, M, cases, t, d, x, o, b, end);
    match cases {
      case Default(body) => ItemsWhole(p, M, body, d, x, o, end);
      case Case(c, body, rest) =>
        var o1, o2, o3, o4, b1 :| M.E(d, c, d, o, o1) && BinAt(p, o1, o2, Eq, d, Target(c, d), t)
          && JzAt(p, o2, b, d, o4) && M.I(body, d, x, b, o3) && LaidSkip(p, rest, o3, o4, b1)
            && M.C(rest, t, d, x, o4, b1, end);
        ExprWhole(p, M.E, d, c, d, o, o1);
        ItemsWhole(p, M, body, d, x, b, o3);
        CasesWhole(p, M, rest, t, d, x, o4, b1, end);
        CaseJoins(p, c, t, d, o, o1, o2, b, o3, o4);
        if rest.Case? { JmpWhole(p, o3, o4, b1); }
        WholeJoin4(p.code, o, b, o3, o4, end);
    }
  }

  lemma CaseJoins(p: Prog, c: Expr, t: nat, d: nat, o: int, o1: int, o2: int, b: int, o3: int, o4: int)
    requires WholeE(p, c, d, o, o1) && BinAt(p, o1, o2, Eq, d, Target(c, d), t) && JzAt(p, o2, b, d, o4)
    ensures o <= b && (Whole(p.code, o, b) <==> FitsE(c, d) && Small(d) && Small(t))
  {
    WholeAt(p, o1, o2, BIN(Eq, d, Target(c, d), t));
    WholeAt(p, o2, b, JZ(d, o4 - b));
    WholeJoin3(p.code, o, o1, o2, b);
  }
}
