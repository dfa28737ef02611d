/** The compiler proper: it walks a program and emits code into a function state. */
module Compiler {
  import opened Squirrel
  import opened Bytecode
  import opened Layout
  import opened CodeOf
  import opened FuncState
  import opened Resources
  import opened ExprEmit
  import opened StmtEmit
  import opened StmtStates
  import opened LoopStates
  import opened SwitchStates
  import opened ForStates

  // What compiling a piece of program uses up, from state `a` on.

  function CostE(a: FS, e: Expr): (r: Budget) {
    ChargeE(e, |a.names|, Spent(a))
  }

  function CostS(a: FS, s: Stmt): (r: Budget) {
    ChargeS(s, |a.names|, a.breaktargets != [], a.continuetargets != [], Spent(a))
  }

  function CostI(a: FS, items: Items): (r: Budget) {
    ChargeI(items, |a.names|, a.breaktargets != [], a.continuetargets != [], Spent(a))
  }

  function CostC(a: FS, cases: Cases): (r: Budget) {
    ChargeC(cases, |a.names|, a.continuetargets != [], Spent(a))
  }

  /** The instruction that loads a constant, which may need a place among the literals. */
  method ConstInstr(fs: SQFuncState, v: Value, t: nat) returns (ok: bool, i: Instr)
    requires fs.Valid()
    modifies fs`literals, fs`lits
    ensures fs.Valid() && old(fs.lits) <= fs.lits && fs.State() == old(fs.State()).(lits := fs.lits)
    ensures ok ==> LoadsConst(i, t, v, fs.lits)
    ensures Paid(ok, fs.State(), if IsLiteral(v) then Literal(v, Spent(old(fs.State()))) else Spent(old(fs.State())))
  {
    ok, i := true, LOADNULLS(t, 1);
    match v {
      case Null =>
      case Boolean(b) => i := LOADBOOL(t, b);
      case Integer(k) => if k <= INT_MAX && k > INT_MIN { i := LOADINT(t, k); }
      case Text(_) =>
    }
    if IsLiteral(v) {
      var lit: nat;
      ok, lit := fs.GetConstant(v);
      i := LOAD(t, lit);
    }
  }

  method LoadConst(fs: SQFuncState, e: Expr, ghost n: nat) returns (ok: bool)
    requires fs.Valid() && e.Const?
    modifies fs
    ensures fs.Valid()
    ensures ok ==> EmitsE(old(fs.State()), fs.State(), n, e)
    ensures Paid(ok, fs.State(), CostE(old(fs.State()), e))
  {
    ghost var a := fs.State();
    var t: nat, i: Instr;
    ok, t := fs.PushTarget();
    if !ok { return; }
    ok, i := ConstInstr(fs, e.v, t);
    if !ok { return; }
    fs.AddInstruction(i);
    ConstEmits(a, fs.State(), n, e, i);
  }

  /** Compiles an expression and pops its target. */
  method Evaluate(fs: SQFuncState, e: Expr, ghost names: seq<bool>) returns (ok: bool, t: nat, ghost s1: FS)
    requires fs.Valid() && ScopedE(e, names) && names <= fs.vlocals
    modifies fs
    ensures fs.Valid()
    ensures ok ==> EmitsE(old(fs.State()), s1, |names|, e) && t == Target(e, |old(fs.vlocals)|)
    ensures ok ==> fs.State() == Dropped(old(fs.State()), s1)
    ensures Paid(ok, fs.State(), CostE(old(fs.State()), e))
    decreases e, 2
  {
    ghost var a := fs.State();
    t, s1 := 0, a;
    ok := Expression(fs, e, names);
    if !ok { return; }
    s1 := fs.State();
    PopsE(a, s1, s1, |names|, e, names);
    t := fs.PopTarget();
  }

  method Unary(fs: SQFuncState, e: Expr, ghost names: seq<bool>) returns (ok: bool)
    requires fs.Valid() && e.Un? && ScopedE(e, names) && names <= fs.vlocals
    modifies fs
    ensures fs.Valid()
    ensures ok ==> EmitsE(old(fs.State()), fs.State(), |names|, e)
    ensures Paid(ok, fs.State(), CostE(old(fs.State()), e))
    decreases e, 0
  {
    ghost var a := fs.State();
    var src: nat, t: nat;
    ghost var s1;
    ok, src, s1 := Evaluate(fs, e.e, names);
    if !ok { return; }
    ok, t := fs.PushTarget();
    if !ok { return; }
    fs.AddInstruction(UN(e.op, t, src));
    UnEmits(a, s1, fs.State(), |names|, e);
  }

  /** Both operands of a binary operator, their targets popped. */
  method Operands(fs: SQFuncState, e: Expr, ghost names: seq<bool>)
    returns (ok: bool, op1: nat, op2: nat, ghost s1: FS, ghost s2: FS)
    requires fs.Valid() && e.Bin? && ScopedE(e, names) && names <= fs.vlocals
    modifies fs
    ensures fs.Valid()
    ensures ok ==> EmitsE(old(fs.State()), s1, |names|, e.l) && EmitsE(s1, s2, |names|, e.r)
    ensures ok ==> fs.State() == s2.(targets := old(fs.targetstack), names := old(fs.vlocals))
    ensures ok ==> op1 == Target(e.r, |s1.names|) && op2 == Target(e.l, |old(fs.vlocals)|)
    ensures Paid(ok, fs.State(), ChargeE(e.r, After(e.l, |old(fs.vlocals)|), CostE(old(fs.State()), e.l)))
    decreases e, 0, 0
  {
    ghost var a := fs.State();
    op1, op2, s1, s2 := 0, 0, a, a;
    ok := Expression(fs, e.l, names);
    if !ok { return; }
    s1 := fs.State();
    ok := Expression(fs, e.r, names);
    if !ok { return; }
    s2 := fs.State();
    op1, op2 := PopOperands(fs, a, s1, e, names);
  }

  method PopOperands(fs: SQFuncState, ghost a: FS, ghost s1: FS, ghost e: Expr, ghost names: seq<bool>)
    returns (op1: nat, op2: nat)
    requires fs.Valid() && e.Bin? && ScopedE(e, names) && names <= a.names
    requires EmitsE(a, s1, |names|, e.l) && EmitsE(s1, fs.State(), |names|, e.r)
    modifies fs`vlocals, fs`targetstack
    ensures fs.Valid() && fs.State() == old(fs.State()).(targets := a.targets, names := a.names)
    ensures op1 == Target(e.r, |s1.names|) && op2 == Target(e.l, |a.names|)
  {
    PopsE(s1, fs.State(), fs.State(), |names|, e.r, names);
    op1 := fs.PopTarget();
    PopsE(a, s1, fs.State(), |names|, e.l, names);
    op2 := fs.PopTarget();
  }

  method Binary(fs: SQFuncState, e: Expr, ghost names: seq<bool>) returns (ok: bool)
    requires fs.Valid() && e.Bin? && ScopedE(e, names) && names <= fs.vlocals
    modifies fs
    ensures fs.Valid()
    ensures ok ==> EmitsE(old(fs.State()), fs.State(), |names|, e)
    ensures Paid(ok, fs.State(), CostE(old(fs.State()), e))
    decreases e, 0
  {
    ghost var a := fs.State();
    var op1, op2, t: nat;
    ghost var s1, s2;
    ok, op1, op2, s1, s2 := Operands(fs, e, names);
    if !ok { return; }
    ok, t := fs.PushTarget();
    if !ok { return; }
    fs.AddInstruction(BIN(e.bop, t, op1, op2));
    BinEmits(a, s1, s2, fs.State(), |names|, e);
  }

  /** An operand that has to end up in position `t`. */
  method Operand(fs: SQFuncState, e: Expr, t: nat, ghost names: seq<bool>) returns (ok: bool, ghost s1: FS)
    requires fs.Valid() && ScopedE(e, names) && names <= fs.vlocals
    modifies fs
    ensures fs.Valid()
    ensures ok ==> EmitsE(old(fs.State()), s1, |names|, e)
    ensures ok ==> fs.State() == Settled(old(fs.State()), s1, t, Target(e, |old(fs.vlocals)|))
    ensures Paid(ok, fs.State(), CostE(old(fs.State()), e))
    decreases e, 3
  {
    var s: nat;
    ok, s, s1 := Evaluate(fs, e, names);
    if !ok { return; }
    if t != s { fs.AddInstruction(MOVE(t, s)); }
  }

  /** The first operand of a short-circuit operator, with the jump over the second. */
  method LogicFirst(fs: SQFuncState, e: Expr, ghost names: seq<bool>)
    returns (ok: bool, t: nat, i: Instr, jpos: nat, ghost s1: FS)
    requires fs.Valid() && (e.AndE? || e.OrE?) && ScopedE(e, names) && names <= fs.vlocals
    modifies fs
    ensures fs.Valid()
    ensures ok ==> EmitsE(old(fs.State()), s1, |names|, e.l) && names <= fs.vlocals
    ensures ok ==> t == |old(fs.vlocals)| && jpos == |s1.code| < |fs.instructions| && (fs.blind ==> jpos > 0)
    ensures ok ==> i == if e.AndE? then AND(t, 0, Target(e.l, t)) else OR(t, 0, Target(e.l, t))
    ensures ok ==> fs.State() == SecondOperand(old(fs.State()), s1, i, Target(e.l, t))
    ensures Paid(ok, fs.State(), Slot(|old(fs.vlocals)|, CostE(old(fs.State()), e.l)))
    decreases e, 0, 0
  {
    var first: nat;
    t, jpos, i := 0, 0, JMP(0);
    ok, first, s1 := Evaluate(fs, e.l, names);
    if !ok { return; }
    ok, t := fs.PushTarget();
    if !ok { return; }
    i := if e.AndE? then AND(t, 0, first) else OR(t, 0, first);
    jpos := LogicJump(fs, i, t, first);
  }

  /** The jump over the second operand; the value is put where the result goes. */
  method LogicJump(fs: SQFuncState, i: Instr, t: nat, first: nat) returns (jpos: nat)
    requires fs.Valid()
    modifies fs`instructions, fs`wide
    ensures fs.Valid() && jpos == |old(fs.instructions)| && fs.State() == Moved(Emit(old(fs.State()), i), t, first)
  {
    jpos := |fs.instructions|;
    fs.AddInstruction(i);
    if t != first { fs.AddInstruction(MOVE(t, first)); }
  }

  /** The second operand, to which the jump at `jpos` does not come. */
  method LogicSecond(fs: SQFuncState, e: Expr, t: nat, jpos: nat, ghost names: seq<bool>)
    returns (ok: bool, off: int, ghost s3: FS, ghost s4: FS)
    requires fs.Valid() && (e.AndE? || e.OrE?) && ScopedE(e, names) && names <= fs.vlocals
    requires jpos < |fs.instructions| && (fs.blind ==> jpos > 0)
    modifies fs
    ensures fs.Valid()
    ensures ok ==> EmitsE(old(fs.State()), s3, |names|, e.r)
    ensures ok ==> s4 == Settled(old(fs.State()), s3, t, Target(e.r, |old(fs.vlocals)|))
    ensures ok ==> jpos < |s4.code| && off == |s4.code| - 1 - jpos && fs.State() == Patch(s4, jpos, off)
    ensures Paid(ok, fs.State(), CostE(old(fs.State()), e.r))
    decreases e, 0, 0
  {
    off := 0;
    ok, s3 := Operand(fs, e.r, t, names);
    s4 := fs.State();
    if !ok { return; }
    off := |fs.instructions| - 1 - jpos;
    fs.SetOffset(jpos, off);
  }

  method Logic(fs: SQFuncState, e: Expr, ghost names: seq<bool>) returns (ok: bool)
    requires fs.Valid() && (e.AndE? || e.OrE?) && ScopedE(e, names) && names <= fs.vlocals
    modifies fs
    ensures fs.Valid()
    ensures ok ==> EmitsE(old(fs.State()), fs.State(), |names|, e)
    ensures Paid(ok, fs.State(), CostE(old(fs.State()), e))
    decreases e, 0
  {
    ghost var a := fs.State();
    var t, i, jpos;
    ghost var s1;
    ok, t, i, jpos, s1 := LogicFirst(fs, e, names);
    if !ok { return; }
    ghost var s2, s3, s4 := fs.State(), fs.State(), fs.State();
    var off;
    ok, off, s3, s4 := LogicSecond(fs, e, t, jpos, names);
    if !ok { return; }
    LogicEmits(a, s1, s2, s3, s4, fs.State(), |names|, e, i, jpos, off);
  }

  /** The test of a conditional, and a target for its value. */
  method ConditionalTest(fs: SQFuncState, e: Expr, ghost names: seq<bool>)
    returns (ok: bool, t: nat, jzpos: nat, ghost s1: FS)
    requires fs.Valid() && e.Cond? && ScopedE(e, names) && names <= fs.vlocals
    modifies fs
    ensures fs.Valid()
    ensures ok ==> EmitsE(old(fs.State()), s1, |names|, e.c) && names <= fs.vlocals
    ensures ok ==> t == |old(fs.vlocals)| && jzpos == |s1.code| < |fs.instructions| && (fs.blind ==> jzpos > 0)
    ensures ok ==> fs.State() == FirstBranch(old(fs.State()), s1, e)
    ensures Paid(ok, fs.State(), Slot(|old(fs.vlocals)|, CostE(old(fs.State()), e.c)))
    decreases e, 0, 0
  {
    var test: nat;
    t, jzpos := 0, 0;
    ok, test, s1 := Evaluate(fs, e.c, names);
    if !ok { return; }
    fs.AddInstruction(JZ(test, 0));
    jzpos := |fs.instructions| - 1;
    ok, t := fs.PushTarget();
  }

  /** Both branches of a conditional, each leaving its value in position `t`, and the jump between them. */
  method ConditionalBranches(fs: SQFuncState, e: Expr, t: nat, ghost names: seq<bool>)
    returns (ok: bool, endfirst: int, jmppos: nat, ghost s3: FS, ghost s5: FS, ghost s7: FS)
    requires fs.Valid() && e.Cond? && ScopedE(e, names) && names <= fs.vlocals
    modifies fs
    ensures fs.Valid()
    ensures ok ==> EmitsE(old(fs.State()), s3, |names|, e.a) && EmitsE(s5, s7, |names|, e.b)
    ensures ok ==> s5 == Emit(Settled(old(fs.State()), s3, t, Target(e.a, |old(fs.vlocals)|)), JMP(0))
    ensures ok ==> fs.State() == Settled(s5, s7, t, Target(e.b, |s5.names|))
    ensures ok ==> jmppos == |s5.code| - 1 && endfirst == jmppos - 1
    ensures Paid(ok, fs.State(), ChargeE(e.b, |old(fs.vlocals)|, CostE(old(fs.State()), e.a)))
    decreases e, 0, 0
  {
    endfirst, jmppos, s5, s7 := 0, 0, fs.State(), fs.State();
    ok, s3 := Operand(fs, e.a, t, names);
    if !ok { return; }
    endfirst := |fs.instructions| - 1;
    fs.AddInstruction(JMP(0));
    jmppos := |fs.instructions| - 1;
    s5 := fs.State();
    ok, s7 := Operand(fs, e.b, t, names);
  }

  /** Both jumps of a conditional get their targets. */
  method Reach(fs: SQFuncState, jmppos: nat, jmpoff: int, jzpos: nat, jzoff: int)
    requires fs.Valid() && jmppos < |fs.instructions| && jzpos < |fs.instructions|
    requires fs.blind ==> jmppos > 0 && jzpos > 0
    modifies fs
    ensures fs.Valid() && fs.State() == Patch(Patch(old(fs.State()), jmppos, jmpoff), jzpos, jzoff)
  {
    fs.SetOffset(jmppos, jmpoff);
    fs.SetOffset(jzpos, jzoff);
  }

  /** A conditional behind its test: the branches, and where the jumps lead. */
  method ConditionalRest(fs: SQFuncState, e: Expr, t: nat, jzpos: nat, ghost names: seq<bool>)
    returns (ok: bool, jmppos: nat, jmpoff: int, jzoff: int, ghost s3: FS, ghost s5: FS, ghost s7: FS, ghost s8: FS)
    requires fs.Valid() && e.Cond? && ScopedE(e, names) && names <= fs.vlocals
    requires jzpos < |fs.instructions| && (fs.blind ==> jzpos > 0)
    modifies fs
    ensures fs.Valid()
    ensures ok ==> EmitsE(old(fs.State()), s3, |names|, e.a) && EmitsE(s5, s7, |names|, e.b)
    ensures ok ==>
      BranchSteps(old(fs.State()), s3, s5, s7, s8, fs.State(), e, t, jmppos, jmpoff, jzpos, jzoff)
    ensures Paid(ok, fs.State(), ChargeE(e.b, |old(fs.vlocals)|, CostE(old(fs.State()), e.a)))
    decreases e, 0, 1
  {
    var endfirst;
    jmpoff, jzoff := 0, 0;
    ok, endfirst, jmppos, s3, s5, s7 := ConditionalBranches(fs, e, t, names);
    s8 := fs.State();
    if !ok { return; }
    jmpoff, jzoff := |fs.instructions| - 1 - jmppos, endfirst - jzpos + 1;
    Reach(fs, jmppos, jmpoff, jzpos, jzoff);
  }

  method Conditional(fs: SQFuncState, e: Expr, ghost names: seq<bool>) returns (ok: bool)
    requires fs.Valid() && e.Cond? && ScopedE(e, names) && names <= fs.vlocals
    modifies fs
    ensures fs.Valid()
    ensures ok ==> EmitsE(old(fs.State()), fs.State(), |names|, e)
    ensures Paid(ok, fs.State(), CostE(old(fs.State()), e))
    decreases e, 0
  {
    ghost var a := fs.State();
    var t, jzpos;
    ghost var s1;
    ok, t, jzpos, s1 := ConditionalTest(fs, e, names);
    if !ok { return; }
    ghost var s2, s3, s5, s7, s8 := fs.State(), fs.State(), fs.State(), fs.State(), fs.State();
    var jmppos, jmpoff, jzoff;
    ok, jmppos, jmpoff, jzoff, s3, s5, s7, s8 := ConditionalRest(fs, e, t, jzpos, names);
    if !ok { return; }
    CondEmits(a, s1, s2, s3, s5, s7, s8, fs.State(), |names|, e, jmppos, jmpoff, jzpos, jzoff);
  }

  /**
    Compiles an expression. It fails when the function needs too many stack positions or
    literals; otherwise what it emits is the code of the expression, its value is one more target,
    and no other part of the state but code, literals and stack size is different.
   */
  method Expression(fs: SQFuncState, e: Expr, ghost names: seq<bool>) returns (ok: bool)
    requires fs.Valid() && ScopedE(e, names) && names <= fs.vlocals
    modifies fs
    ensures fs.Valid()
    ensures ok ==> EmitsE(old(fs.State()), fs.State(), |names|, e)
    ensures Paid(ok, fs.State(), CostE(old(fs.State()), e))
    decreases e, 1
  {
    ghost var a := fs.State();
    match e {
      case Const(_) => ok := LoadConst(fs, e, |names|);
      case Local(p) =>
        fs.PushTargetAt(p);
        LocalEmits(a, fs.State(), names, e);
        ok := true;
      case Un(_, _) => ok := Unary(fs, e, names);
      case Bin(_, _, _) => ok := Binary(fs, e, names);
      case AndE(_, _) => ok := Logic(fs, e, names);
      case OrE(_, _) => ok := Logic(fs, e, names);
      case Cond(_, _, _) => ok := Conditional(fs, e, names);
    }
  }

  // ---------- Statements ----------

  /** Every variable is a named position; a block, a handler and a switch have more of them inside. */
  predicate ScopedS(s: Stmt, names: seq<bool>) {
    match s
    case Empty => true
    case Eval(e) => ScopedE(e, names)
    case Assign(v, e) => v < |names| && names[v] && ScopedE(e, names)
    case If(c, t) => ScopedE(c, names) && ScopedS(t, names)
    case IfElse(c, t, f) => ScopedE(c, names) && ScopedS(t, names) && ScopedS(f, names)
    case While(c, b) => ScopedE(c, names) && ScopedS(b, names)
    case DoWhile(b, c) => ScopedS(b, names) && ScopedE(c, names)
    case For(c, inc, b) =>
      ScopedE(c, names) && (inc.Empty? || inc.Eval? || inc.Assign?) && ScopedS(inc, names) && ScopedS(b, names)
    case Switch(e, cases) => ScopedE(e, names) && ScopedC(cases, if e.Local? then names else names + [false])
    case TryCatch(b, h) => ScopedS(b, names) && ScopedS(h, names + [true])
    case Throw(e) => ScopedE(e, names)
    case Return(e) => ScopedE(e, names)
    case ReturnNull => true
    case Break => true
    case Continue => true
    case Block(items) => ScopedI(items, names)
  }

  predicate ScopedI(items: Items, names: seq<bool>) {
    match items
    case Done => true
    case Decl(e, rest) => ScopedE(e, names) && ScopedI(rest, names + [true])
    case DeclNull(rest) => ScopedI(rest, names + [true])
    case Then(s, rest) => ScopedS(s, names) && ScopedI(rest, names)
  }

  predicate ScopedC(cases: Cases, names: seq<bool>) {
    match cases
    case Default(body) => ScopedI(body, names)
    case Case(c, body, rest) => ScopedE(c, names) && ScopedI(body, names) && ScopedC(rest, names)
  }

  /** Statements that are an expression and at most one instruction; no jump is left waiting. */
  method Simple(fs: SQFuncState, s: Stmt) returns (ok: bool)
    requires fs.Valid() && (s.Empty? || s.Eval? || s.Assign? || s.Throw?) && ScopedS(s, fs.vlocals)
    modifies fs
    ensures fs.Valid()
    ensures ok ==> EmitsS(old(fs.State()), fs.State(), s)
    ensures Paid(ok, fs.State(), CostS(old(fs.State()), s))
    ensures ok ==>
      fs.unresolvedbreaks == old(fs.unresolvedbreaks) && fs.unresolvedcontinues == old(fs.unresolvedcontinues)
  {
    ghost var a := fs.State();
    if s.Empty? {
      EmptyEmits(a);
      return true;
    }
    if s.Assign? {
      ok := Assignment(fs, s);
      return;
    }
    var t: nat;
    ghost var s1 := a;
    ok, t, s1 := Evaluate(fs, s.e, fs.vlocals);
    if !ok { return; }
    if s.Throw? { fs.AddInstruction(THROW(t)); }
    assert fs.wide == s1.code + Tail(s, |a.names|);
    SimpleEmits(a, a, s1, fs.State(), s);
  }

  /** The variable is a target while the value is computed. */
  method Assignment(fs: SQFuncState, s: Stmt) returns (ok: bool)
    requires fs.Valid() && s.Assign? && ScopedS(s, fs.vlocals)
    modifies fs
    ensures fs.Valid()
    ensures ok ==> EmitsS(old(fs.State()), fs.State(), s)
    ensures Paid(ok, fs.State(), CostS(old(fs.State()), s))
    ensures ok ==>
      fs.unresolvedbreaks == old(fs.unresolvedbreaks) && fs.unresolvedcontinues == old(fs.unresolvedcontinues)
  {
    ghost var a, s1 := fs.State(), fs.State();
    var t: nat;
    fs.PushTargetAt(s.pos);
    ghost var a1 := fs.State();
    ok, t, s1 := Evaluate(fs, s.e, fs.vlocals);
    if !ok { return; }
    var dst := fs.targetstack[|fs.targetstack| - 1];
    fs.AddInstruction(MOVE(dst, t));
    assert fs.targetstack[..|fs.targetstack| - 1] == a.targets;
    var _ := fs.PopTarget();
    SimpleEmits(a, a1, s1, fs.State(), s);
  }

  /** The test of a statement, with a jump to be patched later. */
  method Test(fs: SQFuncState, c: Expr) returns (ok: bool, jz: nat, ghost s1: FS)
    requires fs.Valid() && ScopedE(c, fs.vlocals)
    modifies fs
    ensures fs.Valid()
    ensures ok ==> TestSteps(old(fs.State()), s1, fs.State(), c) && jz == |s1.code|
    ensures Paid(ok, fs.State(), CostE(old(fs.State()), c))
  {
    var t: nat;
    jz := 0;
    ok, t, s1 := Evaluate(fs, c, fs.vlocals);
    if !ok { return; }
    fs.AddInstruction(JZ(t, 0));
    jz := |fs.instructions| - 1;
  }

  method IfStatement(fs: SQFuncState, s: Stmt) returns (ok: bool)
    requires fs.Valid() && s.If? && ScopedS(s, fs.vlocals)
    modifies fs
    ensures fs.Valid()
    ensures ok ==> EmitsS(old(fs.State()), fs.State(), s)
    ensures Paid(ok, fs.State(), CostS(old(fs.State()), s))
    decreases s, 0
  {
    ghost var a, s1 := fs.State(), fs.State();
    var jz: nat;
    ok, jz, s1 := Test(fs, s.c);
    if !ok { return; }
    ghost var s2 := fs.State();
    TestFacts(a, s1, s2, s.c);
    ok := Statement(fs, s.thn);
    if !ok { return; }
    ghost var s3 := fs.State();
    var off := |fs.instructions| - 1 - jz;
    fs.SetOffset(jz, off);
    IfEmits(a, s1, s2, s3, fs.State(), s, jz, off);
  }

  method IfElseStatement(fs: SQFuncState, s: Stmt) returns (ok: bool)
    requires fs.Valid() && s.IfElse? && ScopedS(s, fs.vlocals)
    modifies fs
    ensures fs.Valid()
    ensures ok ==> EmitsS(old(fs.State()), fs.State(), s)
    ensures Paid(ok, fs.State(), CostS(old(fs.State()), s))
    decreases s, 0
  {
    ghost var a, s1 := fs.State(), fs.State();
    var jz: nat;
    ok, jz, s1 := Test(fs, s.c);
    if !ok { return; }
    ghost var s2 := fs.State();
    TestFacts(a, s1, s2, s.c);
    ok := Statement(fs, s.thn);
    if !ok { return; }
    ghost var s3 := fs.State();
    var endif := |fs.instructions| - 1;
    fs.AddInstruction(JMP(0));
    ghost var s4 := fs.State();
    var jmp := |fs.instructions| - 1;
    ok := Statement(fs, s.els);
    if !ok { return; }
    ghost var s5 := fs.State();
    var jmpoff, jzoff := |fs.instructions| - 1 - jmp, endif - jz + 1;
    Reach(fs, jmp, jmpoff, jz, jzoff);
    IfElseEmits(a, s1, s2, s3, s4, s5, fs.State(), s, jz, jzoff, jmp, jmpoff);
  }

  method BeginBreakable(fs: SQFuncState) returns (nbreaks: nat, ncontinues: nat)
    requires fs.Valid()
    modifies fs
    ensures fs.Valid() && fs.State() == LoopIn(old(fs.State()))
    ensures nbreaks == |old(fs.unresolvedbreaks)| && ncontinues == |old(fs.unresolvedcontinues)|
  {
    nbreaks, ncontinues := |fs.unresolvedbreaks|, |fs.unresolvedcontinues|;
    fs.PushBreakTarget();
    fs.PushContinueTarget();
  }

  /** Patches the jumps that waited since state `a`; continues lead to `to`. */
  method EndBreakable(fs: SQFuncState, nbreaks: nat, ncontinues: nat, to: int, ghost a: FS)
    requires fs.Valid() && nbreaks == |a.breaks| && ncontinues == |a.continues| && CanResolve(fs.State(), a)
    requires fs.breaktargets == a.breaktargets + [0] && fs.continuetargets == a.continuetargets + [0]
    modifies fs
    ensures fs.Valid() && fs.State() == Resolved(old(fs.State()), a, to)
  {
    fs.ResolveContinuesFrom(ncontinues, to);
    fs.ResolveBreaksFrom(nbreaks);
    LeaveLoop(fs, a);
  }

  method LeaveLoop(fs: SQFuncState, ghost a: FS)
    requires fs.Valid()
    requires fs.breaktargets == a.breaktargets + [0] && fs.continuetargets == a.continuetargets + [0]
    modifies fs
    ensures fs.Valid()
    ensures fs.State() == old(fs.State()).(breaktargets := a.breaktargets, continuetargets := a.continuetargets)
  {
    fs.PopBreakTarget();
    fs.PopContinueTarget();
    assert fs.breaktargets == a.breaktargets && fs.continuetargets == a.continuetargets;
  }

  /** The body of a loop: what waits before it and its breaks and continues are told apart. */
  method LoopBody(fs: SQFuncState, s: Stmt) returns (ok: bool, nbreaks: nat, ncontinues: nat)
    requires fs.Valid() && ScopedS(s, fs.vlocals)
    modifies fs
    ensures fs.Valid() && nbreaks == |old(fs.unresolvedbreaks)| && ncontinues == |old(fs.unresolvedcontinues)|
    ensures ok ==> EmitsS(LoopIn(old(fs.State())), fs.State(), s)
    ensures Paid(ok, fs.State(), ChargeS(s, |old(fs.vlocals)|, true, true, Spent(old(fs.State()))))
    decreases s, 2
  {
    nbreaks, ncontinues := BeginBreakable(fs);
    ok := Statement(fs, s);
  }

  /** A while loop behind its body. */
  method WhileTail(fs: SQFuncState, ghost s: Stmt, start: nat, jz: nat, nbreaks: nat, ncontinues: nat,
      ghost a: FS, ghost s1: FS, ghost s2: FS)
    requires fs.Valid() && s.While? && start == |a.code| && jz == |s1.code| && (a.blind ==> start > 0)
    requires nbreaks == |a.breaks| && ncontinues == |a.continues|
    requires TestSteps(a, s1, s2, s.c) && EmitsS(LoopIn(s2), fs.State(), s.body)
    modifies fs
    ensures fs.Valid() && EmitsS(a, fs.State(), s) && Spent(fs.State()) == old(Spent(fs.State()))
  {
    TestFacts(a, s1, s2, s.c);
    ghost var s3 := fs.State();
    var back := start - |fs.instructions| - 1;
    fs.AddInstruction(JMP(back));
    ghost var s4 := fs.State();
    var off := |fs.instructions| - 1 - jz;
    fs.SetOffset(jz, off);
    ghost var s5 := fs.State();
    EndBreakable(fs, nbreaks, ncontinues, start, a);
    WhileEmits(a, s1, s2, s3, s4, s5, fs.State(), s, jz, off, back);
  }

  method WhileStatement(fs: SQFuncState, s: Stmt) returns (ok: bool)
    requires fs.Valid() && s.While? && ScopedS(s, fs.vlocals)
    modifies fs
    ensures fs.Valid()
    ensures ok ==> EmitsS(old(fs.State()), fs.State(), s)
    ensures Paid(ok, fs.State(), CostS(old(fs.State()), s))
    decreases s, 0
  {
    ghost var a, s1 := fs.State(), fs.State();
    var start := |fs.instructions|;
    var jz: nat;
    ok, jz, s1 := Test(fs, s.c);
    if !ok { return; }
    ghost var s2 := fs.State();
    TestFacts(a, s1, s2, s.c);
    var nbreaks, ncontinues;
    ok, nbreaks, ncontinues := LoopBody(fs, s.body);
    if !ok { return; }
    WhileTail(fs, s, start, jz, nbreaks, ncontinues, a, s1, s2);
  }

  method DoWhileStatement(fs: SQFuncState, s: Stmt) returns (ok: bool)
    requires fs.Valid() && s.DoWhile? && ScopedS(s, fs.vlocals)
    modifies fs
    ensures fs.Valid()
    ensures ok ==> EmitsS(old(fs.State()), fs.State(), s)
    ensures Paid(ok, fs.State(), CostS(old(fs.State()), s))
    decreases s, 0
  {
    ghost var a, s2 := fs.State(), fs.State();
    var start := |fs.instructions|;
    var nbreaks, ncontinues;
    ok, nbreaks, ncontinues := LoopBody(fs, s.body);
    if !ok { return; }
    ghost var s1 := fs.State();
    var cont := |fs.instructions|;
    var t: nat;
    ok, t, s2 := Evaluate(fs, s.c, fs.vlocals);
    if !ok { return; }
    fs.AddInstruction(JZ(t, 1));
    ghost var s3 := fs.State();
    var back := start - |fs.instructions| - 1;
    fs.AddInstruction(JMP(back));
    ghost var s4 := fs.State();
    EndBreakable(fs, nbreaks, ncontinues, cont, a);
    DoWhileEmits(a, s1, s2, s3, s4, fs.State(), s, back);
  }

  /** Instructions taken out before are added again. */
  method AppendAll(fs: SQFuncState, exp: seq<Instr>, ghost wide: seq<Instr>)
    requires fs.Valid() && Narrow(exp, wide)
    modifies fs
    ensures fs.Valid() && fs.State() == old(fs.State()).(code := old(fs.wide) + wide)
  {
    ghost var a := fs.State();
    var i := 0;
    while i < |exp|
      invariant 0 <= i <= |exp| && fs.Valid() && fs.State() == a.(code := a.code + wide[..i])
    {
      assert a.code + wide[..i + 1] == a.code + wide[..i] + [wide[i]];
      fs.AddAgain(exp[i], wide[i]);
      i := i + 1;
    }
    assert wide[..i] == wide;
  }

  /** The third clause of a for loop is compiled here, taken out again, and kept for later. */
  method ForClause(fs: SQFuncState, inc: Stmt) returns (ok: bool, exp: seq<Instr>, ghost wide: seq<Instr>, ghost s3: FS)
    requires fs.Valid() && (inc.Empty? || inc.Eval? || inc.Assign?) && ScopedS(inc, fs.vlocals) && fs.wide != []
    modifies fs
    ensures fs.Valid() && Narrow(exp, wide)
    ensures ok ==> ClauseSteps(old(fs.State()), s3, fs.State(), wide, inc)
    ensures Paid(ok, fs.State(), CostS(old(fs.State()), inc))
  {
    var expstart := |fs.instructions|;
    exp, wide := [], [];
    ok := Simple(fs, inc);
    s3 := fs.State();
    if !ok { return; }
    exp, wide := fs.instructions[expstart..], fs.wide[expstart..];
    fs.PopInstructions(|exp|);
  }

  /**
    The end of a for loop: the clause, the jump back to `start`, and the jump of the test unless it
    is at address 0.
   */
  method ForEnd(fs: SQFuncState, start: nat, jz: nat, exp: seq<Instr>, ghost wide: seq<Instr>)
    returns (back: int, off: int, ghost s6: FS, ghost s7: FS)
    requires fs.Valid() && jz < |fs.instructions| && Narrow(exp, wide)
      && (jz == 0 ==> fs.wide[0].JZ? && fs.wide[0].off == 0)
    modifies fs
    ensures fs.Valid() && s6 == old(fs.State()).(code := old(fs.wide) + wide)
    ensures back == start - |s6.code| - 1 && s7 == Emit(s6, JMP(back))
    ensures jz < |s7.code| && off == |s7.code| - 1 - jz && fs.State() == PatchTest(s7, jz, off)
  {
    AppendAll(fs, exp, wide);
    s6 := fs.State();
    back := start - |fs.instructions| - 1;
    fs.AddInstruction(JMP(back));
    s7 := fs.State();
    off := |fs.instructions| - 1 - jz;
    if jz > 0 {
      fs.SetOffset(jz, off);
    } else {
      fs.LeaveOpen(off);
    }
  }

  /** The test and the third clause of a for loop. */
  method ForClauses(fs: SQFuncState, s: Stmt)
    returns (ok: bool, jz: nat, exp: seq<Instr>, ghost wide: seq<Instr>, ghost s1: FS, ghost s2: FS, ghost s3: FS)
    requires fs.Valid() && s.For? && ScopedS(s, fs.vlocals)
    modifies fs
    ensures fs.Valid() && Narrow(exp, wide)
    ensures ok ==> TestSteps(old(fs.State()), s1, s2, s.c) && jz == |s1.code|
    ensures ok ==> ClauseSteps(s2, s3, fs.State(), wide, s.inc)
    ensures Paid(ok, fs.State(),
                 ChargeS(s.inc, |old(fs.vlocals)|, old(fs.breaktargets) != [], old(fs.continuetargets) != [],
                         CostE(old(fs.State()), s.c)))
  {
    exp, wide, s2, s3 := [], [], fs.State(), fs.State();
    ok, jz, s1 := Test(fs, s.c);
    if !ok { return; }
    s2 := fs.State();
    TestFacts(old(fs.State()), s1, s2, s.c);
    ok, exp, wide, s3 := ForClause(fs, s.inc);
  }

  /** A for loop up to the end of its body. */
  method ForHead(fs: SQFuncState, s: Stmt)
    returns (ok: bool, jz: nat, exp: seq<Instr>, nbreaks: nat, ncontinues: nat,
             ghost wide: seq<Instr>, ghost s1: FS, ghost s2: FS, ghost s3: FS, ghost s4: FS)
    requires fs.Valid() && s.For? && ScopedS(s, fs.vlocals)
    modifies fs
    ensures fs.Valid() && Narrow(exp, wide)
    ensures nbreaks == |old(fs.unresolvedbreaks)| && ncontinues == |old(fs.unresolvedcontinues)|
    ensures ok ==> TestSteps(old(fs.State()), s1, s2, s.c) && jz == |s1.code|
    ensures ok ==> ClauseSteps(s2, s3, s4, wide, s.inc) && EmitsS(LoopIn(s4), fs.State(), s.body)
    ensures Paid(ok, fs.State(), CostS(old(fs.State()), s))
    decreases s, 0, 0
  {
    nbreaks, ncontinues, s4 := |fs.unresolvedbreaks|, |fs.unresolvedcontinues|, fs.State();
    ok, jz, exp, wide, s1, s2, s3 := ForClauses(fs, s);
    if !ok { return; }
    s4 := fs.State();
    ok, nbreaks, ncontinues := LoopBody(fs, s.body);
  }

  /** A for loop behind its body. */
  method ForTail(fs: SQFuncState, ghost s: Stmt, start: nat, jz: nat, exp: seq<Instr>, nbreaks: nat, ncontinues: nat,
      ghost wide: seq<Instr>, ghost a: FS, ghost s1: FS, ghost s2: FS, ghost s3: FS, ghost s4: FS)
    requires fs.Valid() && s.For? && Narrow(exp, wide) && start == |a.code| && jz == |s1.code|
    requires nbreaks == |a.breaks| && ncontinues == |a.continues|
    requires TestSteps(a, s1, s2, s.c) && ClauseSteps(s2, s3, s4, wide, s.inc) && EmitsS(LoopIn(s4), fs.State(), s.body)
    modifies fs
    ensures fs.Valid() && EmitsS(a, fs.State(), s) && Spent(fs.State()) == old(Spent(fs.State()))
  {
    ghost var s5 := fs.State();
    var cont := |fs.instructions|;
    HeadFacts(a, s1, s2, s3, s4, s5, s, wide);
    var back, off;
    ghost var s6, s7;
    back, off, s6, s7 := ForEnd(fs, start, jz, exp, wide);
    ghost var s8 := fs.State();
    EndBreakable(fs, nbreaks, ncontinues, cont, a);
    ForEmits(a, s1, s2, s3, s4, s5, s6, s7, s8, fs.State(), s, wide, jz, off, back);
  }

  method ForStatement(fs: SQFuncState, s: Stmt) returns (ok: bool)
    requires fs.Valid() && s.For? && ScopedS(s, fs.vlocals)
    modifies fs
    ensures fs.Valid()
    ensures ok ==> EmitsS(old(fs.State()), fs.State(), s)
    ensures Paid(ok, fs.State(), CostS(old(fs.State()), s))
    decreases s, 0
  {
    ghost var a := fs.State();
    var start := |fs.instructions|;
    var jz, exp, nbreaks, ncontinues;
    ghost var wide, s1, s2, s3, s4;
    ok, jz, exp, nbreaks, ncontinues, wide, s1, s2, s3, s4 := ForHead(fs, s);
    if !ok { return; }
    ForTail(fs, s, start, jz, exp, nbreaks, ncontinues, wide, a, s1, s2, s3, s4);
  }

  /** Behind a switch: its breaks are patched and the tested value is given up. */
  method EndSwitch(fs: SQFuncState, nbreaks: nat, ghost a: FS)
    requires fs.Valid() && nbreaks == |a.breaks| <= |fs.unresolvedbreaks| && fs.breaktargets == a.breaktargets + [0]
    requires forall j :: nbreaks <= j < |fs.unresolvedbreaks| ==>
      fs.unresolvedbreaks[j] < |fs.instructions| && (fs.blind ==> fs.unresolvedbreaks[j] > 0)
    requires CanPop(fs.State()) && Popped(fs.State()) == Dropped(a, fs.State())
    modifies fs
    ensures fs.Valid()
    ensures fs.State() == Dropped(a, old(fs.State())).(breaktargets := a.breaktargets,
        breaks := old(fs.unresolvedbreaks)[..nbreaks],
      code := FixAll(old(fs.wide), old(fs.unresolvedbreaks), nbreaks, |old(fs.wide)|))
  {
    var _ := fs.PopTarget();
    fs.ResolveBreaksFrom(nbreaks);
    fs.PopBreakTarget();
    assert fs.breaktargets == a.breaktargets;
  }

  /** The tested value, which stays on the stack of targets, and the cases. */
  method SwitchHead(fs: SQFuncState, s: Stmt) returns (ok: bool, body: nat, ghost s1: FS)
    requires fs.Valid() && s.Switch? && ScopedS(s, fs.vlocals)
    modifies fs
    ensures fs.Valid()
    ensures ok ==> EmitsE(old(fs.State()), s1, |old(fs.vlocals)|, s.e)
    ensures ok ==> EmitsC(s1.(breaktargets := old(fs.breaktargets) + [0]), fs.State(), s.cases,
                          Target(s.e, |old(fs.vlocals)|), body)
    ensures Paid(ok, fs.State(), CostS(old(fs.State()), s))
    decreases s, 0, 0
  {
    ghost var a := fs.State();
    body := 0;
    ok := Expression(fs, s.e, fs.vlocals);
    s1 := fs.State();
    if !ok { return; }
    PopsE(a, s1, s1, |a.names|, s.e, a.names);
    var expr := fs.targetstack[|fs.targetstack| - 1];
    fs.PushBreakTarget();
    ok, body := SwitchCases(fs, s.cases, expr);
  }

  method SwitchStatement(fs: SQFuncState, s: Stmt) returns (ok: bool)
    requires fs.Valid() && s.Switch? && ScopedS(s, fs.vlocals)
    modifies fs
    ensures fs.Valid()
    ensures ok ==> EmitsS(old(fs.State()), fs.State(), s)
    ensures Paid(ok, fs.State(), CostS(old(fs.State()), s))
    decreases s, 0
  {
    ghost var a, s1 := fs.State(), fs.State();
    var nbreaks, body := |fs.unresolvedbreaks|, 0;
    ok, body, s1 := SwitchHead(fs, s);
    if !ok { return; }
    ghost var s2 := fs.State();
    PopsE(a, s1, s2, |a.names|, s.e, a.names);
    EndSwitch(fs, nbreaks, a);
    SwitchEmits(a, s1, s2, fs.State(), s, body);
  }

  /** The comparison of a case, and the jump to the next case. */
  method AddTest(fs: SQFuncState, eqtarget: nat, trg: nat, t: nat)
    requires fs.Valid()
    modifies fs`instructions, fs`wide
    ensures fs.Valid() && fs.State() == old(fs.State()).(
              code := old(fs.wide) + [BIN(Eq, eqtarget, trg, t), JZ(eqtarget, 0)])
  {
    fs.AddInstruction(BIN(Eq, eqtarget, trg, t));
    fs.AddInstruction(JZ(eqtarget, 0));
  }

  /** The same with a target of its own for the result. */
  method AddTestApart(fs: SQFuncState, trg: nat, t: nat) returns (ok: bool)
    requires fs.Valid()
    modifies fs
    ensures fs.Valid()
    ensures ok ==> fs.State() == old(fs.State()).(
              code := old(fs.wide) + [BIN(Eq, old(|fs.vlocals|), trg, t), JZ(old(|fs.vlocals|), 0)],
              stacksize := AtLeast(old(fs.stacksize), old(|fs.vlocals|) + 1))
    ensures Paid(ok, fs.State(), Slot(old(|fs.vlocals|), Spent(old(fs.State()))))
  {
    var eqtarget: nat;
    ok, eqtarget := fs.PushTarget();
    if !ok { return; }
    AddTest(fs, eqtarget, trg, t);
    assert fs.vlocals[..|fs.vlocals| - 1] == old(fs.vlocals)
      && fs.targetstack[..|fs.targetstack| - 1] == old(fs.targetstack);
    var _ := fs.PopTarget();
  }

  /** The test of a case: `t` holds the tested value. */
  method CaseCondition(fs: SQFuncState, c: Expr, t: nat) returns (ok: bool, jz: nat, ghost s1: FS)
    requires fs.Valid() && ScopedE(c, fs.vlocals)
    modifies fs
    ensures fs.Valid()
    ensures ok ==> CaseTest(old(fs.State()), s1, fs.State(), c, t) && jz == |s1.code| + 1
    ensures Paid(ok, fs.State(), ChargeT(c, |old(fs.vlocals)|, Spent(old(fs.State()))))
  {
    var trg: nat;
    jz := 0;
    ok, trg, s1 := Evaluate(fs, c, fs.vlocals);
    if !ok { return; }
    if trg < |fs.vlocals| && fs.vlocals[trg] {
      ok := AddTestApart(fs, trg, t);
      if !ok { return; }
    } else {
      AddTest(fs, trg, trg, t);
    }
    jz := |fs.instructions| - 1;
  }

  /** A case without the cases behind it: its test, its body, and the jump over the next test. */
  method CaseHead(fs: SQFuncState, cases: Cases, t: nat)
    returns (ok: bool, jz: nat, skip: nat, jzoff: int, ghost s1: FS, ghost s2: FS, ghost s3: FS, ghost s4: FS)
    requires fs.Valid() && cases.Case? && ScopedC(cases, fs.vlocals) && fs.breaktargets != []
    modifies fs
    ensures fs.Valid()
    ensures ok ==> CaseTest(old(fs.State()), s1, s2, cases.c, t) && EmitsI(s2, s3, cases.body)
    ensures ok ==> s3.names == old(fs.vlocals) && s4 == Skip(s3, cases.rest) && skip == |s3.code|
    ensures ok ==> jz == |s1.code| + 1 < |s4.code| && jzoff == |s4.code| - 1 - jz
    ensures ok ==> fs.State() == Patch(s4, jz, jzoff)
    ensures Paid(ok, fs.State(),
                 ChargeI(cases.body, |old(fs.vlocals)|, true, old(fs.continuetargets) != [],
                         ChargeT(cases.c, |old(fs.vlocals)|, Spent(old(fs.State())))))
    decreases cases, 0, 0
  {
    skip, jzoff, s2, s3, s4 := 0, 0, fs.State(), fs.State(), fs.State();
    ok, jz, s1 := CaseCondition(fs, cases.c, t);
    if !ok { return; }
    s2 := fs.State();
    CaseTestFacts(old(fs.State()), s1, s2, cases.c, t);
    ok := Scope(fs, cases.body);
    if !ok { return; }
    s3 := fs.State();
    skip := |fs.instructions|;
    if cases.rest.Case? { fs.AddInstruction(JMP(0)); }
    s4 := fs.State();
    jzoff := |fs.instructions| - 1 - jz;
    fs.SetOffset(jz, jzoff);
  }

  method SwitchCase(fs: SQFuncState, cases: Cases, t: nat) returns (ok: bool, body: nat)
    requires fs.Valid() && cases.Case? && ScopedC(cases, fs.vlocals) && fs.breaktargets != []
    modifies fs
    ensures fs.Valid()
    ensures ok ==> EmitsC(old(fs.State()), fs.State(), cases, t, body)
    ensures Paid(ok, fs.State(), CostC(old(fs.State()), cases))
    decreases cases, 0
  {
    ghost var a := fs.State();
    ghost var s1, s2, s3, s4;
    var jz, skip, jzoff, body1: nat;
    body := 0;
    ok, jz, skip, jzoff, s1, s2, s3, s4 := CaseHead(fs, cases, t);
    if !ok { return; }
    ghost var s5 := fs.State();
    CaseTestFacts(a, s1, s2, cases.c, t);
    body := jz + 1;
    ok, body1 := SwitchCases(fs, cases.rest, t);
    if !ok { return; }
    ghost var s6 := fs.State();
    var skipoff := body1 - 1 - skip;
    if cases.rest.Case? { fs.SetOffset(skip, skipoff); }
    CaseEmits(a, s1, s2, s3, s4, s5, s6, fs.State(), cases, t, jz, jzoff, skip, skipoff, body1);
  }

  /** Compiles cases from some case on; `body` is the address of the first body. */
  method SwitchCases(fs: SQFuncState, cases: Cases, t: nat) returns (ok: bool, body: nat)
    requires fs.Valid() && ScopedC(cases, fs.vlocals) && fs.breaktargets != []
    modifies fs
    ensures fs.Valid()
    ensures ok ==> EmitsC(old(fs.State()), fs.State(), cases, t, body)
    ensures Paid(ok, fs.State(), CostC(old(fs.State()), cases))
    ensures cases.Default? ==> body == |old(fs.instructions)|
    decreases cases, 1
  {
    if cases.Case? {
      ok, body := SwitchCase(fs, cases, t);
      return;
    }
    ghost var a := fs.State();
    body := |fs.instructions|;
    ok := Scope(fs, cases.body);
    if !ok { return; }
    DefaultEmits(a, fs.State(), fs.State(), cases, t);
  }

  /** The end of a try block. */
  function Shallower(tries: seq<nat>): (r: seq<nat>)
    requires tries != [] ==> tries[|tries| - 1] > 0
  {
    if tries == [] then [] else tries[..|tries| - 1] + [tries[|tries| - 1] - 1]
  }

  method BeginTry(fs: SQFuncState) returns (trappos: nat)
    requires fs.Valid()
    modifies fs
    ensures fs.Valid() && fs.State() == TryIn(old(fs.State())) && trappos == |old(fs.instructions)|
  {
    fs.AddInstruction(PUSHTRAP(0, 0));
    fs.SetTries(fs.traps + 1, Deeper(fs.breaktargets), Deeper(fs.continuetargets));
    trappos := |fs.instructions| - 1;
  }

  /** The end of the body of a try block: the trap goes, and a jump leads past the handler. */
  method EndTry(fs: SQFuncState)
    requires fs.Valid() && fs.traps > 0
    requires fs.breaktargets != [] ==> fs.breaktargets[|fs.breaktargets| - 1] > 0
    requires fs.continuetargets != [] ==> fs.continuetargets[|fs.continuetargets| - 1] > 0
    modifies fs
    ensures fs.Valid() && fs.State() == old(fs.State()).(
              code := old(fs.wide) + [POPTRAP(1), JMP(0)], traps := old(fs.traps) - 1,
              breaktargets := Shallower(old(fs.breaktargets)), continuetargets := Shallower(old(fs.continuetargets)))
  {
    fs.SetTries(fs.traps - 1, Shallower(fs.breaktargets), Shallower(fs.continuetargets));
    fs.AddInstruction(POPTRAP(1));
    fs.AddInstruction(JMP(0));
    assert fs.wide == old(fs.wide) + [POPTRAP(1), JMP(0)];
  }

  /** Behind the body of a try block: the handler starts here, and the error gets a variable. */
  method BeginCatch(fs: SQFuncState, trappos: nat, ghost a: FS) returns (trapoff: int, jmp: nat)
    requires fs.Valid() && trappos == |a.code| < |fs.instructions| && fs.vlocals == a.names && fs.traps == a.traps + 1
    requires fs.blind ==> trappos > 0
    requires fs.breaktargets == Deeper(a.breaktargets) && fs.continuetargets == Deeper(a.continuetargets)
    modifies fs
    ensures fs.Valid() && jmp == |old(fs.instructions)| + 1 && trapoff == jmp - trappos
    ensures fs.State() == CatchIn(a, old(fs.State()), trapoff)
  {
    ghost var s1 := fs.State();
    EndTry(fs);
    ShallowAgain(a.breaktargets);
    ShallowAgain(a.continuetargets);
    jmp := |fs.instructions| - 1;
    trapoff := |fs.instructions| - 1 - trappos;
    SetHandler(fs, trappos, trapoff);
  }

  /** The trap at `trappos` leads to the handler at `off`, and a new variable is for the error. */
  method SetHandler(fs: SQFuncState, trappos: nat, off: int)
    requires fs.Valid() && trappos < |fs.instructions| && (fs.blind ==> trappos > 0)
    modifies fs
    ensures fs.Valid()
    ensures fs.State() == old(fs.State()).(
              code := old(fs.wide)[trappos := PUSHTRAP(old(|fs.vlocals|), off)], names := old(fs.vlocals) + [true],
              stacksize := AtLeast(old(fs.stacksize), old(|fs.vlocals|) + 1))
  {
    var ext := fs.PushLocalVariable();
    fs.SetTrap(trappos, ext, off);
  }

  lemma ShallowAgain(tries: seq<nat>)
    ensures var deep := Deeper(tries);
      (deep != [] ==> deep[|deep| - 1] > 0) && Shallower(deep) == tries
  {
  }

  /** Behind the handler: the jump over it leads here, and the error's variable goes. */
  method EndCatch(fs: SQFuncState, jmp: nat, jmpoff: int, ghost a: FS)
    requires fs.Valid() && jmp < |fs.instructions| && (fs.blind ==> jmp > 0) && fs.vlocals == a.names + [true]
    modifies fs
    ensures fs.Valid() && fs.State() == Patch(old(fs.State()), jmp, jmpoff).(names := a.names)
  {
    fs.SetOffset(jmp, jmpoff);
    assert fs.vlocals[..|fs.vlocals| - 1] == a.names;
    fs.SetStackSize(|fs.vlocals| - 1);
  }

  /** The body of a try block, up to the start of the handler. */
  method TryBlock(fs: SQFuncState, s: Stmt) returns (ok: bool, trapoff: int, jmp: nat, ghost s1: FS)
    requires fs.Valid() && s.TryCatch? && ScopedS(s, fs.vlocals)
    modifies fs
    ensures fs.Valid()
    ensures ok ==> EmitsS(TryIn(old(fs.State())), s1, s.body) && jmp == |s1.code| + 1 && trapoff == jmp - |old(fs.wide)|
    ensures ok ==> fs.State() == CatchIn(old(fs.State()), s1, trapoff) && fs.vlocals == old(fs.vlocals) + [true]
    ensures ok ==> fs.breaktargets == old(fs.breaktargets) && fs.continuetargets == old(fs.continuetargets)
    ensures Paid(ok, fs.State(),
                 Variable(|old(fs.vlocals)|, CostS(old(fs.State()), s.body)))
    decreases s, 0, 0
  {
    ghost var a := fs.State();
    trapoff, jmp := 0, 0;
    var trappos := BeginTry(fs);
    ok := Statement(fs, s.body);
    s1 := fs.State();
    if !ok { return; }
    trapoff, jmp := BeginCatch(fs, trappos, a);
  }

  /** A try statement behind its handler. */
  method TryTail(fs: SQFuncState, ghost s: Stmt, jmp: nat, ghost trapoff: int, ghost a: FS, ghost s1: FS, ghost s2: FS)
    requires fs.Valid() && s.TryCatch? && EmitsS(TryIn(a), s1, s.body) && jmp == |s1.code| + 1
    requires trapoff == jmp - |a.code| && s2 == CatchIn(a, s1, trapoff) && EmitsS(s2, fs.State(), s.handler)
    modifies fs
    ensures fs.Valid() && EmitsS(a, fs.State(), s) && Spent(fs.State()) == old(Spent(fs.State()))
  {
    ghost var s3 := fs.State();
    var jmpoff := |fs.instructions| - 1 - jmp;
    EndCatch(fs, jmp, jmpoff, a);
    TryEmits(a, s1, s2, s3, fs.State(), s, trapoff, jmp, jmpoff);
  }

  /** The handler, and the end of the statement. */
  method CatchBlock(fs: SQFuncState, s: Stmt, jmp: nat, ghost trapoff: int, ghost a: FS, ghost s1: FS)
    returns (ok: bool)
    requires fs.Valid() && s.TryCatch? && ScopedS(s.handler, fs.vlocals)
    requires EmitsS(TryIn(a), s1, s.body) && jmp == |s1.code| + 1
    requires trapoff == jmp - |a.code| && fs.State() == CatchIn(a, s1, trapoff)
    modifies fs
    ensures fs.Valid()
    ensures ok ==> EmitsS(a, fs.State(), s)
    ensures Paid(ok, fs.State(), CostS(old(fs.State()), s.handler))
    decreases s, 0, 0
  {
    ghost var s2 := fs.State();
    ok := Statement(fs, s.handler);
    if !ok { return; }
    TryTail(fs, s, jmp, trapoff, a, s1, s2);
  }

  method TryCatchStatement(fs: SQFuncState, s: Stmt) returns (ok: bool)
    requires fs.Valid() && s.TryCatch? && ScopedS(s, fs.vlocals)
    modifies fs
    ensures fs.Valid()
    ensures ok ==> EmitsS(old(fs.State()), fs.State(), s)
    ensures Paid(ok, fs.State(), CostS(old(fs.State()), s))
    decreases s, 0
  {
    ghost var a, s1 := fs.State(), fs.State();
    var trapoff, jmp;
    ok, trapoff, jmp, s1 := TryBlock(fs, s);
    if !ok { return; }
    ok := CatchBlock(fs, s, jmp, trapoff, a, s1);
  }

  /** A break or a continue; outside of any loop or switch it is an error. */
  method JumpStatement(fs: SQFuncState, s: Stmt) returns (ok: bool)
    requires fs.Valid() && (s.Break? || s.Continue?) && ScopedS(s, fs.vlocals)
    modifies fs
    ensures fs.Valid()
    ensures ok ==> EmitsS(old(fs.State()), fs.State(), s)
    ensures Paid(ok, fs.State(), CostS(old(fs.State()), s))
    decreases s, 0
  {
    ghost var a := fs.State();
    var targets := if s.Break? then fs.breaktargets else fs.continuetargets;
    if |targets| == 0 { return false; }
    var count := targets[|targets| - 1];
    if count > 0 { fs.AddInstruction(POPTRAP(count)); }
    ghost var s1 := fs.State();
    fs.AddInstruction(if s.Break? then BreakHole else ContinueHole);
    var pos := |fs.instructions| - 1;
    if s.Break? {
      fs.WaitBreak(pos);
      BreakEmits(a, s1, fs.State());
    } else {
      fs.WaitContinue(pos);
      ContinueEmits(a, s1, fs.State());
    }
    ok := true;
  }

  method ReturnStatement(fs: SQFuncState, s: Stmt) returns (ok: bool)
    requires fs.Valid() && (s.Return? || s.ReturnNull?) && ScopedS(s, fs.vlocals)
    modifies fs
    ensures fs.Valid()
    ensures ok ==> EmitsS(old(fs.State()), fs.State(), s)
    ensures Paid(ok, fs.State(), CostS(old(fs.State()), s))
    decreases s, 0
  {
    ghost var a, s1 := fs.State(), fs.State();
    if s.ReturnNull? {
      if fs.traps > 0 { fs.AddInstruction(POPTRAP(fs.traps)); }
      fs.AddInstruction(RETURN(false, 0));
      ReturnNullEmits(a, fs.State());
      return true;
    }
    ok := Expression(fs, s.e, fs.vlocals);
    if !ok { return; }
    s1 := fs.State();
    if fs.traps > 0 { fs.AddInstruction(POPTRAP(fs.traps)); }
    PopsE(a, s1, fs.State(), |a.names|, s.e, a.names);
    var t := fs.PopTarget();
    fs.AddInstruction(RETURN(true, t));
    ReturnEmits(a, s1, fs.State(), s);
  }

  /** A block in a scope of its own: its variables are gone behind it. */
  method Scope(fs: SQFuncState, items: Items) returns (ok: bool)
    requires fs.Valid() && ScopedI(items, fs.vlocals)
    modifies fs
    ensures fs.Valid()
    ensures ok ==> EmitsI(old(fs.State()), fs.State(), items) && fs.vlocals == old(fs.vlocals)
    ensures Paid(ok, fs.State(), CostI(old(fs.State()), items))
    decreases items, 1
  {
    ghost var a := fs.State();
    var size := |fs.vlocals|;
    ok := Statements(fs, items);
    if !ok { return; }
    ghost var s1 := fs.State();
    if |fs.vlocals| != size { fs.SetStackSize(size); }
    ScopeEmits(a, s1, fs.State(), items);
  }

  lemma ScopeEmits(a: FS, s1: FS, b: FS, items: Items)
    requires EmitsI(a, s1, items) && b == s1.(names := a.names)
    ensures EmitsI(a, b, items)
  {
    forall q, x | Fits(a, x) && Fills(q, b, |a.code|, x)
      ensures IsI(q, items, |a.names|, x, |a.code|, |b.code|)
    {
      FillsPart(q, b, s1, |a.code|, |a.code|, x);
    }
  }

  /** A variable with a first value. */
  method Declare(fs: SQFuncState, e: Expr) returns (ok: bool, ghost s1: FS)
    requires fs.Valid() && ScopedE(e, fs.vlocals)
    modifies fs
    ensures fs.Valid()
    ensures ok ==> EmitsE(old(fs.State()), s1, |old(fs.vlocals)|, e)
    ensures ok ==> var d := |old(fs.vlocals)|;
      fs.State() == s1.(code := Moved(s1, d, Target(e, d)).code, targets := old(fs.targetstack),
          names := old(fs.vlocals) + [true],
                        stacksize := AtLeast(s1.stacksize, d + 1))
    ensures Paid(ok, fs.State(), Slot(|old(fs.vlocals)|, CostE(old(fs.State()), e)))
  {
    ghost var a := fs.State();
    var src: nat, dest: nat;
    ok, src, s1 := Evaluate(fs, e, fs.vlocals);
    if !ok { return; }
    ok, dest := fs.PushTarget();
    if !ok { return; }
    if dest != src { fs.AddInstruction(MOVE(dest, src)); }
    Name(fs, a.names, a.targets);
  }

  /** The newest temporary becomes a named variable. */
  method Name(fs: SQFuncState, ghost names: seq<bool>, ghost targets: seq<nat>)
    requires fs.Valid() && fs.vlocals == names + [false] && fs.targetstack == targets + [|names|]
    requires |names| < fs.stacksize
    modifies fs
    ensures fs.Valid() && fs.State() == old(fs.State()).(names := names + [true], targets := targets)
  {
    assert fs.vlocals[..|fs.vlocals| - 1] == names && fs.targetstack[..|fs.targetstack| - 1] == targets;
    var _ := fs.PopTarget();
    var _ := fs.PushLocalVariable();
  }

  method DeclareNull(fs: SQFuncState) returns (ok: bool)
    requires fs.Valid()
    modifies fs
    ensures fs.Valid()
    ensures ok ==> var d := |old(fs.vlocals)|;
      fs.State() == Emit(old(fs.State()), LOADNULLS(d, 1)).(names := old(fs.vlocals) + [true],
          stacksize := AtLeast(old(fs.stacksize), d + 1))
    ensures Paid(ok, fs.State(), Slot(|old(fs.vlocals)|, Spent(old(fs.State()))))
  {
    ghost var a := fs.State();
    var dest: nat;
    ok, dest := fs.PushTarget();
    if !ok { return; }
    fs.AddInstruction(LOADNULLS(dest, 1));
    assert fs.vlocals[..|fs.vlocals| - 1] == a.names && fs.targetstack[..|fs.targetstack| - 1] == a.targets;
    var _ := fs.PopTarget();
    var _ := fs.PushLocalVariable();
  }

  method DeclStatements(fs: SQFuncState, items: Items) returns (ok: bool)
    requires fs.Valid() && items.Decl? && ScopedI(items, fs.vlocals)
    modifies fs
    ensures fs.Valid()
    ensures ok ==> EmitsI(old(fs.State()), fs.State(), items)
    ensures Paid(ok, fs.State(), CostI(old(fs.State()), items))
    decreases items, 0, 0
  {
    ghost var a, s1 := fs.State(), fs.State();
    ok, s1 := Declare(fs, items.e);
    if !ok { return; }
    ghost var s2 := fs.State();
    ok := Statements(fs, items.rest);
    if !ok { return; }
    DeclEmits(a, s1, s2, fs.State(), items);
  }

  method DeclNullStatements(fs: SQFuncState, items: Items) returns (ok: bool)
    requires fs.Valid() && items.DeclNull? && ScopedI(items, fs.vlocals)
    modifies fs
    ensures fs.Valid()
    ensures ok ==> EmitsI(old(fs.State()), fs.State(), items)
    ensures Paid(ok, fs.State(), CostI(old(fs.State()), items))
    decreases items, 0, 0
  {
    ghost var a := fs.State();
    ok := DeclareNull(fs);
    if !ok { return; }
    ghost var s1 := fs.State();
    ok := Statements(fs, items.rest);
    if !ok { return; }
    DeclNullEmits(a, s1, fs.State(), items);
  }

  method ThenStatements(fs: SQFuncState, items: Items) returns (ok: bool)
    requires fs.Valid() && items.Then? && ScopedI(items, fs.vlocals)
    modifies fs
    ensures fs.Valid()
    ensures ok ==> EmitsI(old(fs.State()), fs.State(), items)
    ensures Paid(ok, fs.State(), CostI(old(fs.State()), items))
    decreases items, 0, 0
  {
    ghost var a := fs.State();
    ok := Statement(fs, items.s);
    if !ok { return; }
    ghost var s1 := fs.State();
    ok := Statements(fs, items.rest);
    if !ok { return; }
    ThenEmits(a, s1, fs.State(), items);
  }

  method Statements(fs: SQFuncState, items: Items) returns (ok: bool)
    requires fs.Valid() && ScopedI(items, fs.vlocals)
    modifies fs
    ensures fs.Valid()
    ensures ok ==> EmitsI(old(fs.State()), fs.State(), items)
    ensures Paid(ok, fs.State(), CostI(old(fs.State()), items))
    decreases items, 0
  {
    match items {
      case Done =>
        EmptyEmits(fs.State());
        ok := true;
      case Decl(_, _) => ok := DeclStatements(fs, items);
      case DeclNull(_) => ok := DeclNullStatements(fs, items);
      case Then(_, _) => ok := ThenStatements(fs, items);
    }
  }

  /**
    Compiles a statement. It fails on a break or continue that is outside of any loop, and when
    the function needs too many stack positions or literals; otherwise what it emits is the code
    of the statement, once the jumps out of it are patched.
   */
  method Statement(fs: SQFuncState, s: Stmt) returns (ok: bool)
    requires fs.Valid() && ScopedS(s, fs.vlocals)
    modifies fs
    ensures fs.Valid()
    ensures ok ==> EmitsS(old(fs.State()), fs.State(), s)
    ensures Paid(ok, fs.State(), CostS(old(fs.State()), s))
    decreases s, 1
  {
    ghost var a := fs.State();
    match s {
      case Empty => ok := Simple(fs, s);
      case Eval(_) => ok := Simple(fs, s);
      case Assign(_, _) => ok := Simple(fs, s);
      case Throw(_) => ok := Simple(fs, s);
      case If(_, _) => ok := IfStatement(fs, s);
      case IfElse(_, _, _) => ok := IfElseStatement(fs, s);
      case While(_, _) => ok := WhileStatement(fs, s);
      case DoWhile(_, _) => ok := DoWhileStatement(fs, s);
      case For(_, _, _) => ok := ForStatement(fs, s);
      case Switch(_, _) => ok := SwitchStatement(fs, s);
      case TryCatch(_, _) => ok := TryCatchStatement(fs, s);
      case Return(_) => ok := ReturnStatement(fs, s);
      case ReturnNull => ok := ReturnStatement(fs, s);
      case Break => ok := JumpStatement(fs, s);
      case Continue => ok := JumpStatement(fs, s);
      case Block(items) =>
        ok := Scope(fs, items);
        if ok { BlockEmits(a, fs.State(), fs.State(), s); }
    }
  }
}
