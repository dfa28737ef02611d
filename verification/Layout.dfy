/**
  Which code stands for which program. `d` is the number of stack positions in use; a value
  that is not a variable is left in position `d`. The code of a piece of program is known by
  its first address `o` and the address `end` behind it.
 */
module Layout {
  import opened Squirrel
  import opened Bytecode

  const INT_MAX := 0x7FFF_FFFF
  const INT_MIN := -0x8000_0000

  /** The instruction at an address. */
  predicate Has(p: Prog, o: int, i: Instr) {
    0 <= o < |p.code| && p.code[o] == i
  }

  // Instructions in terms of where they lead: `next` is the address behind them.

  predicate JmpAt(p: Prog, o: int, next: int, to: int) {
    Has(p, o, JMP(to - next)) && next == o + 1
  }

  predicate JzAt(p: Prog, o: int, next: int, s: nat, to: int) {
    Has(p, o, JZ(s, to - next)) && next == o + 1
  }

  predicate AndAt(p: Prog, o: int, next: int, t: nat, to: int, s: nat) {
    Has(p, o, AND(t, to - next, s)) && next == o + 1
  }

  predicate OrAt(p: Prog, o: int, next: int, t: nat, to: int, s: nat) {
    Has(p, o, OR(t, to - next, s)) && next == o + 1
  }

  predicate BinAt(p: Prog, o: int, next: int, op: BinOp, t: nat, a1: nat, a2: nat) {
    Has(p, o, BIN(op, t, a1, a2)) && next == o + 1
  }

  predicate UnAt(p: Prog, o: int, next: int, op: UnOp, t: nat, s: nat) {
    Has(p, o, UN(op, t, s)) && next == o + 1
  }

  // ---------- Expressions ----------

  /** Where the value of `e` is found. */
  function Target(e: Expr, d: nat): (t: nat) {
    if e.Local? then e.pos else d
  }

  /** Positions in use once the value of `e` is there. */
  function After(e: Expr, d: nat): (d': nat) {
    if e.Local? then d else d + 1
  }

  /** Integers of 32 bits, booleans and null are immediate; other constants come from the literals. */
  predicate LoadsConst(i: Instr, t: nat, v: Value, lits: seq<Value>) {
    match v
    case Null => i == LOADNULLS(t, 1)
    case Boolean(b) => i == LOADBOOL(t, b)
    case Integer(n) =>
      if INT_MIN < n <= INT_MAX then i == LOADINT(t, n) else i.LOAD? && i.t == t && i.lit < |lits| && lits[i.lit] == v
    case Text(_) => i.LOAD? && i.t == t && i.lit < |lits| && lits[i.lit] == v
  }

  /** A move that is left out when it would do nothing. */
  predicate LaidMove(p: Prog, t: nat, s: nat, o: int, end: int) {
    if t == s then end == o else Has(p, o, MOVE(t, s)) && end == o + 1
  }

  /** Which code is which expression: over the variables below `n`, `d` positions in use, from `o` to `end`. */
  type ExprMap = (nat, Expr, nat, int, int) -> bool

  /** An operand evaluated above position `t`, then moved to `t`. */
  ghost predicate LaidOperand(p: Prog, L: ExprMap, n: nat, e: Expr, t: nat, o: int, end: int) {
    exists d: nat, o1 :: d == t + 1 && L(n, e, d, o, o1) && LaidMove(p, t, Target(e, d), o1, end)
  }

  /** The code of `e` consists of the code of its parts and of its own instructions. */
  ghost predicate LaidE(p: Prog, L: ExprMap, n: nat, e: Expr, d: nat, o: int, end: int) {
    match e
    case Const(v) => d < p.stacksize && 0 <= o < |p.code| && LoadsConst(p.code[o], d, v, p.lits) && end == o + 1
    case Local(x) => x < n && end == o
    case Un(op, e1) =>
      d < p.stacksize && exists o1 :: L(n, e1, d, o, o1) && UnAt(p, o1, end, op, d, Target(e1, d))
    case Bin(op, l, r) =>
      d < p.stacksize
      && exists o1, o2 :: L(n, l, d, o, o1) && L(n, r, After(l, d), o1, o2)
           && BinAt(p, o2, end, op, d, Target(r, After(l, d)), Target(l, d))
    case AndE(l, r) =>
      d < p.stacksize
      && exists o1, o2, o3 :: L(n, l, d, o, o1) && AndAt(p, o1, o2, d, end, Target(l, d))
           && LaidMove(p, d, Target(l, d), o2, o3) && LaidOperand(p, L, n, r, d, o3, end)
    case OrE(l, r) =>
      d < p.stacksize
      && exists o1, o2, o3 :: L(n, l, d, o, o1) && OrAt(p, o1, o2, d, end, Target(l, d))
           && LaidMove(p, d, Target(l, d), o2, o3) && LaidOperand(p, L, n, r, d, o3, end)
    case Cond(c, a, b) =>
      d < p.stacksize
      && exists o1, o2, o3, o4 :: L(n, c, d, o, o1) && JzAt(p, o1, o2, Target(c, d), o4)
           && LaidOperand(p, L, n, a, d, o2, o3) && JmpAt(p, o3, o4, end)
           && LaidOperand(p, L, n, b, d, o4, end)
  }

  ghost predicate MapsExprs(p: Prog, L: ExprMap) {
    forall n: nat, e, d: nat, o, end {:trigger LaidE(p, L, n, e, d, o, end)} :: L(n, e, d, o, end) ==>
      LaidE(p, L, n, e, d, o, end)
  }

  // ---------- Statements ----------

  /** Where a break or a continue leads, and how many try blocks it leaves on the way. */
  datatype Jump = NoJump | Jump(at: int, tries: nat)

  /** What surrounds a statement: `tries` counts all the try blocks of the function around it. */
  datatype Ctx = Ctx(tries: nat, brk: Jump, cont: Jump)

  function Bump(j: Jump): (r: Jump) {
    if j.Jump? then Jump(j.at, j.tries + 1) else j
  }

  function InTry(x: Ctx): (r: Ctx) {
    Ctx(x.tries + 1, Bump(x.brk), Bump(x.cont))
  }

  function InLoop(x: Ctx, brk: int, cont: int): (r: Ctx) {
    Ctx(x.tries, Jump(brk, 0), Jump(cont, 0))
  }

  function InSwitch(x: Ctx, brk: int): (r: Ctx) {
    Ctx(x.tries, Jump(brk, 0), x.cont)
  }

  predicate MoveAt(p: Prog, o: int, next: int, t: nat, s: nat) {
    Has(p, o, MOVE(t, s)) && next == o + 1
  }

  predicate NullAt(p: Prog, o: int, next: int, t: nat) {
    Has(p, o, LOADNULLS(t, 1)) && next == o + 1
  }

  predicate TrapAt(p: Prog, o: int, next: int, ext: nat, handler: int) {
    Has(p, o, PUSHTRAP(ext, handler - next)) && next == o + 1
  }

  predicate ThrowAt(p: Prog, o: int, next: int, s: nat) {
    Has(p, o, THROW(s)) && next == o + 1
  }

  predicate RetAt(p: Prog, o: int, next: int, hasval: bool, s: nat) {
    Has(p, o, RETURN(hasval, s)) && next == o + 1
  }

  /** Traps are popped before a jump out of try blocks. */
  predicate LaidPop(p: Prog, count: nat, o: int, end: int) {
    if count == 0 then end == o else Has(p, o, POPTRAP(count)) && end == o + 1
  }

  /** The first of two case bodies skips the test of the second; the default has no test. */
  predicate LaidSkip(p: Prog, rest: Cases, o: int, next: int, body: int) {
    if rest.Case? then JmpAt(p, o, next, body) else next == o
  }

  /**
    Which code is which piece of program: with `d` positions in use, surrounded by `x`, from `o`
    to `end`. The cases of a switch also have the register of the tested value and the address
    of their first body.
   */
  datatype Maps = Maps(
    E: ExprMap,
    S: (Stmt, nat, Ctx, int, int) -> bool,
    I: (Items, nat, Ctx, int, int) -> bool,
    C: (Cases, nat, nat, Ctx, int, int, int) -> bool)

  ghost predicate LaidS(p: Prog, M: Maps, s: Stmt, d: nat, x: Ctx, o: int, end: int) {
    match s
    case Empty => end == o
    case Eval(e) => M.E(d, e, d, o, end)
    case Assign(v, e) => v < d && exists o1 :: M.E(d, e, d, o, o1) && MoveAt(p, o1, end, v, Target(e, d))
    case If(c, t) =>
      exists o1, o2 :: M.E(d, c, d, o, o1) && JzAt(p, o1, o2, Target(c, d), end) && M.S(t, d, x, o2, end)
    case IfElse(c, t, f) =>
      exists o1, o2, o3, o4 :: M.E(d, c, d, o, o1) && JzAt(p, o1, o2, Target(c, d), o4)
        && M.S(t, d, x, o2, o3) && JmpAt(p, o3, o4, end) && M.S(f, d, x, o4, end)
    case While(c, b) =>
      exists o1, o2, o3 :: M.E(d, c, d, o, o1) && JzAt(p, o1, o2, Target(c, d), end)
        && M.S(b, d, InLoop(x, end, o), o2, o3) && JmpAt(p, o3, end, o)
    case DoWhile(b, c) =>
      exists o1, o2, o3 :: M.S(b, d, InLoop(x, end, o1), o, o1)
        && M.E(d, c, d, o1, o2) && JzAt(p, o2, o3, Target(c, d), end) && JmpAt(p, o3, end, o)
    case For(c, inc, b) =>
      (inc.Empty? || inc.Eval? || inc.Assign?)
      && exists o1, o2, o3, o4 :: M.E(d, c, d, o, o1) && JzAt(p, o1, o2, Target(c, d), end)
           && M.S(b, d, InLoop(x, end, o3), o2, o3) && M.S(inc, d, x, o3, o4) && JmpAt(p, o4, end, o)
    case Switch(e, cases) =>
      exists o1, b :: M.E(d, e, d, o, o1) && M.C(cases, Target(e, d), After(e, d), InSwitch(x, end), o1, b, end)
    case TryCatch(b, h) =>
      d < p.stacksize
      && exists d1: nat, o1, o2, o3, o4 :: d1 == d + 1 && TrapAt(p, o, o1, d, o4) && M.S(b, d, InTry(x), o1, o2)
           && LaidPop(p, 1, o2, o3) && JmpAt(p, o3, o4, end) && M.S(h, d1, x, o4, end)
    case Throw(e) => exists o1 :: M.E(d, e, d, o, o1) && ThrowAt(p, o1, end, Target(e, d))
    case Return(e) =>
      exists o1, o2 :: M.E(d, e, d, o, o1) && LaidPop(p, x.tries, o1, o2) && RetAt(p, o2, end, true, Target(e, d))
    case ReturnNull => exists o1, s :: LaidPop(p, x.tries, o, o1) && RetAt(p, o1, end, false, s)
    case Break => x.brk.Jump? && exists o1 :: LaidPop(p, x.brk.tries, o, o1) && JmpAt(p, o1, end, x.brk.at)
    case Continue => x.cont.Jump? && exists o1 :: LaidPop(p, x.cont.tries, o, o1) && JmpAt(p, o1, end, x.cont.at)
    case Block(items) => M.I(items, d, x, o, end)
  }

  ghost predicate LaidI(p: Prog, M: Maps, items: Items, d: nat, x: Ctx, o: int, end: int) {
    match items
    case Done => end == o
    case Decl(e, rest) =>
      d < p.stacksize
      && exists d1: nat, o1, o2 :: d1 == d + 1 && M.E(d, e, d, o, o1) && LaidMove(p, d, Target(e, d), o1, o2)
           && M.I(rest, d1, x, o2, end)
    case DeclNull(rest) =>
      d < p.stacksize && exists d1: nat, o1 :: d1 == d + 1 && NullAt(p, o, o1, d) && M.I(rest, d1, x, o1, end)
    case Then(s, rest) => exists o1 :: M.S(s, d, x, o, o1) && M.I(rest, d, x, o1, end)
  }

  /** `t` holds the tested value, and `b` is the address of the first body. */
  ghost predicate LaidC(p: Prog, M: Maps, cases: Cases, t: nat, d: nat, x: Ctx, o: int, b: int, end: int) {
    match cases
    case Default(body) => b == o && M.I(body, d, x, o, end)
    case Case(c, body, rest) =>
      d < p.stacksize
      && exists o1, o2, o3, o4, b1 :: M.E(d, c, d, o, o1) && BinAt(p, o1, o2, Eq, d, Target(c, d), t)
           && JzAt(p, o2, b, d, o4) && M.I(body, d, x, b, o3) && LaidSkip(p, rest, o3, o4, b1)
           && M.C(rest, t, d, x, o4, b1, end)
  }

  /** The maps agree with the code. */
  ghost predicate MapsCode(p: Prog, M: Maps) {
    && MapsExprs(p, M.E)
    && (forall s, d: nat, x, o, end {:trigger LaidS(p, M, s, d, x, o, end)} ::
          M.S(s, d, x, o, end) ==> LaidS(p, M, s, d, x, o, end))
    && (forall items, d: nat, x, o, end {:trigger LaidI(p, M, items, d, x, o, end)} ::
          M.I(items, d, x, o, end) ==> LaidI(p, M, items, d, x, o, end))
    && (forall cases, t: nat, d: nat, x, o, b, end {:trigger LaidC(p, M, cases, t, d, x, o, b, end)} ::
          M.C(cases, t, d, x, o, b, end) ==> LaidC(p, M, cases, t, d, x, o, b, end))
  }

  // ---------- The parts of a statement ----------

  lemma WhileParts(p: Prog, M: Maps, s: Stmt, d: nat, x: Ctx, o: int, end: int) returns (o1: int, o2: int, o3: int)
    requires s.While? && LaidS(p, M, s, d, x, o, end)
    ensures M.E(d, s.c, d, o, o1) && JzAt(p, o1, o2, Target(s.c, d), end)
    ensures M.S(s.body, d, InLoop(x, end, o), o2, o3) && JmpAt(p, o3, end, o)
  {
    o1, o2, o3 :| M.E(d, s.c, d, o, o1) && JzAt(p, o1, o2, Target(s.c, d), end)
      && M.S(s.body, d, InLoop(x, end, o), o2, o3) && JmpAt(p, o3, end, o);
  }

  lemma DoWhileParts(p: Prog, M: Maps, s: Stmt, d: nat, x: Ctx, o: int, end: int) returns (o1: int, o2: int, o3: int)
    requires s.DoWhile? && LaidS(p, M, s, d, x, o, end)
    ensures M.S(s.body, d, InLoop(x, end, o1), o, o1)
    ensures M.E(d, s.c, d, o1, o2) && JzAt(p, o2, o3, Target(s.c, d), end) && JmpAt(p, o3, end, o)
  {
    o1, o2, o3 :| M.S(s.body, d, InLoop(x, end, o1), o, o1)
      && M.E(d, s.c, d, o1, o2) && JzAt(p, o2, o3, Target(s.c, d), end) && JmpAt(p, o3, end, o);
  }

  lemma ForParts(p: Prog, M: Maps, s: Stmt, d: nat, x: Ctx, o: int, end: int)
      returns (o1: int, o2: int, o3: int, o4: int)
    requires s.For? && LaidS(p, M, s, d, x, o, end)
    ensures M.E(d, s.c, d, o, o1) && JzAt(p, o1, o2, Target(s.c, d), end)
    ensures M.S(s.body, d, InLoop(x, end, o3), o2, o3) && M.S(s.inc, d, x, o3, o4) && JmpAt(p, o4, end, o)
  {
    o1, o2, o3, o4 :| M.E(d, s.c, d, o, o1) && JzAt(p, o1, o2, Target(s.c, d), end)
      && M.S(s.body, d, InLoop(x, end, o3), o2, o3) && M.S(s.inc, d, x, o3, o4) && JmpAt(p, o4, end, o);
  }

  lemma TryParts(p: Prog, M: Maps, s: Stmt, d: nat, x: Ctx, o: int, end: int)
    returns (d1: nat, o1: int, o2: int, o3: int, o4: int)
    requires s.TryCatch? && LaidS(p, M, s, d, x, o, end)
    ensures d1 == d + 1 && TrapAt(p, o, o1, d, o4) && M.S(s.body, d, InTry(x), o1, o2)
    ensures LaidPop(p, 1, o2, o3) && JmpAt(p, o3, o4, end) && M.S(s.handler, d1, x, o4, end)
  {
    d1, o1, o2, o3, o4 :| d1 == d + 1 && TrapAt(p, o, o1, d, o4) && M.S(s.body, d, InTry(x), o1, o2)
      && LaidPop(p, 1, o2, o3) && JmpAt(p, o3, o4, end) && M.S(s.handler, d1, x, o4, end);
  }

  /** The other way: these parts make a try statement. */
  lemma TryLaid(p: Prog, M: Maps, s: Stmt, d: nat, d1: nat, x: Ctx, o: int, o1: int, o2: int, o3: int, o4: int,
      end: int)
    requires s.TryCatch? && d < p.stacksize && d1 == d + 1
    requires TrapAt(p, o, o1, d, o4) && M.S(s.body, d, InTry(x), o1, o2)
    requires LaidPop(p, 1, o2, o3) && JmpAt(p, o3, o4, end) && M.S(s.handler, d1, x, o4, end)
    ensures LaidS(p, M, s, d, x, o, end)
  {
  }

  /** And these a for statement. */
  lemma ForLaid(p: Prog, M: Maps, s: Stmt, d: nat, x: Ctx, o: int, o1: int, o2: int, o3: int, o4: int, end: int)
    requires s.For? && (s.inc.Empty? || s.inc.Eval? || s.inc.Assign?)
    requires M.E(d, s.c, d, o, o1) && JzAt(p, o1, o2, Target(s.c, d), end)
    requires M.S(s.body, d, InLoop(x, end, o3), o2, o3) && M.S(s.inc, d, x, o3, o4) && JmpAt(p, o4, end, o)
    ensures LaidS(p, M, s, d, x, o, end)
  {
  }
}
