/**
  A core of the Squirrel language and what its programs mean. Variables are the stack
  positions the compiler gives them, as name lookup has been done. Arithmetic, comparison and
  unary operators are a parameter: any total operator that answers a value or raises an error.
 */
module Squirrel {

  datatype Value = Null | Integer(n: int) | Boolean(b: bool) | Text(s: string)

  /**
    The result of evaluating something: a value, or a raised error value. `Lost` is neither: the
    machine ignores the failure of `%` and goes on with whatever the register for the result held.
   */
  datatype Res = Ok(v: Value) | Err(e: Value) | Lost

  datatype BinOp =
    | Add | Sub | Mul | Div | Mod
    | BitAnd | BitOr | BitXor | ShiftL | ShiftR | UShiftR
    | Eq | Ne | CmpG | CmpGE | CmpL | CmpLE | Cmp3W

  datatype UnOp = Neg | Not | BwNot

  /** The meaning of the operators other than `!`, `&&`, `||` and `?:`. */
  datatype Sem = Sem(bin: (BinOp, Value, Value) -> Res, un: (UnOp, Value) -> Res)

  predicate IsFalse(v: Value) {
    v == Null || v == Integer(0) || v == Boolean(false)
  }

  function Unary(sem: Sem, op: UnOp, v: Value): (r: Res) {
    if op == Not then Ok(Boolean(IsFalse(v))) else sem.un(op, v)
  }

  function Binary(sem: Sem, op: BinOp, v1: Value, v2: Value): (r: Res) {
    var r := sem.bin(op, v1, v2);
    if op == Mod && !r.Ok? then Lost else r
  }

  datatype Expr =
    | Const(v: Value)
    | Local(pos: nat)
    | Un(op: UnOp, e: Expr)
    | Bin(bop: BinOp, l: Expr, r: Expr)
    | AndE(l: Expr, r: Expr)
    | OrE(l: Expr, r: Expr)
    | Cond(c: Expr, a: Expr, b: Expr)

  datatype Stmt =
    | Empty
    | Eval(e: Expr)
    | Assign(pos: nat, e: Expr)
    | If(c: Expr, thn: Stmt)
    | IfElse(c: Expr, thn: Stmt, els: Stmt)
    | While(c: Expr, body: Stmt)
    | DoWhile(body: Stmt, c: Expr)
    | For(c: Expr, inc: Stmt, body: Stmt)
    | Switch(e: Expr, cases: Cases)
    | TryCatch(body: Stmt, handler: Stmt)
    | Throw(e: Expr)
    | Return(e: Expr)
    | ReturnNull
    | Break
    | Continue
    | Block(items: Items)

  /** The contents of a block: declarations open a variable for the rest of it. */
  datatype Items = Done | Decl(e: Expr, rest: Items) | DeclNull(rest: Items) | Then(s: Stmt, rest: Items)

  /** The cases of a switch; the default comes last, and is empty when there is none. */
  datatype Cases = Default(body: Items) | Case(c: Expr, body: Items, rest: Cases)

  // ---------- Meaning of expressions ----------

  function EvalE(sem: Sem, e: Expr, env: seq<Value>): (r: Res) {
    match e
    case Const(v) => Ok(v)
    case Local(p) => Ok(if p < |env| then env[p] else Null)
    case Un(op, e1) =>
      (match EvalE(sem, e1, env) case Ok(v) => Unary(sem, op, v) case Err(x) => Err(x) case Lost => Lost)
    case Bin(op, l, r) =>
      (match EvalE(sem, l, env)
       case Err(x) => Err(x) case Lost => Lost
       case Ok(v1) =>
         match EvalE(sem, r, env) case Err(x) => Err(x) case Lost => Lost case Ok(v2) => Binary(sem, op, v1, v2))
    case AndE(l, r) =>
      (match EvalE(sem, l, env)
       case Err(x) => Err(x) case Lost => Lost
       case Ok(v) => if IsFalse(v) then Ok(v) else EvalE(sem, r, env))
    case OrE(l, r) =>
      (match EvalE(sem, l, env)
       case Err(x) => Err(x) case Lost => Lost
       case Ok(v) => if IsFalse(v) then EvalE(sem, r, env) else Ok(v))
    case Cond(c, a, b) =>
      (match EvalE(sem, c, env)
       case Err(x) => Err(x) case Lost => Lost
       case Ok(v) => if IsFalse(v) then EvalE(sem, b, env) else EvalE(sem, a, env))
  }

  // ---------- Meaning of statements ----------

  /**
    How a statement ends; `Timeout` when more than `fuel` rounds of some loop are needed, `Strayed`
    when a `%` has failed.
   */
  datatype Outcome =
    | Normal(env: seq<Value>)
    | Broke(env: seq<Value>)
    | Continued(env: seq<Value>)
    | Threw(v: Value, env: seq<Value>)
    | Ret(v: Value)
    | Timeout
    | Strayed

  function Cut(env: seq<Value>, n: nat): (r: seq<Value>) {
    if n <= |env| then env[..n] else env
  }

  /** Leaving a scope: the variables from position `n` on are gone. */
  function Leave(out: Outcome, n: nat): (r: Outcome) {
    match out
    case Normal(env) => Normal(Cut(env, n))
    case Broke(env) => Broke(Cut(env, n))
    case Continued(env) => Continued(Cut(env, n))
    case Threw(v, env) => Threw(v, Cut(env, n))
    case Ret(_) => out
    case Timeout => out
    case Strayed => out
  }

  /** A switch catches the breaks of its bodies. */
  function CatchBreak(out: Outcome): (r: Outcome) {
    if out.Broke? then Normal(out.env) else out
  }

  /** A switch keeps the value it tests in a nameless position, unless it tests a variable. */
  function SwitchEnv(e: Expr, v: Value, env: seq<Value>): (r: seq<Value>) {
    if e.Local? then env else env + [v]
  }

  function ExecS(sem: Sem, s: Stmt, env: seq<Value>, fuel: nat): (r: Outcome)
    decreases fuel, s, 0
  {
    match s
    case Empty => Normal(env)
    case Eval(e) =>
      (match EvalE(sem, e, env) case Err(x) => Threw(x, env) case Lost => Strayed case Ok(_) => Normal(env))
    case Assign(p, e) =>
      (match EvalE(sem, e, env)
       case Err(x) => Threw(x, env)
       case Lost => Strayed
       case Ok(v) => Normal(if p < |env| then env[p := v] else env))
    case If(c, t) =>
      (match EvalE(sem, c, env)
       case Err(x) => Threw(x, env)
       case Lost => Strayed
       case Ok(v) => if IsFalse(v) then Normal(env) else ExecS(sem, t, env, fuel))
    case IfElse(c, t, f) =>
      (match EvalE(sem, c, env)
       case Err(x) => Threw(x, env)
       case Lost => Strayed
       case Ok(v) => if IsFalse(v) then ExecS(sem, f, env, fuel) else ExecS(sem, t, env, fuel))
    case While(c, b) =>
      if fuel == 0 then Timeout
      else
        (match EvalE(sem, c, env)
         case Err(x) => Threw(x, env)
         case Lost => Strayed
         case Ok(v) => if IsFalse(v) then Normal(env) else NextRound(sem, s, ExecS(sem, b, env, fuel - 1), fuel - 1))
    case DoWhile(b, c) =>
      if fuel == 0 then Timeout else NextRound(sem, s, Tested(sem, c, ExecS(sem, b, env, fuel)), fuel - 1)
    case For(c, inc, b) =>
      if fuel == 0 then Timeout
      else
        (match EvalE(sem, c, env)
         case Err(x) => Threw(x, env)
         case Lost => Strayed
         case Ok(v) =>
           if IsFalse(v) then Normal(env)
           else NextRound(sem, s, Stepped(sem, inc, ExecS(sem, b, env, fuel - 1), fuel - 1), fuel - 1))
    case Switch(e, cases) =>
      (match EvalE(sem, e, env)
       case Err(x) => Threw(x, env)
       case Lost => Strayed
       case Ok(v) => Leave(CatchBreak(ExecCases(sem, cases, v, SwitchEnv(e, v, env), fuel)), |env|))
    case TryCatch(b, h) =>
      (match ExecS(sem, b, env, fuel)
       case Threw(x, env1) => Leave(ExecS(sem, h, env1 + [x], fuel), |env|)
       case Normal(_) => ExecS(sem, b, env, fuel)
       case Broke(_) => ExecS(sem, b, env, fuel)
       case Continued(_) => ExecS(sem, b, env, fuel)
       case Ret(_) => ExecS(sem, b, env, fuel)
       case Timeout => Timeout
       case Strayed => Strayed)
    case Throw(e) =>
      (match EvalE(sem, e, env) case Err(x) => Threw(x, env) case Lost => Strayed case Ok(v) => Threw(v, env))
    case Return(e) => (match EvalE(sem, e, env) case Err(x) => Threw(x, env) case Lost => Strayed case Ok(v) => Ret(v))
    case ReturnNull => Ret(Null)
    case Break => Broke(env)
    case Continue => Continued(env)
    case Block(items) => Leave(ExecItems(sem, items, env, fuel), |env|)
  }

  /** What a loop does once a round of it has ended with `out`. */
  function NextRound(sem: Sem, s: Stmt, out: Outcome, fuel: nat): (r: Outcome)
    decreases fuel, s, 1
  {
    match out
    case Normal(env) => ExecS(sem, s, env, fuel)
    case Continued(env) => ExecS(sem, s, env, fuel)
    case Broke(env) => Normal(env)
    case Threw(_, _) => out
    case Ret(_) => out
    case Timeout => out
    case Strayed => out
  }

  /** The test behind a round of do-while: a false one ends the loop as a break does. */
  function Tested(sem: Sem, c: Expr, out: Outcome): (r: Outcome) {
    if out.Normal? || out.Continued? then
      match EvalE(sem, c, out.env)
      case Err(x) => Threw(x, out.env)
      case Lost => Strayed
      case Ok(v) => if IsFalse(v) then Broke(out.env) else Normal(out.env)
    else out
  }

  /** The third clause of a for loop, run behind every round. */
  function Stepped(sem: Sem, inc: Stmt, out: Outcome, fuel: nat): (r: Outcome)
    decreases fuel, inc, 1
  {
    if out.Normal? || out.Continued? then ExecS(sem, inc, out.env, fuel) else out
  }

  function ExecItems(sem: Sem, items: Items, env: seq<Value>, fuel: nat): (r: Outcome)
    decreases fuel, items, 0
  {
    match items
    case Done => Normal(env)
    case Decl(e, rest) =>
      (match EvalE(sem, e, env)
       case Err(x) => Threw(x, env)
       case Lost => Strayed
       case Ok(v) => ExecItems(sem, rest, env + [v], fuel))
    case DeclNull(rest) => ExecItems(sem, rest, env + [Null], fuel)
    case Then(s, rest) =>
      var out := ExecS(sem, s, env, fuel);
      if out.Normal? then ExecItems(sem, rest, out.env, fuel) else out
  }

  function TestCase(sem: Sem, v: Value, c: Expr, env: seq<Value>): (r: Res) {
    match EvalE(sem, c, env) case Err(x) => Err(x) case Lost => Lost case Ok(w) => Binary(sem, Eq, v, w)
  }

  /** Looks for the first case equal to `v`, and runs from there. */
  function ExecCases(sem: Sem, cases: Cases, v: Value, env: seq<Value>, fuel: nat): (r: Outcome)
    decreases fuel, cases, 1
  {
    match cases
    case Default(_) => ExecFall(sem, cases, env, fuel)
    case Case(c, _, rest) =>
      match TestCase(sem, v, c, env)
      case Err(x) => Threw(x, env)
      case Lost => Strayed
      case Ok(b) => if IsFalse(b) then ExecCases(sem, rest, v, env, fuel) else ExecFall(sem, cases, env, fuel)
  }

  /** Runs every body in turn, falling through. */
  function ExecFall(sem: Sem, cases: Cases, env: seq<Value>, fuel: nat): (r: Outcome)
    decreases fuel, cases, 0
  {
    match cases
    case Default(body) => Leave(ExecItems(sem, body, env, fuel), |env|)
    case Case(_, body, rest) =>
      var out := Leave(ExecItems(sem, body, env, fuel), |env|);
      if out.Normal? then ExecFall(sem, rest, out.env, fuel) else out
  }
}
