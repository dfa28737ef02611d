/**
  Laws of the language: what its operators and statements mean, said of programs alone. The machine
  and the meaning of programs share the truth of a value and the operators; these laws fix them.
 */
module Laws {
  import opened Squirrel

  /** What counts as false: null, the integer 0 and `false`; a conditional takes its second branch exactly for these. */
  lemma ConditionalPicks(sem: Sem, v: Value, a: Expr, b: Expr, env: seq<Value>)
    ensures EvalE(sem, Cond(Const(v), a, b), env)
         == EvalE(sem, if v in {Null, Integer(0), Boolean(false)} then b else a, env)
  {
    assert EvalE(sem, Const(v), env) == Ok(v);
  }

  /** `!e` is `e ? false : true`. */
  lemma NotIsConditional(sem: Sem, e: Expr, env: seq<Value>)
    ensures EvalE(sem, Un(Not, e), env) == EvalE(sem, Cond(e, Const(Boolean(false)), Const(Boolean(true))), env)
  {
    assert EvalE(sem, Const(Boolean(false)), env) == Ok(Boolean(false));
    assert EvalE(sem, Const(Boolean(true)), env) == Ok(Boolean(true));
  }

  /** `!!e` is true or false just as `e` counts as one. */
  lemma TwiceNot(sem: Sem, v: Value, env: seq<Value>)
    ensures EvalE(sem, Un(Not, Un(Not, Const(v))), env) == Ok(Boolean(v !in {Null, Integer(0), Boolean(false)}))
  {
    var e := Un(Not, Const(v));
    NotIsConditional(sem, Const(v), env);
    ConditionalPicks(sem, v, Const(Boolean(false)), Const(Boolean(true)), env);
    NotIsConditional(sem, e, env);
  }

  /** `l && r` is `l ? r : l`, and `l || r` is `l ? l : r`, with `l` evaluated once. */
  lemma LogicIsConditional(sem: Sem, l: Expr, r: Expr, env: seq<Value>)
    ensures EvalE(sem, AndE(l, r), env) == EvalE(sem, Cond(l, r, l), env)
    ensures EvalE(sem, OrE(l, r), env) == EvalE(sem, Cond(l, l, r), env)
  {
  }

  /** The other operators are those of the parameter, the left operand first; only a failing `%` is no error. */
  lemma OperatorsAre(sem: Sem, op: BinOp, uop: UnOp, x: Value, y: Value, env: seq<Value>)
    ensures EvalE(sem, Bin(op, Const(x), Const(y)), env)
         == if op == Mod && !sem.bin(op, x, y).Ok? then Lost else sem.bin(op, x, y)
    ensures uop != Not ==> EvalE(sem, Un(uop, Const(x)), env) == sem.un(uop, x)
  {
    assert EvalE(sem, Const(x), env) == Ok(x) && EvalE(sem, Const(y), env) == Ok(y);
  }

  /** A left operand that raises keeps the right one from being evaluated. */
  lemma LeftFirst(sem: Sem, op: BinOp, l: Expr, r: Expr, env: seq<Value>)
    requires !EvalE(sem, l, env).Ok?
    ensures EvalE(sem, Bin(op, l, r), env) == EvalE(sem, AndE(l, r), env) == EvalE(sem, OrE(l, r), env)
         == EvalE(sem, l, env)
  {
  }

  /** `if` is `if ... else` with nothing to do. */
  lemma IfIsIfElse(sem: Sem, c: Expr, t: Stmt, env: seq<Value>, fuel: nat)
    ensures ExecS(sem, If(c, t), env, fuel) == ExecS(sem, IfElse(c, t, Empty), env, fuel)
  {
  }

  /** A `for` without a third clause is a `while`. */
  lemma {:induction false} ForIsWhile(sem: Sem, c: Expr, b: Stmt, env: seq<Value>, fuel: nat)
    ensures ExecS(sem, For(c, Empty, b), env, fuel) == ExecS(sem, While(c, b), env, fuel)
    decreases fuel
  {
    if fuel > 0 {
      var out := ExecS(sem, b, env, fuel - 1);
      if out.Normal? || out.Continued? {
        assert Stepped(sem, Empty, out, fuel - 1) == Normal(out.env);
        ForIsWhile(sem, c, b, out.env, fuel - 1);
      }
    }
  }

  /** A round of `while` is its body behind a test: a round that ends goes on to the next, a break ends the loop. */
  lemma WhileUnrolls(sem: Sem, c: Expr, b: Stmt, v: Value, env: seq<Value>, fuel: nat)
    requires EvalE(sem, c, env) == Ok(v)
    ensures ExecS(sem, While(c, b), env, fuel + 1)
         == if v in {Null, Integer(0), Boolean(false)} then Normal(env)
            else match ExecS(sem, b, env, fuel)
                 case Normal(env1) => ExecS(sem, While(c, b), env1, fuel)
                 case Continued(env1) => ExecS(sem, While(c, b), env1, fuel)
                 case Broke(env1) => Normal(env1)
                 case out => out
  {
  }

  /** What is thrown, or raised on the way, is what the handler finds in its variable. */
  lemma CatchFindsError(sem: Sem, e: Expr, env: seq<Value>, fuel: nat)
    requires !EvalE(sem, e, env).Lost?
    ensures ExecS(sem, TryCatch(Throw(e), Return(Local(|env|))), env, fuel)
         == Ret(match EvalE(sem, e, env) case Ok(v) => v case Err(v) => v)
  {
    var v := match EvalE(sem, e, env) case Ok(v) => v case Err(v) => v;
    assert ExecS(sem, Throw(e), env, fuel) == Threw(v, env);
    assert EvalE(sem, Local(|env|), env + [v]) == Ok(v);
  }

  /** A switch with one case and nothing behind it is an `if`, when the body does not break. */
  lemma SwitchIsIf(sem: Sem, p: nat, w: Value, body: Items, env: seq<Value>, fuel: nat)
    requires p < |env| && !Leave(ExecItems(sem, body, env, fuel), |env|).Broke?
    ensures ExecS(sem, Switch(Local(p), Case(Const(w), body, Default(Done))), env, fuel)
         == ExecS(sem, If(Bin(Eq, Local(p), Const(w)), Block(body)), env, fuel)
  {
    var out := Leave(ExecItems(sem, body, env, fuel), |env|);
    assert TestCase(sem, env[p], Const(w), env) == EvalE(sem, Bin(Eq, Local(p), Const(w)), env);
    OneBody(sem, w, body, env, fuel);
    NoBody(sem, env[p], env, fuel);
    assert ExecS(sem, Block(body), env, fuel) == out && Leave(out, |env|) == out;
    assert SwitchEnv(Local(p), env[p], env) == env && EvalE(sem, Local(p), env) == Ok(env[p]);
  }

  lemma OneBody(sem: Sem, w: Value, body: Items, env: seq<Value>, fuel: nat)
    ensures ExecFall(sem, Case(Const(w), body, Default(Done)), env, fuel) == Leave(ExecItems(sem, body, env, fuel),
        |env|)
  {
    var out := Leave(ExecItems(sem, body, env, fuel), |env|);
    if out.Normal? { NoBody(sem, w, out.env, fuel); }
  }

  lemma NoBody(sem: Sem, v: Value, env: seq<Value>, fuel: nat)
    ensures ExecFall(sem, Default(Done), env, fuel) == ExecCases(sem, Default(Done), v, env, fuel) == Normal(env)
    ensures Leave(Normal(env), |env|) == Normal(env)
  {
    assert ExecItems(sem, Done, env, fuel) == Normal(env) && Cut(env, |env|) == env;
  }
}
