/** Running the code of an expression leaves its value in its target and nothing below changed. */
module ExprCorrect {
  import opened Squirrel
  import opened Bytecode
  import opened Layout

  /** `regs'` keeps the first `d` registers of `regs`. */
  ghost predicate Keeps(regs: seq<Value>, regs': seq<Value>, d: nat) {
    |regs'| == |regs| && d <= |regs| && forall i :: 0 <= i < d ==> regs'[i] == regs[i]
  }

  /** The variables have the values `env`. */
  ghost predicate Holds(regs: seq<Value>, env: seq<Value>) {
    |env| <= |regs| && forall i :: 0 <= i < |env| ==> regs[i] == env[i]
  }

  /**
    How a run of an expression ends: at `end` with the value in `t`, or raising; nothing is said
    once a `%` has failed.
   */
  ghost predicate Ended(R: (nat, Config) -> bool, k: nat, r: Res, t: nat, end: int, regs': seq<Value>, traps: Traps) {
    match r
    case Ok(v) => R(k, Run(end, regs', traps)) && t < |regs'| && regs'[t] == v
    case Err(x) => R(k, Raise(x, regs', traps))
    case Lost => true
  }

  lemma KeepsHolds(regs: seq<Value>, regs': seq<Value>, d: nat, env: seq<Value>)
    requires Keeps(regs, regs', d) && Holds(regs, env) && |env| <= d
    ensures Holds(regs', env)
  {
  }

  lemma KeepsTrans(r0: seq<Value>, r1: seq<Value>, r2: seq<Value>, d: nat, d1: nat)
    requires Keeps(r0, r1, d) && Keeps(r1, r2, d1) && d <= d1
    ensures Keeps(r0, r2, d)
  {
  }

  // ---------- One instruction ----------

  lemma RunJz(p: Prog, R: (nat, Config) -> bool, k: nat, o: int, next: int, s: nat, to: int, regs: seq<Value>,
      traps: Traps)
    requires Closed(p, R) && R(k, Run(o, regs, traps)) && JzAt(p, o, next, s, to) && s < |regs|
    ensures IsFalse(regs[s]) ==> R(k + 1, Run(to, regs, traps)) && R(k, Run(to, regs, traps))
    ensures !IsFalse(regs[s]) ==> R(k + 1, Run(next, regs, traps)) && R(k, Run(next, regs, traps))
  {
    Advance(p, R, k, Run(o, regs, traps));
  }

  lemma RunJmp(p: Prog, R: (nat, Config) -> bool, k: nat, o: int, next: int, to: int, regs: seq<Value>, traps: Traps)
    requires Closed(p, R) && R(k, Run(o, regs, traps)) && JmpAt(p, o, next, to)
    ensures R(k + 1, Run(to, regs, traps)) && R(k, Run(to, regs, traps))
  {
    Advance(p, R, k, Run(o, regs, traps));
  }

  lemma RunBin(p: Prog, R: (nat, Config) -> bool, k: nat, o: int, next: int, op: BinOp, t: nat, a1: nat, a2: nat,
      regs: seq<Value>, traps: Traps) returns (regs': seq<Value>)
    requires Closed(p, R) && R(k, Run(o, regs, traps)) && BinAt(p, o, next, op, t, a1, a2)
    requires t < |regs| && a1 < |regs| && a2 < |regs|
    ensures Keeps(regs, regs', t) && Ended(R, k, Binary(p.sem, op, regs[a2], regs[a1]), t, next, regs', traps)
  {
    var r := Binary(p.sem, op, regs[a2], regs[a1]);
    regs' := if r.Ok? then regs[t := r.v] else regs;
    Advance(p, R, k, Run(o, regs, traps));
  }

  lemma RunUn(p: Prog, R: (nat, Config) -> bool, k: nat, o: int, next: int, op: UnOp, t: nat, s: nat,
      regs: seq<Value>, traps: Traps) returns (regs': seq<Value>)
    requires Closed(p, R) && R(k, Run(o, regs, traps)) && UnAt(p, o, next, op, t, s)
    requires t < |regs| && s < |regs|
    ensures Keeps(regs, regs', t) && Ended(R, k, Unary(p.sem, op, regs[s]), t, next, regs', traps)
  {
    var r := Unary(p.sem, op, regs[s]);
    regs' := if r.Ok? then regs[t := r.v] else regs;
    Advance(p, R, k, Run(o, regs, traps));
  }

  lemma RunConst(p: Prog, R: (nat, Config) -> bool, k: nat, o: int, next: int, t: nat, v: Value,
      regs: seq<Value>, traps: Traps) returns (regs': seq<Value>)
    requires Closed(p, R) && R(k, Run(o, regs, traps)) && t < |regs| && next == o + 1
    requires 0 <= o < |p.code| && LoadsConst(p.code[o], t, v, p.lits)
    ensures Keeps(regs, regs', t) && Ended(R, k, Ok(v), t, next, regs', traps)
  {
    regs' := regs[t := v];
    if v.Null? { assert Nulls(regs, t, 1) == Nulls(regs, t, 0)[t := Null]; }
    Advance(p, R, k, Run(o, regs, traps));
  }

  lemma RunAnd(p: Prog, R: (nat, Config) -> bool, k: nat, o: int, next: int, t: nat, to: int, s: nat,
      regs: seq<Value>, traps: Traps)
    requires Closed(p, R) && R(k, Run(o, regs, traps)) && AndAt(p, o, next, t, to, s) && t < |regs| && s < |regs|
    ensures IsFalse(regs[s]) ==> R(k, Run(to, regs[t := regs[s]], traps))
    ensures !IsFalse(regs[s]) ==> R(k, Run(next, regs, traps))
  {
    Advance(p, R, k, Run(o, regs, traps));
  }

  lemma RunOr(p: Prog, R: (nat, Config) -> bool, k: nat, o: int, next: int, t: nat, to: int, s: nat,
      regs: seq<Value>, traps: Traps)
    requires Closed(p, R) && R(k, Run(o, regs, traps)) && OrAt(p, o, next, t, to, s) && t < |regs| && s < |regs|
    ensures IsFalse(regs[s]) ==> R(k, Run(next, regs, traps))
    ensures !IsFalse(regs[s]) ==> R(k, Run(to, regs[t := regs[s]], traps))
  {
    Advance(p, R, k, Run(o, regs, traps));
  }

  /** An optional move brings a value to register `t`. */
  lemma RunMove(p: Prog, R: (nat, Config) -> bool, k: nat, o: int, t: nat, s: nat, end: int, regs: seq<Value>,
      traps: Traps)
      returns (regs': seq<Value>)
    requires Closed(p, R) && R(k, Run(o, regs, traps)) && LaidMove(p, t, s, o, end) && t < |regs| && s < |regs|
    ensures regs' == regs[t := regs[s]] && Keeps(regs, regs', t) && R(k, Run(end, regs', traps))
  {
    regs' := regs[t := regs[s]];
    if t != s {
      Advance(p, R, k, Run(o, regs, traps));
    } else {
      assert regs' == regs;
    }
  }

  // ---------- Expressions ----------

  /**
    Code generation for expressions is correct: run anywhere, with any traps pending, the code
    of `e` ends behind itself with the value of `e` in its target, or raises what `e` raises;
    either way the registers below `d` are as they were.
   */
  lemma {:induction false} ExprRuns(p: Prog, L: ExprMap, R: (nat, Config) -> bool, k: nat, e: Expr, env: seq<Value>,
      d: nat, o: int, end: int, regs: seq<Value>, traps: Traps) returns (regs': seq<Value>)
    requires MapsExprs(p, L) && Closed(p, R) && R(k, Run(o, regs, traps)) && p.stacksize <= |regs|
    requires L(|env|, e, d, o, end) && |env| <= d <= |regs| && Holds(regs, env)
    ensures Keeps(regs, regs', d) && Ended(R, k, EvalE(p.sem, e, env), Target(e, d), end, regs', traps)
    ensures Target(e, d) < After(e, d)
    decreases e, 1
  {
    assert LaidE(p, L, |env|, e, d, o, end);
    match e {
      case Const(v) => regs' := RunConst(p, R, k, o, end, d, v, regs, traps);
      case Local(_) => regs' := regs;
      case Un(op, e1) =>
        var o1 :| L(|env|, e1, d, o, o1) && UnAt(p, o1, end, op, d, Target(e1, d));
        regs' := ExprRuns(p, L, R, k, e1, env, d, o, o1, regs, traps);
        if EvalE(p.sem, e1, env).Ok? { regs' := RunUn(p, R, k, o1, end, op, d, Target(e1, d), regs', traps); }
      case Bin(_, _, _) => regs' := BinRuns(p, L, R, k, e, env, d, o, end, regs, traps);
      case AndE(_, _) => regs' := AndRuns(p, L, R, k, e, env, d, o, end, regs, traps);
      case OrE(_, _) => regs' := OrRuns(p, L, R, k, e, env, d, o, end, regs, traps);
      case Cond(_, _, _) => regs' := CondRuns(p, L, R, k, e, env, d, o, end, regs, traps);
    }
  }

  lemma {:induction false} BinRuns(p: Prog, L: ExprMap, R: (nat, Config) -> bool, k: nat, e: Expr, env: seq<Value>,
      d: nat, o: int, end: int, regs: seq<Value>, traps: Traps) returns (regs': seq<Value>)
    requires MapsExprs(p, L) && Closed(p, R) && R(k, Run(o, regs, traps)) && p.stacksize <= |regs|
    requires e.Bin? && L(|env|, e, d, o, end) && |env| <= d && Holds(regs, env)
    ensures Keeps(regs, regs', d) && Ended(R, k, EvalE(p.sem, e, env), d, end, regs', traps)
    decreases e, 0
  {
    assert LaidE(p, L, |env|, e, d, o, end);
    var d2 := After(e.l, d);
    var o1, o2 :| L(|env|, e.l, d, o, o1) && L(|env|, e.r, d2, o1, o2)
      && BinAt(p, o2, end, e.bop, d, Target(e.r, d2), Target(e.l, d));
    var r1 := ExprRuns(p, L, R, k, e.l, env, d, o, o1, regs, traps);
    regs' := r1;
    if EvalE(p.sem, e.l, env).Ok? {
      KeepsHolds(regs, r1, d, env);
      var r2 := ExprRuns(p, L, R, k, e.r, env, d2, o1, o2, r1, traps);
      KeepsTrans(regs, r1, r2, d, d2);
      assert r2[Target(e.l, d)] == r1[Target(e.l, d)];
      regs' := r2;
      if EvalE(p.sem, e.r, env).Ok? {
        regs' := RunBin(p, R, k, o2, end, e.bop, d, Target(e.r, d2), Target(e.l, d), r2, traps);
        KeepsTrans(regs, r2, regs', d, d);
      }
    }
  }

  /** An operand ends with its value in `t`. */
  lemma {:induction false} OperandRuns(p: Prog, L: ExprMap, R: (nat, Config) -> bool, k: nat, e: Expr, env: seq<Value>,
      t: nat, o: int, end: int, regs: seq<Value>, traps: Traps) returns (regs': seq<Value>)
    requires MapsExprs(p, L) && Closed(p, R) && R(k, Run(o, regs, traps)) && p.stacksize <= |regs|
    requires LaidOperand(p, L, |env|, e, t, o, end) && |env| <= t < |regs| && Holds(regs, env)
    ensures Keeps(regs, regs', t) && Ended(R, k, EvalE(p.sem, e, env), t, end, regs', traps)
    decreases e, 2
  {
    var d: nat, o1 :| d == t + 1 && L(|env|, e, d, o, o1) && LaidMove(p, t, Target(e, d), o1, end);
    regs' := ExprRuns(p, L, R, k, e, env, d, o, o1, regs, traps);
    if EvalE(p.sem, e, env).Ok? {
      regs' := RunMove(p, R, k, o1, t, Target(e, d), end, regs', traps);
    }
  }

  lemma {:induction false} AndRuns(p: Prog, L: ExprMap, R: (nat, Config) -> bool, k: nat, e: Expr, env: seq<Value>,
      d: nat, o: int, end: int, regs: seq<Value>, traps: Traps) returns (regs': seq<Value>)
    requires MapsExprs(p, L) && Closed(p, R) && R(k, Run(o, regs, traps)) && p.stacksize <= |regs|
    requires e.AndE? && L(|env|, e, d, o, end) && |env| <= d && Holds(regs, env)
    ensures Keeps(regs, regs', d) && Ended(R, k, EvalE(p.sem, e, env), d, end, regs', traps)
    decreases e, 0
  {
    assert LaidE(p, L, |env|, e, d, o, end);
    var t1 := Target(e.l, d);
    var o1, o2, o3 :| L(|env|, e.l, d, o, o1) && AndAt(p, o1, o2, d, end, t1)
      && LaidMove(p, d, t1, o2, o3) && LaidOperand(p, L, |env|, e.r, d, o3, end);
    var r1 := ExprRuns(p, L, R, k, e.l, env, d, o, o1, regs, traps);
    regs' := r1;
    if EvalE(p.sem, e.l, env).Ok? {
      RunAnd(p, R, k, o1, o2, d, end, t1, r1, traps);
      if IsFalse(r1[t1]) {
        regs' := r1[d := r1[t1]];
      } else {
        var r2 := RunMove(p, R, k, o2, d, t1, o3, r1, traps);
        KeepsTrans(regs, r1, r2, d, d);
        KeepsHolds(regs, r2, d, env);
        regs' := OperandRuns(p, L, R, k, e.r, env, d, o3, end, r2, traps);
        KeepsTrans(regs, r2, regs', d, d);
      }
    }
  }

  lemma {:induction false} OrRuns(p: Prog, L: ExprMap, R: (nat, Config) -> bool, k: nat, e: Expr, env: seq<Value>,
      d: nat, o: int, end: int, regs: seq<Value>, traps: Traps) returns (regs': seq<Value>)
    requires MapsExprs(p, L) && Closed(p, R) && R(k, Run(o, regs, traps)) && p.stacksize <= |regs|
    requires e.OrE? && L(|env|, e, d, o, end) && |env| <= d && Holds(regs, env)
    ensures Keeps(regs, regs', d) && Ended(R, k, EvalE(p.sem, e, env), d, end, regs', traps)
    decreases e, 0
  {
    assert LaidE(p, L, |env|, e, d, o, end);
    var t1 := Target(e.l, d);
    var o1, o2, o3 :| L(|env|, e.l, d, o, o1) && OrAt(p, o1, o2, d, end, t1)
      && LaidMove(p, d, t1, o2, o3) && LaidOperand(p, L, |env|, e.r, d, o3, end);
    var r1 := ExprRuns(p, L, R, k, e.l, env, d, o, o1, regs, traps);
    regs' := r1;
    if EvalE(p.sem, e.l, env).Ok? {
      RunOr(p, R, k, o1, o2, d, end, t1, r1, traps);
      if IsFalse(r1[t1]) {
        var r2 := RunMove(p, R, k, o2, d, t1, o3, r1, traps);
        KeepsTrans(regs, r1, r2, d, d);
        KeepsHolds(regs, r2, d, env);
        regs' := OperandRuns(p, L, R, k, e.r, env, d, o3, end, r2, traps);
        KeepsTrans(regs, r2, regs', d, d);
      } else {
        regs' := r1[d := r1[t1]];
      }
    }
  }

  lemma {:induction false} CondRuns(p: Prog, L: ExprMap, R: (nat, Config) -> bool, k: nat, e: Expr, env: seq<Value>,
      d: nat, o: int, end: int, regs: seq<Value>, traps: Traps) returns (regs': seq<Value>)
    requires MapsExprs(p, L) && Closed(p, R) && R(k, Run(o, regs, traps)) && p.stacksize <= |regs|
    requires e.Cond? && L(|env|, e, d, o, end) && |env| <= d && Holds(regs, env)
    ensures Keeps(regs, regs', d) && Ended(R, k, EvalE(p.sem, e, env), d, end, regs', traps)
    decreases e, 0
  {
    assert LaidE(p, L, |env|, e, d, o, end);
    var o1, o2, o3, o4 :| L(|env|, e.c, d, o, o1) && JzAt(p, o1, o2, Target(e.c, d), o4)
      && LaidOperand(p, L, |env|, e.a, d, o2, o3) && JmpAt(p, o3, o4, end)
      && LaidOperand(p, L, |env|, e.b, d, o4, end);
    regs' := ExprRuns(p, L, R, k, e.c, env, d, o, o1, regs, traps);
    if EvalE(p.sem, e.c, env).Ok? {
      KeepsHolds(regs, regs', d, env);
      RunJz(p, R, k, o1, o2, Target(e.c, d), o4, regs', traps);
      if IsFalse(regs'[Target(e.c, d)]) {
        regs' := OperandRuns(p, L, R, k, e.b, env, d, o4, end, regs', traps);
      } else {
        regs' := OperandRuns(p, L, R, k, e.a, env, d, o2, o3, regs', traps);
        if EvalE(p.sem, e.a, env).Ok? { RunJmp(p, R, k, o3, o4, end, regs', traps); }
      }
    }
  }
}
