/** Running the code of a statement does what the statement means. */
module StmtCorrect {
  import opened Squirrel
  import opened Bytecode
  import opened Layout
  import opened ExprCorrect

  // ---------- One instruction ----------

  lemma RunPop(p: Prog, R: (nat, Config) -> bool, k: nat, o: int, end: int, count: nat, regs: seq<Value>, traps: Traps)
    requires Closed(p, R) && R(k, Run(o, regs, traps)) && LaidPop(p, count, o, end) && count <= Depth(traps)
    ensures R(k, Run(end, regs, Drop(traps, count)))
  {
    if count > 0 { Advance(p, R, k, Run(o, regs, traps)); }
  }

  lemma RunMoveAt(p: Prog, R: (nat, Config) -> bool, k: nat, o: int, next: int, t: nat, s: nat, regs: seq<Value>,
      traps: Traps)
    requires Closed(p, R) && R(k, Run(o, regs, traps)) && MoveAt(p, o, next, t, s) && t < |regs| && s < |regs|
    ensures R(k, Run(next, regs[t := regs[s]], traps))
  {
    Advance(p, R, k, Run(o, regs, traps));
  }

  lemma RunNull(p: Prog, R: (nat, Config) -> bool, k: nat, o: int, next: int, t: nat, regs: seq<Value>, traps: Traps)
    requires Closed(p, R) && R(k, Run(o, regs, traps)) && NullAt(p, o, next, t) && t < |regs|
    ensures R(k, Run(next, regs[t := Null], traps))
  {
    assert Nulls(regs, t, 1) == Nulls(regs, t, 0)[t := Null];
    Advance(p, R, k, Run(o, regs, traps));
  }

  lemma RunTrap(p: Prog, R: (nat, Config) -> bool, k: nat, o: int, next: int, ext: nat, handler: int, regs: seq<Value>,
      traps: Traps)
    requires Closed(p, R) && R(k, Run(o, regs, traps)) && TrapAt(p, o, next, ext, handler)
    ensures R(k, Run(next, regs, Trap(handler, ext, traps)))
  {
    Advance(p, R, k, Run(o, regs, traps));
  }

  lemma RunThrow(p: Prog, R: (nat, Config) -> bool, k: nat, o: int, next: int, s: nat, regs: seq<Value>, traps: Traps)
    requires Closed(p, R) && R(k, Run(o, regs, traps)) && ThrowAt(p, o, next, s) && s < |regs|
    ensures R(k, Raise(regs[s], regs, traps))
  {
    Advance(p, R, k, Run(o, regs, traps));
  }

  lemma RunRet(p: Prog, R: (nat, Config) -> bool, k: nat, o: int, next: int, hasval: bool, s: nat, regs: seq<Value>,
      traps: Traps)
    requires Closed(p, R) && R(k, Run(o, regs, traps)) && RetAt(p, o, next, hasval, s) && (hasval ==> s < |regs|)
    ensures R(k, Returned(if hasval then regs[s] else Null, traps))
  {
    Advance(p, R, k, Run(o, regs, traps));
  }

  /** A raised value reaches the newest trap, which is gone then. */
  lemma RunRaise(p: Prog, R: (nat, Config) -> bool, k: nat, v: Value, regs: seq<Value>, traps: Traps)
    requires Closed(p, R) && R(k, Raise(v, regs, traps)) && traps.Trap? && traps.ext < |regs|
    ensures R(k, Run(traps.ip, regs[traps.ext := v], traps.rest))
  {
    Advance(p, R, k, Raise(v, regs, traps));
  }

  // ---------- Statements ----------

  /** Enough traps are pending for every jump out of the surrounding try blocks. */
  ghost predicate Trapped(x: Ctx, traps: Traps) {
    x.tries <= Depth(traps) && (x.brk.Jump? ==> x.brk.tries <= x.tries) && (x.cont.Jump? ==> x.cont.tries <= x.tries)
  }

  /** The machine is at `pc` with `m` registers, of which the first `d` are `env`. */
  ghost predicate At(c: Config, pc: int, traps: Traps, env: seq<Value>, d: nat, m: nat) {
    c.Run? && c.pc == pc && c.traps == traps && |c.regs| == m && |env| == d && Holds(c.regs, env)
  }

  ghost predicate Raising(c: Config, v: Value, traps: Traps, env: seq<Value>, d: nat, m: nat) {
    c.Raise? && c.v == v && c.traps == traps && |c.regs| == m && |env| == d && Holds(c.regs, env)
  }

  /** Where the machine stands when the code from some point up to `end` has done `out`. */
  ghost predicate Lands(out: Outcome, c: Config, d: nat, m: nat, end: int, x: Ctx, traps: Traps)
    requires Trapped(x, traps)
  {
    match out
    case Normal(env) => At(c, end, traps, env, d, m)
    case Broke(env) => x.brk.Jump? && At(c, x.brk.at, Drop(traps, x.brk.tries), env, d, m)
    case Continued(env) => x.cont.Jump? && At(c, x.cont.at, Drop(traps, x.cont.tries), env, d, m)
    case Threw(v, env) => Raising(c, v, traps, env, d, m)
    case Ret(v) => c == Returned(v, Drop(traps, x.tries))
    case Timeout => c.Run?
    case Strayed => true
  }

  /**
    The machine gets there; when the statement needs more than `fuel` rounds, it is still running
    after as many steps.
   */
  ghost predicate Gets(R: (nat, Config) -> bool, k: nat, fuel: nat, out: Outcome, c: Config) {
    out.Strayed? || R(if out.Timeout? then k + fuel else k, c)
  }

  /** The machine stands before the code, in the state the statement starts from. */
  ghost predicate Starts(p: Prog, M: Maps, R: (nat, Config) -> bool, k: nat, env: seq<Value>, x: Ctx, o: int,
      regs: seq<Value>, traps: Traps) {
    && MapsCode(p, M) && Closed(p, R) && R(k, Run(o, regs, traps))
    && p.stacksize <= |regs| && Holds(regs, env) && Trapped(x, traps)
  }

  /** An expression of a statement: the variables stay. */
  lemma EvalRuns(p: Prog, M: Maps, R: (nat, Config) -> bool, k: nat, e: Expr, env: seq<Value>, o: int, end: int,
      regs: seq<Value>, traps: Traps) returns (regs': seq<Value>)
    requires MapsCode(p, M) && Closed(p, R) && R(k, Run(o, regs, traps)) && p.stacksize <= |regs| && Holds(regs, env)
    requires M.E(|env|, e, |env|, o, end)
    ensures |regs'| == |regs| && Holds(regs', env)
    ensures Ended(R, k, EvalE(p.sem, e, env), Target(e, |env|), end, regs', traps)
    ensures Target(e, |env|) < After(e, |env|)
  {
    regs' := ExprRuns(p, M.E, R, k, e, env, |env|, o, end, regs, traps);
    KeepsHolds(regs, regs', |env|, env);
  }

  /** Leaving a scope, the machine need not do anything. */
  lemma LandsLeave(out: Outcome, c: Config, d: nat, d1: nat, m: nat, end: int, x: Ctx, traps: Traps)
    requires Trapped(x, traps) && Lands(out, c, d1, m, end, x, traps) && d <= d1
    ensures Lands(Leave(out, d), c, d, m, end, x, traps)
  {
  }

  lemma LeaveOuter(out: Outcome, c: Config, d: nat, d1: nat, m: nat, end: int, x: Ctx, traps: Traps)
    requires Trapped(x, traps) && Lands(Leave(out, d1), c, d1, m, end, x, traps) && d <= d1
    ensures Lands(Leave(out, d), c, d, m, end, x, traps)
  {
    LandsLeave(Leave(out, d1), c, d, d1, m, end, x, traps);
    if !out.Ret? && !out.Timeout? && !out.Strayed? { assert Cut(Cut(out.env, d1), d) == Cut(out.env, d); }
  }

  /** A statement that does not fall through leaves the machine at the same place whatever follows it. */
  lemma LandsEnd(out: Outcome, c: Config, d: nat, m: nat, end: int, end': int, x: Ctx, traps: Traps)
    requires Trapped(x, traps) && Lands(out, c, d, m, end, x, traps) && !out.Normal?
    ensures Lands(out, c, d, m, end', x, traps)
  {
  }

  /** Code generation for statements is correct: a statement that falls through, breaks, continues,
    throws or returns leaves the machine where that leads, with the variables as they should be
    and with the traps of the try blocks it left popped, no more and no fewer. */
  lemma {:induction false} StmtRuns(p: Prog, M: Maps, R: (nat, Config) -> bool, k: nat, s: Stmt, env: seq<Value>,
      fuel: nat, x: Ctx, o: int, end: int, regs: seq<Value>, traps: Traps) returns (c: Config)
    requires Starts(p, M, R, k, env, x, o, regs, traps) && M.S(s, |env|, x, o, end)
    ensures Lands(ExecS(p.sem, s, env, fuel), c, |env|, |regs|, end, x, traps)
    ensures Gets(R, k, fuel, ExecS(p.sem, s, env, fuel), c)
    decreases fuel, s, 2
  {
    assert LaidS(p, M, s, |env|, x, o, end);
    match s {
      case Empty => c := Run(o, regs, traps);
      case Eval(_) => c := SimpleRuns(p, M, R, k, s, env, fuel, x, o, end, regs, traps);
      case Assign(_, _) => c := SimpleRuns(p, M, R, k, s, env, fuel, x, o, end, regs, traps);
      case Throw(_) => c := SimpleRuns(p, M, R, k, s, env, fuel, x, o, end, regs, traps);
      case If(_, _) => c := IfRuns(p, M, R, k, s, env, fuel, x, o, end, regs, traps);
      case IfElse(_, _, _) => c := IfElseRuns(p, M, R, k, s, env, fuel, x, o, end, regs, traps);
      case While(_, _) => c := WhileRuns(p, M, R, k, s, env, fuel, x, o, end, regs, traps);
      case DoWhile(_, _) => c := DoWhileRuns(p, M, R, k, s, env, fuel, x, o, end, regs, traps);
      case For(_, _, _) => c := ForRuns(p, M, R, k, s, env, fuel, x, o, end, regs, traps);
      case Switch(_, _) => c := SwitchRuns(p, M, R, k, s, env, fuel, x, o, end, regs, traps);
      case TryCatch(_, _) => c := TryRuns(p, M, R, k, s, env, fuel, x, o, end, regs, traps);
      case Return(_) => c := ReturnRuns(p, M, R, k, s, env, fuel, x, o, end, regs, traps);
      case ReturnNull => c := ReturnRuns(p, M, R, k, s, env, fuel, x, o, end, regs, traps);
      case Break => c := JumpRuns(p, M, R, k, s, env, fuel, x, o, end, regs, traps);
      case Continue => c := JumpRuns(p, M, R, k, s, env, fuel, x, o, end, regs, traps);
      case Block(items) =>
        c := ItemsRun(p, M, R, k, items, env, fuel, x, o, end, regs, traps);
    }
  }

  lemma {:induction false} SimpleRuns(p: Prog, M: Maps, R: (nat, Config) -> bool, k: nat, s: Stmt, env: seq<Value>,
      fuel: nat, x: Ctx, o: int, end: int, regs: seq<Value>, traps: Traps) returns (c: Config)
    requires Starts(p, M, R, k, env, x, o, regs, traps) && (s.Eval? || s.Assign? || s.Throw?)
      && M.S(s, |env|, x, o, end)
    ensures Lands(ExecS(p.sem, s, env, fuel), c, |env|, |regs|, end, x, traps)
    ensures Gets(R, k, fuel, ExecS(p.sem, s, env, fuel), c)
    decreases fuel, s, 0
  {
    assert LaidS(p, M, s, |env|, x, o, end);
    var d, t := |env|, Target(s.e, |env|);
    var o1 :| M.E(d, s.e, d, o, o1) && (s.Eval? ==> o1 == end) && (s.Assign? ==> MoveAt(p, o1, end, s.pos, t))
      && (s.Throw? ==> ThrowAt(p, o1, end, t));
    var r1 := EvalRuns(p, M, R, k, s.e, env, o, o1, regs, traps);
    match EvalE(p.sem, s.e, env) {
      case Lost => c := Run(o, regs, traps);
      case Err(v) => c := Raise(v, r1, traps);
      case Ok(v) =>
        if s.Assign? {
          RunMoveAt(p, R, k, o1, end, s.pos, t, r1, traps);
          c := Run(end, r1[s.pos := r1[t]], traps);
        } else if s.Throw? {
          RunThrow(p, R, k, o1, end, t, r1, traps);
          c := Raise(v, r1, traps);
        } else {
          c := Run(end, r1, traps);
        }
    }
  }

  lemma {:induction false} IfRuns(p: Prog, M: Maps, R: (nat, Config) -> bool, k: nat, s: Stmt, env: seq<Value>,
      fuel: nat, x: Ctx, o: int, end: int, regs: seq<Value>, traps: Traps) returns (c: Config)
    requires Starts(p, M, R, k, env, x, o, regs, traps) && s.If? && M.S(s, |env|, x, o, end)
    ensures Lands(ExecS(p.sem, s, env, fuel), c, |env|, |regs|, end, x, traps)
    ensures Gets(R, k, fuel, ExecS(p.sem, s, env, fuel), c)
    decreases fuel, s, 0
  {
    assert LaidS(p, M, s, |env|, x, o, end);
    var d, t := |env|, Target(s.c, |env|);
    var o1, o2 :| M.E(d, s.c, d, o, o1) && JzAt(p, o1, o2, t, end) && M.S(s.thn, d, x, o2, end);
    var r1 := EvalRuns(p, M, R, k, s.c, env, o, o1, regs, traps);
    match EvalE(p.sem, s.c, env) {
      case Lost => c := Run(o, regs, traps);
      case Err(v) => c := Raise(v, r1, traps);
      case Ok(v) =>
        RunJz(p, R, k, o1, o2, t, end, r1, traps);
        if IsFalse(v) {
          c := Run(end, r1, traps);
        } else {
          c := StmtRuns(p, M, R, k, s.thn, env, fuel, x, o2, end, r1, traps);
        }
    }
  }

  lemma {:induction false} IfElseRuns(p: Prog, M: Maps, R: (nat, Config) -> bool, k: nat, s: Stmt, env: seq<Value>,
      fuel: nat, x: Ctx, o: int, end: int, regs: seq<Value>, traps: Traps) returns (c: Config)
    requires Starts(p, M, R, k, env, x, o, regs, traps) && s.IfElse? && M.S(s, |env|, x, o, end)
    ensures Lands(ExecS(p.sem, s, env, fuel), c, |env|, |regs|, end, x, traps)
    ensures Gets(R, k, fuel, ExecS(p.sem, s, env, fuel), c)
    decreases fuel, s, 0
  {
    assert LaidS(p, M, s, |env|, x, o, end);
    var d, t := |env|, Target(s.c, |env|);
    var o1, o2, o3, o4 :| M.E(d, s.c, d, o, o1) && JzAt(p, o1, o2, t, o4)
      && M.S(s.thn, d, x, o2, o3) && JmpAt(p, o3, o4, end) && M.S(s.els, d, x, o4, end);
    var r1 := EvalRuns(p, M, R, k, s.c, env, o, o1, regs, traps);
    match EvalE(p.sem, s.c, env) {
      case Lost => c := Run(o, regs, traps);
      case Err(v) => c := Raise(v, r1, traps);
      case Ok(v) =>
        RunJz(p, R, k, o1, o2, t, o4, r1, traps);
        if IsFalse(v) {
          c := StmtRuns(p, M, R, k, s.els, env, fuel, x, o4, end, r1, traps);
        } else {
          c := StmtRuns(p, M, R, k, s.thn, env, fuel, x, o2, o3, r1, traps);
          if ExecS(p.sem, s.thn, env, fuel).Normal? {
            RunJmp(p, R, k, o3, o4, end, c.regs, traps);
            c := Run(end, c.regs, traps);
          }
        }
    }
  }

  /** How a round of a loop leaves the machine: before the loop again, behind it, or out of it. */
  ghost predicate RoundLands(out: Outcome, c: Config, d: nat, m: nat, o: int, end: int, x: Ctx, traps: Traps)
    requires Trapped(x, traps)
  {
    match out
    case Normal(env) => At(c, o, traps, env, d, m)
    case Continued(env) => At(c, o, traps, env, d, m)
    case Broke(env) => At(c, end, traps, env, d, m)
    case Threw(v, env) => Raising(c, v, traps, env, d, m)
    case Ret(v) => c == Returned(v, Drop(traps, x.tries))
    case Timeout => c.Run?
    case Strayed => true
  }

  lemma {:induction false} NextRuns(p: Prog, M: Maps, R: (nat, Config) -> bool, k: nat, s: Stmt, out: Outcome,
      fuel: nat, x: Ctx, o: int, end: int, d: nat, m: nat, traps: Traps, c1: Config) returns (c: Config)
    requires MapsCode(p, M) && Closed(p, R) && p.stacksize <= m && Trapped(x, traps) && M.S(s, d, x, o, end)
    requires RoundLands(out, c1, d, m, o, end, x, traps) && Gets(R, k, fuel, out, c1)
    ensures Lands(NextRound(p.sem, s, out, fuel), c, d, m, end, x, traps)
    ensures Gets(R, k, fuel, NextRound(p.sem, s, out, fuel), c)
    decreases fuel, s, 3
  {
    if out.Normal? || out.Continued? {
      c := StmtRuns(p, M, R, k, s, out.env, fuel, x, o, end, c1.regs, traps);
    } else {
      c := c1;
    }
  }

  /** A round of a while loop, and all that follow. */
  lemma {:induction false} WhileRound(p: Prog, M: Maps, R: (nat, Config) -> bool, k: nat, s: Stmt, env: seq<Value>,
      fuel: nat, x: Ctx, o: int, o2: int, o3: int, end: int, regs: seq<Value>, traps: Traps) returns (c: Config)
    requires Starts(p, M, R, k, env, x, o2, regs, traps) && s.While? && M.S(s, |env|, x, o, end)
    requires M.S(s.body, |env|, InLoop(x, end, o), o2, o3) && JmpAt(p, o3, end, o)
    ensures Lands(NextRound(p.sem, s, ExecS(p.sem, s.body, env, fuel), fuel), c, |env|, |regs|, end, x, traps)
    ensures Gets(R, k, fuel, NextRound(p.sem, s, ExecS(p.sem, s.body, env, fuel), fuel), c)
    decreases fuel, s, 4
  {
    var out := ExecS(p.sem, s.body, env, fuel);
    var c1 := StmtRuns(p, M, R, k, s.body, env, fuel, InLoop(x, end, o), o2, o3, regs, traps);
    if out.Normal? {
      RunJmp(p, R, k, o3, end, o, c1.regs, traps);
      c1 := Run(o, c1.regs, traps);
    }
    c := NextRuns(p, M, R, k, s, out, fuel, x, o, end, |env|, |regs|, traps, c1);
  }

  lemma {:induction false} WhileRuns(p: Prog, M: Maps, R: (nat, Config) -> bool, k: nat, s: Stmt, env: seq<Value>,
      fuel: nat, x: Ctx, o: int, end: int, regs: seq<Value>, traps: Traps) returns (c: Config)
    requires Starts(p, M, R, k, env, x, o, regs, traps) && s.While? && M.S(s, |env|, x, o, end)
    ensures Lands(ExecS(p.sem, s, env, fuel), c, |env|, |regs|, end, x, traps)
    ensures Gets(R, k, fuel, ExecS(p.sem, s, env, fuel), c)
    decreases fuel, s, 0
  {
    assert LaidS(p, M, s, |env|, x, o, end);
    if fuel == 0 { return Run(o, regs, traps); }
    var o1, o2, o3 := WhileParts(p, M, s, |env|, x, o, end);
    c := WhileTest(p, M, R, k, s, env, fuel, x, o, o1, o2, o3, end, regs, traps);
  }

  /** The test of a while loop, and all that follows. */
  lemma {:induction false} WhileTest(p: Prog, M: Maps, R: (nat, Config) -> bool, k: nat, s: Stmt, env: seq<Value>,
      fuel: nat, x: Ctx, o: int, o1: int, o2: int, o3: int, end: int, regs: seq<Value>, traps: Traps)
    returns (c: Config)
    requires Starts(p, M, R, k, env, x, o, regs, traps) && s.While? && M.S(s, |env|, x, o, end) && fuel > 0
    requires M.E(|env|, s.c, |env|, o, o1) && JzAt(p, o1, o2, Target(s.c, |env|), end)
    requires M.S(s.body, |env|, InLoop(x, end, o), o2, o3) && JmpAt(p, o3, end, o)
    ensures Lands(ExecS(p.sem, s, env, fuel), c, |env|, |regs|, end, x, traps)
    ensures Gets(R, k, fuel, ExecS(p.sem, s, env, fuel), c)
    decreases fuel, s, 0, 0
  {
    var t := Target(s.c, |env|);
    var r1 := EvalRuns(p, M, R, k, s.c, env, o, o1, regs, traps);
    match EvalE(p.sem, s.c, env) {
      case Lost => c := Run(o, regs, traps);
      case Err(v) => c := Raise(v, r1, traps);
      case Ok(v) =>
        RunJz(p, R, k, o1, o2, t, end, r1, traps);
        if IsFalse(v) {
          c := Run(end, r1, traps);
        } else {
          c := WhileRound(p, M, R, k + 1, s, env, fuel - 1, x, o, o2, o3, end, r1, traps);
        }
    }
  }

  lemma {:induction false} DoWhileRuns(p: Prog, M: Maps, R: (nat, Config) -> bool, k: nat, s: Stmt, env: seq<Value>,
      fuel: nat, x: Ctx, o: int, end: int, regs: seq<Value>, traps: Traps) returns (c: Config)
    requires Starts(p, M, R, k, env, x, o, regs, traps) && s.DoWhile? && M.S(s, |env|, x, o, end)
    ensures Lands(ExecS(p.sem, s, env, fuel), c, |env|, |regs|, end, x, traps)
    ensures Gets(R, k, fuel, ExecS(p.sem, s, env, fuel), c)
    decreases fuel, s, 0
  {
    assert LaidS(p, M, s, |env|, x, o, end);
    if fuel == 0 { return Run(o, regs, traps); }
    var round;
    round, c := RoundRuns(p, M, R, k, s, env, fuel, x, o, end, regs, traps);
    assert ExecS(p.sem, s, env, fuel) == NextRound(p.sem, s, round, fuel - 1);
    if round.Normal? {
      c := NextRuns(p, M, R, k + 1, s, round, fuel - 1, x, o, end, |env|, |regs|, traps, c);
    } else {
      assert !round.Continued?;
    }
  }

  /** One round of do-while: its body and its test. */
  lemma {:induction false} RoundRuns(p: Prog, M: Maps, R: (nat, Config) -> bool, k: nat, s: Stmt, env: seq<Value>,
      fuel: nat, x: Ctx, o: int, end: int, regs: seq<Value>, traps: Traps) returns (round: Outcome, c: Config)
    requires Starts(p, M, R, k, env, x, o, regs, traps) && s.DoWhile? && M.S(s, |env|, x, o, end)
    ensures round == Tested(p.sem, s.c, ExecS(p.sem, s.body, env, fuel))
    ensures RoundLands(round, c, |env|, |regs|, o, end, x, traps) && Gets(R, k, fuel, round, c)
    ensures round.Normal? ==> R(k + 1, c)
    decreases fuel, s.body, 4
  {
    assert LaidS(p, M, s, |env|, x, o, end);
    var o1, o2, o3 := DoWhileParts(p, M, s, |env|, x, o, end);
    var out := ExecS(p.sem, s.body, env, fuel);
    var c1 := StmtRuns(p, M, R, k, s.body, env, fuel, InLoop(x, end, o1), o, o1, regs, traps);
    round := Tested(p.sem, s.c, out);
    c := TestRuns(p, M, R, k, s.c, out, fuel, x, o1, o2, o3, end, o, |env|, |regs|, traps, c1);
  }

  /** The test behind a round of do-while takes the machine back or on. */
  lemma TestRuns(p: Prog, M: Maps, R: (nat, Config) -> bool, k: nat, e: Expr, out: Outcome, fuel: nat, x: Ctx,
      o1: int, o2: int, o3: int, end: int, o: int, d: nat, m: nat, traps: Traps, c1: Config)
    returns (c: Config)
    requires MapsCode(p, M) && Closed(p, R) && p.stacksize <= m && Trapped(x, traps)
    requires M.E(d, e, d, o1, o2) && JzAt(p, o2, o3, Target(e, d), end) && JmpAt(p, o3, end, o)
    requires Lands(out, c1, d, m, o1, InLoop(x, end, o1), traps) && Gets(R, k, fuel, out, c1)
    ensures RoundLands(Tested(p.sem, e, out), c, d, m, o, end, x, traps)
    ensures Gets(R, k, fuel, Tested(p.sem, e, out), c)
    ensures Tested(p.sem, e, out).Normal? ==> R(k + 1, c)
  {
    c := c1;
    if out.Normal? || out.Continued? {
      var r1 := EvalRuns(p, M, R, k, e, out.env, o1, o2, c1.regs, traps);
      match EvalE(p.sem, e, out.env) {
        case Lost => c := Run(o, r1, traps);
        case Err(v) => c := Raise(v, r1, traps);
        case Ok(v) =>
          RunJz(p, R, k, o2, o3, Target(e, d), end, r1, traps);
          if IsFalse(v) {
            c := Run(end, r1, traps);
          } else {
            RunJmp(p, R, k, o3, end, o, r1, traps);
            c := Run(o, r1, traps);
          }
      }
    }
  }

  /** A round of a for loop, and all that follow. */
  lemma {:induction false} ForRound(p: Prog, M: Maps, R: (nat, Config) -> bool, k: nat, s: Stmt, env: seq<Value>,
      fuel: nat, x: Ctx, o: int, o2: int, o3: int, o4: int, end: int, regs: seq<Value>, traps: Traps)
    returns (c: Config)
    requires Starts(p, M, R, k, env, x, o2, regs, traps) && s.For? && M.S(s, |env|, x, o, end)
    requires M.S(s.body, |env|, InLoop(x, end, o3), o2, o3) && M.S(s.inc, |env|, x, o3, o4) && JmpAt(p, o4, end, o)
    requires s.inc.Empty? || s.inc.Eval? || s.inc.Assign?
    ensures Lands(NextRound(p.sem, s, Stepped(p.sem, s.inc, ExecS(p.sem, s.body, env, fuel), fuel), fuel), c, |env|,
        |regs|, end, x, traps)
    ensures Gets(R, k, fuel, NextRound(p.sem, s, Stepped(p.sem, s.inc, ExecS(p.sem, s.body, env, fuel), fuel), fuel), c)
    decreases fuel, s, 4
  {
    var out := ExecS(p.sem, s.body, env, fuel);
    var c1 := StmtRuns(p, M, R, k, s.body, env, fuel, InLoop(x, end, o3), o2, o3, regs, traps);
    c1 := StepRuns(p, M, R, k, s.inc, out, fuel, x, o3, o4, end, o, |env|, |regs|, traps, c1);
    c := NextRuns(p, M, R, k, s, Stepped(p.sem, s.inc, out, fuel), fuel, x, o, end, |env|, |regs|, traps, c1);
  }

  lemma {:induction false} ForRuns(p: Prog, M: Maps, R: (nat, Config) -> bool, k: nat, s: Stmt, env: seq<Value>,
      fuel: nat, x: Ctx, o: int, end: int, regs: seq<Value>, traps: Traps) returns (c: Config)
    requires Starts(p, M, R, k, env, x, o, regs, traps) && s.For? && M.S(s, |env|, x, o, end)
    ensures Lands(ExecS(p.sem, s, env, fuel), c, |env|, |regs|, end, x, traps)
    ensures Gets(R, k, fuel, ExecS(p.sem, s, env, fuel), c)
    decreases fuel, s, 0
  {
    assert LaidS(p, M, s, |env|, x, o, end);
    if fuel == 0 { return Run(o, regs, traps); }
    var o1, o2, o3, o4 := ForParts(p, M, s, |env|, x, o, end);
    c := ForTest(p, M, R, k, s, env, fuel, x, o, o1, o2, o3, o4, end, regs, traps);
  }

  /** The test of a for loop, and all that follows. */
  lemma {:induction false} ForTest(p: Prog, M: Maps, R: (nat, Config) -> bool, k: nat, s: Stmt, env: seq<Value>,
      fuel: nat, x: Ctx, o: int, o1: int, o2: int, o3: int, o4: int, end: int, regs: seq<Value>,
      traps: Traps) returns (c: Config)
    requires Starts(p, M, R, k, env, x, o, regs, traps) && s.For? && M.S(s, |env|, x, o, end) && fuel > 0
    requires M.E(|env|, s.c, |env|, o, o1) && JzAt(p, o1, o2, Target(s.c, |env|), end)
    requires M.S(s.body, |env|, InLoop(x, end, o3), o2, o3) && M.S(s.inc, |env|, x, o3, o4) && JmpAt(p, o4, end, o)
    requires s.inc.Empty? || s.inc.Eval? || s.inc.Assign?
    ensures Lands(ExecS(p.sem, s, env, fuel), c, |env|, |regs|, end, x, traps)
    ensures Gets(R, k, fuel, ExecS(p.sem, s, env, fuel), c)
    decreases fuel, s, 0, 0
  {
    var t := Target(s.c, |env|);
    var r1 := EvalRuns(p, M, R, k, s.c, env, o, o1, regs, traps);
    match EvalE(p.sem, s.c, env) {
      case Lost => c := Run(o, regs, traps);
      case Err(v) =>
        assert ExecS(p.sem, s, env, fuel) == Threw(v, env);
        c := Raise(v, r1, traps);
      case Ok(v) =>
        RunJz(p, R, k, o1, o2, t, end, r1, traps);
        if IsFalse(v) {
          assert ExecS(p.sem, s, env, fuel) == Normal(env);
          c := Run(end, r1, traps);
        } else {
          assert ExecS(p.sem, s, env, fuel)
              == NextRound(p.sem, s, Stepped(p.sem, s.inc, ExecS(p.sem, s.body, env, fuel - 1), fuel - 1), fuel - 1);
          c := ForRound(p, M, R, k + 1, s, env, fuel - 1, x, o, o2, o3, o4, end, r1, traps);
        }
    }
  }

  /** The third clause of a for loop takes the machine back to its test. */
  lemma {:induction false} StepRuns(p: Prog, M: Maps, R: (nat, Config) -> bool, k: nat, inc: Stmt, out: Outcome,
      fuel: nat, x: Ctx, o3: int, o4: int, end: int, o: int, d: nat, m: nat, traps: Traps, c1: Config)
    returns (c: Config)
    requires MapsCode(p, M) && Closed(p, R) && p.stacksize <= m && Trapped(x, traps)
      && (inc.Empty? || inc.Eval? || inc.Assign?)
    requires M.S(inc, d, x, o3, o4) && JmpAt(p, o4, end, o)
    requires Lands(out, c1, d, m, o3, InLoop(x, end, o3), traps) && Gets(R, k, fuel, out, c1)
    ensures RoundLands(Stepped(p.sem, inc, out, fuel), c, d, m, o, end, x, traps)
    ensures Gets(R, k, fuel, Stepped(p.sem, inc, out, fuel), c)
    decreases fuel, inc, 3
  {
    c := c1;
    if out.Normal? || out.Continued? {
      c := StmtRuns(p, M, R, k, inc, out.env, fuel, x, o3, o4, c1.regs, traps);
      if ExecS(p.sem, inc, out.env, fuel).Normal? {
        RunJmp(p, R, k, o4, end, o, c.regs, traps);
        c := Run(o, c.regs, traps);
      }
    }
  }

  lemma {:induction false} ReturnRuns(p: Prog, M: Maps, R: (nat, Config) -> bool, k: nat, s: Stmt, env: seq<Value>,
      fuel: nat, x: Ctx, o: int, end: int, regs: seq<Value>, traps: Traps) returns (c: Config)
    requires Starts(p, M, R, k, env, x, o, regs, traps) && (s.Return? || s.ReturnNull?) && M.S(s, |env|, x, o, end)
    ensures Lands(ExecS(p.sem, s, env, fuel), c, |env|, |regs|, end, x, traps)
    ensures Gets(R, k, fuel, ExecS(p.sem, s, env, fuel), c)
    decreases fuel, s, 0
  {
    assert LaidS(p, M, s, |env|, x, o, end);
    if s.ReturnNull? {
      var o1, t :| LaidPop(p, x.tries, o, o1) && RetAt(p, o1, end, false, t);
      RunPop(p, R, k, o, o1, x.tries, regs, traps);
      RunRet(p, R, k, o1, end, false, t, regs, Drop(traps, x.tries));
      c := Returned(Null, Drop(traps, x.tries));
    } else {
      var d, t := |env|, Target(s.e, |env|);
      var o1, o2 :| M.E(d, s.e, d, o, o1) && LaidPop(p, x.tries, o1, o2) && RetAt(p, o2, end, true, t);
      var r1 := EvalRuns(p, M, R, k, s.e, env, o, o1, regs, traps);
      match EvalE(p.sem, s.e, env) {
        case Lost => c := Run(o, regs, traps);
        case Err(v) => c := Raise(v, r1, traps);
        case Ok(v) =>
          RunPop(p, R, k, o1, o2, x.tries, r1, traps);
          RunRet(p, R, k, o2, end, true, t, r1, Drop(traps, x.tries));
          c := Returned(v, Drop(traps, x.tries));
      }
    }
  }

  lemma {:induction false} JumpRuns(p: Prog, M: Maps, R: (nat, Config) -> bool, k: nat, s: Stmt, env: seq<Value>,
      fuel: nat, x: Ctx, o: int, end: int, regs: seq<Value>, traps: Traps) returns (c: Config)
    requires Starts(p, M, R, k, env, x, o, regs, traps) && (s.Break? || s.Continue?) && M.S(s, |env|, x, o, end)
    ensures Lands(ExecS(p.sem, s, env, fuel), c, |env|, |regs|, end, x, traps)
    ensures Gets(R, k, fuel, ExecS(p.sem, s, env, fuel), c)
    decreases fuel, s, 0
  {
    assert LaidS(p, M, s, |env|, x, o, end);
    var j := if s.Break? then x.brk else x.cont;
    var o1 :| LaidPop(p, j.tries, o, o1) && JmpAt(p, o1, end, j.at);
    RunPop(p, R, k, o, o1, j.tries, regs, traps);
    RunJmp(p, R, k, o1, end, j.at, regs, Drop(traps, j.tries));
    c := Run(j.at, regs, Drop(traps, j.tries));
  }

  /** A raised value goes to the handler of the newest trap, as a variable of its own. */
  lemma {:induction false} HandlerRuns(p: Prog, M: Maps, R: (nat, Config) -> bool, k: nat, h: Stmt, v: Value,
      env: seq<Value>, fuel: nat, x: Ctx, d1: nat, o: int, end: int, regs: seq<Value>, traps: Traps) returns (c: Config)
    requires MapsCode(p, M) && Closed(p, R) && R(k, Raise(v, regs, Trap(o, |env|, traps)))
    requires p.stacksize <= |regs| && Holds(regs, env) && Trapped(x, traps)
    requires d1 == |env| + 1 <= |regs| && M.S(h, d1, x, o, end)
    ensures Lands(Leave(ExecS(p.sem, h, env + [v], fuel), |env|), c, |env|, |regs|, end, x, traps)
    ensures Gets(R, k, fuel, Leave(ExecS(p.sem, h, env + [v], fuel), |env|), c)
    decreases fuel, h, 3
  {
    var d := |env|;
    RunRaise(p, R, k, v, regs, Trap(o, d, traps));
    c := StmtRuns(p, M, R, k, h, env + [v], fuel, x, o, end, regs[d := v], traps);
    LandsLeave(ExecS(p.sem, h, env + [v], fuel), c, d, d1, |regs|, end, x, traps);
  }

  /** What becomes of a try block whose body ends like `out`. */
  function Caught(sem: Sem, h: Stmt, out: Outcome, fuel: nat, d: nat): (r: Outcome) {
    if out.Threw? then Leave(ExecS(sem, h, out.env + [out.v], fuel), d) else out
  }

  /** The end of the body of a try block: the trap goes, or the handler is entered. */
  lemma {:induction false} TryEnds(p: Prog, M: Maps, R: (nat, Config) -> bool, k: nat, h: Stmt, out: Outcome,
      fuel: nat, x: Ctx, o2: int, o3: int, o4: int, end: int, d: nat, d1: nat, m: nat, traps: Traps,
      c1: Config) returns (c: Config)
    requires MapsCode(p, M) && Closed(p, R) && p.stacksize <= m && Trapped(x, traps) && d1 == d + 1 <= m
    requires LaidPop(p, 1, o2, o3) && JmpAt(p, o3, o4, end) && M.S(h, d1, x, o4, end)
    requires Lands(out, c1, d, m, o2, InTry(x), Trap(o4, d, traps)) && Gets(R, k, fuel, out, c1)
    ensures Lands(Caught(p.sem, h, out, fuel, d), c, d, m, end, x, traps)
    ensures Gets(R, k, fuel, Caught(p.sem, h, out, fuel, d), c)
    decreases fuel, h, 4
  {
    c := c1;
    match out {
      case Normal(_) =>
        RunPop(p, R, k, o2, o3, 1, c.regs, Trap(o4, d, traps));
        RunJmp(p, R, k, o3, o4, end, c.regs, traps);
        c := Run(end, c.regs, traps);
      case Threw(v, env1) =>
        c := HandlerRuns(p, M, R, k, h, v, env1, fuel, x, d1, o4, end, c.regs, traps);
      case Broke(_) =>
      case Continued(_) =>
      case Ret(_) =>
      case Timeout =>
      case Strayed =>
    }
  }

  lemma {:induction false} TryRuns(p: Prog, M: Maps, R: (nat, Config) -> bool, k: nat, s: Stmt, env: seq<Value>,
      fuel: nat, x: Ctx, o: int, end: int, regs: seq<Value>, traps: Traps) returns (c: Config)
    requires Starts(p, M, R, k, env, x, o, regs, traps) && s.TryCatch? && M.S(s, |env|, x, o, end)
    ensures Lands(ExecS(p.sem, s, env, fuel), c, |env|, |regs|, end, x, traps)
    ensures Gets(R, k, fuel, ExecS(p.sem, s, env, fuel), c)
    decreases fuel, s, 0
  {
    assert LaidS(p, M, s, |env|, x, o, end);
    var d1, o1, o2, o3, o4 := TryParts(p, M, s, |env|, x, o, end);
    RunTrap(p, R, k, o, o1, |env|, o4, regs, traps);
    var out := ExecS(p.sem, s.body, env, fuel);
    var c1 := StmtRuns(p, M, R, k, s.body, env, fuel, InTry(x), o1, o2, regs, Trap(o4, |env|, traps));
    c := TryEnds(p, M, R, k, s.handler, out, fuel, x, o2, o3, o4, end, |env|, d1, |regs|, traps, c1);
    assert ExecS(p.sem, s, env, fuel) == Caught(p.sem, s.handler, out, fuel, |env|);
  }

  /** A declaration, and what follows it in the block. */
  lemma {:induction false} DeclRuns(p: Prog, M: Maps, R: (nat, Config) -> bool, k: nat, e: Expr, rest: Items,
      env: seq<Value>, fuel: nat, x: Ctx, d1: nat, o: int, o1: int, o2: int, end: int, regs: seq<Value>, traps: Traps)
    returns (c: Config)
    requires Starts(p, M, R, k, env, x, o, regs, traps) && d1 == |env| + 1 && M.E(|env|, e, |env|, o, o1)
    requires LaidMove(p, |env|, Target(e, |env|), o1, o2) && M.I(rest, d1, x, o2, end) && |env| < p.stacksize
    ensures Lands(Leave(ExecItems(p.sem, Decl(e, rest), env, fuel), |env|), c, |env|, |regs|, end, x, traps)
    ensures Gets(R, k, fuel, ExecItems(p.sem, Decl(e, rest), env, fuel), c)
    decreases fuel, rest, 2
  {
    var d := |env|;
    var r1 := EvalRuns(p, M, R, k, e, env, o, o1, regs, traps);
    match EvalE(p.sem, e, env) {
      case Lost => c := Run(o, regs, traps);
      case Err(v) => c := Raise(v, r1, traps);
      case Ok(v) =>
        var r2 := RunMove(p, R, k, o1, d, Target(e, d), o2, r1, traps);
        c := ItemsRun(p, M, R, k, rest, env + [v], fuel, x, o2, end, r2, traps);
        LeaveOuter(ExecItems(p.sem, rest, env + [v], fuel), c, d, d1, |regs|, end, x, traps);
    }
  }

  lemma {:induction false} ItemsRun(p: Prog, M: Maps, R: (nat, Config) -> bool, k: nat, items: Items, env: seq<Value>,
      fuel: nat, x: Ctx, o: int, end: int, regs: seq<Value>, traps: Traps) returns (c: Config)
    requires Starts(p, M, R, k, env, x, o, regs, traps) && M.I(items, |env|, x, o, end)
    ensures Lands(Leave(ExecItems(p.sem, items, env, fuel), |env|), c, |env|, |regs|, end, x, traps)
    ensures Gets(R, k, fuel, ExecItems(p.sem, items, env, fuel), c)
    decreases fuel, items, 1
  {
    assert LaidI(p, M, items, |env|, x, o, end);
    var d := |env|;
    match items {
      case Done => c := Run(o, regs, traps);
      case Decl(e, rest) =>
        var d1: nat, o1, o2 :| d1 == d + 1 && M.E(d, e, d, o, o1) && LaidMove(p, d, Target(e, d), o1, o2)
          && M.I(rest, d1, x, o2, end);
        c := DeclRuns(p, M, R, k, e, rest, env, fuel, x, d1, o, o1, o2, end, regs, traps);
      case DeclNull(rest) =>
        var d1: nat, o1 :| d1 == d + 1 && NullAt(p, o, o1, d) && M.I(rest, d1, x, o1, end);
        RunNull(p, R, k, o, o1, d, regs, traps);
        c := ItemsRun(p, M, R, k, rest, env + [Null], fuel, x, o1, end, regs[d := Null], traps);
        LeaveOuter(ExecItems(p.sem, rest, env + [Null], fuel), c, d, d1, |regs|, end, x, traps);
      case Then(s, rest) =>
        var o1 :| M.S(s, d, x, o, o1) && M.I(rest, d, x, o1, end);
        var out := ExecS(p.sem, s, env, fuel);
        c := StmtRuns(p, M, R, k, s, env, fuel, x, o, o1, regs, traps);
        if out.Normal? {
          c := ItemsRun(p, M, R, k, rest, out.env, fuel, x, o1, end, c.regs, traps);
        } else {
          LandsEnd(out, c, d, |regs|, o1, end, x, traps);
          LandsLeave(out, c, d, d, |regs|, end, x, traps);
        }
    }
  }

  lemma {:induction false} SwitchRuns(p: Prog, M: Maps, R: (nat, Config) -> bool, k: nat, s: Stmt, env: seq<Value>,
      fuel: nat, x: Ctx, o: int, end: int, regs: seq<Value>, traps: Traps) returns (c: Config)
    requires Starts(p, M, R, k, env, x, o, regs, traps) && s.Switch? && M.S(s, |env|, x, o, end)
    ensures Lands(ExecS(p.sem, s, env, fuel), c, |env|, |regs|, end, x, traps)
    ensures Gets(R, k, fuel, ExecS(p.sem, s, env, fuel), c)
    decreases fuel, s, 0
  {
    assert LaidS(p, M, s, |env|, x, o, end);
    var d, d1, t := |env|, After(s.e, |env|), Target(s.e, |env|);
    var o1, b :| M.E(d, s.e, d, o, o1) && M.C(s.cases, t, d1, InSwitch(x, end), o1, b, end);
    var r1 := EvalRuns(p, M, R, k, s.e, env, o, o1, regs, traps);
    match EvalE(p.sem, s.e, env) {
      case Lost => c := Run(o, regs, traps);
      case Err(v) => c := Raise(v, r1, traps);
      case Ok(v) =>
        var env1 := SwitchEnv(s.e, v, env);
        var out := ExecCases(p.sem, s.cases, v, env1, fuel);
        c := CasesRun(p, M, R, k, s.cases, t, v, env1, fuel, InSwitch(x, end), o1, b, end, r1, traps);
        assert Lands(CatchBreak(out), c, d1, |regs|, end, x, traps);
        LandsLeave(CatchBreak(out), c, d, d1, |regs|, end, x, traps);
    }
  }

  /** The tests of a switch find the first case equal to the tested value. */
  lemma {:induction false} CasesRun(p: Prog, M: Maps, R: (nat, Config) -> bool, k: nat, cases: Cases, t: nat, v: Value,
      env: seq<Value>, fuel: nat, x: Ctx, o: int, b: int, end: int, regs: seq<Value>, traps: Traps) returns (c: Config)
    requires Starts(p, M, R, k, env, x, o, regs, traps) && M.C(cases, t, |env|, x, o, b, end)
    requires t < |env| && env[t] == v
    ensures Lands(ExecCases(p.sem, cases, v, env, fuel), c, |env|, |regs|, end, x, traps)
    ensures Gets(R, k, fuel, ExecCases(p.sem, cases, v, env, fuel), c)
    decreases fuel, cases, 3
  {
    assert LaidC(p, M, cases, t, |env|, x, o, b, end);
    if cases.Default? {
      c := FallRuns(p, M, R, k, cases, t, env, fuel, x, o, b, end, regs, traps);
      return;
    }
    var d := |env|;
    var o1, o2, o3, o4, b1 :| M.E(d, cases.c, d, o, o1) && BinAt(p, o1, o2, Eq, d, Target(cases.c, d), t)
      && JzAt(p, o2, b, d, o4) && M.I(cases.body, d, x, b, o3) && LaidSkip(p, cases.rest, o3, o4, b1)
      && M.C(cases.rest, t, d, x, o4, b1, end);
    var r1 := EvalRuns(p, M, R, k, cases.c, env, o, o1, regs, traps);
    match EvalE(p.sem, cases.c, env) {
      case Lost => c := Run(o, regs, traps);
      case Err(w) => c := Raise(w, r1, traps);
      case Ok(w) =>
        var r2 := RunBin(p, R, k, o1, o2, Eq, d, Target(cases.c, d), t, r1, traps);
        KeepsHolds(r1, r2, d, env);
        assert TestCase(p.sem, v, cases.c, env) == Binary(p.sem, Eq, v, w);
        match Binary(p.sem, Eq, v, w) {
          case Lost => c := Run(o, regs, traps);
          case Err(u) => c := Raise(u, r2, traps);
          case Ok(u) =>
            RunJz(p, R, k, o2, b, d, o4, r2, traps);
            if IsFalse(u) {
              c := CasesRun(p, M, R, k, cases.rest, t, v, env, fuel, x, o4, b1, end, r2, traps);
            } else {
              c := FallRuns(p, M, R, k, cases, t, env, fuel, x, o, b, end, r2, traps);
            }
        }
    }
  }

  /** From the body of a case, the machine falls through to the bodies behind it. */
  lemma {:induction false} FallRuns(p: Prog, M: Maps, R: (nat, Config) -> bool, k: nat, cases: Cases, t: nat,
      env: seq<Value>, fuel: nat, x: Ctx, o: int, b: int, end: int, regs: seq<Value>, traps: Traps) returns (c: Config)
    requires Starts(p, M, R, k, env, x, b, regs, traps) && M.C(cases, t, |env|, x, o, b, end)
    ensures Lands(ExecFall(p.sem, cases, env, fuel), c, |env|, |regs|, end, x, traps)
    ensures Gets(R, k, fuel, ExecFall(p.sem, cases, env, fuel), c)
    decreases fuel, cases, 2
  {
    assert LaidC(p, M, cases, t, |env|, x, o, b, end);
    if cases.Default? {
      c := ItemsRun(p, M, R, k, cases.body, env, fuel, x, b, end, regs, traps);
      return;
    }
    var d := |env|;
    var o3, o4, b1 :| M.I(cases.body, d, x, b, o3) && LaidSkip(p, cases.rest, o3, o4, b1)
      && M.C(cases.rest, t, d, x, o4, b1, end);
    c := ItemsRun(p, M, R, k, cases.body, env, fuel, x, b, o3, regs, traps);
    var out := Leave(ExecItems(p.sem, cases.body, env, fuel), d);
    if out.Normal? {
      assert At(c, o3, traps, out.env, d, |regs|) && R(k, c);
      assert LaidSkip(p, cases.rest, o3, o4, b1);
      if cases.rest.Case? {
        RunJmp(p, R, k, o3, o4, b1, c.regs, traps);
      } else {
        assert LaidC(p, M, cases.rest, t, d, x, o4, b1, end);
      }
      c := FallRuns(p, M, R, k, cases.rest, t, out.env, fuel, x, o4, b1, end, c.regs, traps);
    } else {
      LandsEnd(out, c, d, |regs|, o3, end, x, traps);
    }
  }
}
