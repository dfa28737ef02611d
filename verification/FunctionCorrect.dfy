/** Whole functions: every run of the code of a function does what the function means. */
module FunctionCorrect {
  import opened Squirrel
  import opened Bytecode
  import opened Layout
  import opened ExprCorrect
  import opened StmtCorrect

  const TOP := Ctx(0, NoJump, NoJump)

  /** The code of a function: its body, and a return behind it. */
  ghost predicate LaidF(p: Prog, M: Maps, s: Stmt, params: nat, end: int) {
    MapsCode(p, M) && M.S(s, params, TOP, 0, end) && exists next, t: nat :: RetAt(p, end, next, false, t)
  }

  /** A call: the parameters, then registers that hold anything. */
  ghost predicate Called(p: Prog, c: Config, args: seq<Value>) {
    c.Run? && c.pc == 0 && c.traps == NoTrap && p.stacksize <= |c.regs| && Holds(c.regs, args)
  }

  /** What a function body that ends like `out` makes of the call. */
  function Answer(out: Outcome): (c: Config)
    requires out.Normal? || out.Ret? || out.Threw?
  {
    match out case Normal(_) => Returned(Null, NoTrap) case Ret(v) => Returned(v, NoTrap) case Threw(v, _) => Dead(v)
  }

  predicate Halted(c: Config) {
    !c.Run? && !c.Raise?
  }

  lemma {:induction false} HaltedStays(p: Prog, c: Config, m: nat, n: nat)
    requires m <= n && Halted(StepN(p, m, c))
    ensures StepN(p, n, c) == StepN(p, m, c)
    decreases n - m
  {
    if m < n {
      StepNAdd(p, m, 1, c);
      var c' := StepN(p, m, c);
      assert StepN(p, 1, c') == StepN(p, 0, Step(p, c'));
      HaltedStays(p, c, m + 1, n);
    }
  }

  /** One run for one amount of fuel: it ends as the meaning says, or is still going after `fuel` steps. */
  lemma BodyRuns(p: Prog, M: Maps, s: Stmt, args: seq<Value>, end: int, start: Config, fuel: nat) returns (n: nat)
    requires LaidF(p, M, s, |args|, end) && Called(p, start, args)
    ensures var out := ExecS(p.sem, s, args, fuel);
      if out.Strayed? then true
      else if out.Timeout? then n >= fuel && StepN(p, n, start).Run?
      else (out.Normal? || out.Ret? || out.Threw?) && StepN(p, n, start) == Answer(out)
  {
    RunIsClosed(p, start);
    var R: (nat, Config) -> bool := (k: nat, c) => Met(p, start, k, c);
    var out := ExecS(p.sem, s, args, fuel);
    if out.Strayed? { return 0; }
    assert R(0, Run(0, start.regs, NoTrap));
    var c := StmtRuns(p, M, R, 0, s, args, fuel, TOP, 0, end, start.regs, NoTrap);
    match out {
      case Normal(_) =>
        var next, t: nat :| RetAt(p, end, next, false, t);
        RunRet(p, R, 0, end, next, false, t, c.regs, NoTrap);
        c := Returned(Null, NoTrap);
      case Threw(v, _) =>
        Advance(p, R, 0, c);
        c := Dead(v);
      case Ret(_) =>
      case Timeout =>
      case Broke(_) =>
      case Continued(_) =>
    }
    assert R(if out.Timeout? then fuel else 0, c);
    n :| n >= (if out.Timeout? then fuel else 0) && StepN(p, n, start) == c;
  }

  /** The machine halts on the call. */
  ghost predicate Halts(p: Prog, start: Config) {
    exists n: nat :: Halted(StepN(p, n, start))
  }

  /** The body has an end: some number of rounds is enough for all of its loops. */
  ghost predicate Ends(sem: Sem, s: Stmt, args: seq<Value>) {
    exists fuel: nat :: !ExecS(sem, s, args, fuel).Timeout?
  }

  /** A `%` fails on the run of the body. */
  ghost predicate Strays(sem: Sem, s: Stmt, args: seq<Value>) {
    exists fuel: nat :: ExecS(sem, s, args, fuel).Strayed?
  }

  /** The outcomes that are the last word on a call. */
  predicate Final(out: Outcome) {
    !out.Timeout? && !out.Strayed?
  }

  /**
    Compiler correctness. Unless a `%` fails on the run, the machine halts on a call if and only if
    the body has an end; it then answers what the body answers, with no trap left behind. It never
    gets stuck.
   */
  lemma FunctionRuns(p: Prog, M: Maps, s: Stmt, args: seq<Value>, end: int, start: Config)
    requires LaidF(p, M, s, |args|, end) && Called(p, start, args)
    ensures !Strays(p.sem, s, args) ==> (Halts(p, start) <==> Ends(p.sem, s, args))
    ensures forall n: nat, fuel: nat :: Halted(StepN(p, n, start)) && Final(ExecS(p.sem, s, args, fuel)) ==>
        (var out := ExecS(p.sem, s, args, fuel);
         (out.Normal? || out.Ret? || out.Threw?) && StepN(p, n, start) == Answer(out))
    ensures !Strays(p.sem, s, args) ==> forall n: nat :: StepN(p, n, start) != Stuck
  {
    forall n: nat, fuel: nat | Halted(StepN(p, n, start)) && Final(ExecS(p.sem, s, args, fuel))
      ensures var out := ExecS(p.sem, s, args, fuel);
        (out.Normal? || out.Ret? || out.Threw?) && StepN(p, n, start) == Answer(out)
    {
      var m := BodyRuns(p, M, s, args, end, start, fuel);
      if m <= n { HaltedStays(p, start, m, n); } else { HaltedStays(p, start, n, m); }
    }
    if !Strays(p.sem, s, args) {
      forall n: nat | Halted(StepN(p, n, start))
        ensures Final(ExecS(p.sem, s, args, n))
      {
        assert !ExecS(p.sem, s, args, n).Strayed?;
        var m := BodyRuns(p, M, s, args, end, start, n);
        if n <= m { HaltedStays(p, start, n, m); }
      }
      if Ends(p.sem, s, args) {
        var fuel: nat :| !ExecS(p.sem, s, args, fuel).Timeout?;
        var n := BodyRuns(p, M, s, args, end, start, fuel);
        assert Halted(StepN(p, n, start));
      }
    }
  }
}
