/** The instructions the compiler emits for the core language, and the machine that runs them. */
module Bytecode {
  import opened Squirrel

  /** Jump offsets are relative to the instruction after the jump. */
  datatype Instr =
    | LOAD(t: nat, lit: nat)
    | LOADINT(t: nat, n: int)
    | LOADBOOL(t: nat, b: bool)
    | LOADNULLS(t: nat, count: nat)
    | MOVE(t: nat, s: nat)
    | BIN(op: BinOp, t: nat, a1: nat, a2: nat)
    | UN(uop: UnOp, t: nat, s: nat)
    | AND(t: nat, off: int, s: nat)
    | OR(t: nat, off: int, s: nat)
    | JZ(s: nat, off: int)
    | JMP(off: int)
    | PUSHTRAP(ext: nat, off: int)
    | POPTRAP(count: nat)
    | THROW(s: nat)
    | RETURN(hasval: bool, s: nat)
    | BreakHole        // a jump out of the enclosing loop or switch, not patched yet
    | ContinueHole     // a jump to the enclosing loop's next round, not patched yet

  /** The exception traps a function has pushed, newest first: handler address, register for the error. */
  datatype Traps = NoTrap | Trap(ip: int, ext: nat, rest: Traps)

  function Depth(traps: Traps): (n: nat) {
    match traps case NoTrap => 0 case Trap(_, _, rest) => 1 + Depth(rest)
  }

  function Drop(traps: Traps, n: nat): (r: Traps)
    requires n <= Depth(traps)
    ensures Depth(r) == Depth(traps) - n
  {
    if n == 0 then traps else Drop(traps.rest, n - 1)
  }

  /** A running function; a value on its way to a handler; or what became of the function. */
  datatype Config =
    | Run(pc: int, regs: seq<Value>, traps: Traps)
    | Raise(v: Value, regs: seq<Value>, traps: Traps)
    | Returned(v: Value, traps: Traps)
    | Dead(v: Value)
    | Stuck

  /** What the machine runs: code, literals, the stack size of the function, the meaning of operators. */
  datatype Prog = Prog(code: seq<Instr>, lits: seq<Value>, stacksize: nat, sem: Sem)

  function Nulls(regs: seq<Value>, t: nat, count: nat): (r: seq<Value>)
    requires t + count <= |regs|
    ensures |r| == |regs|
  {
    if count == 0 then regs else Nulls(regs, t, count - 1)[t + count - 1 := Null]
  }

  function Store(regs: seq<Value>, traps: Traps, pc: int, t: nat, r: Res): (c: Config)
    requires t < |regs|
  {
    match r
    case Ok(v) => Run(pc, regs[t := v], traps)
    case Err(x) => Raise(x, regs, traps)
    case Lost => Run(pc, regs, traps)
  }

  function Step(p: Prog, c: Config): (c': Config) {
    match c
    case Run(pc, regs, traps) =>
      if !(0 <= pc < |p.code|) then Stuck else Exec(p, p.code[pc], pc + 1, regs, traps)
    case Raise(v, regs, traps) =>
      (match traps
       case NoTrap => Dead(v)
       case Trap(ip, ext, rest) => if ext < |regs| then Run(ip, regs[ext := v], rest) else Stuck)
    case Returned(_, _) => c
    case Dead(_) => c
    case Stuck => c
  }

  /** One instruction; `next` is the address after it. */
  function Exec(p: Prog, i: Instr, next: int, regs: seq<Value>, traps: Traps): (c: Config) {
    match i
    case LOAD(t, k) => if t < |regs| && k < |p.lits| then Run(next, regs[t := p.lits[k]], traps) else Stuck
    case LOADINT(t, n) => if t < |regs| then Run(next, regs[t := Integer(n)], traps) else Stuck
    case LOADBOOL(t, b) => if t < |regs| then Run(next, regs[t := Boolean(b)], traps) else Stuck
    case LOADNULLS(t, count) => if t + count <= |regs| then Run(next, Nulls(regs, t, count), traps) else Stuck
    case MOVE(t, s) => if t < |regs| && s < |regs| then Run(next, regs[t := regs[s]], traps) else Stuck
    case BIN(op, t, a1, a2) =>
      if t < |regs| && a1 < |regs|
        && a2 < |regs| then Store(regs, traps, next, t, Binary(p.sem, op, regs[a2], regs[a1])) else Stuck
    case UN(op, t, s) =>
      if t < |regs| && s < |regs| then Store(regs, traps, next, t, Unary(p.sem, op, regs[s])) else Stuck
    case AND(t, off, s) =>
      if t < |regs| && s < |regs| then
        if IsFalse(regs[s]) then Run(next + off, regs[t := regs[s]], traps) else Run(next, regs, traps)
      else Stuck
    case OR(t, off, s) =>
      if t < |regs| && s < |regs| then
        if IsFalse(regs[s]) then Run(next, regs, traps) else Run(next + off, regs[t := regs[s]], traps)
      else Stuck
    case JZ(s, off) =>
      if s < |regs| then Run(if IsFalse(regs[s]) then next + off else next, regs, traps) else Stuck
    case JMP(off) => Run(next + off, regs, traps)
    case PUSHTRAP(ext, off) => Run(next, regs, Trap(next + off, ext, traps))
    case POPTRAP(count) => if count <= Depth(traps) then Run(next, regs, Drop(traps, count)) else Stuck
    case THROW(s) => if s < |regs| then Raise(regs[s], regs, traps) else Stuck
    case RETURN(has, s) => if !has then Returned(Null, traps) else if s < |regs| then Returned(regs[s], traps)
      else Stuck
    case BreakHole => Stuck
    case ContinueHole => Stuck
  }

  function StepN(p: Prog, n: nat, c: Config): (c': Config) {
    if n == 0 then c else StepN(p, n - 1, Step(p, c))
  }

  lemma {:induction false} StepNAdd(p: Prog, m: nat, n: nat, c: Config)
    ensures StepN(p, m + n, c) == StepN(p, n, StepN(p, m, c))
    decreases m
  {
    if m > 0 { StepNAdd(p, m - 1, n, Step(p, c)); }
  }

  /**
    A record `R(k, c)` of configurations and lower bounds on the number of steps to get there,
    closed under running. Proofs about runs are about any such record that holds the start;
    RunIsClosed says that the run from a configuration is one.
   */
  ghost predicate Closed(p: Prog, R: (nat, Config) -> bool) {
    && (forall k: nat, c {:trigger R(k, c), Step(p, c)} :: R(k, c) ==> R(k + 1, Step(p, c)))
    && (forall j: nat, k: nat, c {:trigger R(j, c), R(k, c)} :: j <= k && R(k, c) ==> R(j, c))
  }

  lemma Advance(p: Prog, R: (nat, Config) -> bool, k: nat, c: Config)
    requires Closed(p, R) && R(k, c)
    ensures R(k + 1, Step(p, c)) && R(k, Step(p, c))
  {
    var c' := Step(p, c);
    assert R(k + 1, c');
  }

  /** `c` is met on the run from `start` after `k` steps or more. */
  ghost predicate Met(p: Prog, start: Config, k: nat, c: Config) {
    exists n: nat :: n >= k && StepN(p, n, start) == c
  }

  lemma RunIsClosed(p: Prog, start: Config)
    ensures Closed(p, (k: nat, c) => Met(p, start, k, c)) && Met(p, start, 0, start)
  {
    assert StepN(p, 0, start) == start;
    forall k: nat, c | Met(p, start, k, c)
      ensures Met(p, start, k + 1, Step(p, c))
    {
      var n: nat :| n >= k && StepN(p, n, start) == c;
      StepNAdd(p, n, 1, start);
      assert StepN(p, 1, c) == StepN(p, 0, Step(p, c));
    }
  }
}
