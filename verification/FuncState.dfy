/** The code a function being compiled has so far, and the bookkeeping of stack positions, jumps and traps. */
module FuncState {
  import opened Squirrel
  import opened Bytecode

  const MAX_FUNC_STACKSIZE := 0xFF
  const MAX_LITERALS := 0x7FFF_FFFF

  /**
    A picture of the state: `names` says of each stack position in use whether it is a named variable.
    The code is shown as it is meant; `blind` says that its first jump was never given its offset.
   */
  datatype FS = FS(
    code: seq<Instr>, lits: seq<Value>, names: seq<bool>, targets: seq<nat>, stacksize: nat,
    breaktargets: seq<nat>, continuetargets: seq<nat>, breaks: seq<nat>, continues: seq<nat>, traps: nat,
    blind: bool)

  function AtLeast(a: nat, b: nat): (m: nat) {
    if a < b then b else a
  }

  /** One more nameless position. */
  function Alloc(a: FS): (b: FS) {
    a.(names := a.names + [false], stacksize := AtLeast(a.stacksize, |a.names| + 1))
  }

  predicate CanAlloc(a: FS) {
    |a.names| < a.stacksize || a.stacksize <= MAX_FUNC_STACKSIZE
  }

  // ---------- What a function may use up ----------

  /** The most positions in use so far, and the literals; or more of either than there may be. */
  datatype Budget = Budget(high: nat, lits: seq<Value>) | Exceeded

  function Spent(a: FS): (k: Budget) {
    Budget(a.stacksize, a.lits)
  }

  /** A temporary on position `d`: beyond the limit only positions that were in use before are given out. */
  function Slot(d: nat, k: Budget): (r: Budget) {
    if k.Budget? && (d < k.high || k.high <= MAX_FUNC_STACKSIZE) then Budget(AtLeast(k.high, d + 1), k.lits)
    else Exceeded
  }

  /** A named variable on position `d`: there is no limit. */
  function Variable(d: nat, k: Budget): (r: Budget) {
    if k.Budget? then Budget(AtLeast(k.high, d + 1), k.lits) else Exceeded
  }

  function Literal(v: Value, k: Budget): (r: Budget) {
    if k.Exceeded? || v in k.lits then k
    else if |k.lits| < MAX_LITERALS then Budget(k.high, k.lits + [v])
    else Exceeded
  }

  /** A step succeeds just when there is room for it, and state `b` then has the room it took. */
  ghost predicate Paid(ok: bool, b: FS, k: Budget) {
    if ok then k == Spent(b) else k.Exceeded?
  }

  predicate CanPop(a: FS) {
    |a.targets| > 0 && a.targets[|a.targets| - 1] < |a.names|
  }

  /** Popping the target of a temporary gives up the newest position. */
  function Popped(a: FS): (b: FS)
    requires CanPop(a)
  {
    var t := a.targets[|a.targets| - 1];
    a.(targets := a.targets[..|a.targets| - 1], names := if a.names[t] then a.names else a.names[..|a.names| - 1])
  }

  function Emit(a: FS, i: Instr): (b: FS) {
    a.(code := a.code + [i])
  }

  function WithOffset(i: Instr, off: int): (r: Instr) {
    match i
    case JZ(s, _) => JZ(s, off)
    case JMP(_) => JMP(off)
    case AND(t, _, s) => AND(t, off, s)
    case OR(t, _, s) => OR(t, off, s)
    case PUSHTRAP(ext, _) => PUSHTRAP(ext, off)
    case _ => i
  }

  /** The jump at `pos` gets its offset. */
  function Patch(a: FS, pos: nat, off: int): (b: FS)
    requires pos < |a.code|
  {
    a.(code := a.code[pos := WithOffset(a.code[pos], off)])
  }

  /** The jumps listed from index `n` on get the target `to`, the newest first. */
  function FixAll(code: seq<Instr>, list: seq<nat>, n: nat, to: int): (r: seq<Instr>)
    requires forall j :: n <= j < |list| ==> list[j] < |code|
    ensures |r| == |code|
    decreases |list|
  {
    if |list| <= n then code
    else
      var pos := list[|list| - 1];
      FixAll(code[pos := JMP(to - pos - 1)], list[..|list| - 1], n, to)
  }

  /** The registers an instruction can name in a byte. */
  const MAX_REGISTERS := 0x100

  /** An instruction as it is stored: all operands but one, or the jump offset, take a byte. */
  function Byte(i: Instr): (r: Instr) {
    match i
    case LOAD(t, lit) => LOAD(t % MAX_REGISTERS, lit)
    case LOADINT(t, n) => LOADINT(t % MAX_REGISTERS, n)
    case LOADBOOL(t, b) => LOADBOOL(t % MAX_REGISTERS, b)
    case LOADNULLS(t, count) => LOADNULLS(t % MAX_REGISTERS, count)
    case MOVE(t, s) => MOVE(t % MAX_REGISTERS, s)
    case BIN(op, t, a1, a2) => BIN(op, t % MAX_REGISTERS, a1, a2 % MAX_REGISTERS)
    case UN(op, t, s) => UN(op, t % MAX_REGISTERS, s)
    case AND(t, off, s) => AND(t % MAX_REGISTERS, off, s % MAX_REGISTERS)
    case OR(t, off, s) => OR(t % MAX_REGISTERS, off, s % MAX_REGISTERS)
    case JZ(s, off) => JZ(s % MAX_REGISTERS, off)
    case PUSHTRAP(ext, off) => PUSHTRAP(ext % MAX_REGISTERS, off)
    case POPTRAP(count) => POPTRAP(count % MAX_REGISTERS)
    case THROW(s) => THROW(s % MAX_REGISTERS)
    case _ => i
  }

  /** `code` is what is stored of `wide`. */
  ghost predicate Narrow(code: seq<Instr>, wide: seq<Instr>) {
    |code| == |wide| && forall i :: 0 <= i < |code| ==> code[i] == Byte(wide[i])
  }

  /** The first instruction of a function as it is stored; a blind jump lacks its offset. */
  function First(i: Instr, blind: bool): (r: Instr) {
    if blind then WithOffset(Byte(i), 0) else Byte(i)
  }

  /** The same for the whole code of a function. */
  ghost predicate Stored(code: seq<Instr>, wide: seq<Instr>, blind: bool) {
    && |code| == |wide| && (blind ==> wide != [] && wide[0].JZ?)
    && forall i {:trigger code[i]} :: 0 <= i < |code| ==> code[i] == First(wide[i], blind && i == 0)
  }

  lemma NarrowOffset(i: Instr, off: int)
    ensures Byte(WithOffset(i, off)) == WithOffset(Byte(i), off)
  {
  }

  class SQFuncState {
    var instructions: seq<Instr>
    ghost var wide: seq<Instr>       // the instructions as they are meant, with operands of any size
    ghost var blind: bool            // the first of them is a jump that was left without its offset
    var literals: map<Value, nat>
    var lits: seq<Value>
    var vlocals: seq<bool>
    var targetstack: seq<nat>
    var stacksize: nat
    var breaktargets: seq<nat>
    var continuetargets: seq<nat>
    var unresolvedbreaks: seq<nat>
    var unresolvedcontinues: seq<nat>
    var traps: nat

    /** The literal table gives every literal its place in the list of literals. */
    ghost predicate Valid()
      reads this
    {
      && Stored(instructions, wide, blind)
      && (forall v {:trigger literals[v]} :: v in literals ==> literals[v] < |lits| && lits[literals[v]] == v)
      && (forall i :: 0 <= i < |lits| ==> lits[i] in literals)
    }

    ghost function State(): (a: FS)
      reads this
    {
      FS(wide, lits, vlocals, targetstack, stacksize,
         breaktargets, continuetargets, unresolvedbreaks, unresolvedcontinues, traps, blind)
    }

    constructor (params: nat)
      ensures Valid()
      ensures State() == FS([], [], seq(params, _ => true), [], params, [], [], [], [], 0, false)
    {
      instructions, wide, blind, literals, lits := [], [], false, map[], [];
      vlocals, targetstack, stacksize := seq(params, _ => true), [], params;
      breaktargets, continuetargets, unresolvedbreaks, unresolvedcontinues, traps := [], [], [], [], 0;
    }

    method AddInstruction(i: Instr)
      requires Valid()
      modifies this`instructions, this`wide
      ensures Valid() && State() == Emit(old(State()), i)
    {
      instructions, wide := instructions + [Byte(i)], wide + [i];
    }

    /** Adds an instruction that was taken out before. */
    method AddAgain(i: Instr, ghost w: Instr)
      requires Valid() && i == Byte(w)
      modifies this`instructions, this`wide
      ensures Valid() && State() == Emit(old(State()), w)
    {
      instructions, wide := instructions + [Byte(i)], wide + [w];
    }

    /** Refuses to go on when the registers would not fit in a byte. */
    method AllocStackPos() returns (ok: bool, pos: nat)
      requires Valid()
      modifies this`vlocals, this`stacksize
      ensures ok == CanAlloc(old(State())) && pos == old(|vlocals|) && Valid()
      ensures ok ==> State() == Alloc(old(State()))
    {
      pos := |vlocals|;
      vlocals := vlocals + [false];
      if |vlocals| > stacksize {
        if stacksize > MAX_FUNC_STACKSIZE { return false, pos; }
        stacksize := |vlocals|;
      }
      ok := true;
    }

    method PushTarget() returns (ok: bool, pos: nat)
      requires Valid()
      modifies this`vlocals, this`stacksize, this`targetstack
      ensures ok == CanAlloc(old(State())) && pos == old(|vlocals|) && Valid()
      ensures ok ==> State() == Alloc(old(State())).(targets := old(targetstack) + [pos])
    {
      ok, pos := AllocStackPos();
      if ok { targetstack := targetstack + [pos]; }
    }

    method PushTargetAt(n: nat)
      requires Valid()
      modifies this`targetstack
      ensures Valid() && State() == old(State()).(targets := old(targetstack) + [n])
    {
      targetstack := targetstack + [n];
    }

    method PopTarget() returns (pos: nat)
      requires Valid() && CanPop(State())
      modifies this`vlocals, this`targetstack
      ensures pos == old(targetstack)[|old(targetstack)| - 1] && Valid() && State() == Popped(old(State()))
    {
      pos := targetstack[|targetstack| - 1];
      if !vlocals[pos] { vlocals := vlocals[..|vlocals| - 1]; }
      targetstack := targetstack[..|targetstack| - 1];
    }

    /** A constant keeps the place it got when it was first met. */
    method GetConstant(v: Value) returns (ok: bool, k: nat)
      requires Valid()
      modifies this`literals, this`lits
      ensures Valid() && old(lits) <= lits && State() == old(State()).(lits := lits)
      ensures ok ==> k < |lits| && lits[k] == v
      ensures Paid(ok, State(), Literal(v, Spent(old(State()))))
    {
      if v in literals { return true, literals[v]; }
      k := |lits|;
      literals, lits := literals[v := k], lits + [v];
      ok := |lits| <= MAX_LITERALS;
    }

    method SetOffset(pos: nat, off: int)
      requires Valid() && pos < |instructions| && (blind ==> pos > 0)
      modifies this`instructions, this`wide
      ensures Valid() && State() == Patch(old(State()), pos, off)
    {
      NarrowOffset(wide[pos], off);
      instructions := instructions[pos := WithOffset(instructions[pos], off)];
      wide := wide[pos := WithOffset(wide[pos], off)];
    }

    /** The first jump ought to get its offset, and does not. */
    ghost method LeaveOpen(off: int)
      requires Valid() && wide != [] && wide[0].JZ? && wide[0].off == 0
      modifies this`wide, this`blind
      ensures Valid() && State() == Patch(old(State()), 0, off).(blind := true)
    {
      wide := wide[0 := WithOffset(wide[0], off)];
      blind := true;
    }

    /** The trap at `pos` gets its register, of which only a byte is stored, and its handler. */
    method SetTrap(pos: nat, ext: nat, off: int)
      requires Valid() && pos < |instructions| && (blind ==> pos > 0)
      modifies this`instructions, this`wide
      ensures Valid() && State() == old(State()).(code := old(wide)[pos := PUSHTRAP(ext, off)])
    {
      instructions := instructions[pos := PUSHTRAP(ext % MAX_REGISTERS, off)];
      wide := wide[pos := PUSHTRAP(ext, off)];
    }

    method PopInstructions(n: nat)
      requires Valid() && n <= |instructions| && (blind ==> n < |instructions|)
      modifies this`instructions, this`wide
      ensures Valid() && State() == old(State()).(code := old(wide)[..old(|wide|) - n])
    {
      instructions, wide := instructions[..|instructions| - n], wide[..|wide| - n];
    }

    /** A new named variable; unlike a target it may go past the last register. */
    method PushLocalVariable() returns (pos: nat)
      requires Valid()
      modifies this`vlocals, this`stacksize
      ensures pos == old(|vlocals|) && Valid()
      ensures State() == old(State()).(names := old(vlocals) + [true],
          stacksize := AtLeast(old(stacksize), old(|vlocals|) + 1))
    {
      pos := |vlocals|;
      vlocals := vlocals + [true];
      if |vlocals| > stacksize { stacksize := |vlocals|; }
    }

    method SetStackSize(n: nat)
      requires Valid() && n <= |vlocals|
      modifies this`vlocals
      ensures Valid() && State() == old(State()).(names := old(vlocals)[..n])
    {
      var size := |vlocals|;
      while size > n
        invariant n <= size == |vlocals| <= old(|vlocals|) && vlocals == old(vlocals)[..size]
      {
        size := size - 1;
        vlocals := vlocals[..|vlocals| - 1];
      }
    }

    // What breaks, continues and returns have to leave: the compiler keeps count here.

    method PushBreakTarget()
      requires Valid()
      modifies this`breaktargets
      ensures Valid() && State() == old(State()).(breaktargets := old(breaktargets) + [0])
    {
      breaktargets := breaktargets + [0];
    }

    method PopBreakTarget()
      requires Valid() && breaktargets != []
      modifies this`breaktargets
      ensures Valid() && State() == old(State()).(breaktargets := old(breaktargets)[..|old(breaktargets)| - 1])
    {
      breaktargets := breaktargets[..|breaktargets| - 1];
    }

    method PushContinueTarget()
      requires Valid()
      modifies this`continuetargets
      ensures Valid() && State() == old(State()).(continuetargets := old(continuetargets) + [0])
    {
      continuetargets := continuetargets + [0];
    }

    method PopContinueTarget()
      requires Valid() && continuetargets != []
      modifies this`continuetargets
      ensures Valid() && State() == old(State()).(continuetargets := old(continuetargets)[..|old(continuetargets)| - 1])
    {
      continuetargets := continuetargets[..|continuetargets| - 1];
    }

    method SetTries(tries: nat, brk: seq<nat>, cont: seq<nat>)
      requires Valid()
      modifies this`traps, this`breaktargets, this`continuetargets
      ensures Valid() && State() == old(State()).(traps := tries, breaktargets := brk, continuetargets := cont)
    {
      traps, breaktargets, continuetargets := tries, brk, cont;
    }

    method WaitBreak(pos: nat)
      requires Valid()
      modifies this`unresolvedbreaks
      ensures Valid() && State() == old(State()).(breaks := old(unresolvedbreaks) + [pos])
    {
      unresolvedbreaks := unresolvedbreaks + [pos];
    }

    method WaitContinue(pos: nat)
      requires Valid()
      modifies this`unresolvedcontinues
      ensures Valid() && State() == old(State()).(continues := old(unresolvedcontinues) + [pos])
    {
      unresolvedcontinues := unresolvedcontinues + [pos];
    }

    /** A jump gets its target. */
    method LeadTo(pos: nat, to: int)
      requires Valid() && pos < |instructions| && (blind ==> pos > 0)
      modifies this`instructions, this`wide
      ensures Valid() && wide == old(wide)[pos := JMP(to - pos - 1)]
    {
      instructions, wide := instructions[pos := JMP(to - pos - 1)], wide[pos := JMP(to - pos - 1)];
    }

    /** The newest break gets its target and waits no longer. */
    method ResolveBreak(to: int) returns (pos: nat)
      requires Valid() && unresolvedbreaks != []
      requires var last := unresolvedbreaks[|unresolvedbreaks| - 1]; last < |instructions| && (blind ==> last > 0)
      modifies this`instructions, this`wide, this`unresolvedbreaks
      ensures Valid() && old(unresolvedbreaks) == unresolvedbreaks + [pos]
      ensures pos < |old(wide)| && wide == old(wide)[pos := JMP(to - pos - 1)]
    {
      pos := unresolvedbreaks[|unresolvedbreaks| - 1];
      unresolvedbreaks := unresolvedbreaks[..|unresolvedbreaks| - 1];
      LeadTo(pos, to);
    }

    /** The newest breaks get the end of the code as their target. */
    method ResolveBreaks(ntoresolve: nat)
      requires Valid() && ntoresolve <= |unresolvedbreaks|
      requires forall j :: |unresolvedbreaks| - ntoresolve <= j < |unresolvedbreaks| ==>
        unresolvedbreaks[j] < |instructions| && (blind ==> unresolvedbreaks[j] > 0)
      modifies this`instructions, this`wide, this`unresolvedbreaks
      ensures Valid()
      ensures var n := old(|unresolvedbreaks|) - ntoresolve;
        State() == old(State()).(code := FixAll(old(wide), old(unresolvedbreaks), n, old(|wide|)),
                                 breaks := old(unresolvedbreaks)[..n])
    {
      var left: nat := ntoresolve;
      ghost var n, all, size := |unresolvedbreaks| - ntoresolve, unresolvedbreaks, |wide|;
      while left > 0
        invariant Valid() && |wide| == size && |all| >= n + left && unresolvedbreaks == all[..n + left]
        invariant FixAll(wide, unresolvedbreaks, n, size) == FixAll(old(wide), all, n, size)
      {
        var pos := ResolveBreak(|instructions|);
        left := left - 1;
      }
    }

    /** What began to wait since there were `n` breaks, if anything. */
    method ResolveBreaksFrom(n: nat)
      requires Valid() && n <= |unresolvedbreaks|
      requires forall j :: n <= j < |unresolvedbreaks| ==>
        unresolvedbreaks[j] < |instructions| && (blind ==> unresolvedbreaks[j] > 0)
      modifies this`instructions, this`wide, this`unresolvedbreaks
      ensures Valid() && State() == old(State()).(code := FixAll(old(wide), old(unresolvedbreaks), n, old(|wide|)),
                                                  breaks := old(unresolvedbreaks)[..n])
    {
      if |unresolvedbreaks| > n { ResolveBreaks(|unresolvedbreaks| - n); }
    }

    /** The newest continue gets its target and waits no longer. */
    method ResolveContinue(to: int) returns (pos: nat)
      requires Valid() && unresolvedcontinues != []
      requires var last := unresolvedcontinues[|unresolvedcontinues| - 1]; last < |instructions| && (blind ==> last > 0)
      modifies this`instructions, this`wide, this`unresolvedcontinues
      ensures Valid() && old(unresolvedcontinues) == unresolvedcontinues + [pos]
      ensures pos < |old(wide)| && wide == old(wide)[pos := JMP(to - pos - 1)]
    {
      pos := unresolvedcontinues[|unresolvedcontinues| - 1];
      unresolvedcontinues := unresolvedcontinues[..|unresolvedcontinues| - 1];
      LeadTo(pos, to);
    }

    /** The newest continues get `to` as their target. */
    method ResolveContinues(ntoresolve: nat, to: int)
      requires Valid() && ntoresolve <= |unresolvedcontinues|
      requires forall j :: |unresolvedcontinues| - ntoresolve <= j < |unresolvedcontinues| ==>
        unresolvedcontinues[j] < |instructions| && (blind ==> unresolvedcontinues[j] > 0)
      modifies this`instructions, this`wide, this`unresolvedcontinues
      ensures Valid()
      ensures var n := old(|unresolvedcontinues|) - ntoresolve;
        State() == old(State()).(code := FixAll(old(wide), old(unresolvedcontinues), n, to),
                                 continues := old(unresolvedcontinues)[..n])
    {
      var left: nat := ntoresolve;
      ghost var n, all, size := |unresolvedcontinues| - ntoresolve, unresolvedcontinues, |wide|;
      while left > 0
        invariant Valid() && |wide| == size && |all| >= n + left && unresolvedcontinues == all[..n + left]
        invariant FixAll(wide, unresolvedcontinues, n, to) == FixAll(old(wide), all, n, to)
      {
        var pos := ResolveContinue(to);
        left := left - 1;
      }
    }

    /** What began to wait since there were `n` continues, if anything. */
    method ResolveContinuesFrom(n: nat, to: int)
      requires Valid() && n <= |unresolvedcontinues|
      requires forall j :: n <= j < |unresolvedcontinues| ==>
        unresolvedcontinues[j] < |instructions| && (blind ==> unresolvedcontinues[j] > 0)
      modifies this`instructions, this`wide, this`unresolvedcontinues
      ensures Valid() && State() == old(State()).(code := FixAll(old(wide), old(unresolvedcontinues), n, to),
                                                  continues := old(unresolvedcontinues)[..n])
    {
      if |unresolvedcontinues| > n { ResolveContinues(|unresolvedcontinues| - n, to); }
    }
  }
}
