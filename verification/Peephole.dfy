/**
  The peephole optimiser that runs as instructions are added: it merges an instruction into the
  one before it. Straight-line code is compared with what becomes of it, over any operators,
  which may change the world and may fail.
 */
module Peephole {
  import opened Squirrel

  type Reg = r: nat | r < 0x100

  datatype Kind = Get | Arith(bop: BinOp) | Compare(cop: BinOp)

  /** Instructions as the compiler asks for them, and the merged forms. A literal is shown by its value. */
  datatype Instr =
    | Load(t: Reg, lit: nat)
    | LoadImm(t: Reg, v: Value)
    | LoadNulls(t: Reg, n: nat)
    | Move(t: Reg, s: Reg)
    | Op(k: Kind, t: Reg, a1: Reg, a2: Reg)
    | Eq(ne: bool, t: Reg, a1: Reg, a2: Reg)
    | PrepCall(t: Reg, key: Reg, o: Reg, self: Reg)
    | Append(arr: Reg, s: Reg)
    | Jz(s: Reg, off: int)
    | Store(slot: bool, t: Reg, o: Reg, key: Reg, s: Reg, copies: bool)
    | SetOuter(t: Reg, outer: nat, s: Reg, copies: bool)
    | Line(line: nat)
    | DLoad(t: Reg, lit: nat, t2: Reg, lit2: nat)
    | DMove(t: Reg, s: Reg, t2: Reg, s2: Reg)
    | GetK(t: Reg, lit: nat, a1: Reg)
    | EqK(ne: bool, t: Reg, lit: nat, a2: Reg)
    | PrepCallK(t: Reg, lit: nat, o: Reg, self: Reg)
    | AppendLit(arr: Reg, lit: nat)
    | AppendImm(arr: Reg, v: Value)
    | JCmp(cop: BinOp, a1: Reg, a2: Reg, off: int)

  /** What an operator gives: a value or an error. */
  datatype Result = Value(v: Value) | Error(e: Value)

  /** Operators: what they make of two values and the world. Appending is one of them. */
  datatype Ops = Ops(
    run: (Kind, Value, Value, int) -> (int, Result),
    equal: (Value, Value, int) -> (int, Result),
    append: (Value, Value, int) -> int,
    store: (bool, Value, Value, Value, int) -> (int, Result),
    setouter: (nat, Value, int) -> int,
    lits: nat -> Value)

  /** A run strays where a remainder fails: no error is raised for it. */
  datatype Status = Going | Raised(v: Value) | Jumped(off: int) | Astray

  datatype St = St(regs: seq<Value>, world: int, status: Status)

  predicate Ok256(s: St) {
    |s.regs| == 0x100
  }

  /** A result goes to a register, or is raised. */
  function Put(s: St, t: Reg, r: (int, Result)): (s': St)
    requires Ok256(s)
    ensures Ok256(s')
  {
    match r.1 case Value(v) => s.(regs := s.regs[t := v], world := r.0)
      case Error(e) => s.(world := r.0, status := Raised(e))
  }

  /** The same for a remainder, up to where it fails. */
  function PutRemainder(s: St, t: Reg, r: (int, Result)): (s': St)
    requires Ok256(s)
    ensures Ok256(s')
  {
    match r.1 case Value(v) => s.(regs := s.regs[t := v], world := r.0)
      case Error(_) => s.(world := r.0, status := Astray)
  }

  function Negated(ne: bool, r: (int, Result)): (r': (int, Result)) {
    match r.1 case Value(v) => (r.0, Value(Boolean(if ne then IsFalse(v) else !IsFalse(v)))) case Error(_) => r
  }

  function Nulled(regs: seq<Value>, t: nat, n: nat): (r: seq<Value>)
    requires t + n <= |regs|
    ensures |r| == |regs| && forall i :: 0 <= i < |regs| ==> r[i] == if t <= i < t + n then Null else regs[i]
  {
    if n == 0 then regs else Nulled(regs, t, n - 1)[t + n - 1 := Null]
  }

  /** A method call looks up the function and keeps the object it was found in. */
  function Prep(s: St, t: Reg, self: Reg, o: Value, r: (int, Result)): (s': St)
    requires Ok256(s)
    ensures Ok256(s')
  {
    match r.1
    case Value(v) => s.(regs := s.regs[self := o][t := v], world := r.0)
    case Error(e) => s.(world := r.0, status := Raised(e))
  }

  /** A value that was stored is also the value of the assignment, unless nothing asks for it. */
  function Stored(s: St, t: Reg, x: Reg, copies: bool, r: (int, Result)): (s': St)
    requires Ok256(s)
    ensures Ok256(s')
  {
    match r.1
    case Value(_) => s.(regs := if copies then s.regs[t := s.regs[x]] else s.regs, world := r.0)
    case Error(e) => s.(world := r.0, status := Raised(e))
  }

  predicate Fits(i: Instr) {
    i.LoadNulls? ==> i.t + i.n <= 0x100
  }

  /** One instruction, up to a remainder that fails. */
  function Exec(ops: Ops, i: Instr, s: St): (s': St)
    requires Ok256(s) && Fits(i)
    ensures Ok256(s')
  {
    if s.status != Going then s
    else
      match i
      case Load(t, k) => s.(regs := s.regs[t := ops.lits(k)])
      case LoadImm(t, v) => s.(regs := s.regs[t := v])
      case LoadNulls(t, n) => s.(regs := Nulled(s.regs, t, n))
      case Move(t, x) => s.(regs := s.regs[t := s.regs[x]])
      case Op(k, t, a1, a2) =>
        if k == Get then Put(s, t, ops.run(k, s.regs[a1], s.regs[a2], s.world))
        else if k == Arith(Mod) then PutRemainder(s, t, ops.run(k, s.regs[a2], s.regs[a1], s.world))
        else Put(s, t, ops.run(k, s.regs[a2], s.regs[a1], s.world))
      case Eq(ne, t, a1, a2) => Put(s, t, Negated(ne, ops.equal(s.regs[a2], s.regs[a1], s.world)))
      case PrepCall(t, key, o, self) => Prep(s, t, self, s.regs[o], ops.run(Get, s.regs[o], s.regs[key], s.world))
      case Append(arr, x) => s.(world := ops.append(s.regs[arr], s.regs[x], s.world))
      case Jz(x, off) => if IsFalse(s.regs[x]) then s.(status := Jumped(off)) else s
      case Store(slot, t, o, key, x, copies) =>
        Stored(s, t, x, copies, ops.store(slot, s.regs[o], s.regs[key], s.regs[x], s.world))
      case SetOuter(t, outer, x, copies) =>
        Stored(s, t, x, copies, (ops.setouter(outer, s.regs[x], s.world), Value(Null)))
      case Line(_) => s
      case DLoad(t, k, t2, k2) => s.(regs := s.regs[t := ops.lits(k)][t2 := ops.lits(k2)])
      case DMove(t, x, t2, x2) => var r := s.regs[t := s.regs[x]]; s.(regs := r[t2 := r[x2]])
      case GetK(t, k, a1) => Put(s, t, ops.run(Get, s.regs[a1], ops.lits(k), s.world))
      case EqK(ne, t, k, a2) => Put(s, t, Negated(ne, ops.equal(s.regs[a2], ops.lits(k), s.world)))
      case PrepCallK(t, k, o, self) => Prep(s, t, self, s.regs[o], ops.run(Get, s.regs[o], ops.lits(k), s.world))
      case AppendLit(arr, k) => s.(world := ops.append(s.regs[arr], ops.lits(k), s.world))
      case AppendImm(arr, v) => s.(world := ops.append(s.regs[arr], v, s.world))
      case JCmp(c, a1, a2, off) =>
        var r := ops.run(Compare(c), s.regs[a2], s.regs[a1], s.world);
        match r.1
        case Value(v) => if IsFalse(v) then s.(world := r.0, status := Jumped(off)) else s.(world := r.0)
        case Error(e) => s.(world := r.0, status := Raised(e))
  }

  ghost function Reads(i: Instr): (r: set<nat>) {
    match i
    case Load(_, _) => {}
    case LoadImm(_, _) => {}
    case LoadNulls(_, _) => {}
    case Move(_, s) => {s}
    case Op(_, _, a1, a2) => {a1, a2}
    case Eq(_, _, a1, a2) => {a1, a2}
    case PrepCall(_, key, o, _) => {key, o}
    case Append(arr, s) => {arr, s}
    case Jz(s, _) => {s}
    case Store(_, _, o, key, s, _) => {o, key, s}
    case SetOuter(_, _, s, _) => {s}
    case Line(_) => {}
    case DLoad(_, _, _, _) => {}
    case DMove(_, s, _, s2) => {s, s2}
    case GetK(_, _, a1) => {a1}
    case EqK(_, _, _, a2) => {a2}
    case PrepCallK(_, _, o, _) => {o}
    case AppendLit(arr, _) => {arr}
    case AppendImm(arr, _) => {arr}
    case JCmp(_, a1, a2, _) => {a1, a2}
  }

  ghost function Range(t: nat, n: nat): (r: set<nat>)
    ensures forall x :: x in r <==> t <= x < t + n
  {
    if n == 0 then {} else Range(t, n - 1) + {t + n - 1}
  }

  ghost function Writes(i: Instr): (r: set<nat>) {
    match i
    case Load(t, _) => {t}
    case LoadImm(t, _) => {t}
    case LoadNulls(t, n) => Range(t, n)
    case Move(t, _) => {t}
    case Op(_, t, _, _) => {t}
    case Eq(_, t, _, _) => {t}
    case PrepCall(t, _, _, self) => {t, self}
    case Append(_, _) => {}
    case Jz(_, _) => {}
    case Store(_, t, _, _, _, copies) => if copies then {t} else {}
    case SetOuter(t, _, _, copies) => if copies then {t} else {}
    case Line(_) => {}
    case DLoad(t, _, t2, _) => {t, t2}
    case DMove(t, _, t2, _) => {t, t2}
    case GetK(t, _, _) => {t}
    case EqK(_, t, _, _) => {t}
    case PrepCallK(t, _, _, self) => {t, self}
    case AppendLit(_, _) => {}
    case AppendImm(_, _) => {}
    case JCmp(_, _, _, _) => {}
  }

  /**
    Two states that differ at most in registers of `dead`, or of `gone` once control has left:
    the same world, and the same going on, jump or error.
   */
  ghost predicate Agree(dead: set<nat>, gone: set<nat>, s: St, s': St) {
    && Ok256(s) && Ok256(s') && s.world == s'.world && s.status == s'.status
    && forall r :: 0 <= r < 0x100 && r !in (if s.status == Going then dead else gone) ==> s.regs[r] == s'.regs[r]
  }

  /** An instruction that reads no dead register does the same in both, and what it writes is not dead any more. */
  lemma ExecAgrees(ops: Ops, i: Instr, dead: set<nat>, gone: set<nat>, s: St, s': St)
    requires Fits(i) && Agree(dead, gone, s, s') && dead <= gone && Reads(i) !! dead
    ensures Agree(dead - Writes(i), gone, Exec(ops, i, s), Exec(ops, i, s'))
  {
  }

  /** An instruction changes no other register than those it writes. */
  lemma OthersKept(ops: Ops, i: Instr, s: St, r: nat)
    requires Ok256(s) && Fits(i) && r < 0x100 && r !in Writes(i)
    ensures Exec(ops, i, s).regs[r] == s.regs[r]
  {
  }

  /** What the comparisons give: whether the values are equal, or are not. */
  lemma EqualityIs(ops: Ops, ne: bool, t: Reg, a1: Reg, a2: Reg, k: nat, s: St, v: Value)
    requires Ok256(s) && s.status == Going && v == ops.lits(k)
    ensures var r := ops.equal(s.regs[a2], s.regs[a1], s.world);
      r.1.Value? && r.1.v.Boolean? ==>
        Exec(ops, Instr.Eq(ne, t, a1, a2), s) == s.(regs := s.regs[t := Boolean(r.1.v.b != ne)], world := r.0)
    ensures var r := ops.equal(s.regs[a2], v, s.world);
      r.1.Value? && r.1.v.Boolean? ==>
        Exec(ops, EqK(ne, t, k, a2), s) == s.(regs := s.regs[t := Boolean(r.1.v.b != ne)], world := r.0)
  {
  }

  /** What assignments leave: the value is in its target only if it is asked for. */
  lemma StoresAre(ops: Ops, slot: bool, t: Reg, o: Reg, key: Reg, x: Reg, outer: nat, copies: bool, s: St)
    requires Ok256(s) && s.status == Going
    ensures var r := ops.store(slot, s.regs[o], s.regs[key], s.regs[x], s.world);
      r.1.Value? ==>
        Exec(ops, Store(slot, t, o, key, x, copies), s)
          == s.(regs := if copies then s.regs[t := s.regs[x]] else s.regs, world := r.0)
    ensures Exec(ops, SetOuter(t, outer, x, copies), s)
         == s.(regs := if copies then s.regs[t := s.regs[x]] else s.regs,
             world := ops.setouter(outer, s.regs[x], s.world))
  {
  }

  /** A method call finds the function under the key and keeps the object; operators get the second register first. */
  lemma OperandsAre(ops: Ops, b: BinOp, t: Reg, a1: Reg, a2: Reg, self: Reg, s: St)
    requires Ok256(s) && s.status == Going && t != self
    ensures var r := ops.run(Get, s.regs[a2], s.regs[a1], s.world);
      r.1.Value? ==> Exec(ops, PrepCall(t, a1, a2, self), s)
                     == s.(regs := s.regs[t := r.1.v][self := s.regs[a2]], world := r.0)
    ensures var r := ops.run(Get, s.regs[a1], s.regs[a2], s.world);
      r.1.Value? ==> Exec(ops, Op(Get, t, a1, a2), s) == s.(regs := s.regs[t := r.1.v], world := r.0)
    ensures var r := ops.run(Arith(b), s.regs[a2], s.regs[a1], s.world);
      r.1.Value? ==> Exec(ops, Op(Arith(b), t, a1, a2), s) == s.(regs := s.regs[t := r.1.v], world := r.0)
    ensures var r := ops.run(Compare(b), s.regs[a2], s.regs[a1], s.world);
      r.1.Value? ==> Exec(ops, Op(Compare(b), t, a1, a2), s) == s.(regs := s.regs[t := r.1.v], world := r.0)
  {
  }

  /** What fails raises its error with the registers as they were; what it did to the world stays done. */
  lemma FailuresRaise(ops: Ops, k: Kind, t: Reg, a1: Reg, a2: Reg, self: Reg, slot: bool, copies: bool, s: St)
    requires Ok256(s) && s.status == Going
    ensures var r := ops.run(k, s.regs[a2], s.regs[a1], s.world);
      k != Get && k != Arith(Mod) && r.1.Error? ==>
        Exec(ops, Op(k, t, a1, a2), s) == s.(world := r.0, status := Raised(r.1.e))
    ensures var r := ops.run(Get, s.regs[a1], s.regs[a2], s.world);
      r.1.Error? ==>
        && Exec(ops, Op(Get, t, a1, a2), s) == s.(world := r.0, status := Raised(r.1.e))
        && Exec(ops, PrepCall(t, a2, a1, self), s) == s.(world := r.0, status := Raised(r.1.e))
    ensures var r := ops.equal(s.regs[a2], s.regs[a1], s.world);
      r.1.Error? ==> Exec(ops, Instr.Eq(slot, t, a1, a2), s) == s.(world := r.0, status := Raised(r.1.e))
    ensures var r := ops.store(slot, s.regs[a1], s.regs[a2], s.regs[self], s.world);
      r.1.Error? ==> Exec(ops, Store(slot, t, a1, a2, self, copies), s) == s.(world := r.0, status := Raised(r.1.e))
  {
  }

  // ---------- Merging ----------

  datatype Merged = No | Yes(i: Instr, stop: bool)

  function Retarget(i: Instr, t: Reg): (r: Instr) {
    match i case Load(_, k) => Load(t, k) case LoadImm(_, v) => LoadImm(t, v) case Op(k, _, a1, a2) => Op(k, t, a1, a2)
      case _ => i
  }

  /** `i` is merged into `pi` before it, if it can be; `stop` keeps the result from being merged again. */
  function Merge(pi: Instr, i: Instr, local: set<nat>): (m: Merged) {
    match i
    case Jz(_, off) => if pi.Op? && pi.k.Compare?
      && pi.a1 < 0xFF then Yes(JCmp(pi.k.cop, pi.a1, pi.a2, off), false) else No
    case Op(k, t, a1, a2) => if k == Get && pi.Load? && pi.t == a2
      && pi.t !in local then Yes(GetK(t, pi.lit, a1), false) else No
    case PrepCall(t, key, o, self) => if pi.Load? && pi.t == key
      && pi.t !in local then Yes(PrepCallK(t, pi.lit, o, self), false) else No
    case Append(arr, s) =>
      if pi.Load? && pi.t == s && pi.t !in local then Yes(AppendLit(arr, pi.lit), false)
      else if pi.LoadImm? && pi.t == s && pi.t !in local then Yes(AppendImm(arr, pi.v), false)
      else No
    case Move(t, s) =>
      if (pi.Load? || pi.LoadImm? || (pi.Op? && !pi.k.Compare?)) && pi.t == s then Yes(Retarget(pi, t), true)
      else if pi.Move? then Yes(DMove(pi.t, pi.s, t, s), false)
      else No
    case Load(t, k) => if pi.Load? && k < 256 then Yes(DLoad(pi.t, pi.lit, t, k), false) else No
    case Eq(ne, t, a1, a2) => if pi.Load? && pi.t == a1
      && pi.t !in local then Yes(EqK(ne, t, pi.lit, a2), false) else No
    case LoadNulls(t, n) => if pi.LoadNulls? && pi.t + pi.n == t then Yes(LoadNulls(pi.t, pi.n + 1), false) else No
    case Line(_) => if pi.Line? then Yes(i, false) else No
    case _ => No
  }

  /** An assignment to the register the value is in does not copy it. */
  function Tidy(i: Instr): (r: Instr) {
    match i
    case Store(slot, t, o, key, s, _) => if t == s then Store(slot, t, o, key, s, false) else i
    case SetOuter(t, outer, s, _) => if t == s then SetOuter(t, outer, s, false) else i
    case _ => i
  }

  lemma TidySame(ops: Ops, i: Instr, s: St)
    requires Ok256(s) && Fits(i)
    ensures Fits(Tidy(i)) && Exec(ops, Tidy(i), s) == Exec(ops, i, s)
  {
    if i.Store? && i.t == i.s { assert s.regs[i.t := s.regs[i.s]] == s.regs; }
    if i.SetOuter? && i.t == i.s { assert s.regs[i.t := s.regs[i.s]] == s.regs; }
  }

  /** The register that a merge leaves unwritten, unless `i` writes it in the end. */
  ghost function Lost(pi: Instr, i: Instr): (r: set<nat>) {
    if pi.Load? && i.Load? then {} else if pi.Load? || pi.LoadImm? || pi.Op? then {pi.t as nat} else {}
  }

  /**
    What a merge takes for granted: the jump tests what was compared; the register left unwritten is
    read just where it was meant.
   */
  predicate MayMerge(pi: Instr, i: Instr) {
    match i
    case Jz(s, _) => pi.Op? ==> s == pi.t
    case Op(_, _, a1, _) => pi.Load? ==> a1 != pi.t
    case PrepCall(_, _, o, _) => pi.Load? ==> o != pi.t
    case Append(arr, _) => (pi.Load? ==> arr != pi.t) && (pi.LoadImm? ==> arr != pi.t)
    case Eq(_, _, _, a2) => pi.Load? ==> a2 != pi.t
    case LoadNulls(_, n) => n == 1
    case _ => true
  }

  /**
    It is not given only to a jump on another register, to a literal used twice in an instruction,
    and to several nulls.
   */
  lemma MayMergeWhen(pi: Instr, i: Instr, local: set<nat>)
    requires Merge(pi, i, local).Yes? && !MayMerge(pi, i)
    ensures (i.Jz? && i.s != pi.t) || (i.LoadNulls? && i.n != 1)
      || ((i.Op? || i.Eq? || i.PrepCall? || i.Append?) && (pi.Load? || pi.LoadImm?) && UsesTwice(i, pi.t))
  {
  }

  /** The register is an operand of the instruction besides the one that a literal may take the place of. */
  predicate UsesTwice(i: Instr, t: Reg) {
    match i
    case Op(_, _, a1, _) => a1 == t
    case Eq(_, _, _, a2) => a2 == t
    case PrepCall(_, _, o, _) => o == t
    case Append(arr, _) => arr == t
    case _ => false
  }

  /** What a move merged into the instruction before it does. */
  lemma MoveMergeSound(ops: Ops, pi: Instr, i: Instr, local: set<nat>, s: St, gone: set<nat>)
    requires i.Move? && Fits(pi) && Ok256(s) && Merge(pi, i, local).Yes? && Lost(pi, i) <= gone
    ensures Fits(Merge(pi, i, local).i)
    ensures Agree(Lost(pi, i) - Writes(i), gone,
                  Exec(ops, i, Exec(ops, pi, s)), Exec(ops, Merge(pi, i, local).i, s))
  {
  }

  /** The merged instruction does what the two did, but for the register left unwritten. */
  lemma MergeSound(ops: Ops, pi: Instr, i: Instr, local: set<nat>, s: St, gone: set<nat>)
    requires Fits(pi) && Fits(i) && Ok256(s) && Merge(pi, i, local).Yes? && MayMerge(pi, i) && Lost(pi, i) <= gone
    ensures Fits(Merge(pi, i, local).i)
    ensures Agree(Lost(pi, i) - Writes(i), gone,
                  Exec(ops, i, Exec(ops, pi, s)), Exec(ops, Merge(pi, i, local).i, s))
  {
    if i.Move? { MoveMergeSound(ops, pi, i, local, s, gone); }
  }

  // ---------- Straight-line code ----------

  predicate AllFit(code: seq<Instr>) {
    forall j :: 0 <= j < |code| ==> Fits(code[j])
  }

  function Run(ops: Ops, code: seq<Instr>, s: St): (s': St)
    requires Ok256(s) && AllFit(code)
    ensures Ok256(s')
  {
    if code == [] then s else Exec(ops, code[|code| - 1], Run(ops, code[..|code| - 1], s))
  }

  lemma RunPush(ops: Ops, code: seq<Instr>, i: Instr, s: St)
    requires Ok256(s) && AllFit(code) && Fits(i)
    ensures AllFit(code + [i]) && Run(ops, code + [i], s) == Exec(ops, i, Run(ops, code, s))
  {
    assert (code + [i])[..|code|] == code;
  }

  /** The code so far, and whether its last instruction may be merged with the next. */
  datatype Code = Code(instrs: seq<Instr>, opt: bool)

  function MergesWith(c: Code, i: Instr, local: set<nat>): (m: Merged) {
    if |c.instrs| > 0 && c.opt then Merge(c.instrs[|c.instrs| - 1], i, local) else No
  }

  function Added(c: Code, i: Instr, local: set<nat>): (c': Code) {
    match MergesWith(c, i, local)
    case Yes(f, stop) => Code(c.instrs[..|c.instrs| - 1] + [f], !stop)
    case No => Code(c.instrs + [if |c.instrs| > 0 && c.opt then Tidy(i) else i], true)
  }

  /** What is asked of the optimiser: to add an instruction, or not to merge across this point. */
  datatype Item = Ask(i: Instr, local: set<nat>) | Snooze

  function Step(c: Code, item: Item): (c': Code) {
    match item case Ask(i, local) => Added(c, i, local) case Snooze => c.(opt := false)
  }

  function Fold(c: Code, items: seq<Item>): (c': Code)
    decreases |items|
  {
    if items == [] then c else Fold(Step(c, items[0]), items[1..])
  }

  function Raw(code: seq<Instr>, items: seq<Item>): (r: seq<Instr>)
    decreases |items|
  {
    if items == [] then code else Raw(if items[0].Ask? then code + [items[0].i] else code, items[1..])
  }

  /** Registers that hold something else than in the unmerged code, after one more item. */
  ghost function Dead(c: Code, item: Item, dead: set<nat>): (r: set<nat>) {
    match item
    case Snooze => dead
    case Ask(i, local) =>
      (dead + if MergesWith(c, i, local).Yes? then Lost(c.instrs[|c.instrs| - 1], i) else {}) - Writes(i)
  }

  ghost function Gone(c: Code, item: Item, gone: set<nat>): (r: set<nat>) {
    if item.Ask? && MergesWith(c, item.i, item.local).Yes? then gone + Lost(c.instrs[|c.instrs| - 1], item.i) else gone
  }

  /** No instruction reads a register that a merge left unwritten, and each merge gets what it takes for granted. */
  ghost predicate Live(c: Code, items: seq<Item>, dead: set<nat>)
    decreases |items|
  {
    items == [] || (LiveItem(c, items[0], dead) && Live(Step(c, items[0]), items[1..], Dead(c, items[0], dead)))
  }

  ghost predicate LiveItem(c: Code, item: Item, dead: set<nat>) {
    item.Ask? ==>
      && Fits(item.i) && Reads(item.i) !! dead
      && (MergesWith(c, item.i, item.local).Yes? ==> MayMerge(c.instrs[|c.instrs| - 1], item.i))
  }

  ghost function AllGone(c: Code, items: seq<Item>, gone: set<nat>): (r: set<nat>)
    decreases |items|
  {
    if items == [] then gone else AllGone(Step(c, items[0]), items[1..], Gone(c, items[0], gone))
  }

  ghost function AllDead(c: Code, items: seq<Item>, dead: set<nat>): (r: set<nat>)
    decreases |items|
  {
    if items == [] then dead else AllDead(Step(c, items[0]), items[1..], Dead(c, items[0], dead))
  }

  /** Adding one instruction keeps the two codes in agreement. */
  lemma AddAgrees(ops: Ops, raw: seq<Instr>, c: Code, i: Instr, local: set<nat>, dead: set<nat>, gone: set<nat>, s: St)
    requires Ok256(s) && AllFit(raw) && AllFit(c.instrs) && dead <= gone && LiveItem(c, Ask(i, local), dead)
    requires Agree(dead, gone, Run(ops, raw, s), Run(ops, c.instrs, s))
    ensures AllFit(raw + [i]) && AllFit(Added(c, i, local).instrs)
    ensures Agree(Dead(c, Ask(i, local), dead), Gone(c, Ask(i, local), gone), Run(ops, raw + [i], s),
        Run(ops, Added(c, i, local).instrs, s))
  {
    RunPush(ops, raw, i, s);
    ExecAgrees(ops, i, dead, gone, Run(ops, raw, s), Run(ops, c.instrs, s));
    if MergesWith(c, i, local).Yes? {
      var rest, pi := c.instrs[..|c.instrs| - 1], c.instrs[|c.instrs| - 1];
      var gone' := gone + Lost(pi, i);
      MergeSound(ops, pi, i, local, Run(ops, rest, s), gone');
      RunPush(ops, rest, Merge(pi, i, local).i, s);
      Chain(dead - Writes(i), Lost(pi, i) - Writes(i), gone, gone', Run(ops, raw + [i], s),
          Exec(ops, i, Run(ops, c.instrs, s)),
            Run(ops, Added(c, i, local).instrs, s), Dead(c, Ask(i, local), dead));
    } else {
      TidySame(ops, i, Run(ops, c.instrs, s));
      RunPush(ops, c.instrs, if |c.instrs| > 0 && c.opt then Tidy(i) else i, s);
    }
  }

  lemma Chain(d1: set<nat>, d2: set<nat>, g1: set<nat>, g2: set<nat>, s1: St, s2: St, s3: St, d: set<nat>)
    requires Agree(d1, g1, s1, s2) && Agree(d2, g2, s2, s3) && g1 <= g2 && d1 <= d && d2 <= d
    ensures Agree(d, g2, s1, s3)
  {
  }

  lemma {:induction false} FoldAgrees(ops: Ops, raw: seq<Instr>, c: Code, items: seq<Item>, dead: set<nat>,
      gone: set<nat>, s: St)
    requires Ok256(s) && AllFit(raw) && AllFit(c.instrs) && dead <= gone && Live(c, items, dead)
    requires Agree(dead, gone, Run(ops, raw, s), Run(ops, c.instrs, s))
    ensures AllFit(Raw(raw, items)) && AllFit(Fold(c, items).instrs)
    ensures Agree(AllDead(c, items, dead), AllGone(c, items, gone), Run(ops, Raw(raw, items), s),
        Run(ops, Fold(c, items).instrs, s))
    decreases |items|
  {
    if items != [] {
      var item := items[0];
      if item.Ask? {
        AddAgrees(ops, raw, c, item.i, item.local, dead, gone, s);
        FoldAgrees(ops, raw + [item.i], Step(c, item), items[1..], Dead(c, item, dead), Gone(c, item, gone), s);
      } else {
        FoldAgrees(ops, raw, Step(c, item), items[1..], dead, gone, s);
      }
    }
  }

  // ---------- Named variables ----------

  /**
    A merge leaves a named variable unwritten exactly when it merges a jump on one, or a move of one
    to another register.
   */
  lemma LosesLocal(pi: Instr, i: Instr, local: set<nat>)
    requires Merge(pi, i, local).Yes?
    ensures (Lost(pi, i) - Writes(i)) !! local <==>
      !((i.Jz? && pi.t as nat in local) || (i.Move? && !pi.Move? && pi.t as nat in local && i.t != pi.t))
  {
    if (i.Jz? || (i.Move? && !pi.Move?)) && pi.t as nat in local {
      assert pi.t as nat in Lost(pi, i) && (pi.t as nat in Writes(i) <==> i.Move? && i.t == pi.t);
    }
  }

  /** A register that was live has died in a merge, of a move or a jump if it was a named variable then. */
  lemma {:induction false} DiedHow(c: Code, items: seq<Item>, dead: set<nat>, r: nat) returns (j: nat)
    requires r !in dead && r in AllDead(c, items, dead)
    ensures j < |items| && items[j].Ask? && MergesWith(Fold(c, items[..j]), items[j].i, items[j].local).Yes?
    ensures items[j].i.Move? || items[j].i.Jz? || r !in items[j].local
    decreases |items|
  {
    var item := items[0];
    if r in Dead(c, item, dead) {
      j := 0;
      LosesLocal(c.instrs[|c.instrs| - 1], item.i, item.local);
    } else {
      var k := DiedHow(Step(c, item), items[1..], Dead(c, item, dead), r);
      j := k + 1;
      assert items[..j][1..] == items[1..][..k];
    }
  }

  /**
    A value loaded into a variable and copied to another register: the load goes to the other register
    only, and the variable has the value exactly if it had it before.
   */
  lemma CopiedLocal(ops: Ops, v: Value, x: Reg, y: Reg, local: set<nat>, s: St)
    requires Ok256(s) && s.status == Going && x != y
    ensures var items := [Ask(LoadImm(x, v), local), Ask(Move(y, x), local + {x as nat})];
      var merged := Fold(Code([], true), items).instrs;
      && merged == [LoadImm(y, v)] && Raw([], items) == [LoadImm(x, v), Move(y, x)]
      && Run(ops, Raw([], items), s).regs[x] == v
      && (Run(ops, merged, s).regs[x] == v <==> s.regs[x] == v)
  {
    var a, b := Ask(LoadImm(x, v), local), Ask(Move(y, x), local + {x as nat});
    FoldTwo(Code([], true), a, b);
    RawTwo(a, b);
    RunsOf(ops, LoadImm(x, v), Move(y, x), s);
    RunsOf(ops, LoadImm(y, v), Move(y, x), s);
  }

  lemma FoldTwo(c: Code, a: Item, b: Item)
    ensures Fold(c, [a, b]) == Step(Step(c, a), b)
  {
    assert [a, b][1..] == [b] && [b][1..] == [];
    assert Fold(Step(c, a), [b]) == Fold(Step(Step(c, a), b), []);
  }

  lemma RawTwo(a: Item, b: Item)
    requires a.Ask? && b.Ask?
    ensures Raw([], [a, b]) == [a.i, b.i]
  {
    assert [a, b][1..] == [b] && [b][1..] == [] && [] + [a.i] == [a.i] && [a.i] + [b.i] == [a.i, b.i];
    assert Raw([a.i], [b]) == Raw([a.i, b.i], []);
  }

  lemma RunsOf(ops: Ops, i: Instr, j: Instr, s: St)
    requires Ok256(s) && Fits(i) && Fits(j)
    ensures Run(ops, [i], s) == Exec(ops, i, s) && Run(ops, [i, j], s) == Exec(ops, j, Exec(ops, i, s))
  {
    RunPush(ops, [], i, s);
    RunPush(ops, [i], j, s);
    assert [] + [i] == [i] && [i] + [j] == [i, j];
  }

  // ---------- What two instructions become ----------

  /** Two instructions added one after the other, with nothing in between. */
  function Pair(pi: Instr, i: Instr, local: set<nat>): (r: seq<Instr>) {
    Added(Code([pi], true), i, local).instrs
  }

  /** A literal goes into the instruction that uses it, unless it was loaded into a named variable. */
  lemma LiteralsMerge(t: Reg, u: Reg, x: Reg, z: Reg, k: nat, ne: bool, v: Value, local: set<nat>)
    ensures Pair(Load(t, k), Op(Get, u, x, t), local) == Unless(t, local, Load(t, k), Op(Get, u, x, t), GetK(u, k, x))
    ensures Pair(Load(t, k), Instr.Eq(ne, u, t, x), local)
         == Unless(t, local, Load(t, k), Instr.Eq(ne, u, t, x), EqK(ne, u, k, x))
    ensures Pair(Load(t, k), PrepCall(u, t, x, z), local)
         == Unless(t, local, Load(t, k), PrepCall(u, t, x, z), PrepCallK(u, k, x, z))
    ensures Pair(Load(t, k), Append(x, t), local) == Unless(t, local, Load(t, k), Append(x, t), AppendLit(x, k))
    ensures Pair(LoadImm(t, v), Append(x, t), local) == Unless(t, local, LoadImm(t, v), Append(x, t), AppendImm(x, v))
  {
  }

  /** Both instructions if `t` is a named variable, otherwise what they become. */
  function Unless(t: Reg, local: set<nat>, pi: Instr, i: Instr, merged: Instr): (r: seq<Instr>) {
    if t as nat in local then [pi, i] else [merged]
  }

  /** A result goes where a move would have taken it; other moves, loads, nulls and line numbers go together. */
  lemma MovesMerge(t: Reg, u: Reg, x: Reg, z: Reg, k: nat, k2: nat, v: Value, op: BinOp, n: nat, local: set<nat>)
    ensures Pair(Load(t, k), Move(u, t), local) == [Load(u, k)]
    ensures Pair(LoadImm(t, v), Move(u, t), local) == [LoadImm(u, v)]
    ensures Pair(Op(Get, t, x, z), Move(u, t), local) == [Op(Get, u, x, z)]
    ensures Pair(Op(Arith(op), t, x, z), Move(u, t), local) == [Op(Arith(op), u, x, z)]
    ensures Pair(Op(Compare(op), t, x, z), Move(u, t), local) == [Op(Compare(op), t, x, z), Move(u, t)]
    ensures Pair(Move(t, x), Move(u, z), local) == [DMove(t, x, u, z)]
    ensures Pair(Load(t, k), Load(u, k2),
        local) == (if k2 < 256 then [DLoad(t, k, u, k2)] else [Load(t, k), Load(u, k2)])
    ensures t + n == u ==> Pair(LoadNulls(t, n), LoadNulls(u, 1), local) == [LoadNulls(t, n + 1)]
    ensures Pair(Line(k), Line(k2), local) == [Line(k2)]
  {
  }

  /** A jump on a comparison compares itself, if the register compared fits; nothing merges across a snooze. */
  lemma JumpsMerge(op: BinOp, t: Reg, x: Reg, z: Reg, off: int, pi: Instr, i: Instr, local: set<nat>)
    ensures Pair(Op(Compare(op), t, x, z), Jz(t, off), local)
         == if x < 0xFF then [JCmp(op, x, z, off)] else [Op(Compare(op), t, x, z), Jz(t, off)]
    ensures Step(Step(Code([pi], true), Snooze), Ask(i, local)) == Code([pi, i], true)
  {
  }

  /** A store whose value is already where it is asked for does not copy it; any other is added as it is. */
  lemma StoresTidied(pi: Instr, slot: bool, t: Reg, o: Reg, key: Reg, x: Reg, outer: nat, copies: bool, local: set<nat>)
    ensures Pair(pi, Store(slot, t, o, key, x, copies), local) == [pi, Store(slot, t, o, key, x, copies && t != x)]
    ensures Pair(pi, SetOuter(t, outer, x, copies), local) == [pi, SetOuter(t, outer, x, copies && t != x)]
  {
  }

  // ---------- What the machine does when a remainder fails ----------

  /** The remainder at `i` is evaluated and fails. */
  predicate FailsAt(ops: Ops, i: Instr, s: St)
    requires Ok256(s)
  {
    s.status == Going && i.Op? && i.k == Arith(Mod) && ops.run(i.k, s.regs[i.a2], s.regs[i.a1], s.world).1.Error?
  }

  /** One instruction as the machine executes it: after a remainder that fails it goes on, the target as it was. */
  function Machine(ops: Ops, i: Instr, s: St): (s': St)
    requires Ok256(s) && Fits(i)
    ensures Ok256(s')
  {
    if FailsAt(ops, i, s) then s.(world := ops.run(i.k, s.regs[i.a2], s.regs[i.a1], s.world).0) else Exec(ops, i, s)
  }

  function MachineRun(ops: Ops, code: seq<Instr>, s: St): (s': St)
    requires Ok256(s) && AllFit(code)
    ensures Ok256(s')
  {
    if code == [] then s else Machine(ops, code[|code| - 1], MachineRun(ops, code[..|code| - 1], s))
  }

  /** A remainder fails on the run of the code. */
  predicate Strays(ops: Ops, code: seq<Instr>, s: St)
    requires Ok256(s) && AllFit(code)
  {
    if code == [] then false
    else
      var before := code[..|code| - 1];
      Strays(ops, before, s) || FailsAt(ops, code[|code| - 1], MachineRun(ops, before, s))
  }

  lemma MachineOrAstray(ops: Ops, i: Instr, s: St)
    requires Ok256(s) && Fits(i)
    ensures s.status != Astray ==> (Exec(ops, i, s).status == Astray <==> FailsAt(ops, i, s))
    ensures s.status == Astray ==> Exec(ops, i, s).status == Astray
  {
  }

  /** The machine does what `Run` says just up to the first remainder that fails. */
  lemma {:induction false} StraysOrRuns(ops: Ops, code: seq<Instr>, s: St)
    requires Ok256(s) && AllFit(code) && s.status != Astray
    ensures Strays(ops, code, s) <==> Run(ops, code, s).status == Astray
    ensures !Strays(ops, code, s) ==> MachineRun(ops, code, s) == Run(ops, code, s)
  {
    if code != [] {
      var before, i := code[..|code| - 1], code[|code| - 1];
      StraysOrRuns(ops, before, s);
      MachineOrAstray(ops, i, Run(ops, before, s));
    }
  }

  /**
    The optimised code of any straight line does the same to the world, and goes on, jumps or
    raises the same, as the code asked for, unless a remainder fails; registers differ only where
    a merge left one unwritten that nothing read since. A remainder fails on the run of the one
    just when it does on the run of the other.
   */
  lemma OptimisedAgrees(ops: Ops, items: seq<Item>, s: St)
    requires Ok256(s) && s.status != Astray && Live(Code([], true), items, {})
    ensures AllFit(Raw([], items)) && AllFit(Fold(Code([], true), items).instrs)
    ensures Strays(ops, Raw([], items), s) <==> Strays(ops, Fold(Code([], true), items).instrs, s)
    ensures !Strays(ops, Raw([], items), s) ==>
      Agree(AllDead(Code([], true), items, {}), AllGone(Code([], true), items, {}),
            MachineRun(ops, Raw([], items), s), MachineRun(ops, Fold(Code([], true), items).instrs, s))
  {
    FoldAgrees(ops, [], Code([], true), items, {}, {}, s);
    StraysOrRuns(ops, Raw([], items), s);
    StraysOrRuns(ops, Fold(Code([], true), items).instrs, s);
  }

  /**
    A remainder and the move of its result, merged: they do the same in every other register if and
    only if the remainder does not fail, or the two targets held the same before.
   */
  lemma RemainderMoved(ops: Ops, t: Reg, a1: Reg, a2: Reg, x: Reg, s: St)
    requires Ok256(s) && s.status == Going
    ensures var pi, i := Op(Arith(Mod), t, a1, a2), Move(x, t);
      Merge(pi, i, {}).Yes? &&
      (Agree({t as nat} - {x as nat}, {}, Machine(ops, i, Machine(ops, pi, s)),
          Machine(ops, Merge(pi, i, {}).i, s)) <==>
       (FailsAt(ops, pi, s) ==> s.regs[x] == s.regs[t]))
  {
    var pi, i := Op(Arith(Mod), t, a1, a2), Move(x, t);
    var one, two := Machine(ops, i, Machine(ops, pi, s)), Machine(ops, Merge(pi, i, {}).i, s);
    if FailsAt(ops, pi, s) {
      assert one.regs[x] == s.regs[t] && two.regs[x] == s.regs[x];
    } else {
      assert one.regs[x] == two.regs[x];
    }
  }

  /**
    Without its hypothesis the merge of a jump is wrong: the jump is decided by the comparison, not
    by the register it names.
   */
  lemma JumpOfOther(ops: Ops, cop: BinOp, a1: Reg, a2: Reg, t: Reg, x: Reg, off: int, s: St)
    requires Ok256(s) && s.status == Going && x != t && a1 < 0xFF
    requires ops.run(Compare(cop), s.regs[a2], s.regs[a1], s.world).1.Value?
    ensures var pi, i := Op(Compare(cop), t, a1, a2), Jz(x, off);
      Merge(pi, i, {}).Yes? &&
      (Exec(ops, i, Exec(ops, pi, s)).status == Exec(ops, Merge(pi, i, {}).i, s).status <==>
       (IsFalse(s.regs[x]) <==> IsFalse(ops.run(Compare(cop), s.regs[a2], s.regs[a1], s.world).1.v)))
  {
  }

  class Optimizer {
    var instructions: seq<Instr>
    var optimization: bool

    ghost function State(): (c: Code)
      reads this
    {
      Code(instructions, optimization)
    }

    method AddInstruction(i: Instr, local: set<nat>)
      modifies this
      ensures State() == Added(old(State()), i, local)
    {
      var j := i;
      if |instructions| > 0 && optimization {
        var pi := instructions[|instructions| - 1];
        var m := Merge(pi, i, local);
        if m.Yes? {
          instructions := instructions[|instructions| - 1 := m.i];
          assert instructions == old(instructions)[..|instructions| - 1] + [m.i];
          if m.stop { optimization := false; }
          return;
        }
        j := Tidy(i);
      }
      optimization := true;
      instructions := instructions + [j];
    }

    method SnoozeOpt()
      modifies this
      ensures State() == old(State()).(opt := false)
    {
      optimization := false;
    }
  }
}
