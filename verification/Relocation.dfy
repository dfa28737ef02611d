/** Code of expressions works at any address: jumps are relative. */
module Relocation {
  import opened Squirrel
  import opened Bytecode
  import opened Layout
  import opened CodeOf
  import opened ExprEmit
  import opened StmtEmit

  /** `q` has the code of `p` between `o` and `end`, `k` further on. */
  ghost predicate Shifted(p: Prog, q: Prog, o: int, end: int, k: int) {
    && p.lits <= q.lits && p.stacksize <= q.stacksize
    && forall i :: o <= i < end && 0 <= i < |p.code| ==> SameAt(p, q, i, k)
  }

  ghost predicate SameAt(p: Prog, q: Prog, i: nat, k: int)
    requires i < |p.code|
  {
    0 <= i + k < |q.code| && q.code[i + k] == p.code[i]
  }

  /** Code does not end before it starts. */
  lemma {:induction false} OrderE(p: Prog, n: nat, e: Expr, d: nat, o: int, end: int)
    requires IsE(p, n, e, d, o, end)
    ensures o <= end
    decreases e, 0
  {
    UnfoldE(p, n, e, d, o, end);
    var L := EMap(p);
    match e {
      case Const(_) =>
      case Local(_) =>
      case Un(op, e1) =>
        var o1 :| L(n, e1, d, o, o1) && UnAt(p, o1, end, op, d, Target(e1, d));
        OrderE(p, n, e1, d, o, o1);
      case Bin(op, l, r) =>
        var o1, o2 :| L(n, l, d, o, o1) && L(n, r, After(l, d), o1, o2)
          && BinAt(p, o2, end, op, d, Target(r, After(l, d)), Target(l, d));
        OrderE(p, n, l, d, o, o1);
        OrderE(p, n, r, After(l, d), o1, o2);
      case AndE(l, r) =>
        var o1, o2, o3 :| L(n, l, d, o, o1) && AndAt(p, o1, o2, d, end, Target(l, d))
          && LaidMove(p, d, Target(l, d), o2, o3) && LaidOperand(p, L, n, r, d, o3, end);
        OrderE(p, n, l, d, o, o1);
        OrderOperand(p, n, r, d, o3, end);
      case OrE(l, r) =>
        var o1, o2, o3 :| L(n, l, d, o, o1) && OrAt(p, o1, o2, d, end, Target(l, d))
          && LaidMove(p, d, Target(l, d), o2, o3) && LaidOperand(p, L, n, r, d, o3, end);
        OrderE(p, n, l, d, o, o1);
        OrderOperand(p, n, r, d, o3, end);
      case Cond(c, a, b) =>
        var o1, o2, o3, o4 :| L(n, c, d, o, o1) && JzAt(p, o1, o2, Target(c, d), o4)
          && LaidOperand(p, L, n, a, d, o2, o3) && JmpAt(p, o3, o4, end) && LaidOperand(p, L, n, b, d, o4, end);
        OrderE(p, n, c, d, o, o1);
        OrderOperand(p, n, a, d, o2, o3);
        OrderOperand(p, n, b, d, o4, end);
    }
  }

  lemma {:induction false} OrderOperand(p: Prog, n: nat, e: Expr, t: nat, o: int, end: int)
    requires LaidOperand(p, EMap(p), n, e, t, o, end)
    ensures o <= end
    decreases e, 1
  {
    var d: nat, o1 :| d == t + 1 && EMap(p)(n, e, d, o, o1) && LaidMove(p, t, Target(e, d), o1, end);
    OrderE(p, n, e, d, o, o1);
  }

  lemma ShiftedPart(p: Prog, q: Prog, o: int, end: int, k: int, o1: int, o2: int)
    requires Shifted(p, q, o, end, k) && o <= o1 && o2 <= end
    ensures Shifted(p, q, o1, o2, k)
  {
  }

  lemma HasShifted(p: Prog, q: Prog, o: int, end: int, k: int, i: int, i': int, ins: Instr)
    requires Shifted(p, q, o, end, k) && o <= i < end && Has(p, i, ins) && i' == i + k
    ensures Has(q, i', ins)
  {
    assert SameAt(p, q, i, k);
  }

  lemma JzShifted(p: Prog, q: Prog, o: int, end: int, k: int, o1: int, o2: int, s: nat, to: int, o1': int, o2': int,
      to': int)
    requires Shifted(p, q, o, end, k) && o <= o1 < end && JzAt(p, o1, o2, s, to) && o1' == o1 + k && o2' == o2 + k
      && to' == to + k
    ensures JzAt(q, o1', o2', s, to')
  {
    HasShifted(p, q, o, end, k, o1, o1', JZ(s, to - o2));
  }

  lemma JmpShifted(p: Prog, q: Prog, o: int, end: int, k: int, o1: int, o2: int, to: int, o1': int, o2': int, to': int)
    requires Shifted(p, q, o, end, k) && o <= o1 < end && JmpAt(p, o1, o2, to) && o1' == o1 + k && o2' == o2 + k
      && to' == to + k
    ensures JmpAt(q, o1', o2', to')
  {
    HasShifted(p, q, o, end, k, o1, o1', JMP(to - o2));
  }

  lemma AndShifted(p: Prog, q: Prog, o: int, end: int, k: int, o1: int, o2: int, t: nat, s: nat, o1': int, o2': int,
      end': int)
    requires Shifted(p, q, o, end, k) && o <= o1 < end && AndAt(p, o1, o2, t, end, s) && o1' == o1 + k && o2' == o2 + k
      && end' == end + k
    ensures AndAt(q, o1', o2', t, end', s)
  {
    HasShifted(p, q, o, end, k, o1, o1', AND(t, end - o2, s));
  }

  lemma OrShifted(p: Prog, q: Prog, o: int, end: int, k: int, o1: int, o2: int, t: nat, s: nat, o1': int, o2': int,
      end': int)
    requires Shifted(p, q, o, end, k) && o <= o1 < end && OrAt(p, o1, o2, t, end, s) && o1' == o1 + k && o2' == o2 + k
      && end' == end + k
    ensures OrAt(q, o1', o2', t, end', s)
  {
    HasShifted(p, q, o, end, k, o1, o1', OR(t, end - o2, s));
  }

  lemma MoveShifted(p: Prog, q: Prog, o: int, end: int, k: int, t: nat, s: nat, o1: int, o2: int, o1': int, o2': int)
    requires Shifted(p, q, o, end, k) && o <= o1 && o2 <= end && LaidMove(p, t, s, o1, o2) && o1' == o1 + k
      && o2' == o2 + k
    ensures LaidMove(q, t, s, o1', o2')
  {
    if t != s { HasShifted(p, q, o, end, k, o1, o1', MOVE(t, s)); }
  }

  lemma {:induction false} RelocOperand(p: Prog, q: Prog, n: nat, e: Expr, t: nat, o: int, end: int, k: int, o': int,
      end': int)
    requires LaidOperand(p, EMap(p), n, e, t, o, end) && Shifted(p, q, o, end, k) && o' == o + k && end' == end + k
    ensures LaidOperand(q, EMap(q), n, e, t, o', end')
    decreases e, 2
  {
    var d: nat, o1 :| d == t + 1 && EMap(p)(n, e, d, o, o1) && LaidMove(p, t, Target(e, d), o1, end);
    var o1' := o1 + k;
    OrderE(p, n, e, d, o, o1);
    ShiftedPart(p, q, o, end, k, o, o1);
    RelocE(p, q, n, e, d, o, o1, k, o', o1');
    MoveShifted(p, q, o, end, k, t, Target(e, d), o1, end, o1', end');
    assert EMap(q)(n, e, d, o', o1');
  }

  /** The code of an expression is its code at any other address too. */
  lemma {:induction false} RelocE(p: Prog, q: Prog, n: nat, e: Expr, d: nat, o: int, end: int, k: int, o': int,
      end': int)
    requires IsE(p, n, e, d, o, end) && Shifted(p, q, o, end, k) && o' == o + k && end' == end + k
    ensures IsE(q, n, e, d, o', end')
    decreases e, 1
  {
    UnfoldE(p, n, e, d, o, end);
    match e {
      case Const(v) =>
        HasShifted(p, q, o, end, k, o, o', p.code[o]);
        UnfoldE(q, n, e, d, o', end');
      case Local(_) =>
        UnfoldE(q, n, e, d, o', end');
      case Un(op, e1) =>
        var o1 :| EMap(p)(n, e1, d, o, o1) && UnAt(p, o1, end, op, d, Target(e1, d));
        var o1' := o1 + k;
        OrderE(p, n, e1, d, o, o1);
        ShiftedPart(p, q, o, end, k, o, o1);
        RelocE(p, q, n, e1, d, o, o1, k, o', o1');
        HasShifted(p, q, o, end, k, o1, o1', UN(op, d, Target(e1, d)));
        MakeUn(q, n, e, d, o', o1', end');
      case Bin(_, _, _) => RelocBin(p, q, n, e, d, o, end, k, o', end');
      case AndE(_, _) => RelocLogic(p, q, n, e, d, o, end, k, o', end');
      case OrE(_, _) => RelocLogic(p, q, n, e, d, o, end, k, o', end');
      case Cond(_, _, _) => RelocCond(p, q, n, e, d, o, end, k, o', end');
    }
  }

  lemma {:induction false} RelocBin(p: Prog, q: Prog, n: nat, e: Expr, d: nat, o: int, end: int, k: int, o': int,
      end': int)
    requires e.Bin? && LaidE(p, EMap(p), n, e, d, o, end) && Shifted(p, q, o, end, k) && o' == o + k && end' == end + k
    ensures IsE(q, n, e, d, o', end')
    decreases e, 0
  {
    var d1 := After(e.l, d);
    var o1, o2 :| EMap(p)(n, e.l, d, o, o1) && EMap(p)(n, e.r, d1, o1, o2)
      && BinAt(p, o2, end, e.bop, d, Target(e.r, d1), Target(e.l, d));
    var o1', o2' := o1 + k, o2 + k;
    OrderE(p, n, e.l, d, o, o1);
    OrderE(p, n, e.r, d1, o1, o2);
    ShiftedPart(p, q, o, end, k, o, o1);
    ShiftedPart(p, q, o, end, k, o1, o2);
    RelocE(p, q, n, e.l, d, o, o1, k, o', o1');
    RelocE(p, q, n, e.r, d1, o1, o2, k, o1', o2');
    HasShifted(p, q, o, end, k, o2, o2', BIN(e.bop, d, Target(e.r, d1), Target(e.l, d)));
    MakeBin(q, n, e, d, d1, o', o1', o2', end');
  }

  lemma {:induction false} RelocLogic(p: Prog, q: Prog, n: nat, e: Expr, d: nat, o: int, end: int, k: int, o': int,
      end': int)
    requires (e.AndE? || e.OrE?) && LaidE(p, EMap(p), n, e, d, o, end) && Shifted(p, q, o, end, k) && o' == o + k
      && end' == end + k
    ensures IsE(q, n, e, d, o', end')
    decreases e, 0
  {
    var t := Target(e.l, d);
    var o1, o2, o3;
    if e.AndE? {
      o1, o2, o3 :| EMap(p)(n, e.l, d, o, o1) && AndAt(p, o1, o2, d, end, t)
        && LaidMove(p, d, t, o2, o3) && LaidOperand(p, EMap(p), n, e.r, d, o3, end);
    } else {
      o1, o2, o3 :| EMap(p)(n, e.l, d, o, o1) && OrAt(p, o1, o2, d, end, t)
        && LaidMove(p, d, t, o2, o3) && LaidOperand(p, EMap(p), n, e.r, d, o3, end);
    }
    var o1', o2', o3' := o1 + k, o2 + k, o3 + k;
    OrderE(p, n, e.l, d, o, o1);
    OrderOperand(p, n, e.r, d, o3, end);
    ShiftedPart(p, q, o, end, k, o, o1);
    ShiftedPart(p, q, o, end, k, o3, end);
    RelocE(p, q, n, e.l, d, o, o1, k, o', o1');
    RelocOperand(p, q, n, e.r, d, o3, end, k, o3', end');
    MoveShifted(p, q, o, end, k, d, t, o2, o3, o2', o3');
    if e.AndE? {
      AndShifted(p, q, o, end, k, o1, o2, d, t, o1', o2', end');
    } else {
      OrShifted(p, q, o, end, k, o1, o2, d, t, o1', o2', end');
    }
    MakeLogic(q, n, e, d, o', o1', o2', o3', end');
  }

  lemma {:induction false} RelocCond(p: Prog, q: Prog, n: nat, e: Expr, d: nat, o: int, end: int, k: int, o': int,
      end': int)
    requires e.Cond? && LaidE(p, EMap(p), n, e, d, o, end) && Shifted(p, q, o, end, k) && o' == o + k && end' == end + k
    ensures IsE(q, n, e, d, o', end')
    decreases e, 0
  {
    var o1, o2, o3, o4 :| EMap(p)(n, e.c, d, o, o1) && JzAt(p, o1, o2, Target(e.c, d), o4)
      && LaidOperand(p, EMap(p), n, e.a, d, o2, o3) && JmpAt(p, o3, o4, end)
        && LaidOperand(p, EMap(p), n, e.b, d, o4, end);
    var o1', o2', o3', o4' := o1 + k, o2 + k, o3 + k, o4 + k;
    OrderE(p, n, e.c, d, o, o1);
    OrderOperand(p, n, e.a, d, o2, o3);
    OrderOperand(p, n, e.b, d, o4, end);
    ShiftedPart(p, q, o, end, k, o, o1);
    ShiftedPart(p, q, o, end, k, o2, o3);
    ShiftedPart(p, q, o, end, k, o4, end);
    RelocE(p, q, n, e.c, d, o, o1, k, o', o1');
    RelocOperand(p, q, n, e.a, d, o2, o3, k, o2', o3');
    RelocOperand(p, q, n, e.b, d, o4, end, k, o4', end');
    JzShifted(p, q, o, end, k, o1, o2, Target(e.c, d), o4, o1', o2', o4');
    JmpShifted(p, q, o, end, k, o3, o4, end, o3', o4', end');
    MakeCond(q, n, e, d, o', o1', o2', o3', o4', end');
  }

  /** The third clause of a for loop is compiled in one place and used in another. */
  lemma RelocClause(p: Prog, q: Prog, s: Stmt, d: nat, x: Ctx, o: int, end: int, k: int, o': int, end': int)
    requires (s.Empty? || s.Eval? || s.Assign?) && IsS(p, s, d, x, o, end) && Shifted(p, q, o, end, k) && o' == o + k
      && end' == end + k
    ensures IsS(q, s, d, x, o', end')
  {
    UnfoldS(p, s, d, x, o, end);
    match s {
      case Empty => UnfoldS(q, s, d, x, o', end');
      case Eval(e) =>
        RelocE(p, q, d, e, d, o, end, k, o', end');
        MakeSimple(q, s, d, x, o', end', end');
      case Assign(v, e) =>
        var o1 :| CodeMaps(p).E(d, e, d, o, o1) && MoveAt(p, o1, end, v, Target(e, d));
        var o1' := o1 + k;
        OrderE(p, d, e, d, o, o1);
        ShiftedPart(p, q, o, end, k, o, o1);
        RelocE(p, q, d, e, d, o, o1, k, o', o1');
        HasShifted(p, q, o, end, k, o1, o1', MOVE(v, Target(e, d)));
        MakeSimple(q, s, d, x, o', o1', end');
    }
  }
}
