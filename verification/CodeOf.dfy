/** The code of a program piece, by recursion on the piece; this is what a compiler must produce. */
module CodeOf {
  import opened Squirrel
  import opened Bytecode
  import opened Layout

  // A part of something comes before it in the order recursion goes by.

  ghost predicate EInE(e: Expr, e': Expr) { e decreases to e' }
  ghost predicate SInS(s: Stmt, s': Stmt) { s decreases to s' }
  ghost predicate IInS(s: Stmt, i': Items) { s decreases to i' }
  ghost predicate CInS(s: Stmt, c': Cases) { s decreases to c' }
  ghost predicate SInI(i: Items, s': Stmt) { i decreases to s' }
  ghost predicate IInI(i: Items, i': Items) { i decreases to i' }
  ghost predicate IInC(c: Cases, i': Items) { c decreases to i' }
  ghost predicate CInC(c: Cases, c': Cases) { c decreases to c' }

  ghost predicate IsE(p: Prog, n: nat, e: Expr, d: nat, o: int, end: int)
    decreases e, 1
  {
    LaidE(p, PartsE(p, e), n, e, d, o, end)
  }

  ghost function PartsE(p: Prog, e: Expr): (L: ExprMap)
    decreases e, 0
  {
    (n: nat, e': Expr, d: nat, o: int, end: int) => EInE(e, e') && IsE(p, n, e', d, o, end)
  }

  ghost function EMap(p: Prog): (L: ExprMap) {
    (n: nat, e: Expr, d: nat, o: int, end: int) => IsE(p, n, e, d, o, end)
  }

  ghost predicate IsS(p: Prog, s: Stmt, d: nat, x: Ctx, o: int, end: int)
    decreases s, 1
  {
    LaidS(p, PartsS(p, s), s, d, x, o, end)
  }

  ghost function PartsS(p: Prog, s: Stmt): (M: Maps)
    decreases s, 0
  {
    Maps(EMap(p),
         (s': Stmt, d: nat, x: Ctx, o: int, end: int) => SInS(s, s') && IsS(p, s', d, x, o, end),
         (i': Items, d: nat, x: Ctx, o: int, end: int) => IInS(s, i') && IsI(p, i', d, x, o, end),
         (c': Cases, t: nat, d: nat, x: Ctx, o: int, b: int, end: int) => CInS(s, c') && IsC(p, c', t, d, x, o, b, end))
  }

  ghost predicate IsI(p: Prog, items: Items, d: nat, x: Ctx, o: int, end: int)
    decreases items, 1
  {
    LaidI(p, PartsI(p, items), items, d, x, o, end)
  }

  ghost function PartsI(p: Prog, items: Items): (M: Maps)
    decreases items, 0
  {
    Maps(EMap(p),
         (s': Stmt, d: nat, x: Ctx, o: int, end: int) => SInI(items, s') && IsS(p, s', d, x, o, end),
         (i': Items, d: nat, x: Ctx, o: int, end: int) => IInI(items, i') && IsI(p, i', d, x, o, end),
         (c': Cases, t: nat, d: nat, x: Ctx, o: int, b: int, end: int) => false)
  }

  ghost predicate IsC(p: Prog, cases: Cases, t: nat, d: nat, x: Ctx, o: int, b: int, end: int)
    decreases cases, 1
  {
    LaidC(p, PartsC(p, cases), cases, t, d, x, o, b, end)
  }

  ghost function PartsC(p: Prog, cases: Cases): (M: Maps)
    decreases cases, 0
  {
    Maps(EMap(p),
         (s': Stmt, d: nat, x: Ctx, o: int, end: int) => false,
         (i': Items, d: nat, x: Ctx, o: int, end: int) => IInC(cases, i') && IsI(p, i', d, x, o, end),
         (c': Cases, t: nat, d: nat, x: Ctx, o: int, b: int, end: int) => CInC(cases, c')
           && IsC(p, c', t, d, x, o, b, end))
  }

  ghost function CodeMaps(p: Prog): (M: Maps) {
    Maps(EMap(p),
         (s: Stmt, d: nat, x: Ctx, o: int, end: int) => IsS(p, s, d, x, o, end),
         (i: Items, d: nat, x: Ctx, o: int, end: int) => IsI(p, i, d, x, o, end),
         (c: Cases, t: nat, d: nat, x: Ctx, o: int, b: int, end: int) => IsC(p, c, t, d, x, o, b, end))
  }

  // ---------- The maps above are maps of the code ----------

  /** What `L1` says of the parts of `e`, `L2` says too. */
  ghost predicate CoversE(L1: ExprMap, L2: ExprMap, e: Expr) {
    forall n: nat, e', d: nat, o, end {:trigger L1(n, e', d, o, end)} ::
      L1(n, e', d, o, end) && EInE(e, e') ==> L2(n, e', d, o, end)
  }

  lemma LocalOperand(p: Prog, L1: ExprMap, L2: ExprMap, n: nat, e: Expr, e': Expr, t: nat, o: int, end: int)
    requires CoversE(L1, L2, e) && EInE(e, e') && LaidOperand(p, L1, n, e', t, o, end)
    ensures LaidOperand(p, L2, n, e', t, o, end)
  {
    var d: nat, o1 :| d == t + 1 && L1(n, e', d, o, o1) && LaidMove(p, t, Target(e', d), o1, end);
    assert L2(n, e', d, o, o1);
  }

  /** Which code an expression has depends on the code of its parts alone. */
  lemma LocalE(p: Prog, L1: ExprMap, L2: ExprMap, n: nat, e: Expr, d: nat, o: int, end: int)
    requires CoversE(L1, L2, e) && LaidE(p, L1, n, e, d, o, end)
    ensures LaidE(p, L2, n, e, d, o, end)
  {
    match e {
      case Const(_) =>
      case Local(_) =>
      case Un(op, e1) =>
        var o1 :| L1(n, e1, d, o, o1) && UnAt(p, o1, end, op, d, Target(e1, d));
        assert L2(n, e1, d, o, o1);
      case Bin(op, l, r) =>
        var o1, o2 :| L1(n, l, d, o, o1) && L1(n, r, After(l, d), o1, o2)
          && BinAt(p, o2, end, op, d, Target(r, After(l, d)), Target(l, d));
        assert L2(n, l, d, o, o1) && L2(n, r, After(l, d), o1, o2);
      case AndE(l, r) =>
        var o1, o2, o3 :| L1(n, l, d, o, o1) && AndAt(p, o1, o2, d, end, Target(l, d))
          && LaidMove(p, d, Target(l, d), o2, o3) && LaidOperand(p, L1, n, r, d, o3, end);
        LocalOperand(p, L1, L2, n, e, r, d, o3, end);
        assert L2(n, l, d, o, o1);
      case OrE(l, r) =>
        var o1, o2, o3 :| L1(n, l, d, o, o1) && OrAt(p, o1, o2, d, end, Target(l, d))
          && LaidMove(p, d, Target(l, d), o2, o3) && LaidOperand(p, L1, n, r, d, o3, end);
        LocalOperand(p, L1, L2, n, e, r, d, o3, end);
        assert L2(n, l, d, o, o1);
      case Cond(c, a, b) =>
        var o1, o2, o3, o4 :| L1(n, c, d, o, o1) && JzAt(p, o1, o2, Target(c, d), o4)
          && LaidOperand(p, L1, n, a, d, o2, o3) && JmpAt(p, o3, o4, end) && LaidOperand(p, L1, n, b, d, o4, end);
        LocalOperand(p, L1, L2, n, e, a, d, o2, o3);
        LocalOperand(p, L1, L2, n, e, b, d, o4, end);
        assert L2(n, c, d, o, o1);
    }
  }

  lemma UnfoldE(p: Prog, n: nat, e: Expr, d: nat, o: int, end: int)
    ensures IsE(p, n, e, d, o, end) <==> LaidE(p, EMap(p), n, e, d, o, end)
  {
    var L := PartsE(p, e);
    if IsE(p, n, e, d, o, end) {
      LocalE(p, L, EMap(p), n, e, d, o, end);
    }
    if LaidE(p, EMap(p), n, e, d, o, end) {
      LocalE(p, EMap(p), L, n, e, d, o, end);
    }
  }

  /** What `M1` says of statements, blocks and cases that pass `okS`, `okI` and `okC`, `M2` says too. */
  ghost predicate Covers(M1: Maps, M2: Maps, okS: Stmt -> bool, okI: Items -> bool, okC: Cases -> bool) {
    && M1.E == M2.E
    && (forall s, d: nat, x, o, end {:trigger M1.S(s, d, x, o, end)} ::
          okS(s) && M1.S(s, d, x, o, end) ==> M2.S(s, d, x, o, end))
    && (forall i, d: nat, x, o, end {:trigger M1.I(i, d, x, o, end)} ::
          okI(i) && M1.I(i, d, x, o, end) ==> M2.I(i, d, x, o, end))
    && (forall c, t: nat, d: nat, x, o, b, end {:trigger M1.C(c, t, d, x, o, b, end)} ::
          okC(c) && M1.C(c, t, d, x, o, b, end) ==> M2.C(c, t, d, x, o, b, end))
  }

  ghost predicate CoversS(M1: Maps, M2: Maps, s: Stmt) {
    Covers(M1, M2, s' => SInS(s, s'), i' => IInS(s, i'), c' => CInS(s, c'))
  }

  ghost predicate CoversI(M1: Maps, M2: Maps, items: Items) {
    Covers(M1, M2, s' => SInI(items, s'), i' => IInI(items, i'), c' => false)
  }

  ghost predicate CoversC(M1: Maps, M2: Maps, cases: Cases) {
    Covers(M1, M2, s' => false, i' => IInC(cases, i'), c' => CInC(cases, c'))
  }

  lemma LocalS(p: Prog, M1: Maps, M2: Maps, s: Stmt, d: nat, x: Ctx, o: int, end: int)
    requires CoversS(M1, M2, s) && LaidS(p, M1, s, d, x, o, end)
    ensures LaidS(p, M2, s, d, x, o, end)
  {
    match s {
      case If(c, t) =>
        var o1, o2 :| M1.E(d, c, d, o, o1) && JzAt(p, o1, o2, Target(c, d), end) && M1.S(t, d, x, o2, end);
        assert M2.S(t, d, x, o2, end);
      case IfElse(c, t, f) =>
        var o1, o2, o3, o4 :| M1.E(d, c, d, o, o1) && JzAt(p, o1, o2, Target(c, d), o4)
          && M1.S(t, d, x, o2, o3) && JmpAt(p, o3, o4, end) && M1.S(f, d, x, o4, end);
        assert M2.S(t, d, x, o2, o3) && M2.S(f, d, x, o4, end);
      case While(c, b) =>
        var o1, o2, o3 :| M1.E(d, c, d, o, o1) && JzAt(p, o1, o2, Target(c, d), end)
          && M1.S(b, d, InLoop(x, end, o), o2, o3) && JmpAt(p, o3, end, o);
        assert M2.S(b, d, InLoop(x, end, o), o2, o3);
      case DoWhile(b, c) =>
        var o1, o2, o3 :| M1.S(b, d, InLoop(x, end, o1), o, o1)
          && M1.E(d, c, d, o1, o2) && JzAt(p, o2, o3, Target(c, d), end) && JmpAt(p, o3, end, o);
        assert M2.S(b, d, InLoop(x, end, o1), o, o1);
      case For(c, inc, b) =>
        var o1, o2, o3, o4 :| M1.E(d, c, d, o, o1) && JzAt(p, o1, o2, Target(c, d), end)
          && M1.S(b, d, InLoop(x, end, o3), o2, o3) && M1.S(inc, d, x, o3, o4) && JmpAt(p, o4, end, o);
        assert M2.S(b, d, InLoop(x, end, o3), o2, o3) && M2.S(inc, d, x, o3, o4);
      case Switch(e, cases) =>
        var o1, b :| M1.E(d, e, d, o, o1) && M1.C(cases, Target(e, d), After(e, d), InSwitch(x, end), o1, b, end);
        assert M2.C(cases, Target(e, d), After(e, d), InSwitch(x, end), o1, b, end);
      case TryCatch(b, h) =>
        var d1: nat, o1, o2, o3, o4 :| d1 == d + 1 && TrapAt(p, o, o1, d, o4) && M1.S(b, d, InTry(x), o1, o2)
          && LaidPop(p, 1, o2, o3) && JmpAt(p, o3, o4, end) && M1.S(h, d1, x, o4, end);
        assert M2.S(b, d, InTry(x), o1, o2) && M2.S(h, d1, x, o4, end);
      case Block(items) => assert M2.I(items, d, x, o, end);
      case Empty =>
      case Eval(_) =>
      case Assign(_, _) =>
      case Throw(_) =>
      case Return(_) =>
      case ReturnNull =>
      case Break =>
      case Continue =>
    }
  }

  lemma LocalI(p: Prog, M1: Maps, M2: Maps, items: Items, d: nat, x: Ctx, o: int, end: int)
    requires CoversI(M1, M2, items) && LaidI(p, M1, items, d, x, o, end)
    ensures LaidI(p, M2, items, d, x, o, end)
  {
    match items {
      case Done =>
      case Decl(e, rest) =>
        var d1: nat, o1, o2 :| d1 == d + 1 && M1.E(d, e, d, o, o1) && LaidMove(p, d, Target(e, d), o1, o2)
          && M1.I(rest, d1, x, o2, end);
        assert M2.I(rest, d1, x, o2, end);
      case DeclNull(rest) =>
        var d1: nat, o1 :| d1 == d + 1 && NullAt(p, o, o1, d) && M1.I(rest, d1, x, o1, end);
        assert M2.I(rest, d1, x, o1, end);
      case Then(s, rest) =>
        var o1 :| M1.S(s, d, x, o, o1) && M1.I(rest, d, x, o1, end);
        assert M2.S(s, d, x, o, o1) && M2.I(rest, d, x, o1, end);
    }
  }

  lemma LocalC(p: Prog, M1: Maps, M2: Maps, cases: Cases, t: nat, d: nat, x: Ctx, o: int, b: int, end: int)
    requires CoversC(M1, M2, cases) && LaidC(p, M1, cases, t, d, x, o, b, end)
    ensures LaidC(p, M2, cases, t, d, x, o, b, end)
  {
    match cases {
      case Default(body) => assert M2.I(body, d, x, o, end);
      case Case(c, body, rest) =>
        var o1, o2, o3, o4, b1 :| M1.E(d, c, d, o, o1) && BinAt(p, o1, o2, Eq, d, Target(c, d), t)
          && JzAt(p, o2, b, d, o4) && M1.I(body, d, x, b, o3) && LaidSkip(p, rest, o3, o4, b1)
          && M1.C(rest, t, d, x, o4, b1, end);
        assert M2.I(body, d, x, b, o3) && M2.C(rest, t, d, x, o4, b1, end);
    }
  }

  lemma UnfoldsS(p: Prog, s: Stmt, d: nat, x: Ctx, o: int, end: int)
    requires IsS(p, s, d, x, o, end)
    ensures LaidS(p, CodeMaps(p), s, d, x, o, end)
  {
    assert CoversS(PartsS(p, s), CodeMaps(p), s);
    LocalS(p, PartsS(p, s), CodeMaps(p), s, d, x, o, end);
  }

  lemma FoldsS(p: Prog, s: Stmt, d: nat, x: Ctx, o: int, end: int)
    requires LaidS(p, CodeMaps(p), s, d, x, o, end)
    ensures IsS(p, s, d, x, o, end)
  {
    assert CoversS(CodeMaps(p), PartsS(p, s), s);
    LocalS(p, CodeMaps(p), PartsS(p, s), s, d, x, o, end);
  }

  lemma UnfoldS(p: Prog, s: Stmt, d: nat, x: Ctx, o: int, end: int)
    ensures IsS(p, s, d, x, o, end) <==> LaidS(p, CodeMaps(p), s, d, x, o, end)
  {
    if IsS(p, s, d, x, o, end) { UnfoldsS(p, s, d, x, o, end); }
    if LaidS(p, CodeMaps(p), s, d, x, o, end) { FoldsS(p, s, d, x, o, end); }
  }

  lemma UnfoldI(p: Prog, items: Items, d: nat, x: Ctx, o: int, end: int)
    ensures IsI(p, items, d, x, o, end) <==> LaidI(p, CodeMaps(p), items, d, x, o, end)
  {
    if IsI(p, items, d, x, o, end) { LocalI(p, PartsI(p, items), CodeMaps(p), items, d, x, o, end); }
    if LaidI(p, CodeMaps(p), items, d, x, o, end) { LocalI(p, CodeMaps(p), PartsI(p, items), items, d, x, o, end); }
  }

  lemma UnfoldC(p: Prog, cases: Cases, t: nat, d: nat, x: Ctx, o: int, b: int, end: int)
    ensures IsC(p, cases, t, d, x, o, b, end) <==> LaidC(p, CodeMaps(p), cases, t, d, x, o, b, end)
  {
    if IsC(p, cases, t, d, x, o, b, end) { LocalC(p, PartsC(p, cases), CodeMaps(p), cases, t, d, x, o, b, end); }
    if LaidC(p, CodeMaps(p), cases, t, d, x, o, b, end) {
      LocalC(p, CodeMaps(p), PartsC(p, cases), cases, t, d, x, o, b, end);
    }
  }

  /** The maps given by recursion are maps of the code. */
  lemma CodeMapsMap(p: Prog)
    ensures MapsCode(p, CodeMaps(p))
  {
    var M := CodeMaps(p);
    forall n: nat, e, d: nat, o, end | M.E(n, e, d, o, end)
      ensures LaidE(p, M.E, n, e, d, o, end)
    {
      UnfoldE(p, n, e, d, o, end);
    }
    forall s, d: nat, x, o, end | M.S(s, d, x, o, end)
      ensures LaidS(p, M, s, d, x, o, end)
    {
      UnfoldS(p, s, d, x, o, end);
    }
    forall i, d: nat, x, o, end | M.I(i, d, x, o, end)
      ensures LaidI(p, M, i, d, x, o, end)
    {
      UnfoldI(p, i, d, x, o, end);
    }
    forall c, t: nat, d: nat, x, o, b, end | M.C(c, t, d, x, o, b, end)
      ensures LaidC(p, M, c, t, d, x, o, b, end)
    {
      UnfoldC(p, c, t, d, x, o, b, end);
    }
  }
}
