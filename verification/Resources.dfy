/**
  What compiling a function uses up: stack positions and literals. The first part follows the
  compiler through a function; the second says in terms of the function alone when it has room.
 */
module Resources {
  import opened Squirrel
  import opened Layout
  import opened FuncState

  /** Constants that do not fit in an instruction. */
  predicate IsLiteral(v: Value) {
    v.Text? || (v.Integer? && !(INT_MIN < v.n <= INT_MAX))
  }

  function ChargeE(e: Expr, d: nat, k: Budget): (r: Budget)
    ensures k.Exceeded? ==> r.Exceeded?
  {
    match e
    case Const(v) => if IsLiteral(v) then Literal(v, Slot(d, k)) else Slot(d, k)
    case Local(_) => k
    case Un(_, e1) => Slot(d, ChargeE(e1, d, k))
    case Bin(_, l, r) => Slot(d, ChargeE(r, After(l, d), ChargeE(l, d, k)))
    case AndE(l, r) => ChargeE(r, d + 1, Slot(d, ChargeE(l, d, k)))
    case OrE(l, r) => ChargeE(r, d + 1, Slot(d, ChargeE(l, d, k)))
    case Cond(c, a, b) => ChargeE(b, d + 1, ChargeE(a, d + 1, Slot(d, ChargeE(c, d, k))))
  }

  /** `brk` and `cont` say whether a break and a continue have something to leave. */
  function ChargeS(s: Stmt, d: nat, brk: bool, cont: bool, k: Budget): (r: Budget)
    ensures k.Exceeded? ==> r.Exceeded?
  {
    match s
    case Empty => k
    case Eval(e) => ChargeE(e, d, k)
    case Assign(_, e) => ChargeE(e, d, k)
    case If(c, t) => ChargeS(t, d, brk, cont, ChargeE(c, d, k))
    case IfElse(c, t, f) => ChargeS(f, d, brk, cont, ChargeS(t, d, brk, cont, ChargeE(c, d, k)))
    case While(c, b) => ChargeS(b, d, true, true, ChargeE(c, d, k))
    case DoWhile(b, c) => ChargeE(c, d, ChargeS(b, d, true, true, k))
    case For(c, inc, b) => ChargeS(b, d, true, true, ChargeS(inc, d, brk, cont, ChargeE(c, d, k)))
    case Switch(e, cases) => ChargeC(cases, After(e, d), cont, ChargeE(e, d, k))
    case TryCatch(b, h) => ChargeS(h, d + 1, brk, cont, Variable(d, ChargeS(b, d, brk, cont, k)))
    case Throw(e) => ChargeE(e, d, k)
    case Return(e) => ChargeE(e, d, k)
    case ReturnNull => k
    case Break => if brk then k else Exceeded
    case Continue => if cont then k else Exceeded
    case Block(items) => ChargeI(items, d, brk, cont, k)
  }

  function ChargeI(items: Items, d: nat, brk: bool, cont: bool, k: Budget): (r: Budget)
    ensures k.Exceeded? ==> r.Exceeded?
  {
    match items
    case Done => k
    case Decl(e, rest) => ChargeI(rest, d + 1, brk, cont, Slot(d, ChargeE(e, d, k)))
    case DeclNull(rest) => ChargeI(rest, d + 1, brk, cont, Slot(d, k))
    case Then(s, rest) => ChargeI(rest, d, brk, cont, ChargeS(s, d, brk, cont, k))
  }

  /** The test of a case has its result in the place of a temporary value, or in one of its own. */
  function ChargeT(c: Expr, d: nat, k: Budget): (r: Budget)
    ensures k.Exceeded? ==> r.Exceeded?
  {
    if c.Local? then Slot(d, ChargeE(c, d, k)) else ChargeE(c, d, k)
  }

  function ChargeC(cases: Cases, d: nat, cont: bool, k: Budget): (r: Budget)
    ensures k.Exceeded? ==> r.Exceeded?
  {
    match cases
    case Default(body) => ChargeI(body, d, true, cont, k)
    case Case(c, body, rest) => ChargeC(rest, d, cont, ChargeI(body, d, true, cont, ChargeT(c, d, k)))
  }

  // ---------- Positions, literals and jumps of a function ----------

  /** The most positions in use while an expression is compiled that starts with `d` of them. */
  function PeakE(e: Expr, d: nat): (r: nat)
    ensures r >= After(e, d)
  {
    match e
    case Const(_) => d + 1
    case Local(_) => d
    case Un(_, e1) => AtLeast(PeakE(e1, d), d + 1)
    case Bin(_, l, r) => AtLeast(AtLeast(PeakE(l, d), PeakE(r, After(l, d))), d + 1)
    case AndE(l, r) => AtLeast(AtLeast(PeakE(l, d), d + 1), PeakE(r, d + 1))
    case OrE(l, r) => AtLeast(AtLeast(PeakE(l, d), d + 1), PeakE(r, d + 1))
    case Cond(c, a, b) => AtLeast(AtLeast(AtLeast(PeakE(c, d), d + 1), PeakE(a, d + 1)), PeakE(b, d + 1))
  }

  function PeakS(s: Stmt, d: nat): (r: nat)
    ensures r >= d
  {
    match s
    case Empty => d
    case Eval(e) => PeakE(e, d)
    case Assign(_, e) => PeakE(e, d)
    case If(c, t) => AtLeast(PeakE(c, d), PeakS(t, d))
    case IfElse(c, t, f) => AtLeast(AtLeast(PeakE(c, d), PeakS(t, d)), PeakS(f, d))
    case While(c, b) => AtLeast(PeakE(c, d), PeakS(b, d))
    case DoWhile(b, c) => AtLeast(PeakS(b, d), PeakE(c, d))
    case For(c, inc, b) => AtLeast(AtLeast(PeakE(c, d), PeakS(inc, d)), PeakS(b, d))
    case Switch(e, cases) => AtLeast(PeakE(e, d), PeakC(cases, After(e, d)))
    case TryCatch(b, h) => AtLeast(AtLeast(PeakS(b, d), d + 1), PeakS(h, d + 1))
    case Throw(e) => PeakE(e, d)
    case Return(e) => PeakE(e, d)
    case ReturnNull => d
    case Break => d
    case Continue => d
    case Block(items) => PeakI(items, d)
  }

  function PeakI(items: Items, d: nat): (r: nat)
    ensures r >= d
  {
    match items
    case Done => d
    case Decl(e, rest) => AtLeast(AtLeast(PeakE(e, d), d + 1), PeakI(rest, d + 1))
    case DeclNull(rest) => AtLeast(d + 1, PeakI(rest, d + 1))
    case Then(s, rest) => AtLeast(PeakS(s, d), PeakI(rest, d))
  }

  function PeakC(cases: Cases, d: nat): (r: nat)
    ensures r >= d
  {
    match cases
    case Default(body) => PeakI(body, d)
    case Case(c, body, rest) => AtLeast(AtLeast(AtLeast(PeakE(c, d), d + 1), PeakI(body, d)), PeakC(rest, d))
  }

  /** Temporaries up to position `peak` are given out: there are few, or as many were in use before. */
  predicate Room(peak: nat, high: nat) {
    peak <= MAX_FUNC_STACKSIZE + 1 || peak <= high
  }

  /**
    There is room for every temporary of a statement that starts with `d` positions in use, when up
    to `high` of them were in use before. Named variables always have room, and make some.
   */
  predicate RoomS(s: Stmt, d: nat, high: nat) {
    match s
    case Empty => true
    case Eval(e) => Room(PeakE(e, d), high)
    case Assign(_, e) => Room(PeakE(e, d), high)
    case If(c, t) => Room(PeakE(c, d), high) && RoomS(t, d, AtLeast(high, PeakE(c, d)))
    case IfElse(c, t, f) =>
      && Room(PeakE(c, d), high) && RoomS(t, d, AtLeast(high, PeakE(c, d)))
      && RoomS(f, d, AtLeast(high, AtLeast(PeakE(c, d), PeakS(t, d))))
    case While(c, b) => Room(PeakE(c, d), high) && RoomS(b, d, AtLeast(high, PeakE(c, d)))
    case DoWhile(b, c) => RoomS(b, d, high) && Room(PeakE(c, d), AtLeast(high, PeakS(b, d)))
    case For(c, inc, b) =>
      && Room(PeakE(c, d), high) && RoomS(inc, d, AtLeast(high, PeakE(c, d)))
      && RoomS(b, d, AtLeast(high, AtLeast(PeakE(c, d), PeakS(inc, d))))
    case Switch(e, cases) => Room(PeakE(e, d), high) && RoomC(cases, After(e, d), AtLeast(high, PeakE(e, d)))
    case TryCatch(b, h) => RoomS(b, d, high) && RoomS(h, d + 1, AtLeast(high, AtLeast(PeakS(b, d), d + 1)))
    case Throw(e) => Room(PeakE(e, d), high)
    case Return(e) => Room(PeakE(e, d), high)
    case ReturnNull => true
    case Break => true
    case Continue => true
    case Block(items) => RoomI(items, d, high)
  }

  predicate RoomI(items: Items, d: nat, high: nat) {
    match items
    case Done => true
    case Decl(e, rest) =>
      var peak := AtLeast(PeakE(e, d), d + 1);
      Room(peak, high) && RoomI(rest, d + 1, AtLeast(high, peak))
    case DeclNull(rest) => Room(d + 1, high) && RoomI(rest, d + 1, AtLeast(high, d + 1))
    case Then(s, rest) => RoomS(s, d, high) && RoomI(rest, d, AtLeast(high, PeakS(s, d)))
  }

  predicate RoomC(cases: Cases, d: nat, high: nat) {
    match cases
    case Default(body) => RoomI(body, d, high)
    case Case(c, body, rest) =>
      var peak := AtLeast(PeakE(c, d), d + 1);
      && Room(peak, high) && RoomI(body, d, AtLeast(high, peak))
      && RoomC(rest, d, AtLeast(high, AtLeast(peak, PeakI(body, d))))
  }

  /** Every break is in a loop or a switch, every continue in a loop. */
  predicate JumpsS(s: Stmt, brk: bool, cont: bool) {
    match s
    case If(_, t) => JumpsS(t, brk, cont)
    case IfElse(_, t, f) => JumpsS(t, brk, cont) && JumpsS(f, brk, cont)
    case While(_, b) => JumpsS(b, true, true)
    case DoWhile(b, _) => JumpsS(b, true, true)
    case For(_, inc, b) => JumpsS(inc, brk, cont) && JumpsS(b, true, true)
    case Switch(_, cases) => JumpsC(cases, cont)
    case TryCatch(b, h) => JumpsS(b, brk, cont) && JumpsS(h, brk, cont)
    case Break => brk
    case Continue => cont
    case Block(items) => JumpsI(items, brk, cont)
    case _ => true
  }

  predicate JumpsI(items: Items, brk: bool, cont: bool) {
    match items
    case Done => true
    case Decl(_, rest) => JumpsI(rest, brk, cont)
    case DeclNull(rest) => JumpsI(rest, brk, cont)
    case Then(s, rest) => JumpsS(s, brk, cont) && JumpsI(rest, brk, cont)
  }

  predicate JumpsC(cases: Cases, cont: bool) {
    match cases
    case Default(body) => JumpsI(body, true, cont)
    case Case(_, body, rest) => JumpsI(body, true, cont) && JumpsC(rest, cont)
  }

  /** The literals of an expression, from left to right. */
  function LitsE(e: Expr): (r: seq<Value>) {
    match e
    case Const(v) => if IsLiteral(v) then [v] else []
    case Local(_) => []
    case Un(_, e1) => LitsE(e1)
    case Bin(_, l, r) => LitsE(l) + LitsE(r)
    case AndE(l, r) => LitsE(l) + LitsE(r)
    case OrE(l, r) => LitsE(l) + LitsE(r)
    case Cond(c, a, b) => LitsE(c) + LitsE(a) + LitsE(b)
  }

  function LitsS(s: Stmt): (r: seq<Value>) {
    match s
    case Empty => []
    case Eval(e) => LitsE(e)
    case Assign(_, e) => LitsE(e)
    case If(c, t) => LitsE(c) + LitsS(t)
    case IfElse(c, t, f) => LitsE(c) + LitsS(t) + LitsS(f)
    case While(c, b) => LitsE(c) + LitsS(b)
    case DoWhile(b, c) => LitsS(b) + LitsE(c)
    case For(c, inc, b) => LitsE(c) + LitsS(inc) + LitsS(b)
    case Switch(e, cases) => LitsE(e) + LitsC(cases)
    case TryCatch(b, h) => LitsS(b) + LitsS(h)
    case Throw(e) => LitsE(e)
    case Return(e) => LitsE(e)
    case ReturnNull => []
    case Break => []
    case Continue => []
    case Block(items) => LitsI(items)
  }

  function LitsI(items: Items): (r: seq<Value>) {
    match items
    case Done => []
    case Decl(e, rest) => LitsE(e) + LitsI(rest)
    case DeclNull(rest) => LitsI(rest)
    case Then(s, rest) => LitsS(s) + LitsI(rest)
  }

  function LitsC(cases: Cases): (r: seq<Value>) {
    match cases
    case Default(body) => LitsI(body)
    case Case(c, body, rest) => LitsE(c) + LitsI(body) + LitsC(rest)
  }

  // ---------- When there is room ----------

  /** The literals with more of them: those that are not there yet go to the end. */
  function Collect(lits: seq<Value>, more: seq<Value>): (r: seq<Value>)
    ensures |lits| <= |r|
  {
    if more == [] then lits
    else
      var r, v := Collect(lits, more[..|more| - 1]), more[|more| - 1];
      if v in r then r else r + [v]
  }

  lemma {:induction false} CollectPlus(lits: seq<Value>, a: seq<Value>, b: seq<Value>)
    ensures Collect(lits, a + b) == Collect(Collect(lits, a), b)
    decreases |b|
  {
    if b == [] {
      assert a + b == a;
    } else {
      CollectPlus(lits, a, b[..|b| - 1]);
      assert (a + b)[..|a + b| - 1] == a + b[..|b| - 1];
    }
  }

  ghost predicate Sound(k: Budget) {
    k.Budget? && |k.lits| <= MAX_LITERALS
  }

  /**
    From `k` to `r`: there was room just when `ok` and the literals are not too many; what was taken
    is `peak` and `ls`.
   */
  ghost predicate Takes(k: Budget, ok: bool, peak: nat, ls: seq<Value>, r: Budget)
    requires Sound(k)
  {
    && (r.Budget? <==> ok && |Collect(k.lits, ls)| <= MAX_LITERALS)
    && (r.Budget? ==> r.high == AtLeast(k.high, peak) && r.lits == Collect(k.lits, ls))
  }

  /** One thing after the other. */
  lemma Both(k: Budget, ok1: bool, p1: nat, l1: seq<Value>, r1: Budget, ok2: bool, p2: nat, l2: seq<Value>, r2: Budget,
      p: nat, l: seq<Value>)
    requires Sound(k) && Takes(k, ok1, p1, l1, r1) && p == AtLeast(p1, p2) && l == l1 + l2
    requires if r1.Budget? then Sound(r1) && Takes(r1, ok2, p2, l2, r2) else r2.Exceeded?
    ensures Takes(k, ok1 && ok2, p, l, r2)
  {
    CollectPlus(k.lits, l1, l2);
  }

  lemma RoomBoth(p1: nat, p2: nat, h: nat)
    ensures Room(p1, h) && Room(p2, AtLeast(h, p1)) <==> Room(AtLeast(p1, p2), h)
  {
  }

  lemma SlotTakes(d: nat, k: Budget)
    requires Sound(k) && d <= k.high
    ensures Takes(k, Room(d + 1, k.high), d + 1, [], Slot(d, k))
  {
  }

  lemma VariableTakes(d: nat, k: Budget)
    requires Sound(k)
    ensures Takes(k, true, d + 1, [], Variable(d, k))
  {
  }

  lemma NothingTakes(d: nat, k: Budget)
    requires Sound(k) && d <= k.high
    ensures Takes(k, true, d, [], k) && Takes(k, false, d, [], Exceeded)
  {
  }

  lemma LiteralTakes(v: Value, k: Budget)
    requires Sound(k)
    ensures Takes(k, true, 0, [v], Literal(v, k))
  {
    assert Collect(k.lits, [v][..0]) == k.lits;
  }

  /** Two parts of an expression. */
  lemma BothE(k: Budget, p1: nat, l1: seq<Value>, r1: Budget, p2: nat, l2: seq<Value>, r2: Budget, p: nat,
      l: seq<Value>)
    requires Sound(k) && Takes(k, Room(p1, k.high), p1, l1, r1) && p == AtLeast(p1, p2) && l == l1 + l2
    requires if r1.Budget? then Sound(r1) && Takes(r1, Room(p2, r1.high), p2, l2, r2) else r2.Exceeded?
    ensures Takes(k, Room(p, k.high), p, l, r2)
  {
    RoomBoth(p1, p2, k.high);
    Both(k, Room(p1, k.high), p1, l1, r1, Room(p2, AtLeast(k.high, p1)), p2, l2, r2, p, l);
  }

  /** Part of an expression, and a position for what comes of it. */
  lemma PlusSlot(k: Budget, p1: nat, ls: seq<Value>, r1: Budget, d: nat)
    requires Sound(k) && d <= k.high && Takes(k, Room(p1, k.high), p1, ls, r1)
    ensures Takes(k, Room(AtLeast(p1, d + 1), k.high), AtLeast(p1, d + 1), ls, Slot(d, r1))
  {
    if r1.Budget? { SlotTakes(d, r1); }
    assert ls + [] == ls;
    BothE(k, p1, ls, r1, d + 1, [], Slot(d, r1), AtLeast(p1, d + 1), ls);
  }

  lemma {:induction false} ChargesE(e: Expr, d: nat, k: Budget)
    requires Sound(k) && d <= k.high
    ensures Takes(k, Room(PeakE(e, d), k.high), PeakE(e, d), LitsE(e), ChargeE(e, d, k))
    decreases e, 1
  {
    match e {
      case Const(v) =>
        SlotTakes(d, k);
        if IsLiteral(v) {
          var r1 := Slot(d, k);
          if r1.Budget? { LiteralTakes(v, r1); }
          BothE(k, d + 1, [], r1, 0, [v], Literal(v, r1), d + 1, [v]);
        }
      case Local(_) => NothingTakes(d, k);
      case Un(_, e1) => ThenSlot(e1, d, k, ChargeE(e1, d, k));
      case Bin(_, l, r) => BinCharges(e, l, r, d, k);
      case AndE(l, r) => LogicCharges(e, l, r, d, k);
      case OrE(l, r) => LogicCharges(e, l, r, d, k);
      case Cond(_, _, _) => CondCharges(e, d, k);
    }
  }

  /** An expression, and a position for what comes of it. */
  lemma {:induction false} ThenSlot(e: Expr, d: nat, k: Budget, r: Budget)
    requires Sound(k) && d <= k.high && r == ChargeE(e, d, k)
    ensures Takes(k, Room(AtLeast(PeakE(e, d), d + 1), k.high), AtLeast(PeakE(e, d), d + 1), LitsE(e), Slot(d, r))
    decreases e, 2
  {
    ChargesE(e, d, k);
    PlusSlot(k, PeakE(e, d), LitsE(e), r, d);
  }

  lemma {:induction false} BinCharges(e: Expr, l: Expr, r: Expr, d: nat, k: Budget)
    requires Sound(k) && d <= k.high && e.Bin? && e.l == l && e.r == r
    ensures Takes(k, Room(PeakE(e, d), k.high), PeakE(e, d), LitsE(e), ChargeE(e, d, k))
    decreases e, 0
  {
    var d1, r1 := After(l, d), ChargeE(l, d, k);
    var r2 := ChargeE(r, d1, r1);
    ChargesE(l, d, k);
    if r1.Budget? { ChargesE(r, d1, r1); }
    var p := AtLeast(PeakE(l, d), PeakE(r, d1));
    BothE(k, PeakE(l, d), LitsE(l), r1, PeakE(r, d1), LitsE(r), r2, p, LitsE(e));
    PlusSlot(k, p, LitsE(e), r2, d);
  }

  lemma {:induction false} LogicCharges(e: Expr, l: Expr, r: Expr, d: nat, k: Budget)
    requires Sound(k) && d <= k.high && l < e && r < e
    ensures var p := AtLeast(AtLeast(PeakE(l, d), d + 1), PeakE(r, d + 1));
      Takes(k, Room(p, k.high), p, LitsE(l) + LitsE(r), ChargeE(r, d + 1, Slot(d, ChargeE(l, d, k))))
    decreases e, 0
  {
    ThenSlot(l, d, k, ChargeE(l, d, k));
    var r1 := Slot(d, ChargeE(l, d, k));
    if r1.Budget? { ChargesE(r, d + 1, r1); }
    BothE(k, AtLeast(PeakE(l, d), d + 1), LitsE(l), r1, PeakE(r, d + 1), LitsE(r), ChargeE(r, d + 1, r1),
          AtLeast(AtLeast(PeakE(l, d), d + 1), PeakE(r, d + 1)), LitsE(l) + LitsE(r));
  }

  lemma {:induction false} CondCharges(e: Expr, d: nat, k: Budget)
    requires Sound(k) && d <= k.high && e.Cond?
    ensures Takes(k, Room(PeakE(e, d), k.high), PeakE(e, d), LitsE(e), ChargeE(e, d, k))
    decreases e, 0
  {
    ThenSlot(e.c, d, k, ChargeE(e.c, d, k));
    var r1 := Slot(d, ChargeE(e.c, d, k));
    var r2 := ChargeE(e.a, d + 1, r1);
    var p1 := AtLeast(PeakE(e.c, d), d + 1);
    var p2 := AtLeast(p1, PeakE(e.a, d + 1));
    if r1.Budget? { ChargesE(e.a, d + 1, r1); }
    BothE(k, p1, LitsE(e.c), r1, PeakE(e.a, d + 1), LitsE(e.a), r2, p2, LitsE(e.c) + LitsE(e.a));
    if r2.Budget? { ChargesE(e.b, d + 1, r2); }
    BothE(k, p2, LitsE(e.c) + LitsE(e.a), r2, PeakE(e.b, d + 1), LitsE(e.b), ChargeE(e.b, d + 1, r2),
          PeakE(e, d), LitsE(e));
  }

  // Statements: `ok` is that jumps and temporaries are all right.

  ghost predicate Fine(s: Stmt, d: nat, brk: bool, cont: bool, high: nat) {
    JumpsS(s, brk, cont) && RoomS(s, d, high)
  }

  /** A statement without parts: at most an expression. */
  lemma SimpleCharges(s: Stmt, d: nat, brk: bool, cont: bool, k: Budget)
    requires Sound(k) && d <= k.high
    requires s.Empty? || s.Eval? || s.Assign? || s.Throw? || s.Return? || s.ReturnNull? || s.Break? || s.Continue?
    ensures Takes(k, Fine(s, d, brk, cont, k.high), PeakS(s, d), LitsS(s), ChargeS(s, d, brk, cont, k))
  {
    NothingTakes(d, k);
    if s.Eval? || s.Assign? || s.Throw? || s.Return? { ChargesE(s.e, d, k); }
  }

  lemma {:induction false} ChargesS(s: Stmt, d: nat, brk: bool, cont: bool, k: Budget)
    requires Sound(k) && d <= k.high
    ensures Takes(k, Fine(s, d, brk, cont, k.high), PeakS(s, d), LitsS(s), ChargeS(s, d, brk, cont, k))
    decreases s, 1
  {
    match s {
      case If(c, t) => TwoParts(c, t, d, brk, cont, k);
      case IfElse(_, _, _) => IfElseCharges(s, d, brk, cont, k);
      case While(c, b) => TwoParts(c, b, d, true, true, k);
      case DoWhile(_, _) => DoWhileCharges(s, d, brk, cont, k);
      case For(_, _, _) => ForCharges(s, d, brk, cont, k);
      case Switch(_, _) => SwitchCharges(s, d, brk, cont, k);
      case TryCatch(_, _) => TryCharges(s, d, brk, cont, k);
      case Block(items) => ChargesI(items, d, brk, cont, k);
      case _ => SimpleCharges(s, d, brk, cont, k);
    }
  }

  lemma {:induction false} DoWhileCharges(s: Stmt, d: nat, brk: bool, cont: bool, k: Budget)
    requires Sound(k) && d <= k.high && s.DoWhile?
    ensures Takes(k, Fine(s, d, brk, cont, k.high), PeakS(s, d), LitsS(s), ChargeS(s, d, brk, cont, k))
    decreases s, 0
  {
    var b, c := s.body, s.c;
    ChargesS(b, d, true, true, k);
    var r1 := ChargeS(b, d, true, true, k);
    if r1.Budget? { ChargesE(c, d, r1); }
    Both(k, Fine(b, d, true, true, k.high), PeakS(b, d), LitsS(b), r1, Room(PeakE(c, d), AtLeast(k.high, PeakS(b, d))),
         PeakE(c, d), LitsE(c), ChargeE(c, d, r1), PeakS(s, d), LitsS(s));
  }

  lemma {:induction false} SwitchCharges(s: Stmt, d: nat, brk: bool, cont: bool, k: Budget)
    requires Sound(k) && d <= k.high && s.Switch?
    ensures Takes(k, Fine(s, d, brk, cont, k.high), PeakS(s, d), LitsS(s), ChargeS(s, d, brk, cont, k))
    decreases s, 0
  {
    var e, cases := s.e, s.cases;
    ChargesE(e, d, k);
    var d1, r1 := After(e, d), ChargeE(e, d, k);
    if r1.Budget? { ChargesC(cases, d1, cont, r1); }
    Both(k, Room(PeakE(e, d), k.high), PeakE(e, d), LitsE(e), r1, FineC(cases, d1, cont, AtLeast(k.high, PeakE(e, d))),
         PeakC(cases, d1), LitsC(cases), ChargeC(cases, d1, cont, r1), PeakS(s, d), LitsS(s));
  }

  /** An expression and a statement. */
  lemma {:induction false} TwoParts(c: Expr, t: Stmt, d: nat, brk: bool, cont: bool, k: Budget)
    requires Sound(k) && d <= k.high
    ensures Takes(k, Room(PeakE(c, d), k.high) && Fine(t, d, brk, cont, AtLeast(k.high, PeakE(c, d))),
                  AtLeast(PeakE(c, d), PeakS(t, d)), LitsE(c) + LitsS(t), ChargeS(t, d, brk, cont, ChargeE(c, d, k)))
    decreases t, 2
  {
    ChargesE(c, d, k);
    var r1 := ChargeE(c, d, k);
    if r1.Budget? { ChargesS(t, d, brk, cont, r1); }
    Both(k, Room(PeakE(c, d), k.high), PeakE(c, d), LitsE(c), r1,
         Fine(t, d, brk, cont, AtLeast(k.high, PeakE(c, d))), PeakS(t, d), LitsS(t), ChargeS(t, d, brk, cont, r1),
         AtLeast(PeakE(c, d), PeakS(t, d)), LitsE(c) + LitsS(t));
  }

  lemma {:induction false} IfElseCharges(s: Stmt, d: nat, brk: bool, cont: bool, k: Budget)
    requires Sound(k) && d <= k.high && s.IfElse?
    ensures Takes(k, Fine(s, d, brk, cont, k.high), PeakS(s, d), LitsS(s), ChargeS(s, d, brk, cont, k))
    decreases s, 0
  {
    ThreeParts(s, s.c, s.thn, s.els, d, brk, cont, brk, cont, k);
  }

  lemma {:induction false} ForCharges(s: Stmt, d: nat, brk: bool, cont: bool, k: Budget)
    requires Sound(k) && d <= k.high && s.For?
    ensures Takes(k, Fine(s, d, brk, cont, k.high), PeakS(s, d), LitsS(s), ChargeS(s, d, brk, cont, k))
    decreases s, 0
  {
    ThreeParts(s, s.c, s.inc, s.body, d, brk, cont, true, true, k);
  }

  /** An expression and two statements. */
  lemma {:induction false} ThreeParts(s: Stmt, c: Expr, t: Stmt, u: Stmt, d: nat, brk: bool, cont: bool, brk2: bool,
      cont2: bool,
      k: Budget)
    requires Sound(k) && d <= k.high && t < s && u < s
    ensures var h := AtLeast(k.high, PeakE(c, d));
      var p := AtLeast(PeakE(c, d), PeakS(t, d));
      Takes(k, Room(PeakE(c, d), k.high) && Fine(t, d, brk, cont, h) && Fine(u, d, brk2, cont2, AtLeast(k.high, p)),
            AtLeast(p, PeakS(u, d)), LitsE(c) + LitsS(t) + LitsS(u),
            ChargeS(u, d, brk2, cont2, ChargeS(t, d, brk, cont, ChargeE(c, d, k))))
    decreases s, 0, 0
  {
    var h, p := AtLeast(k.high, PeakE(c, d)), AtLeast(PeakE(c, d), PeakS(t, d));
    var r2 := ChargeS(t, d, brk, cont, ChargeE(c, d, k));
    TwoParts(c, t, d, brk, cont, k);
    if r2.Budget? { ChargesS(u, d, brk2, cont2, r2); }
    Both(k, Room(PeakE(c, d), k.high) && Fine(t, d, brk, cont, h), p, LitsE(c) + LitsS(t), r2,
         Fine(u, d, brk2, cont2, AtLeast(k.high, p)), PeakS(u, d), LitsS(u), ChargeS(u, d, brk2, cont2, r2),
         AtLeast(p, PeakS(u, d)), LitsE(c) + LitsS(t) + LitsS(u));
  }

  lemma {:induction false} TryCharges(s: Stmt, d: nat, brk: bool, cont: bool, k: Budget)
    requires Sound(k) && d <= k.high && s.TryCatch?
    ensures Takes(k, Fine(s, d, brk, cont, k.high), PeakS(s, d), LitsS(s), ChargeS(s, d, brk, cont, k))
    decreases s, 0
  {
    var b, h := s.body, s.handler;
    var r1 := ChargeS(b, d, brk, cont, k);
    var r2 := Variable(d, r1);
    var p := AtLeast(PeakS(b, d), d + 1);
    ChargesS(b, d, brk, cont, k);
    if r1.Budget? { VariableTakes(d, r1); }
    assert LitsS(b) + [] == LitsS(b);
    Both(k, Fine(b, d, brk, cont, k.high), PeakS(b, d), LitsS(b), r1, true, d + 1, [], r2, p, LitsS(b));
    if r2.Budget? { ChargesS(h, d + 1, brk, cont, r2); }
    Both(k, Fine(b, d, brk, cont, k.high), p, LitsS(b), r2, Fine(h, d + 1, brk, cont, AtLeast(k.high, p)),
        PeakS(h, d + 1),
         LitsS(h), ChargeS(h, d + 1, brk, cont, r2), PeakS(s, d), LitsS(s));
  }

  ghost predicate FineI(items: Items, d: nat, brk: bool, cont: bool, high: nat) {
    JumpsI(items, brk, cont) && RoomI(items, d, high)
  }

  lemma {:induction false} ChargesI(items: Items, d: nat, brk: bool, cont: bool, k: Budget)
    requires Sound(k) && d <= k.high
    ensures Takes(k, FineI(items, d, brk, cont, k.high), PeakI(items, d), LitsI(items), ChargeI(items, d, brk, cont, k))
    decreases items, 0
  {
    match items {
      case Done => NothingTakes(d, k);
      case Decl(_, _) => DeclCharges(items, d, brk, cont, k);
      case DeclNull(_) => DeclNullCharges(items, d, brk, cont, k);
      case Then(_, _) => ThenCharges(items, d, brk, cont, k);
    }
  }

  lemma {:induction false} DeclCharges(items: Items, d: nat, brk: bool, cont: bool, k: Budget)
    requires Sound(k) && d <= k.high && items.Decl?
    ensures Takes(k, FineI(items, d, brk, cont, k.high), PeakI(items, d), LitsI(items), ChargeI(items, d, brk, cont, k))
    decreases items, 0, 0
  {
    var e, rest := items.e, items.rest;
    var p, r1 := AtLeast(PeakE(e, d), d + 1), Slot(d, ChargeE(e, d, k));
    ThenSlot(e, d, k, ChargeE(e, d, k));
    if r1.Budget? { ChargesI(rest, d + 1, brk, cont, r1); }
    Both(k, Room(p, k.high), p, LitsE(e), r1, FineI(rest, d + 1, brk, cont, AtLeast(k.high, p)), PeakI(rest, d + 1),
         LitsI(rest), ChargeI(rest, d + 1, brk, cont, r1), PeakI(items, d), LitsI(items));
  }

  lemma {:induction false} DeclNullCharges(items: Items, d: nat, brk: bool, cont: bool, k: Budget)
    requires Sound(k) && d <= k.high && items.DeclNull?
    ensures Takes(k, FineI(items, d, brk, cont, k.high), PeakI(items, d), LitsI(items), ChargeI(items, d, brk, cont, k))
    decreases items, 0, 0
  {
    var rest, r1 := items.rest, Slot(d, k);
    SlotTakes(d, k);
    if r1.Budget? { ChargesI(rest, d + 1, brk, cont, r1); }
    assert [] + LitsI(rest) == LitsI(rest);
    Both(k, Room(d + 1, k.high), d + 1, [], r1, FineI(rest, d + 1, brk, cont, AtLeast(k.high, d + 1)),
         PeakI(rest, d + 1), LitsI(rest), ChargeI(rest, d + 1, brk, cont, r1), PeakI(items, d), LitsI(items));
  }

  lemma {:induction false} ThenCharges(items: Items, d: nat, brk: bool, cont: bool, k: Budget)
    requires Sound(k) && d <= k.high && items.Then?
    ensures Takes(k, FineI(items, d, brk, cont, k.high), PeakI(items, d), LitsI(items), ChargeI(items, d, brk, cont, k))
    decreases items, 0, 0
  {
    var s, rest := items.s, items.rest;
    var r1 := ChargeS(s, d, brk, cont, k);
    ChargesS(s, d, brk, cont, k);
    if r1.Budget? { ChargesI(rest, d, brk, cont, r1); }
    Both(k, Fine(s, d, brk, cont, k.high), PeakS(s, d), LitsS(s), r1,
         FineI(rest, d, brk, cont, AtLeast(k.high, PeakS(s, d))), PeakI(rest, d), LitsI(rest),
         ChargeI(rest, d, brk, cont, r1), PeakI(items, d), LitsI(items));
  }

  ghost predicate FineC(cases: Cases, d: nat, cont: bool, high: nat) {
    JumpsC(cases, cont) && RoomC(cases, d, high)
  }

  lemma {:induction false} TestCharges(c: Expr, d: nat, k: Budget)
    requires Sound(k) && d <= k.high
    ensures var p := AtLeast(PeakE(c, d), d + 1); Takes(k, Room(p, k.high), p, LitsE(c), ChargeT(c, d, k))
  {
    if c.Local? { ThenSlot(c, d, k, ChargeE(c, d, k)); } else { ChargesE(c, d, k); }
  }

  /** The test and the body of a case. */
  lemma {:induction false} CaseCharges(c: Expr, body: Items, d: nat, cont: bool, k: Budget)
    requires Sound(k) && d <= k.high
    ensures var p := AtLeast(PeakE(c, d), d + 1);
      Takes(k, Room(p, k.high) && FineI(body, d, true, cont, AtLeast(k.high, p)), AtLeast(p, PeakI(body, d)),
            LitsE(c) + LitsI(body), ChargeI(body, d, true, cont, ChargeT(c, d, k)))
    decreases body, 1
  {
    var p, r1 := AtLeast(PeakE(c, d), d + 1), ChargeT(c, d, k);
    TestCharges(c, d, k);
    if r1.Budget? { ChargesI(body, d, true, cont, r1); }
    Both(k, Room(p, k.high), p, LitsE(c), r1, FineI(body, d, true, cont, AtLeast(k.high, p)), PeakI(body, d),
         LitsI(body), ChargeI(body, d, true, cont, r1), AtLeast(p, PeakI(body, d)), LitsE(c) + LitsI(body));
  }

  lemma {:induction false} ChargesC(cases: Cases, d: nat, cont: bool, k: Budget)
    requires Sound(k) && d <= k.high
    ensures Takes(k, FineC(cases, d, cont, k.high), PeakC(cases, d), LitsC(cases), ChargeC(cases, d, cont, k))
    decreases cases, 0
  {
    match cases {
      case Default(body) => ChargesI(body, d, true, cont, k);
      case Case(c, body, rest) =>
        var p, r2 := AtLeast(PeakE(c, d), d + 1), ChargeI(body, d, true, cont, ChargeT(c, d, k));
        var p2 := AtLeast(p, PeakI(body, d));
        CaseCharges(c, body, d, cont, k);
        if r2.Budget? { ChargesC(rest, d, cont, r2); }
        Both(k, Room(p, k.high) && FineI(body, d, true, cont, AtLeast(k.high, p)), p2, LitsE(c) + LitsI(body), r2,
             FineC(rest, d, cont, AtLeast(k.high, p2)), PeakC(rest, d), LitsC(rest), ChargeC(rest, d, cont, r2),
             PeakC(cases, d), LitsC(cases));
    }
  }

  // ---------- Functions ----------

  /** The different ones among some literals. */
  function Different(ls: seq<Value>): (r: set<Value>) {
    set v | v in ls
  }

  /** Collected literals are all different, and are those collected. */
  lemma {:induction false} CollectSet(ls: seq<Value>)
    ensures Different(Collect([], ls)) == Different(ls) && |Collect([], ls)| == |Different(ls)|
    decreases |ls|
  {
    if ls != [] {
      var init, v := ls[..|ls| - 1], ls[|ls| - 1];
      CollectSet(init);
      var r := Collect([], init);
      assert ls == init + [v];
      assert Different(ls) == Different(init) + {v};
      assert Different(r + [v]) == Different(r) + {v};
      assert v in r <==> v in Different(r);
    }
  }

  /**
    What the compiler accepts as the body of a function of `params` parameters: jumps are where they
    have something to leave, there is room for the temporaries, and the literals are not too many.
   */
  predicate Accepted(s: Stmt, params: nat) {
    JumpsS(s, false, false) && RoomS(s, params, params) && |Different(LitsS(s))| <= MAX_LITERALS
  }

  lemma AcceptedWhen(s: Stmt, params: nat)
    ensures ChargeS(s, params, false, false, Budget(params, [])).Budget? <==> Accepted(s, params)
  {
    CollectSet(LitsS(s));
    ChargesS(s, params, false, false, Budget(params, []));
  }

  /** `1 + (1 + (... + 1))`, with `n` additions: each left operand waits on a position of its own. */
  function Sum(n: nat): (e: Expr) {
    if n == 0 then Const(Integer(1)) else Bin(Add, Const(Integer(1)), Sum(n - 1))
  }

  lemma {:induction false} SumNeeds(n: nat, d: nat)
    ensures PeakE(Sum(n), d) == d + n + 1 && LitsE(Sum(n)) == []
    decreases n
  {
    if n > 0 { SumNeeds(n - 1, d + 1); }
  }

  /** So parameters and positions together are 256 at most. */
  lemma SumAccepted(n: nat, params: nat)
    ensures Accepted(Eval(Sum(n)), params) <==> params + n + 1 <= 256
  {
    SumNeeds(n, params);
    assert LitsS(Eval(Sum(n))) == [] && Different([]) == {};
  }
}
