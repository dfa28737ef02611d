/** Code generation for statements: what each kind of statement leaves in the function state. */
module StmtEmit {
  import opened Squirrel
  import opened Bytecode
  import opened Layout
  import opened CodeOf
  import opened FuncState
  import opened ExprEmit

  // ---------- Jumps that wait ----------

  /** What an instruction becomes once the jumps out of the statement are known to lead where `x` says. */
  ghost predicate FilledAt(i: Instr, j: Instr, pos: int, x: Ctx) {
    match i
    case BreakHole => x.brk.Jump? && j == JMP(x.brk.at - pos - 1)
    case ContinueHole => x.cont.Jump? && j == JMP(x.cont.at - pos - 1)
    case _ => j == i
  }

  /** The program `q` contains the code of `b` from `o` on, its jumps out leading where `x` says. */
  ghost predicate Fills(q: Prog, b: FS, o: nat, x: Ctx) {
    && |b.code| <= |q.code| && b.lits <= q.lits && b.stacksize <= q.stacksize
    && forall i {:trigger q.code[i]} {:trigger b.code[i]} :: o <= i < |b.code| ==> FilledAt(b.code[i], q.code[i], i, x)
  }

  /** From index `n` on, `list` lists the positions of `hole` in the code from `o` on. */
  ghost predicate Listed(code: seq<Instr>, hole: Instr, list: seq<nat>, o: nat, n: nat) {
    && n <= |list|
    && (forall j :: n <= j < |list| ==> o <= list[j] < |code| && code[list[j]] == hole)
    && (forall i :: o <= i < |code| && code[i] == hole ==> exists j :: n <= j < |list| && list[j] == i)
  }

  /** From `a` to `b`: what a statement does to the state, besides adding code. */
  ghost predicate Steady(a: FS, b: FS) {
    && a.code <= b.code && a.lits <= b.lits && a.stacksize <= b.stacksize
    && a.targets == b.targets
    && a.breaktargets == b.breaktargets && a.continuetargets == b.continuetargets && a.traps == b.traps
    && a.breaks <= b.breaks && a.continues <= b.continues
    && (a.breaktargets == [] ==> b.breaks == a.breaks) && (a.continuetargets == [] ==> b.continues == a.continues)
    && Listed(b.code, BreakHole, b.breaks, |a.code|, |a.breaks|)
    && Listed(b.code, ContinueHole, b.continues, |a.code|, |a.continues|)
  }

  ghost predicate JumpFits(j: Jump, tries: seq<nat>) {
    if tries == [] then j.NoJump? else j.Jump? && j.tries == tries[|tries| - 1]
  }

  /** The surroundings as the function state has them; where jumps lead is not known yet. */
  ghost predicate Fits(a: FS, x: Ctx) {
    x.tries == a.traps && JumpFits(x.brk, a.breaktargets) && JumpFits(x.cont, a.continuetargets)
  }

  // ---------- Which statements start with the test of a for loop ----------

  predicate CodeFree(s: Stmt) {
    match s
    case Empty => true
    case Eval(e) => e.Local?
    case Block(items) => CodeFreeI(items)
    case Switch(e, cases) => e.Local? && cases.Default? && CodeFreeI(cases.body)
    case _ => false
  }

  predicate CodeFreeI(items: Items) {
    match items case Done => true case Then(s, rest) => CodeFree(s) && CodeFreeI(rest) case _ => false
  }

  /** The first instruction of `s` is the test of a for loop over a variable. */
  predicate TestFirst(s: Stmt) {
    match s
    case For(c, _, _) => c.Local?
    case DoWhile(b, _) => TestFirst(b)
    case Block(items) => TestFirstI(items)
    case Switch(e, cases) => e.Local? && cases.Default? && TestFirstI(cases.body)
    case _ => false
  }

  predicate TestFirstI(items: Items) {
    match items case Then(s, rest) => TestFirst(s) || (CodeFree(s) && TestFirstI(rest)) case _ => false
  }

  // ---------- What the compiler promises ----------

  /** The code of a statement was added; only the first jump of a function may lack its offset. */
  ghost predicate EmitsS(a: FS, b: FS, s: Stmt) {
    && Steady(a, b) && a.names == b.names && (CodeFree(s) <==> |b.code| == |a.code|)
    && (b.blind <==> a.blind || (a.code == [] && TestFirst(s)))
    && forall q, x {:trigger Fills(q, b, |a.code|, x)} :: Fits(a, x) && Fills(q, b, |a.code|, x) ==>
         IsS(q, s, |a.names|, x, |a.code|, |b.code|)
  }

  /** The same for the rest of a block, before its variables go. */
  ghost predicate EmitsI(a: FS, b: FS, items: Items) {
    && Steady(a, b) && a.names <= b.names && (CodeFreeI(items) <==> |b.code| == |a.code|)
    && (b.blind <==> a.blind || (a.code == [] && TestFirstI(items)))
    && forall q, x {:trigger Fills(q, b, |a.code|, x)} :: Fits(a, x) && Fills(q, b, |a.code|, x) ==>
         IsI(q, items, |a.names|, x, |a.code|, |b.code|)
  }

  /** The same for the cases of a switch; `t` holds the tested value and `body` is the address of the first body. */
  ghost predicate EmitsC(a: FS, b: FS, cases: Cases, t: nat, body: int) {
    && Steady(a, b) && a.names == b.names && (cases.Default? && CodeFreeI(cases.body) <==> |b.code| == |a.code|)
    && (b.blind <==> a.blind || (a.code == [] && cases.Default? && TestFirstI(cases.body)))
    && forall q, x {:trigger Fills(q, b, |a.code|, x)} :: Fits(a, x) && Fills(q, b, |a.code|, x) ==>
         IsC(q, cases, t, |a.names|, x, |a.code|, body, |b.code|)
  }

  /** A part of the code, in a program that contains all of it. */
  lemma FillsPart(q: Prog, b: FS, c: FS, o: nat, o': nat, x: Ctx)
    requires Fills(q, b, o, x) && o <= o' && Copies(b, c, o')
    ensures Fills(q, c, o', x)
  {
  }

  /** A part of the code that has no jumps out. */
  lemma FillsAgrees(q: Prog, b: FS, c: FS, o: nat, o': nat, x: Ctx)
    requires Fills(q, b, o, x) && o <= o' && Copies(b, c, o') && Plain(c.code, o')
    ensures Agrees(q, c, o')
  {
    forall i | o' <= i < |c.code|
      ensures q.code[i] == c.code[i]
    {
      assert FilledAt(b.code[i], q.code[i], i, x);
    }
  }

  // ---------- Resolving the jumps out of a loop or switch ----------

  lemma {:induction false} FixAllAt(code: seq<Instr>, list: seq<nat>, n: nat, to: int)
    requires forall j :: n <= j < |list| ==> list[j] < |code|
    ensures forall j :: n <= j < |list| ==> FixAll(code, list, n, to)[list[j]] == JMP(to - list[j] - 1)
    ensures forall i :: 0 <= i < |code| && (forall j :: n <= j < |list| ==> list[j] != i) ==>
      FixAll(code, list, n, to)[i] == code[i]
    decreases |list|
  {
    if |list| > n {
      var pos, rest := list[|list| - 1], list[..|list| - 1];
      var code' := code[pos := JMP(to - pos - 1)];
      FixAllAt(code', rest, n, to);
      var r := FixAll(code', rest, n, to);
      forall j | n <= j < |list|
        ensures r[list[j]] == JMP(to - list[j] - 1)
      {
        if j < |rest| {
          assert rest[j] == list[j];
        } else if forall k :: n <= k < |rest| ==> rest[k] != pos {
          assert r[pos] == code'[pos];
        } else {
          var k :| n <= k < |rest| && rest[k] == pos;
          assert r[rest[k]] == JMP(to - pos - 1);
        }
      }
      forall i | 0 <= i < |code| && (forall j :: n <= j < |list| ==> list[j] != i)
        ensures r[i] == code[i]
      {
        assert list[|list| - 1] != i;
        assert forall j :: n <= j < |rest| ==> rest[j] == list[j];
      }
    }
  }

  /** Exactly the holes from `o` on are filled. */
  lemma FixesHoles(code: seq<Instr>, hole: Instr, list: seq<nat>, o: nat, n: nat, to: int)
    requires Listed(code, hole, list, o, n)
    ensures forall i :: o <= i < |code| ==>
      FixAll(code, list, n, to)[i] == if code[i] == hole then JMP(to - i - 1) else code[i]
    ensures forall i :: 0 <= i < o && i < |code| ==> FixAll(code, list, n, to)[i] == code[i]
  {
    FixAllAt(code, list, n, to);
    forall i | o <= i < |code|
      ensures FixAll(code, list, n, to)[i] == if code[i] == hole then JMP(to - i - 1) else code[i]
    {
      if code[i] == hole {
        var j :| n <= j < |list| && list[j] == i;
        assert FixAll(code, list, n, to)[list[j]] == JMP(to - list[j] - 1);
      }
    }
  }

  /** The holes of `code` from `o` on are those of `c1` from `o1` on and those of `c2` from `o2` on. */
  ghost predicate HolesFrom(code: seq<Instr>, o: nat, c1: seq<Instr>, o1: nat, c2: seq<Instr>, o2: nat, hole: Instr) {
    && |c1| <= |code| && |c2| <= |code| && o <= o1 && o <= o2
    && forall i {:trigger code[i]} :: o <= i < |code| ==>
         (code[i] == hole <==> (o1 <= i < |c1| && c1[i] == hole) || (o2 <= i < |c2| && c2[i] == hole))
  }

  lemma ListedJoin(code: seq<Instr>, o: nat, c1: seq<Instr>, o1: nat, l1: seq<nat>, c2: seq<Instr>, o2: nat,
      l2: seq<nat>, hole: Instr, n: nat)
    requires Listed(c1, hole, l1, o1, n) && Listed(c2, hole, l2, o2, |l1|) && l1 <= l2
    requires HolesFrom(code, o, c1, o1, c2, o2, hole)
    ensures Listed(code, hole, l2, o, n)
  {
    forall j | n <= j < |l2|
      ensures o <= l2[j] < |code| && code[l2[j]] == hole
    {
      assert j < |l1| ==> l2[j] == l1[j];
    }
    forall i | o <= i < |code| && code[i] == hole
      ensures exists j :: n <= j < |l2| && l2[j] == i
    {
      if o1 <= i < |c1| && c1[i] == hole {
        var j :| n <= j < |l1| && l1[j] == i;
        assert l2[j] == i;
      } else {
        var j :| |l1| <= j < |l2| && l2[j] == i;
      }
    }
  }

  /** One part with jumps out, among code that has none. */
  /** Code with more behind it in which nothing waits. */
  lemma ListedLonger(code: seq<Instr>, c1: seq<Instr>, o: nat, l: seq<nat>, hole: Instr, n: nat)
    requires Listed(c1, hole, l, o, n) && c1 <= code && o <= |c1|
    requires Plain(code, |c1|) && (hole == BreakHole || hole == ContinueHole)
    ensures Listed(code, hole, l, o, n)
  {
    ListedPart(code, o, c1, o, l, hole, n);
  }

  lemma ListedPart(code: seq<Instr>, o: nat, c1: seq<Instr>, o1: nat, l: seq<nat>, hole: Instr, n: nat)
    requires Listed(c1, hole, l, o1, n) && |c1| <= |code| && o <= o1
    requires forall i {:trigger code[i]} :: o <= i < |code| ==> (code[i] == hole <==> (o1 <= i < |c1| && c1[i] == hole))
    ensures Listed(code, hole, l, o, n)
  {
    forall i | o <= i < |code| && code[i] == hole
      ensures exists j :: n <= j < |l| && l[j] == i
    {
      assert c1[i] == hole;
    }
  }

  lemma ListedNone(code: seq<Instr>, o: nat, l: seq<nat>, hole: Instr)
    requires forall i :: o <= i < |code| ==> code[i] != hole
    ensures Listed(code, hole, l, o, |l|)
  {
  }

  // ---------- Code of the parts makes code of the whole ----------

  lemma MakeSimple(q: Prog, s: Stmt, d: nat, x: Ctx, o: int, o1: int, end: int)
    requires (s.Eval? || s.Assign? || s.Throw?) && IsE(q, d, s.e, d, o, o1)
    requires s.Eval? ==> o1 == end
    requires s.Assign? ==> s.pos < d && MoveAt(q, o1, end, s.pos, Target(s.e, d))
    requires s.Throw? ==> ThrowAt(q, o1, end, Target(s.e, d))
    ensures IsS(q, s, d, x, o, end)
  {
    assert CodeMaps(q).E(d, s.e, d, o, o1);
    UnfoldS(q, s, d, x, o, end);
  }

  lemma MakeIf(q: Prog, s: Stmt, d: nat, x: Ctx, o: int, o1: int, o2: int, end: int)
    requires s.If? && IsE(q, d, s.c, d, o, o1) && JzAt(q, o1, o2, Target(s.c, d), end) && IsS(q, s.thn, d, x, o2, end)
    ensures IsS(q, s, d, x, o, end)
  {
    var M := CodeMaps(q);
    assert M.E(d, s.c, d, o, o1) && M.S(s.thn, d, x, o2, end);
    UnfoldS(q, s, d, x, o, end);
  }

  lemma MakeIfElse(q: Prog, s: Stmt, d: nat, x: Ctx, o: int, o1: int, o2: int, o3: int, o4: int, end: int)
    requires s.IfElse? && IsE(q, d, s.c, d, o, o1) && JzAt(q, o1, o2, Target(s.c, d), o4)
    requires IsS(q, s.thn, d, x, o2, o3) && JmpAt(q, o3, o4, end) && IsS(q, s.els, d, x, o4, end)
    ensures IsS(q, s, d, x, o, end)
  {
    var M := CodeMaps(q);
    assert M.E(d, s.c, d, o, o1) && M.S(s.thn, d, x, o2, o3) && M.S(s.els, d, x, o4, end);
    UnfoldS(q, s, d, x, o, end);
  }

  lemma MakeWhile(q: Prog, s: Stmt, d: nat, x: Ctx, o: int, o1: int, o2: int, o3: int, end: int)
    requires s.While? && IsE(q, d, s.c, d, o, o1) && JzAt(q, o1, o2, Target(s.c, d), end)
    requires IsS(q, s.body, d, InLoop(x, end, o), o2, o3) && JmpAt(q, o3, end, o)
    ensures IsS(q, s, d, x, o, end)
  {
    var M := CodeMaps(q);
    assert M.E(d, s.c, d, o, o1) && M.S(s.body, d, InLoop(x, end, o), o2, o3);
    UnfoldS(q, s, d, x, o, end);
  }

  lemma MakeDoWhile(q: Prog, s: Stmt, d: nat, x: Ctx, o: int, o1: int, o2: int, o3: int, end: int)
    requires s.DoWhile? && IsS(q, s.body, d, InLoop(x, end, o1), o, o1) && IsE(q, d, s.c, d, o1, o2)
    requires JzAt(q, o2, o3, Target(s.c, d), end) && JmpAt(q, o3, end, o)
    ensures IsS(q, s, d, x, o, end)
  {
    var M := CodeMaps(q);
    assert M.S(s.body, d, InLoop(x, end, o1), o, o1) && M.E(d, s.c, d, o1, o2);
    UnfoldS(q, s, d, x, o, end);
  }

  lemma MakeFor(q: Prog, s: Stmt, d: nat, x: Ctx, o: int, o1: int, o2: int, o3: int, o4: int, end: int)
    requires s.For? && (s.inc.Empty? || s.inc.Eval? || s.inc.Assign?)
    requires IsE(q, d, s.c, d, o, o1) && JzAt(q, o1, o2, Target(s.c, d), end)
    requires IsS(q, s.body, d, InLoop(x, end, o3), o2, o3) && IsS(q, s.inc, d, x, o3, o4) && JmpAt(q, o4, end, o)
    ensures IsS(q, s, d, x, o, end)
  {
    Layout.ForLaid(q, CodeMaps(q), s, d, x, o, o1, o2, o3, o4, end);
    UnfoldS(q, s, d, x, o, end);
  }

  lemma MakeSwitch(q: Prog, s: Stmt, d: nat, d1: nat, t: nat, x: Ctx, o: int, o1: int, b: int, end: int)
    requires s.Switch? && d1 == After(s.e, d) && t == Target(s.e, d)
    requires IsE(q, d, s.e, d, o, o1) && IsC(q, s.cases, t, d1, InSwitch(x, end), o1, b, end)
    ensures IsS(q, s, d, x, o, end)
  {
    var M := CodeMaps(q);
    assert M.E(d, s.e, d, o, o1) && M.C(s.cases, t, d1, InSwitch(x, end), o1, b, end);
    UnfoldS(q, s, d, x, o, end);
  }

  lemma MakeTry(q: Prog, s: Stmt, d: nat, d1: nat, x: Ctx, o: int, o1: int, o2: int, o3: int, o4: int, end: int)
    requires s.TryCatch? && d < q.stacksize && d1 == d + 1 && TrapAt(q, o, o1, d, o4)
      && IsS(q, s.body, d, InTry(x), o1, o2)
    requires LaidPop(q, 1, o2, o3) && JmpAt(q, o3, o4, end) && IsS(q, s.handler, d1, x, o4, end)
    ensures IsS(q, s, d, x, o, end)
  {
    Layout.TryLaid(q, CodeMaps(q), s, d, d1, x, o, o1, o2, o3, o4, end);
    UnfoldS(q, s, d, x, o, end);
  }

  lemma MakeReturn(q: Prog, s: Stmt, d: nat, x: Ctx, o: int, o1: int, o2: int, end: int)
    requires s.Return? && IsE(q, d, s.e, d, o, o1) && LaidPop(q, x.tries, o1, o2)
      && RetAt(q, o2, end, true, Target(s.e, d))
    ensures IsS(q, s, d, x, o, end)
  {
    assert CodeMaps(q).E(d, s.e, d, o, o1);
    UnfoldS(q, s, d, x, o, end);
  }

  lemma MakeJump(q: Prog, s: Stmt, j: Jump, d: nat, x: Ctx, o: int, o1: int, end: int)
    requires (s.Break? && j == x.brk) || (s.Continue? && j == x.cont)
    requires j.Jump? && LaidPop(q, j.tries, o, o1) && JmpAt(q, o1, end, j.at)
    ensures IsS(q, s, d, x, o, end)
  {
    UnfoldS(q, s, d, x, o, end);
  }

  lemma MakeDecl(q: Prog, items: Items, d: nat, d1: nat, x: Ctx, o: int, o1: int, o2: int, end: int)
    requires items.Decl? && d < q.stacksize && d1 == d + 1 && IsE(q, d, items.e, d, o, o1)
    requires LaidMove(q, d, Target(items.e, d), o1, o2) && IsI(q, items.rest, d1, x, o2, end)
    ensures IsI(q, items, d, x, o, end)
  {
    var M := CodeMaps(q);
    assert M.E(d, items.e, d, o, o1) && M.I(items.rest, d1, x, o2, end);
    UnfoldI(q, items, d, x, o, end);
  }

  lemma MakeDeclNull(q: Prog, items: Items, d: nat, d1: nat, x: Ctx, o: int, o1: int, end: int)
    requires items.DeclNull? && d < q.stacksize && d1 == d + 1 && NullAt(q, o, o1, d)
      && IsI(q, items.rest, d1, x, o1, end)
    ensures IsI(q, items, d, x, o, end)
  {
    var M := CodeMaps(q);
    assert M.I(items.rest, d1, x, o1, end);
    UnfoldI(q, items, d, x, o, end);
  }

  lemma MakeThen(q: Prog, items: Items, d: nat, x: Ctx, o: int, o1: int, end: int)
    requires items.Then? && IsS(q, items.s, d, x, o, o1) && IsI(q, items.rest, d, x, o1, end)
    ensures IsI(q, items, d, x, o, end)
  {
    var M := CodeMaps(q);
    assert M.S(items.s, d, x, o, o1) && M.I(items.rest, d, x, o1, end);
    UnfoldI(q, items, d, x, o, end);
  }

  lemma MakeCase(q: Prog, cases: Cases, t: nat, d: nat, x: Ctx, o: int, o1: int, o2: int, o3: int, o4: int, b: int,
      b1: int, end: int)
    requires cases.Case? && d < q.stacksize && IsE(q, d, cases.c, d, o, o1)
      && BinAt(q, o1, o2, Eq, d, Target(cases.c, d), t)
    requires JzAt(q, o2, b, d, o4) && IsI(q, cases.body, d, x, b, o3) && LaidSkip(q, cases.rest, o3, o4, b1)
    requires IsC(q, cases.rest, t, d, x, o4, b1, end)
    ensures IsC(q, cases, t, d, x, o, b, end)
  {
    var M := CodeMaps(q);
    assert M.E(d, cases.c, d, o, o1) && M.I(cases.body, d, x, b, o3) && M.C(cases.rest, t, d, x, o4, b1, end);
    UnfoldC(q, cases, t, d, x, o, b, end);
  }
}
