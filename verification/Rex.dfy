/**
  The regular expression matcher, on node trees as the pattern compiler builds them. A node has a
  chain of nodes behind it; a repetition looks ahead to the node that follows to know when to stop.
 */
module Rex {

  const UNLIMITED := 0xFFFF
  const NULL := -1

  type UShort = n: nat | n <= 0xFFFF

  datatype ClassItem = Single(c: char) | Range(lo: char, hi: char) | Kind(id: char)

  datatype Node =
    | Char(c: char)
    | Dot
    | CClass(id: char)
    | Class(negated: bool, items: seq<ClassItem>)
    | Bol
    | Eol
    | Balanced(open: char, close: char)
    | Greedy(inner: Node, p0: UShort, p1: UShort)
    | Or(left: Nodes, right: Nodes)
    | Expr(list: Nodes)

  datatype Nodes = One(node: Node) | Then(node: Node, rest: Nodes)

  /** The chain that follows, if there is one. */
  datatype Follow = Nothing | Chain(nodes: Nodes)

  /** A text and what the character classes mean. */
  datatype Text = Text(s: string, cclass: (char, char) -> bool)

  function RestOf(n: Nodes): (f: Follow) {
    match n case One(_) => Nothing case Then(_, rest) => Chain(rest)
  }

  // ---------- What a node means ----------

  predicate InClass(t: Text, items: seq<ClassItem>, c: char) {
    exists k :: 0 <= k < |items| && ItemHas(t, items[k], c)
  }

  predicate ItemHas(t: Text, item: ClassItem, c: char) {
    match item case Single(d) => c == d case Range(lo, hi) => lo <= c <= hi case Kind(id) => t.cclass(id, c)
  }

  /** Opening minus closing characters between two positions. */
  function Depth(s: string, open: char, close: char, i: nat, j: nat): (d: int)
    requires i <= j <= |s|
  {
    if i == j then 0
    else Depth(s, open, close, i, j - 1) + if s[j - 1] == close then -1 else if s[j - 1] == open then 1 else 0
  }

  /** From `i`, the first position behind which closing characters outnumber opening ones is `j`. */
  ghost predicate Closes(s: string, open: char, close: char, i: nat, j: nat)
    requires i <= j <= |s|
  {
    Depth(s, open, close, i, j) == -1 && forall m :: i <= m < j ==> Depth(s, open, close, i, m) >= 0
  }

  /** The text from `i` to `j` is one of those the node stands for. */
  ghost predicate Means(t: Text, n: Node, i: nat, j: nat)
    decreases n, 0
  {
    i <= j <= |t.s| &&
    match n
    case Char(c) => j == i + 1 && t.s[i] == c
    case Dot => j == i + 1
    case CClass(id) => j == i + 1 && t.cclass(id, t.s[i])
    case Class(negated, items) => j == i + 1 && InClass(t, items, t.s[i]) != negated
    case Bol => i == j == 0
    case Eol => i == j == |t.s|
    case Balanced(open, close) =>
      i < j && t.s[i] == open && Closes(t.s, open, close, i + 1, j)
    case Greedy(inner, p0, p1) => exists k: nat :: p0 <= k && (p1 == UNLIMITED || k <= p1) && Repeats(t, inner, k, i, j)
    case Or(left, right) => MeansAll(t, left, i, j) || MeansAll(t, right, i, j)
    case Expr(list) => MeansAll(t, list, i, j)
  }

  ghost predicate Repeats(t: Text, n: Node, k: nat, i: nat, j: nat)
    decreases n, 1, k
  {
    if k == 0 then i == j <= |t.s| else exists m: nat :: Repeats(t, n, k - 1, i, m) && Means(t, n, m, j)
  }

  ghost predicate MeansAll(t: Text, n: Nodes, i: nat, j: nat)
    decreases n, 0
  {
    match n
    case One(node) => Means(t, node, i, j)
    case Then(node, rest) => exists m: nat :: Means(t, node, i, m) && MeansAll(t, rest, m, j)
  }

  // ---------- Why matching ends ----------

  function SizeN(n: Node): (k: nat)
    ensures k > 0
    decreases n
  {
    match n
    case Greedy(inner, _, _) => 1 + SizeN(inner)
    case Or(left, right) => 1 + Size(left) + Size(right)
    case Expr(list) => 1 + Size(list)
    case _ => 1
  }

  function Size(n: Nodes): (k: nat)
    ensures k > 0
    decreases n
  {
    match n case One(node) => SizeN(node) case Then(node, rest) => SizeN(node) + Size(rest)
  }

  function SizeF(f: Follow): (k: nat) {
    match f case Nothing => 0 case Chain(n) => Size(n)
  }

  /** Every node a call may still look at: the node, what is behind it, and the chain it is told of. */
  function Weight(n: Nodes, next: Follow): (k: nat) {
    Size(n) + if next == RestOf(n) then 0 else SizeF(next)
  }

  // ---------- What the matcher finds ----------

  predicate Enough(p0: UShort, p1: UShort, count: nat) {
    (p0 == p1 && p0 == count) || (count >= p0 && p1 == UNLIMITED) || (count >= p0 && count <= p1)
  }

  /** Where the closing character is that balances the `cont` characters open at `p`. */
  function FindClose(s: string, open: char, close: char, p: nat, cont: nat): (r: int)
    requires p <= |s|
    ensures r != NULL ==> p < r <= |s|
    decreases |s| - p
  {
    if p == |s| then NULL
    else if s[p] == close then if cont <= 1 then p + 1 else FindClose(s, open, close, p + 1, cont - 1)
    else FindClose(s, open, close, p + 1, if s[p] == open then cont + 1 else cont)
  }

  /** The chain a repetition looks ahead to. */
  function StopAt(n: Nodes, next: Follow): (f: Follow) {
    if n.Then? then Chain(n.rest) else next
  }

  function AfterStop(stopAt: Nodes, next: Follow): (f: Follow) {
    if stopAt.Then? then Chain(stopAt.rest) else if next.Chain?
      && next.nodes.Then? then Chain(next.nodes.rest) else Nothing
  }

  predicate LooksAhead(stopAt: Follow) {
    stopAt.Chain? && !(stopAt.nodes.node.Greedy? && stopAt.nodes.node.p0 == 0)
  }

  /**
    The end of the match that one node has at `str`, if any. Matching always ends: whatever it
    looks at, ahead or inside, is fewer nodes. A match lies in the text and is one the node means.
   */
  function FindNode(t: Text, n: Nodes, str: nat, next: Follow): (r: int)
    requires str <= |t.s|
    ensures r != NULL ==> str <= r <= |t.s| && Means(t, n.node, str, r)
    decreases Weight(n, next), 1, 0
  {
    assert Size(n) == SizeN(n.node) + SizeF(RestOf(n));
    match n.node
    case Greedy(_, _, _) => FindGreedy(t, n, str, next, 0, str)
    case Or(left, right) =>
      var r := FindAlternative(t, left, str);
      if r != NULL then r else FindAlternative(t, right, str)
    case Expr(list) => FindGroup(t, list, str, next)
    case Bol => if str == 0 then str else NULL
    case Eol => if str == |t.s| then str else NULL
    case Dot => if str == |t.s| then NULL else str + 1
    case Class(negated, items) => if str < |t.s| && InClass(t, items, t.s[str]) != negated then str + 1 else NULL
    case CClass(id) => if str < |t.s| && t.cclass(id, t.s[str]) then str + 1 else NULL
    case Balanced(open, close) =>
      if str == |t.s| || t.s[str] != open then NULL
        else CloseFound(t.s, open, close, str + 1, str + 1, 1); FindClose(t.s, open, close, str + 1, 1)
    case Char(c) => if str < |t.s| && t.s[str] == c then str + 1 else NULL
  }

  /** A repetition goes on as long as it can, but stops when what follows would match. */
  function FindGreedy(t: Text, n: Nodes, str: nat, next: Follow, count: nat, good: nat): (r: int)
    requires n.node.Greedy? && str <= good <= |t.s| && count <= 0x10000 && Repeats(t, n.node.inner, count, str, good)
    ensures r != NULL ==> good <= r <= |t.s| && Means(t, n.node, str, r)
    decreases Weight(n, next), 0, 0x10001 - count
  {
    var inner, p0, p1, stopAt := n.node.inner, n.node.p0, n.node.p1, StopAt(n, next);
    assert Size(n) == SizeN(n.node) + SizeF(RestOf(n));
    if !(count == UNLIMITED || count < p1) then Counted(n.node, count, good)
    else
      var s := FindNode(t, One(inner), good, stopAt);
      if s == NULL then Counted(n.node, count, good)
      else
      assert Repeats(t, inner, count + 1, str, s);
      if LooksAhead(stopAt) && FindNode(t, stopAt.nodes, s, AfterStop(stopAt.nodes, next)) != NULL
        && Enough(p0, p1, count + 1)
      then s
      else if s >= |t.s| then Counted(n.node, count + 1, s)
      else FindGreedy(t, n, str, next, count + 1, s)
  }

  function Counted(n: Node, count: nat, good: nat): (r: int)
    requires n.Greedy?
  {
    if Enough(n.p0, n.p1, count) then good else NULL
  }

  /** One alternative of `|`: its nodes one after the other, none of them told what follows. */
  function FindAlternative(t: Text, chain: Nodes, str: nat): (r: int)
    requires str <= |t.s|
    ensures r != NULL ==> str <= r <= |t.s| && MeansAll(t, chain, str, r)
    decreases Size(chain), 2, 0
  {
    var x := FindNode(t, chain, str, Nothing);
    if x == NULL || chain.One? then x else FindAlternative(t, chain.rest, x)
  }

  /** A group: its nodes one after the other, the last told what follows the group. */
  function FindGroup(t: Text, chain: Nodes, str: nat, next: Follow): (r: int)
    requires str <= |t.s|
    ensures r != NULL ==> str <= r <= |t.s| && MeansAll(t, chain, str, r)
    decreases Size(chain) + SizeF(next), 2, 0
  {
    var x := FindNode(t, chain, str, StopAt(chain, next));
    if x == NULL || chain.One? then x else FindGroup(t, chain.rest, x, next)
  }

  lemma {:induction false} CloseFound(s: string, open: char, close: char, i: nat, p: nat, cont: nat)
    requires i <= p <= |s| && cont == 1 + Depth(s, open, close, i, p) && cont > 0
    requires forall m :: i <= m <= p ==> Depth(s, open, close, i, m) >= 0
    ensures var r := FindClose(s, open, close, p, cont); r != NULL ==> Closes(s, open, close, i, r)
    ensures FindClose(s, open, close, p, cont) == NULL ==> forall j :: p <= j <= |s| ==> !Closes(s, open, close, i, j)
    decreases |s| - p
  {
    if p < |s| {
      assert Depth(s, open, close, i, p + 1) == Depth(s, open, close, i, p) + if s[p] == close then -1
        else if s[p] == open then 1 else 0;
      if !(s[p] == close && cont <= 1) {
        CloseFound(s, open, close, i, p + 1,
            if s[p] == close then cont - 1 else if s[p] == open then cont + 1 else cont);
      }
    }
  }

  // ---------- When it finds every match ----------

  /** No repetition and no alternative. */
  predicate Plain(n: Node) {
    match n case Greedy(_, _, _) => false case Or(_, _) => false case Expr(list) => PlainAll(list) case _ => true
  }

  predicate PlainAll(n: Nodes) {
    match n case One(node) => Plain(node) case Then(node, rest) => Plain(node) && PlainAll(rest)
  }

  /** Without repetitions and alternatives there is one match at most, and the matcher finds it. */
  lemma {:induction false} PlainExact(t: Text, n: Nodes, str: nat, next: Follow, j: nat)
    requires Plain(n.node) && str <= |t.s|
    ensures Means(t, n.node, str, j) <==> FindNode(t, n, str, next) == j
    decreases n.node, 0
  {
    match n.node {
      case Expr(list) => PlainExactAll(t, list, str, next, j);
      case Balanced(open, close) =>
        if str < |t.s| && t.s[str] == open && j <= |t.s| {
          CloseFound(t.s, open, close, str + 1, str + 1, 1);
          if str < j && Closes(t.s, open, close, str + 1, j) {
            OneClose(t.s, open, close, str + 1, j, FindClose(t.s, open, close, str + 1, 1));
          }
        }
      case _ =>
    }
  }

  lemma OneClose(s: string, open: char, close: char, i: nat, j: nat, k: int)
    requires i <= j <= |s| && Closes(s, open, close, i, j)
      && (k != NULL ==> i <= k <= |s| && Closes(s, open, close, i, k))
    requires k == NULL ==> forall m :: i <= m <= |s| ==> !Closes(s, open, close, i, m)
    ensures j == k
  {
  }

  lemma {:induction false} PlainExactAll(t: Text, chain: Nodes, str: nat, next: Follow, j: nat)
    requires PlainAll(chain) && str <= |t.s|
    ensures MeansAll(t, chain, str, j) <==> FindGroup(t, chain, str, next) == j
    decreases chain, 1
  {
    var x := FindNode(t, chain, str, StopAt(chain, next));
    match chain {
      case One(node) => PlainExact(t, chain, str, StopAt(chain, next), j);
      case Then(node, rest) =>
        forall m: nat ensures Means(t, node, str, m) <==> x == m { PlainExact(t, chain, str, StopAt(chain, next), m); }
        if x != NULL { PlainExactAll(t, rest, x, next, j); }
    }
  }

  /** The single character at `m` is one the node stands for. */
  ghost predicate MeansOne(t: Text, n: Node, m: nat) {
    Means(t, n, m, m + 1)
  }

  predicate OneChar(n: Node) {
    n.Char? || n.Dot? || n.CClass? || n.Class?
  }

  lemma GreedyStarts(t: Text, n: Nodes, str: nat, next: Follow)
    requires n.node.Greedy? && str <= |t.s|
    ensures Repeats(t, n.node.inner, 0, str, str) && FindNode(t, n, str, next) == FindGreedy(t, n, str, next, 0, str)
  {
  }

  /** One round of a repetition with nothing behind it; `s` is what its node finds. */
  lemma GreedyRound(t: Text, n: Nodes, str: nat, count: nat, good: nat, s: int)
    requires n.node.Greedy? && n.One? && str <= good <= |t.s| && count <= 0x10000
    requires Repeats(t, n.node.inner, count, str, good) && s == FindNode(t, One(n.node.inner), good, Nothing)
    ensures var r := FindGreedy(t, n, str, Nothing, count, good);
      if !(count == UNLIMITED || count < n.node.p1) || s == NULL then r == Counted(n.node, count, good)
      else if s >= |t.s| then r == Counted(n.node, count + 1, s)
      else
        && count < 0x10000 && Repeats(t, n.node.inner, count + 1, str, s)
        && r == FindGreedy(t, n, str, Nothing, count + 1, s)
  {
    if s != NULL { assert Repeats(t, n.node.inner, count + 1, str, s); }
  }

  /** A repetition of single characters with nothing behind it takes the longest run there is, up to 65536 of them. */
  lemma GreedyLongest(t: Text, inner: Node, p0: UShort, p1: UShort, str: nat, j: nat)
    requires OneChar(inner) && str <= |t.s| && j <= str + 0x10000 && Means(t, Greedy(inner, p0, p1), str, j)
    ensures FindNode(t, One(Greedy(inner, p0, p1)), str, Nothing) >= j
  {
    var n := One(Greedy(inner, p0, p1));
    GreedyStarts(t, n, str, Nothing);
    var k := MeansGreedy(t, n.node, str, j);
    RunOfOnes(t, inner, k, str, j);
    GreedyRuns(t, n, str, 0, str, j);
  }

  lemma MeansGreedy(t: Text, n: Node, str: nat, j: nat) returns (k: nat)
    requires n.Greedy? && Means(t, n, str, j)
    ensures n.p0 <= k && (n.p1 == UNLIMITED || k <= n.p1) && Repeats(t, n.inner, k, str, j)
  {
    k :| n.p0 <= k && (n.p1 == UNLIMITED || k <= n.p1) && Repeats(t, n.inner, k, str, j);
  }

  lemma {:induction false} RunOfOnes(t: Text, inner: Node, k: nat, i: nat, j: nat)
    requires OneChar(inner) && Repeats(t, inner, k, i, j)
    ensures j == i + k <= |t.s| && forall m :: i <= m < j ==> MeansOne(t, inner, m)
    decreases k
  {
    if k > 0 {
      var m: nat :| Repeats(t, inner, k - 1, i, m) && Means(t, inner, m, j);
      RunOfOnes(t, inner, k - 1, i, m);
    }
  }

  lemma {:induction false} GreedyRuns(t: Text, n: Nodes, str: nat, count: nat, good: nat, j: nat)
    requires n.node.Greedy? && n.One? && OneChar(n.node.inner) && good == str + count <= j <= |t.s|
      && j <= str + 0x10000
    requires forall m :: str <= m < j ==> MeansOne(t, n.node.inner, m)
    requires Repeats(t, n.node.inner, count, str, good)
    requires n.node.p0 <= j - str && (n.node.p1 == UNLIMITED || j - str <= n.node.p1)
    ensures FindGreedy(t, n, str, Nothing, count, good) >= j
    decreases j - good
  {
    if good < j {
      assert MeansOne(t, n.node.inner, good);
      PlainExact(t, One(n.node.inner), good, Nothing, good + 1);
      GreedyRound(t, n, str, count, good, good + 1);
      if good + 1 < |t.s| { GreedyRuns(t, n, str, count + 1, good + 1, j); }
    } else {
      GreedyGoesOn(t, n, str, count, good);
    }
  }

  lemma {:induction false} GreedyGoesOn(t: Text, n: Nodes, str: nat, count: nat, good: nat)
    requires n.node.Greedy? && OneChar(n.node.inner) && n.One? && str <= good <= |t.s| && count <= 0x10000
    requires Repeats(t, n.node.inner, count, str, good) && Enough(n.node.p0, n.node.p1, count)
    ensures FindGreedy(t, n, str, Nothing, count, good) >= good
    decreases 0x10001 - count
  {
    var s := FindNode(t, One(n.node.inner), good, Nothing);
    GreedyRound(t, n, str, count, good, s);
    if (count == UNLIMITED || count < n.node.p1) && s != NULL && s < |t.s| {
      GreedyGoesOn(t, n, str, count + 1, s);
    }
  }

  /** A repetition of `x` that has come to `good` may have one more, and then enough of them. */
  ghost predicate Ready(t: Text, n: Nodes, str: nat, count: nat, good: nat) {
    && n.node.Greedy? && OneChar(n.node.inner) && str <= good && good + 1 < |t.s| && count < 0x10000
    && Repeats(t, n.node.inner, count, str, good) && Means(t, n.node.inner, good, good + 1)
    && (count == UNLIMITED || count < n.node.p1) && Enough(n.node.p0, n.node.p1, count + 1)
  }

  /** It then stops if `found`, and goes on otherwise. */
  ghost predicate StopsIf(found: bool, t: Text, n: Nodes, str: nat, next: Follow, count: nat, good: nat)
    requires Ready(t, n, str, count, good)
  {
    && Repeats(t, n.node.inner, count + 1, str, good + 1)
    && FindGreedy(t, n, str, next, count, good)
       == if found then good + 1 else FindGreedy(t, n, str, next, count + 1, good + 1)
  }

  /**
    What a repetition looks ahead to, and what that is told of: the node behind it and the chain behind that
    node; without one, the node behind the group and the chain behind it. The last node of a group is told
    of what follows the first node behind the group. An optional repetition is not looked at.
   */
  lemma RepetitionLooks(t: Text, g: Node, b: Node, c: Nodes, x: Node, str: nat, next: Follow, count: nat, good: nat)
    requires Ready(t, One(g), str, count, good) && !(b.Greedy? && b.p0 == 0)
    ensures StopsIf(FindNode(t, Then(b, c), good + 1, Chain(c)) != NULL, t, Then(g, Then(b, c)), str, next, count, good)
    ensures StopsIf(FindNode(t, Then(b, c), good + 1, Chain(c)) != NULL, t, One(g), str, Chain(Then(b, c)), count, good)
    ensures StopsIf(FindNode(t, One(b), good + 1, Nothing) != NULL, t, Then(g, One(b)), str, Nothing, count, good)
    ensures StopsIf(FindNode(t, One(b), good + 1, Nothing) != NULL, t, One(g), str, Chain(One(b)), count, good)
    ensures StopsIf(FindNode(t, One(b), good + 1, Chain(c)) != NULL, t, Then(g, One(b)), str, Chain(Then(x, c)), count,
        good)
    ensures StopsIf(FindNode(t, One(b), good + 1, Nothing) != NULL, t, Then(g, One(b)), str, Chain(One(x)), count, good)
  {
    LooksAt(t, Then(g, Then(b, c)), Then(b, c), Chain(c), str, next, count, good);
    LooksAt(t, One(g), Then(b, c), Chain(c), str, Chain(Then(b, c)), count, good);
    LooksAt(t, Then(g, One(b)), One(b), Nothing, str, Nothing, count, good);
    LooksAt(t, One(g), One(b), Nothing, str, Chain(One(b)), count, good);
    LooksAt(t, Then(g, One(b)), One(b), Chain(c), str, Chain(Then(x, c)), count, good);
    LooksAt(t, Then(g, One(b)), One(b), Nothing, str, Chain(One(x)), count, good);
  }

  /** The repetition at the head of `n` looks at `at`, which is told of `told`. */
  lemma LooksAt(t: Text, n: Nodes, at: Nodes, told: Follow, str: nat, next: Follow, count: nat, good: nat)
    requires Ready(t, n, str, count, good) && StopAt(n, next) == Chain(at) && LooksAhead(Chain(at))
    requires AfterStop(at, next) == told
    ensures StopsIf(FindNode(t, at, good + 1, told) != NULL, t, n, str, next, count, good)
  {
    OneMore(t, n.node.inner, count, str, good);
    PlainExact(t, One(n.node.inner), good, StopAt(n, next), good + 1);
  }

  lemma OneMore(t: Text, inner: Node, count: nat, str: nat, good: nat)
    requires Repeats(t, inner, count, str, good) && Means(t, inner, good, good + 1)
    ensures Repeats(t, inner, count + 1, str, good + 1)
  {
  }

  /** With an optional repetition behind it, or nothing, it goes on. */
  lemma RepetitionGoesOn(t: Text, g: Node, b: Node, c: Nodes, str: nat, next: Follow, count: nat, good: nat)
    requires Ready(t, One(g), str, count, good) && b.Greedy? && b.p0 == 0
    ensures StopsIf(false, t, Then(g, Then(b, c)), str, next, count, good)
    ensures StopsIf(false, t, Then(g, One(b)), str, next, count, good)
    ensures StopsIf(false, t, One(g), str, Nothing, count, good)
  {
    OneMore(t, g.inner, count, str, good);
    forall f: Follow ensures FindNode(t, One(g.inner), good, f) == good + 1 {
      PlainExact(t, One(g.inner), good, f, good + 1);
    }
  }

  /** It does not find every match: in `a*ab` the repetition stops before the first `a`, and `aaab` is missed. */
  lemma LookaheadMisses(cclass: (char, char) -> bool)
    ensures var t := Text("aaab", cclass);
      var list := Then(Greedy(Char('a'), 0, UNLIMITED), Then(Char('a'), One(Char('b'))));
      MeansAll(t, list, 0, 4) && FindGroup(t, list, 0, Nothing) == NULL
        && FindGroup(Text("aab", cclass), list, 0, Nothing) == 3
  {
    var t, u := Text("aaab", cclass), Text("aab", cclass);
    var a := Char('a');
    var rest := Then(a, One(Char('b')));
    var list := Then(Greedy(a, 0, UNLIMITED), rest);
    assert Repeats(t, a, 0, 0, 0);
    assert Means(t, a, 0, 1) && Repeats(t, a, 1, 0, 1);
    assert Means(t, a, 1, 2) && Repeats(t, a, 2, 0, 2);
    assert Means(t, Greedy(a, 0, UNLIMITED), 0, 2);
    assert Means(t, a, 2, 3) && MeansAll(t, One(Char('b')), 3, 4);
    assert MeansAll(t, rest, 2, 4);
    StopsAtFirst(t, list, a);
    assert FindGroup(t, rest, 1, Nothing) == FindGroup(t, One(Char('b')), 2, Nothing) == NULL;
    assert Repeats(u, a, 0, 0, 0);
    StopsAtFirst(u, list, a);
    assert FindGroup(u, rest, 1, Nothing) == FindGroup(u, One(Char('b')), 2, Nothing) == 3;
  }

  lemma StopsAtFirst(t: Text, list: Nodes, a: Node)
    requires a == Char('a') && list == Then(Greedy(a, 0, UNLIMITED), Then(a, One(Char('b')))) && |t.s| > 2
      && t.s[0] == t.s[1] == 'a'
    ensures FindNode(t, list, 0, Chain(list.rest)) == 1
  {
    assert Repeats(t, a, 0, 0, 0);
    assert FindNode(t, One(a), 0, Chain(list.rest)) == 1;
    assert FindNode(t, list.rest, 1, AfterStop(list.rest, Chain(list.rest))) == 2;
    assert FindGreedy(t, list, 0, Chain(list.rest), 0, 0) == 1;
  }

  // ---------- Every match of a whole text ----------

  ghost predicate Starts(t: Text, n: Node, p: nat) {
    exists j: nat :: Means(t, n, p, j)
  }

  ghost predicate StartsAll(t: Text, n: Nodes, p: nat) {
    exists j: nat :: MeansAll(t, n, p, j)
  }

  /** What is to follow: nothing, at `end`; a chain and then more; or another repetition, or more. */
  datatype Cont = Until(end: nat) | After(rest: Nodes, k: Cont) | Again(inner: Node, k: Cont)

  /** What is to follow can match from `p` on. */
  ghost predicate Goes(t: Text, k: Cont, p: nat) {
    match k
    case Until(end) => p == end
    case After(rest, k') => exists e: nat :: MeansAll(t, rest, p, e) && Goes(t, k', e)
    case Again(inner, k') => Starts(t, inner, p) || Goes(t, k', p)
  }

  /**
    Nothing in the text is ambiguous to the matcher: where one more repetition is possible, neither
    what is to follow nor the node it looks ahead to can match, and a repetition takes something;
    where the first branch of an alternative matches, the second and what is to follow do not.
   */
  ghost predicate Clear(t: Text, n: Nodes, next: Follow, k: Cont)
    decreases n.node, 0
  {
    match n.node
    case Greedy(inner, _, _) =>
      && (forall p: nat :: Starts(t, inner, p) ==> !Means(t, inner, p, p) && !Goes(t, k, p))
      && (LooksAhead(StopAt(n, next)) ==>
            forall p: nat :: Starts(t, inner, p) ==> !Starts(t, StopAt(n, next).nodes.node, p))
      && Clear(t, One(inner), StopAt(n, next), Again(inner, k))
    case Or(left, right) =>
      && (forall p: nat :: StartsAll(t, left, p) ==> !Goes(t, After(right, k), p))
      && ClearAlternative(t, left, k) && ClearAlternative(t, right, k)
    case Expr(list) => ClearGroup(t, list, next, k)
    case _ => true
  }

  ghost predicate ClearAlternative(t: Text, chain: Nodes, k: Cont)
    decreases chain, 1
  {
    match chain
    case One(_) => Clear(t, chain, Nothing, k)
    case Then(_, rest) => Clear(t, chain, Nothing, After(rest, k)) && ClearAlternative(t, rest, k)
  }

  ghost predicate ClearGroup(t: Text, chain: Nodes, next: Follow, k: Cont)
    decreases chain, 1
  {
    match chain
    case One(_) => Clear(t, chain, StopAt(chain, next), k)
    case Then(_, rest) => Clear(t, chain, StopAt(chain, next), After(rest, k)) && ClearGroup(t, rest, next, k)
  }

  /** Where the text is clear the matcher finds the match that what is to follow needs. */
  lemma {:induction false} FindsNode(t: Text, n: Nodes, str: nat, next: Follow, k: Cont, j: nat)
    requires Clear(t, n, next, k) && Means(t, n.node, str, j) && Goes(t, k, j) && |t.s| <= 0x1_0000
    ensures FindNode(t, n, str, next) == j
    decreases n.node, 0
  {
    match n.node {
      case Greedy(inner, p0, p1) =>
        var c := MeansGreedy(t, n.node, str, j);
        FindsGreedy(t, n, str, next, k, 0, str, c, j);
      case Or(left, right) =>
        if MeansAll(t, left, str, j) {
          FindsAlternative(t, left, str, k, j);
        } else {
          assert Goes(t, After(right, k), str);
          FindsAlternative(t, right, str, k, j);
        }
      case Expr(list) => FindsGroup(t, list, str, next, k, j);
      case _ => PlainExact(t, n, str, next, j);
    }
  }

  lemma {:induction false} FindsAlternative(t: Text, chain: Nodes, str: nat, k: Cont, j: nat)
    requires ClearAlternative(t, chain, k) && MeansAll(t, chain, str, j) && Goes(t, k, j) && |t.s| <= 0x1_0000
    requires str <= |t.s|
    ensures FindAlternative(t, chain, str) == j
    decreases chain, 1
  {
    match chain {
      case One(_) => FindsNode(t, chain, str, Nothing, k, j);
      case Then(node, rest) =>
        var m: nat :| Means(t, node, str, m) && MeansAll(t, rest, m, j);
        FindsNode(t, chain, str, Nothing, After(rest, k), m);
        FindsAlternative(t, rest, m, k, j);
    }
  }

  lemma {:induction false} FindsGroup(t: Text, chain: Nodes, str: nat, next: Follow, k: Cont, j: nat)
    requires ClearGroup(t, chain, next, k) && MeansAll(t, chain, str, j) && Goes(t, k, j) && |t.s| <= 0x1_0000
    requires str <= |t.s|
    ensures FindGroup(t, chain, str, next) == j
    decreases chain, 1
  {
    match chain {
      case One(_) => FindsNode(t, chain, str, StopAt(chain, next), k, j);
      case Then(node, rest) =>
        var m: nat :| Means(t, node, str, m) && MeansAll(t, rest, m, j);
        FindsNode(t, chain, str, StopAt(chain, next), After(rest, k), m);
        FindsGroup(t, rest, m, next, k, j);
    }
  }

  /** Repetitions seen from the front. */
  lemma {:induction false} FirstOf(t: Text, n: Node, c: nat, i: nat, j: nat) returns (m: nat)
    requires c > 0 && Repeats(t, n, c, i, j)
    ensures Means(t, n, i, m) && Repeats(t, n, c - 1, m, j)
    decreases c
  {
    var l: nat :| Repeats(t, n, c - 1, i, l) && Means(t, n, l, j);
    if c == 1 {
      m := j;
    } else {
      m := FirstOf(t, n, c - 1, i, l);
      assert Repeats(t, n, c - 1, m, j);
    }
  }

  lemma {:induction false} RepeatsTake(t: Text, n: Node, c: nat, i: nat, j: nat)
    requires Repeats(t, n, c, i, j) && forall p: nat :: !Means(t, n, p, p)
    ensures i + c <= j <= |t.s|
    decreases c
  {
    if c > 0 {
      var m: nat :| Repeats(t, n, c - 1, i, m) && Means(t, n, m, j);
      RepeatsTake(t, n, c - 1, i, m);
    }
  }

  /** The count allows the repetition to end after `total` times. */
  predicate Allowed(n: Node, total: nat)
    requires n.Greedy?
  {
    n.p0 <= total && (n.p1 == UNLIMITED || total <= n.p1)
  }

  /** Where nothing more can be taken the repetition ends. */
  lemma GreedyEnds(t: Text, n: Nodes, str: nat, next: Follow, count: nat, good: nat)
    requires n.node.Greedy? && str <= good <= |t.s| && count <= 0x1_0000 && Repeats(t, n.node.inner, count, str, good)
    requires !Starts(t, n.node.inner, good) && Allowed(n.node, count)
    ensures FindGreedy(t, n, str, next, count, good) == good
  {
  }

  /** Where one more is possible it goes on: what it looks ahead to does not match. */
  lemma GreedyGoes(t: Text, n: Nodes, str: nat, next: Follow, count: nat, good: nat, m: nat, total: nat)
    requires n.node.Greedy? && str <= good < m <= |t.s| && count < total <= 0x1_0000 && Allowed(n.node, total)
    requires Repeats(t, n.node.inner, count, str, good) && Repeats(t, n.node.inner, count + 1, str, m)
    requires FindNode(t, One(n.node.inner), good, StopAt(n, next)) == m
    requires count + 1 < total ==> m < |t.s|
    requires count + 1 < total && LooksAhead(StopAt(n, next)) ==> !Starts(t, StopAt(n, next).nodes.node, m)
    ensures var r, r' := FindGreedy(t, n, str, next, count, good), FindGreedy(t, n, str, next, count + 1, m);
      r == r' || (count + 1 == total && r == m)
  {
  }

  lemma GoesAgain(t: Text, inner: Node, k: Cont, c: nat, m: nat, j: nat)
    requires Repeats(t, inner, c, m, j) && Goes(t, k, j)
    ensures Goes(t, Again(inner, k), m) && (c > 0 ==> Starts(t, inner, m))
  {
    if c > 0 { var m' := FirstOf(t, inner, c, m, j); }
  }

  lemma ClearTakes(t: Text, n: Nodes, next: Follow, k: Cont, c: nat, good: nat, j: nat)
    requires n.node.Greedy? && Clear(t, n, next, k) && Repeats(t, n.node.inner, c, good, j)
    ensures good + c <= j <= |t.s| && !Means(t, n.node.inner, good, good)
  {
    assert forall p: nat :: Means(t, n.node.inner, p, p) ==> Starts(t, n.node.inner, p);
    RepeatsTake(t, n.node.inner, c, good, j);
  }

  /** A repetition that has gone on `count` times and has `c` more to go, up to `j`. */
  lemma {:induction false} FindsGreedy(t: Text, n: Nodes, str: nat, next: Follow, k: Cont, count: nat, good: nat,
      c: nat, j: nat)
    requires n.node.Greedy? && Clear(t, n, next, k) && Goes(t, k, j) && |t.s| <= 0x1_0000
    requires str + count <= good <= |t.s| && Repeats(t, n.node.inner, count, str, good)
      && Repeats(t, n.node.inner, c, good, j)
    requires Allowed(n.node, count + c)
    ensures FindGreedy(t, n, str, next, count, good) == j
    decreases n.node, 0, c
  {
    var inner := n.node.inner;
    ClearTakes(t, n, next, k, c, good, j);
    if c == 0 {
      GreedyEnds(t, n, str, next, count, good);
    } else {
      var m := FirstOf(t, inner, c, good, j);
      GoesAgain(t, inner, k, c - 1, m, j);
      FindsNode(t, One(inner), good, StopAt(n, next), Again(inner, k), m);
      assert Repeats(t, inner, count + 1, str, m);
      GreedyGoes(t, n, str, next, count, good, m, count + c);
      FindsGreedy(t, n, str, next, k, count + 1, m, c - 1, j);
    }
  }

  // ---------- Expressions no text is unclear to ----------

  lemma OneCharMeans(t: Text, n: Node, p: nat, j: nat)
    requires OneChar(n) && Means(t, n, p, j)
    ensures j == p + 1 && MeansOne(t, n, p)
  {
  }

  lemma FirstChar(t: Text, chain: Nodes, p: nat, j: nat)
    requires OneChar(chain.node) && MeansAll(t, chain, p, j)
    ensures MeansOne(t, chain.node, p)
  {
    match chain {
      case One(node) => OneCharMeans(t, node, p, j);
      case Then(node, rest) =>
        var m: nat :| Means(t, node, p, m) && MeansAll(t, rest, m, j);
        OneCharMeans(t, node, p, m);
    }
  }

  /** A repeated class of characters and another class behind it, as in `a*b`, if no character is in both. */
  lemma RepetitionIsClear(t: Text, a: Node, b: Node, p0: UShort, p1: UShort, end: nat)
    requires OneChar(a) && OneChar(b) && forall p: nat :: !(MeansOne(t, a, p) && MeansOne(t, b, p))
    ensures Clear(t, One(Expr(Then(Greedy(a, p0, p1), One(b)))), Nothing, Until(end))
  {
    var list := Then(Greedy(a, p0, p1), One(b));
    forall p: nat | Starts(t, a, p)
      ensures !Means(t, a, p, p) && !Starts(t, b, p) && !Goes(t, After(One(b), Until(end)), p)
    {
      var j: nat :| Means(t, a, p, j);
      OneCharMeans(t, a, p, j);
      forall e: nat ensures !Means(t, b, p, e) && !MeansAll(t, One(b), p, e) {
        if Means(t, b, p, e) { OneCharMeans(t, b, p, e); }
      }
    }
    assert Clear(t, list, Chain(One(b)), After(One(b), Until(end)));
    assert ClearGroup(t, One(b), Nothing, Until(end));
    assert ClearGroup(t, list, Nothing, Until(end));
  }

  /** Two alternatives, each clear, that begin with characters of different classes, as in `x|y`. */
  lemma AlternativesAreClear(t: Text, left: Nodes, right: Nodes, end: nat)
    requires ClearAlternative(t, left, Until(end)) && ClearAlternative(t, right, Until(end)) && OneChar(left.node)
      && OneChar(right.node)
    requires forall p: nat :: !(MeansOne(t, left.node, p) && MeansOne(t, right.node, p))
    ensures Clear(t, One(Expr(One(Or(left, right)))), Nothing, Until(end))
  {
    forall p: nat | StartsAll(t, left, p)
      ensures !Goes(t, After(right, Until(end)), p)
    {
      var j: nat :| MeansAll(t, left, p, j);
      FirstChar(t, left, p, j);
      forall e: nat ensures !MeansAll(t, right, p, e) {
        if MeansAll(t, right, p, e) { FirstChar(t, right, p, e); }
      }
    }
    assert Clear(t, One(Or(left, right)), Nothing, Until(end));
    assert ClearGroup(t, One(Or(left, right)), Nothing, Until(end));
  }

  // ---------- The matcher ----------

  method MatchClass(t: Text, items: seq<ClassItem>, c: char) returns (b: bool)
    ensures b == InClass(t, items, c)
  {
    var k := 0;
    while k < |items|
      invariant 0 <= k <= |items| && forall j :: 0 <= j < k ==> !ItemHas(t, items[j], c)
    {
      if ItemHas(t, items[k], c) { return true; }
      k := k + 1;
    }
    return false;
  }

  method MatchBalanced(t: Text, open: char, close: char, str: nat) returns (r: int)
    requires str < |t.s| && t.s[str] == open
    ensures r == FindClose(t.s, open, close, str + 1, 1)
  {
    var cont: nat, p := 1, str + 1;
    while p < |t.s|
      invariant str < p <= |t.s| && cont > 0
        && FindClose(t.s, open, close, p, cont) == FindClose(t.s, open, close, str + 1, 1)
    {
      if t.s[p] == close {
        cont := cont - 1;
        if cont == 0 { return p + 1; }
      } else if t.s[p] == open {
        cont := cont + 1;
      }
      p := p + 1;
    }
    return NULL;
  }

  method MatchAlternative(t: Text, chain: Nodes, str: nat) returns (r: int)
    requires str <= |t.s|
    ensures r == FindAlternative(t, chain, str)
    decreases Size(chain), 2
  {
    var n, cur: nat := chain, str;
    while true
      invariant str <= cur <= |t.s| && Size(n) <= Size(chain)
        && FindAlternative(t, n, cur) == FindAlternative(t, chain, str)
      decreases n
    {
      var x := MatchNode(t, n, cur, Nothing);
      if x == NULL { return NULL; }
      if n.One? { return x; }
      n, cur := n.rest, x;
    }
  }

  method MatchGroup(t: Text, chain: Nodes, str: nat, next: Follow) returns (r: int)
    requires str <= |t.s|
    ensures r == FindGroup(t, chain, str, next)
    decreases Size(chain) + SizeF(next), 2
  {
    var n, cur: nat := chain, str;
    while true
      invariant str <= cur <= |t.s| && Size(n) <= Size(chain)
        && FindGroup(t, n, cur, next) == FindGroup(t, chain, str, next)
      decreases n
    {
      var x := MatchNode(t, n, cur, StopAt(n, next));
      if x == NULL { return NULL; }
      if n.One? { return x; }
      n, cur := n.rest, x;
    }
  }

  method MatchGreedy(t: Text, n: Nodes, str: nat, next: Follow) returns (r: int)
    requires str <= |t.s| && n.node.Greedy?
    ensures r == FindGreedy(t, n, str, next, 0, str)
    decreases Weight(n, next), 0
  {
    var inner, p0, p1, stopAt := n.node.inner, n.node.p0, n.node.p1, StopAt(n, next);
    assert Size(n) == SizeN(n.node) + SizeF(RestOf(n));
    var count: nat, good: nat := 0, str;
    while count == UNLIMITED || count < p1
      invariant count <= 0x10000 && str <= good <= |t.s| && Repeats(t, inner, count, str, good)
      invariant FindGreedy(t, n, str, next, count, good) == FindGreedy(t, n, str, next, 0, str)
      decreases 0x10001 - count
    {
      var s := MatchNode(t, One(inner), good, stopAt);
      if s == NULL { break; }
      assert Repeats(t, inner, count + 1, str, s);
      if LooksAhead(stopAt) {
        var stop := MatchNode(t, stopAt.nodes, s, AfterStop(stopAt.nodes, next));
        if stop != NULL && Enough(p0, p1, count + 1) { return s; }
      }
      if s >= |t.s| { return Counted(n.node, count + 1, s); }
      count, good := count + 1, s;
    }
    r := Counted(n.node, count, good);
  }

  method MatchNode(t: Text, n: Nodes, str: nat, next: Follow) returns (r: int)
    requires str <= |t.s|
    ensures r == FindNode(t, n, str, next)
    decreases Weight(n, next), 1
  {
    assert Size(n) == SizeN(n.node) + SizeF(RestOf(n));
    match n.node {
      case Greedy(_, _, _) => r := MatchGreedy(t, n, str, next);
      case Or(left, right) =>
        r := MatchAlternative(t, left, str);
        if r == NULL { r := MatchAlternative(t, right, str); }
      case Expr(list) => r := MatchGroup(t, list, str, next);
      case Bol => r := if str == 0 then str else NULL;
      case Eol => r := if str == |t.s| then str else NULL;
      case Dot => r := if str == |t.s| then NULL else str + 1;
      case Class(negated, items) =>
        if str == |t.s| { return NULL; }
        var b := MatchClass(t, items, t.s[str]);
        r := if b != negated then str + 1 else NULL;
      case CClass(id) => r := if str < |t.s| && t.cclass(id, t.s[str]) then str + 1 else NULL;
      case Balanced(open, close) =>
        if str == |t.s| || t.s[str] != open { return NULL; }
        r := MatchBalanced(t, open, close, str);
      case Char(c) => r := if str < |t.s| && t.s[str] == c then str + 1 else NULL;
    }
  }

  /** Whether the expression matches the whole text; it never does unless the text is one the expression means. */
  method Match(t: Text, list: Nodes) returns (b: bool)
    ensures b == (FindGroup(t, list, 0, Nothing) == |t.s|)
    ensures b ==> Means(t, Expr(list), 0, |t.s|)
    ensures PlainAll(list) ==> (b <==> Means(t, Expr(list), 0, |t.s|))
    ensures Clear(t, One(Expr(list)), Nothing, Until(|t.s|)) && |t.s| <= 0x1_0000 ==>
      (b <==> Means(t, Expr(list), 0, |t.s|))
  {
    var r := MatchNode(t, One(Expr(list)), 0, Nothing);
    if PlainAll(list) { PlainExact(t, One(Expr(list)), 0, Nothing, |t.s|); }
    if Clear(t, One(Expr(list)), Nothing, Until(|t.s|)) && |t.s| <= 0x1_0000 && Means(t, Expr(list), 0, |t.s|) {
      FindsNode(t, One(Expr(list)), 0, Nothing, Until(|t.s|), |t.s|);
    }
    b := r == |t.s|;
  }

  /** What a class matches: a character, the characters of a range with both ends, or a kind; together, any of them. */
  lemma ClassRead(t: Text, i: nat, next: Follow, negated: bool, c: char, lo: char, hi: char, id: char)
    requires i < |t.s|
    ensures var x := t.s[i];
      && (FindNode(t, One(Class(negated, [Single(c)])), i, next) == if (x == c) != negated then i + 1 else NULL)
      && (FindNode(t, One(Class(negated, [Range(lo, hi)])), i, next)
          == if (lo <= x && x <= hi) != negated then i + 1 else NULL)
      && (FindNode(t, One(Class(negated, [Kind(id)])), i, next) == if t.cclass(id, x) != negated then i + 1 else NULL)
  {
    OneItem(t, Single(c), t.s[i]);
    OneItem(t, Range(lo, hi), t.s[i]);
    OneItem(t, Kind(id), t.s[i]);
  }

  lemma OneItem(t: Text, item: ClassItem, x: char)
    ensures InClass(t, [item], x) <==> ItemHas(t, item, x)
  {
    assert [item][0] == item;
  }

  lemma ClassesJoin(t: Text, a: seq<ClassItem>, b: seq<ClassItem>, x: char)
    ensures InClass(t, a + b, x) <==> InClass(t, a, x) || InClass(t, b, x)
  {
    if InClass(t, a, x) {
      var k :| 0 <= k < |a| && ItemHas(t, a[k], x);
      assert (a + b)[k] == a[k];
    }
    if InClass(t, b, x) {
      var k :| 0 <= k < |b| && ItemHas(t, b[k], x);
      assert (a + b)[|a| + k] == b[k];
    }
  }

  /** Of two alternatives the first that matches is taken, whatever follows. */
  lemma FirstAlternative(t: Text, a: Node, b: Node, i: nat, next: Follow)
    requires i <= |t.s|
    ensures FindNode(t, One(Or(One(a), One(b))), i, next)
         == if FindNode(t, One(a), i, Nothing) != NULL then FindNode(t, One(a), i, Nothing)
            else FindNode(t, One(b), i, Nothing)
  {
  }

  /** The text from `q` to `e` is one the expression means, and is clear to the matcher. */
  ghost predicate ClearMatch(t: Text, list: Nodes, q: nat, e: nat) {
    Means(t, Expr(list), q, e) && Clear(t, One(Expr(list)), Nothing, Until(e))
  }

  /**
    The first position from which the matcher finds a match, and where that match ends; no clear
    match begins earlier.
   */
  method Search(t: Text, list: Nodes) returns (begin: int, end: int)
    ensures begin == NULL ==> forall p :: 0 <= p < |t.s| ==> FindNode(t, One(Expr(list)), p, Nothing) == NULL
    ensures begin != NULL ==> 0 <= begin < |t.s| && end != NULL && FindNode(t, One(Expr(list)), begin, Nothing) == end
    ensures begin != NULL ==> forall p :: 0 <= p < begin ==> FindNode(t, One(Expr(list)), p, Nothing) == NULL
    ensures forall q: nat, e: nat :: q < |t.s| <= 0x1_0000 && ClearMatch(t, list, q, e) ==> begin != NULL && begin <= q
  {
    forall q: nat, e: nat | q < |t.s| <= 0x1_0000 && ClearMatch(t, list, q, e)
      ensures FindNode(t, One(Expr(list)), q, Nothing) == e
    {
      FindsNode(t, One(Expr(list)), q, Nothing, Until(e), e);
    }
    var p := 0;
    while p < |t.s|
      invariant 0 <= p <= |t.s| && forall q :: 0 <= q < p ==> FindNode(t, One(Expr(list)), q, Nothing) == NULL
    {
      var cur := MatchNode(t, One(Expr(list)), p, Nothing);
      if cur != NULL { return p, cur; }
      p := p + 1;
    }
    return NULL, NULL;
  }
}
