/**
  The node array of a table, as a value: the chained scatter layout, its
  invariants, and what each of the three ways of placing a key does to it.
  Nodes name each other by index; NIL stands for a null link.
 */
module ScatterNodes {

  /** A Squirrel object seen by the table: the null object or something else. */
  datatype Obj<+T> = Null | Ref(o: T)

  datatype Node<+T> = Node(key: Obj<T>, val: Obj<T>, next: int)

  const NIL := -1

  predicate IsPow2(n: nat) {
    n == 1 || (n > 1 && n % 2 == 0 && IsPow2(n / 2))
  }

  /** The main position of a key: its hash masked by `n - 1`, which is the remainder as `n` is a power of two. */
  function MainPos<T>(hash: Obj<T> -> nat, k: Obj<T>, n: nat): (m: nat)
    requires n > 0
    ensures m < n
  {
    hash(k) % n
  }

  predicate Free<T>(nd: Node<T>) {
    nd.key.Null? && nd.next == NIL
  }

  predicate LiveAt<T>(s: seq<Node<T>>, i: int) {
    0 <= i < |s| && s[i].key.Ref?
  }

  // ---------- Chains ----------

  /** Links stay inside the array and the rank falls along every link, so chains have no cycle. */
  ghost predicate Linked<T>(s: seq<Node<T>>, rank: seq<nat>) {
    && |rank| == |s|
    && forall i {:trigger s[i].next} :: 0 <= i < |s| && s[i].next != NIL ==>
                     0 <= s[i].next < |s| && rank[s[i].next] < rank[i]
  }

  /** Node `j` is met when walking the chain that starts at `i`. */
  ghost predicate Reach<T>(s: seq<Node<T>>, rank: seq<nat>, i: int, j: int)
    requires Linked(s, rank) && 0 <= i < |s|
    decreases rank[i]
  {
    i == j || (s[i].next != NIL && Reach(s, rank, s[i].next, j))
  }

  ghost predicate UniquePredecessor<T>(s: seq<Node<T>>) {
    forall i, j {:trigger s[i].next, s[j].next} ::
      0 <= i < |s| && 0 <= j < |s| && s[i].next != NIL && s[i].next == s[j].next ==> i == j
  }

  /** Every node that has a predecessor lies above `ff`. */
  ghost predicate LinksAbove<T>(s: seq<Node<T>>, ff: int) {
    forall i {:trigger s[i].next} :: 0 <= i < |s| && s[i].next != NIL ==> ff < s[i].next
  }

  ghost predicate Distinct<T>(s: seq<Node<T>>) {
    forall i, j {:trigger s[i].key, s[j].key} ::
      0 <= i < j < |s| && s[i].key.Ref? ==> s[i].key != s[j].key
  }

  /** Every live key is reachable from its main position. */
  ghost predicate Reachable<T>(hash: Obj<T> -> nat, s: seq<Node<T>>, rank: seq<nat>)
    requires Linked(s, rank)
  {
    forall j :: LiveAt(s, j) ==> Reach(s, rank, MainPos(hash, s[j].key, |s|), j)
  }

  /** A node holding a key of another chain is nobody's main position. */
  ghost predicate NoForeignHead<T>(hash: Obj<T> -> nat, s: seq<Node<T>>) {
    forall i, j :: LiveAt(s, i) && LiveAt(s, j) && MainPos(hash, s[i].key, |s|) != i
                   ==> MainPos(hash, s[j].key, |s|) != i
  }

  /** The layout invariant, all of it but the state of the free pointer itself. */
  ghost predicate Layout<T>(hash: Obj<T> -> nat, s: seq<Node<T>>, rank: seq<nat>, ff: int) {
    && |s| > 0
    && Linked(s, rank)
    && UniquePredecessor(s)
    && LinksAbove(s, ff)
    && Distinct(s)
    && Reachable(hash, s, rank)
    && NoForeignHead(hash, s)
  }

  // ---------- The finite map a node array stands for ----------

  ghost function ContentsOf<T>(s: seq<Node<T>>): (m: map<T, Obj<T>>) {
    if s == [] then map[]
    else
      var m := ContentsOf(s[..|s| - 1]);
      var last := s[|s| - 1];
      if last.key.Ref? then m[last.key.o := last.val] else m
  }

  lemma {:induction false} ContentsAt<T>(s: seq<Node<T>>, i: int)
    requires Distinct(s) && LiveAt(s, i)
    ensures s[i].key.o in ContentsOf(s) && ContentsOf(s)[s[i].key.o] == s[i].val
    decreases |s|
  {
    var l := |s| - 1;
    if i < l { ContentsAt(s[..l], i); }
  }

  lemma {:induction false} ContentsFrom<T>(s: seq<Node<T>>, k: T) returns (i: int)
    requires Distinct(s) && k in ContentsOf(s)
    ensures LiveAt(s, i) && s[i].key == Ref(k) && ContentsOf(s)[k] == s[i].val
    decreases |s|
  {
    var l := |s| - 1;
    if s[l].key == Ref(k) { i := l; } else { i := ContentsFrom(s[..l], k); }
  }

  /** A map that agrees with every live node, and holds no other key, is the contents. */
  lemma ContentsAre<T>(s: seq<Node<T>>, m: map<T, Obj<T>>)
    requires Distinct(s)
    requires forall i :: LiveAt(s, i) ==> s[i].key.o in m && m[s[i].key.o] == s[i].val
    requires forall k :: k in m ==> exists i :: LiveAt(s, i) && s[i].key == Ref(k)
    ensures ContentsOf(s) == m
  {
    forall k | k in ContentsOf(s)
      ensures k in m && m[k] == ContentsOf(s)[k]
    {
      var i := ContentsFrom(s, k);
    }
    forall k | k in m
      ensures k in ContentsOf(s)
    {
      var i :| LiveAt(s, i) && s[i].key == Ref(k);
      ContentsAt(s, i);
    }
  }

  /** Number of live nodes. */
  function Live<T>(s: seq<Node<T>>): (c: nat)
    ensures c <= |s|
  {
    if s == [] then 0 else Live(s[..|s| - 1]) + (if s[|s| - 1].key.Ref? then 1 else 0)
  }

  lemma {:induction false} LiveUpdate<T>(s: seq<Node<T>>, i: nat, x: Node<T>)
    requires i < |s|
    ensures Live(s[i := x]) == Live(s) - (if s[i].key.Ref? then 1 else 0) + (if x.key.Ref? then 1 else 0)
    decreases |s|
  {
    var l := |s| - 1;
    if i == l {
      assert s[i := x][..l] == s[..l];
    } else {
      assert s[i := x][..l] == s[..l][i := x];
      LiveUpdate(s[..l], i, x);
    }
  }

  lemma {:induction false} LivePrefix<T>(s: seq<Node<T>>, i: nat)
    requires i <= |s|
    ensures Live(s[..i]) <= Live(s)
    decreases |s|
  {
    if i < |s| {
      assert s[..|s| - 1][..i] == s[..i];
      LivePrefix(s[..|s| - 1], i);
    } else {
      assert s[..i] == s;
    }
  }

  lemma {:induction false} LiveAll<T>(s: seq<Node<T>>)
    ensures (forall i :: 0 <= i < |s| ==> s[i].key.Ref?) ==> Live(s) == |s|
    ensures (forall i :: 0 <= i < |s| ==> s[i].key.Null?) ==> Live(s) == 0
  {
    if s != [] { LiveAll(s[..|s| - 1]); }
  }

  /** The number of live nodes is the number of keys. */
  lemma {:induction false} LiveIsCardinality<T>(s: seq<Node<T>>)
    requires Distinct(s)
    ensures |ContentsOf(s)| == Live(s)
  {
    if s != [] {
      var l := |s| - 1;
      LiveIsCardinality(s[..l]);
      if s[l].key.Ref? && s[l].key.o in ContentsOf(s[..l]) {
        var i := ContentsFrom(s[..l], s[l].key.o);
      }
    }
  }

  // ---------- Facts about walks ----------

  lemma {:induction false} ReachTrans<T>(s: seq<Node<T>>, rank: seq<nat>, i: int, j: int, k: int)
    requires Linked(s, rank) && 0 <= i < |s| && 0 <= j < |s|
    requires Reach(s, rank, i, j) && Reach(s, rank, j, k)
    ensures Reach(s, rank, i, k)
    decreases rank[i]
  {
    if i != j { ReachTrans(s, rank, s[i].next, j, k); }
  }

  /** Only a node with a predecessor can be met away from the start of a walk. */
  lemma {:induction false} ReachedHasPredecessor<T>(s: seq<Node<T>>, rank: seq<nat>, i: int, j: int)
      returns (p: int)
    requires Linked(s, rank) && 0 <= i < |s| && 0 <= j < |s|
    requires Reach(s, rank, i, j) && i != j
    ensures 0 <= p < |s| && s[p].next == j && Reach(s, rank, i, p)
    decreases rank[i]
  {
    if s[i].next == j {
      p := i;
    } else {
      p := ReachedHasPredecessor(s, rank, s[i].next, j);
    }
  }

  /** A walk depends on the links only. */
  lemma {:induction false} ReachSameLinks<T>(s: seq<Node<T>>, s': seq<Node<T>>, rank: seq<nat>, i: int, j: int)
    requires Linked(s, rank) && |s'| == |s| && Linked(s', rank) && 0 <= i < |s|
    requires forall x :: 0 <= x < |s| ==> s[x].next == s'[x].next
    ensures Reach(s, rank, i, j) == Reach(s', rank, i, j)
    decreases rank[i]
  {
    if i != j && s[i].next != NIL { ReachSameLinks(s, s', rank, s[i].next, j); }
  }

  /** A free node is no live key's main position. */
  lemma FreeIsNobodysHead<T>(hash: Obj<T> -> nat, s: seq<Node<T>>, rank: seq<nat>, n: int, j: int)
    requires Linked(s, rank) && 0 <= n < |s| && Free(s[n]) && Reachable(hash, s, rank)
    requires LiveAt(s, j)
    ensures MainPos(hash, s[j].key, |s|) != n
  {
  }

  /** A foreign key sits above the free pointer. */
  lemma ForeignIsAbove<T>(hash: Obj<T> -> nat, s: seq<Node<T>>, rank: seq<nat>, ff: int, j: int)
    requires Layout(hash, s, rank, ff) && LiveAt(s, j) && MainPos(hash, s[j].key, |s|) != j
    ensures ff < j
  {
    var p := ReachedHasPredecessor(s, rank, MainPos(hash, s[j].key, |s|), j);
  }

  // ---------- Placing a key, case 1: the main position holds no key ----------

  function PlaceAt<T>(s: seq<Node<T>>, mp: nat, k: Obj<T>): (s': seq<Node<T>>)
    requires mp < |s|
  {
    s[mp := s[mp].(key := k)]
  }

  ghost predicate Absent<T>(s: seq<Node<T>>, k: Obj<T>) {
    forall i :: 0 <= i < |s| ==> s[i].key != k
  }

  lemma PlaceAtLayout<T>(hash: Obj<T> -> nat, s: seq<Node<T>>, rank: seq<nat>, ff: int, mp: nat, k: Obj<T>)
    requires Layout(hash, s, rank, ff) && mp < |s| && s[mp].key.Null?
    requires k.Ref? && Absent(s, k) && mp == MainPos(hash, k, |s|)
    ensures Layout(hash, PlaceAt(s, mp, k), rank, ff)
  {
    var s' := PlaceAt(s, mp, k);
    SameLinks(s, s', rank, ff);
    assert Distinct(s');
    assert Reachable(hash, s', rank) by {
      forall j | LiveAt(s', j)
        ensures Reach(s', rank, MainPos(hash, s'[j].key, |s'|), j)
      {
        if j != mp {
          assert LiveAt(s, j);
          ReachSameLinks(s, s', rank, MainPos(hash, s[j].key, |s|), j);
        }
      }
    }
    assert NoForeignHead(hash, s') by {
      forall i, j | LiveAt(s', i) && LiveAt(s', j) && MainPos(hash, s'[i].key, |s'|) != i
        ensures MainPos(hash, s'[j].key, |s'|) != i
      {
        assert LiveAt(s, i);
        if j != mp { assert LiveAt(s, j); }
      }
    }
  }

  // ---------- Placing a key, case 2: the main position keeps its own key ----------

  function ChainAfter<T>(s: seq<Node<T>>, mp: nat, n: nat, k: Obj<T>): (s': seq<Node<T>>)
    requires mp < |s| && n < |s|
  {
    s[n := Node(k, s[n].val, s[mp].next)][mp := s[mp].(next := n)]
  }

  /** Ranks after inserting `n` behind `mp`: everything doubles, `n` fits in between. */
  ghost function RankAfter(rank: seq<nat>, mp: nat, n: nat): (r: seq<nat>)
    requires mp < |rank| && n < |rank|
    ensures |r| == |rank|
  {
    seq(|rank|, i requires 0 <= i < |rank| => if i == n then 2 * rank[mp] else 2 * rank[i] + 1)
  }

  lemma {:induction false} ReachChainAfter<T>(s: seq<Node<T>>, rank: seq<nat>, mp: nat, n: nat, k: Obj<T>, i: int,
      j: int)
    requires Linked(s, rank) && mp < |s| && n < |s| && mp != n && s[n].next == NIL
    requires forall x :: 0 <= x < |s| ==> s[x].next != n
    requires Linked(ChainAfter(s, mp, n, k), RankAfter(rank, mp, n))
    requires 0 <= i < |s| && i != n && j != n && Reach(s, rank, i, j)
    ensures Reach(ChainAfter(s, mp, n, k), RankAfter(rank, mp, n), i, j)
    decreases rank[i]
  {
    if i != j {
      ReachChainAfter(s, rank, mp, n, k, s[i].next, j);
      var s' := ChainAfter(s, mp, n, k);
      if i == mp { assert s'[i].next == n && s'[n].next == s[i].next; }
    }
  }

  lemma ChainAfterLinks<T>(s: seq<Node<T>>, rank: seq<nat>, mp: nat, n: nat, k: Obj<T>)
    requires n < |s| && Linked(s, rank) && UniquePredecessor(s) && LinksAbove(s, n) && Free(s[n])
    requires mp < |s| && mp != n
    ensures Linked(ChainAfter(s, mp, n, k), RankAfter(rank, mp, n))
    ensures UniquePredecessor(ChainAfter(s, mp, n, k))
    ensures LinksAbove(ChainAfter(s, mp, n, k), n - 1)
  {
  }

  lemma ChainAfterLayout<T>(hash: Obj<T> -> nat, s: seq<Node<T>>, rank: seq<nat>, mp: nat, n: nat, k: Obj<T>)
    requires n < |s| && Layout(hash, s, rank, n) && Free(s[n])
    requires mp < |s| && s[mp].key.Ref? && MainPos(hash, s[mp].key, |s|) == mp
    requires k.Ref? && Absent(s, k) && mp == MainPos(hash, k, |s|)
    ensures Layout(hash, ChainAfter(s, mp, n, k), RankAfter(rank, mp, n), n - 1)
  {
    var s', rank' := ChainAfter(s, mp, n, k), RankAfter(rank, mp, n);
    ChainAfterLinks(s, rank, mp, n, k);
    assert Distinct(s');
    assert Reachable(hash, s', rank') by {
      forall j | LiveAt(s', j)
        ensures Reach(s', rank', MainPos(hash, s'[j].key, |s'|), j)
      {
        if j == n {
          assert s'[mp].next == n && Reach(s', rank', n, n);
        } else {
          assert LiveAt(s, j);
          FreeIsNobodysHead(hash, s, rank, n, j);
          ReachChainAfter(s, rank, mp, n, k, MainPos(hash, s[j].key, |s|), j);
        }
      }
    }
    assert NoForeignHead(hash, s') by {
      forall i, j | LiveAt(s', i) && LiveAt(s', j) && MainPos(hash, s'[i].key, |s'|) != i
        ensures MainPos(hash, s'[j].key, |s'|) != i
      {
        if j != n {
          assert LiveAt(s, j);
          FreeIsNobodysHead(hash, s, rank, n, j);
        }
        if i != n { assert LiveAt(s, i); }
      }
    }
  }

  // ---------- Placing a key, case 3: the main position holds a foreign key ----------

  /** Move the foreign node from `mp` to the free node `n`, re-link its predecessor, take `mp`. */
  function Displace<T>(s: seq<Node<T>>, prev: nat, mp: nat, n: nat, k: Obj<T>): (s': seq<Node<T>>)
    requires prev < |s| && mp < |s| && n < |s|
  {
    s[prev := s[prev].(next := n)][n := s[mp]][mp := Node(k, Null, NIL)]
  }

  ghost function RankMoved(rank: seq<nat>, mp: nat, n: nat): (r: seq<nat>)
    requires mp < |rank| && n < |rank|
    ensures |r| == |rank|
  {
    rank[n := rank[mp]]
  }

  lemma {:induction false} ReachDisplace<T>(s: seq<Node<T>>, rank: seq<nat>, prev: nat, mp: nat, n: nat, k: Obj<T>,
      i: int, j: int)
    requires Linked(s, rank) && UniquePredecessor(s)
    requires prev < |s| && mp < |s| && n < |s| && mp != n && s[n].next == NIL && s[prev].next == mp
    requires forall x :: 0 <= x < |s| ==> s[x].next != n
    requires Linked(Displace(s, prev, mp, n, k), RankMoved(rank, mp, n))
    requires 0 <= i < |s| && i != n && i != mp && j != n && Reach(s, rank, i, j)
    ensures Reach(Displace(s, prev, mp, n, k), RankMoved(rank, mp, n), i, if j == mp then n else j)
    decreases rank[i]
  {
    var s', rank' := Displace(s, prev, mp, n, k), RankMoved(rank, mp, n);
    if i != j {
      if s[i].next != mp {
        assert s'[i].next == s[i].next;
        ReachDisplace(s, rank, prev, mp, n, k, s[i].next, j);
      } else {
        assert i == prev && s'[i].next == n && s'[n].next == s[mp].next;
        if j == mp {
          assert Reach(s', rank', n, n);
        } else {
          assert s[mp].next != mp by { assert rank[mp] == rank[mp]; }
          ReachDisplace(s, rank, prev, mp, n, k, s[mp].next, j);
        }
      }
    }
  }

  lemma DisplaceLinks<T>(s: seq<Node<T>>, rank: seq<nat>, prev: nat, mp: nat, n: nat, k: Obj<T>)
    requires n < |s| && Linked(s, rank) && UniquePredecessor(s) && LinksAbove(s, n) && Free(s[n])
    requires prev < |s| && mp < |s| && prev != n && prev != mp && mp != n && s[prev].next == mp
    ensures Linked(Displace(s, prev, mp, n, k), RankMoved(rank, mp, n))
    ensures LinksAbove(Displace(s, prev, mp, n, k), n - 1)
  {
  }

  lemma DisplaceUnique<T>(s: seq<Node<T>>, rank: seq<nat>, prev: nat, mp: nat, n: nat, k: Obj<T>)
    requires n < |s| && Linked(s, rank) && UniquePredecessor(s) && LinksAbove(s, n)
    requires prev < |s| && mp < |s| && prev != n && prev != mp && mp != n && s[prev].next == mp
    ensures UniquePredecessor(Displace(s, prev, mp, n, k))
  {
    var s' := Displace(s, prev, mp, n, k);
    forall i, j | 0 <= i < |s'| && 0 <= j < |s'| && s'[i].next != NIL && s'[i].next == s'[j].next
      ensures i == j
    {
      assert s[i].next != n && s[j].next != n && s[mp].next != n;
      assert i != n ==> s[i].next != s[mp].next || i == mp;
    }
  }

  lemma DisplaceDistinct<T>(s: seq<Node<T>>, prev: nat, mp: nat, n: nat, k: Obj<T>)
    requires n < |s| && Distinct(s) && s[n].key.Null?
    requires prev < |s| && mp < |s| && prev != n && prev != mp && mp != n && s[mp].key.Ref?
    requires k.Ref? && Absent(s, k)
    ensures Distinct(Displace(s, prev, mp, n, k))
  {
    var s' := Displace(s, prev, mp, n, k);
    forall i, j | 0 <= i < j < |s'| && s'[i].key.Ref?
      ensures s'[i].key != s'[j].key
    {
      var i0, j0 := if i == n then mp else i, if j == n then mp else j;
      if i != mp { assert s'[i].key == s[i0].key; }
      if j != mp { assert s'[j].key == s[j0].key; }
    }
  }

  lemma DisplaceReachable<T>(hash: Obj<T> -> nat, s: seq<Node<T>>, rank: seq<nat>, prev: nat, mp: nat, n: nat,
      k: Obj<T>)
    requires n < |s| && Layout(hash, s, rank, n) && Free(s[n])
    requires prev < |s| && mp < |s| && s[mp].key.Ref? && s[prev].next == mp
    requires MainPos(hash, s[mp].key, |s|) != mp
    requires k.Ref? && Absent(s, k) && mp == MainPos(hash, k, |s|)
    ensures Reachable(hash, Displace(s, prev, mp, n, k), RankMoved(rank, mp, n))
  {
    assert prev != n && prev != mp && mp != n && LiveAt(s, mp);
    var s', rank' := Displace(s, prev, mp, n, k), RankMoved(rank, mp, n);
    forall j | LiveAt(s', j)
      ensures Reach(s', rank', MainPos(hash, s'[j].key, |s'|), j)
    {
      if j != mp {
        var j0 := if j == n then mp else j;
        assert LiveAt(s, j0) && s[j0].key == s'[j].key;
        FreeIsNobodysHead(hash, s, rank, n, j0);
        ReachDisplace(s, rank, prev, mp, n, k, MainPos(hash, s[j0].key, |s|), j0);
      }
    }
  }

  lemma DisplaceNoForeignHead<T>(hash: Obj<T> -> nat, s: seq<Node<T>>, rank: seq<nat>, prev: nat, mp: nat, n: nat,
      k: Obj<T>)
    requires n < |s| && Layout(hash, s, rank, n) && Free(s[n])
    requires prev < |s| && mp < |s| && s[mp].key.Ref? && s[prev].next == mp
    requires MainPos(hash, s[mp].key, |s|) != mp
    requires k.Ref? && Absent(s, k) && mp == MainPos(hash, k, |s|)
    ensures NoForeignHead(hash, Displace(s, prev, mp, n, k))
  {
    assert prev != n && prev != mp && mp != n && LiveAt(s, mp);
    var s' := Displace(s, prev, mp, n, k);
    forall i, j | LiveAt(s', i) && LiveAt(s', j) && MainPos(hash, s'[i].key, |s'|) != i
      ensures MainPos(hash, s'[j].key, |s'|) != i
    {
      var j0 := if j == n then mp else j;
      if j != mp {
        assert LiveAt(s, j0) && s[j0].key == s'[j].key;
        FreeIsNobodysHead(hash, s, rank, n, j0);
      }
      if i != n { assert LiveAt(s, i); }
    }
  }

  lemma DisplaceLayout<T>(hash: Obj<T> -> nat, s: seq<Node<T>>, rank: seq<nat>, prev: nat, mp: nat, n: nat, k: Obj<T>)
    requires n < |s| && Layout(hash, s, rank, n) && Free(s[n])
    requires prev < |s| && mp < |s| && s[mp].key.Ref? && s[prev].next == mp
    requires MainPos(hash, s[mp].key, |s|) != mp
    requires k.Ref? && Absent(s, k) && mp == MainPos(hash, k, |s|)
    ensures Layout(hash, Displace(s, prev, mp, n, k), RankMoved(rank, mp, n), n - 1)
  {
    assert prev != n && prev != mp && mp != n;
    DisplaceLinks(s, rank, prev, mp, n, k);
    DisplaceUnique(s, rank, prev, mp, n, k);
    DisplaceDistinct(s, prev, mp, n, k);
    DisplaceReachable(hash, s, rank, prev, mp, n, k);
    DisplaceNoForeignHead(hash, s, rank, prev, mp, n, k);
  }

  // ---------- What each step does to the map and to the count ----------

  lemma {:induction false} SameData<T>(s: seq<Node<T>>, s': seq<Node<T>>)
    requires |s'| == |s| && forall i :: 0 <= i < |s| ==> s'[i].key == s[i].key && s'[i].val == s[i].val
    ensures ContentsOf(s') == ContentsOf(s) && Live(s') == Live(s)
  {
    if s != [] { SameData(s[..|s| - 1], s'[..|s| - 1]); }
  }

  lemma PlaceAtContents<T>(s: seq<Node<T>>, mp: nat, k: Obj<T>)
    requires Distinct(s) && mp < |s| && s[mp].key.Null? && k.Ref? && Absent(s, k)
    ensures ContentsOf(PlaceAt(s, mp, k)) == ContentsOf(s)[k.o := s[mp].val]
    ensures Live(PlaceAt(s, mp, k)) == Live(s) + 1
  {
    var s' := PlaceAt(s, mp, k);
    LiveUpdate(s, mp, s[mp].(key := k));
    var m := ContentsOf(s)[k.o := s[mp].val];
    forall i | LiveAt(s', i)
      ensures s'[i].key.o in m && m[s'[i].key.o] == s'[i].val
    {
      if i != mp {
        assert LiveAt(s, i) && s[i].key != k;
        ContentsAt(s, i);
      }
    }
    forall x | x in m
      ensures exists i :: LiveAt(s', i) && s'[i].key == Ref(x)
    {
      if x == k.o {
        assert LiveAt(s', mp);
      } else {
        var i := ContentsFrom(s, x);
        assert LiveAt(s', i);
      }
    }
    ContentsAre(s', m);
  }

  lemma ChainAfterContents<T>(s: seq<Node<T>>, mp: nat, n: nat, k: Obj<T>)
    requires Distinct(s) && mp < |s| && n < |s| && mp != n && s[n].key.Null? && k.Ref? && Absent(s, k)
    ensures ContentsOf(ChainAfter(s, mp, n, k)) == ContentsOf(s)[k.o := s[n].val]
    ensures Live(ChainAfter(s, mp, n, k)) == Live(s) + 1
  {
    PlaceAtContents(s, n, k);
    SameData(PlaceAt(s, n, k), ChainAfter(s, mp, n, k));
  }

  lemma DisplaceContents<T>(s: seq<Node<T>>, prev: nat, mp: nat, n: nat, k: Obj<T>)
    requires Distinct(s) && prev < |s| && mp < |s| && n < |s| && prev != n && prev != mp
    requires s[mp].key.Ref? && s[n].key.Null? && k.Ref? && Absent(s, k)
    ensures ContentsOf(Displace(s, prev, mp, n, k)) == ContentsOf(s)[k.o := Null]
  {
    var s' := Displace(s, prev, mp, n, k);
    var m := ContentsOf(s)[k.o := Null];
    DisplaceDistinct(s, prev, mp, n, k);
    forall i | LiveAt(s', i)
      ensures s'[i].key.o in m && m[s'[i].key.o] == s'[i].val
    {
      if i != mp {
        var i0 := if i == n then mp else i;
        assert LiveAt(s, i0) && s[i0].key != k;
        ContentsAt(s, i0);
      }
    }
    forall x | x in m
      ensures exists i :: LiveAt(s', i) && s'[i].key == Ref(x)
    {
      if x == k.o {
        assert LiveAt(s', mp);
      } else {
        var i := ContentsFrom(s, x);
        assert LiveAt(s', if i == mp then n else i);
      }
    }
    ContentsAre(s', m);
  }

  lemma DisplaceLive<T>(s: seq<Node<T>>, prev: nat, mp: nat, n: nat, k: Obj<T>)
    requires prev < |s| && mp < |s| && n < |s| && prev != n && prev != mp && mp != n
    requires s[mp].key.Ref? && s[n].key.Null? && k.Ref?
    ensures Live(Displace(s, prev, mp, n, k)) == Live(s) + 1
  {
    var s1 := s[prev := s[prev].(next := n)];
    LiveUpdate(s, prev, s[prev].(next := n));
    LiveUpdate(s1, n, s[mp]);
    LiveUpdate(s1[n := s[mp]], mp, Node(k, Null, NIL));
  }

  /** Dropping keys, or changing values, keeps the layout as long as no link moves. */
  lemma KeptLinks<T>(hash: Obj<T> -> nat, s: seq<Node<T>>, s': seq<Node<T>>, rank: seq<nat>, ff: int)
    requires Layout(hash, s, rank, ff) && |s'| == |s|
    requires forall i :: 0 <= i < |s| ==> s'[i].next == s[i].next && (s'[i].key == s[i].key || s'[i].key.Null?)
    ensures Layout(hash, s', rank, ff)
  {
    SameLinks(s, s', rank, ff);
    assert Distinct(s');
    assert Reachable(hash, s', rank) by {
      forall j | LiveAt(s', j)
        ensures Reach(s', rank, MainPos(hash, s'[j].key, |s'|), j)
      {
        assert LiveAt(s, j);
        ReachSameLinks(s, s', rank, MainPos(hash, s[j].key, |s|), j);
      }
    }
    assert NoForeignHead(hash, s') by {
      forall i, j | LiveAt(s', i) && LiveAt(s', j) && MainPos(hash, s'[i].key, |s'|) != i
        ensures MainPos(hash, s'[j].key, |s'|) != i
      {
        assert LiveAt(s, i) && LiveAt(s, j);
      }
    }
  }

  lemma SameLinks<T>(s: seq<Node<T>>, s': seq<Node<T>>, rank: seq<nat>, ff: int)
    requires Linked(s, rank) && UniquePredecessor(s) && LinksAbove(s, ff)
    requires |s'| == |s| && forall i :: 0 <= i < |s| ==> s'[i].next == s[i].next
    ensures Linked(s', rank) && UniquePredecessor(s') && LinksAbove(s', ff)
  {
  }

  lemma SetValContents<T>(s: seq<Node<T>>, n: nat, v: Obj<T>)
    requires Distinct(s) && n < |s|
    ensures var s' := s[n := s[n].(val := v)];
            && Live(s') == Live(s)
            && ContentsOf(s') == if s[n].key.Ref? then ContentsOf(s)[s[n].key.o := v] else ContentsOf(s)
  {
    var s' := s[n := s[n].(val := v)];
    LiveUpdate(s, n, s[n].(val := v));
    var m := if s[n].key.Ref? then ContentsOf(s)[s[n].key.o := v] else ContentsOf(s);
    forall i | LiveAt(s', i)
      ensures s'[i].key.o in m && m[s'[i].key.o] == s'[i].val
    {
      assert LiveAt(s, i);
      ContentsAt(s, i);
    }
    forall x | x in m
      ensures exists i :: LiveAt(s', i) && s'[i].key == Ref(x)
    {
      if s[n].key == Ref(x) {
        assert LiveAt(s', n);
      } else {
        var i := ContentsFrom(s, x);
        assert LiveAt(s', i);
      }
    }
    ContentsAre(s', m);
  }

  lemma DropKeyContents<T>(s: seq<Node<T>>, n: nat)
    requires Distinct(s) && n < |s| && s[n].key.Ref?
    ensures var s' := s[n := Node(Null, Null, s[n].next)];
            Distinct(s') && Live(s') == Live(s) - 1 && ContentsOf(s') == ContentsOf(s) - {s[n].key.o}
  {
    var s' := s[n := Node(Null, Null, s[n].next)];
    LiveUpdate(s, n, Node(Null, Null, s[n].next));
    var m := ContentsOf(s) - {s[n].key.o};
    forall i | LiveAt(s', i)
      ensures s'[i].key.o in m && m[s'[i].key.o] == s'[i].val
    {
      assert LiveAt(s, i) && s[i].key != s[n].key;
      ContentsAt(s, i);
    }
    forall x | x in m
      ensures exists i :: LiveAt(s', i) && s'[i].key == Ref(x)
    {
      var i := ContentsFrom(s, x);
      assert LiveAt(s', i);
    }
    ContentsAre(s', m);
  }
}
