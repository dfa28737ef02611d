/**
  The mark phase of the garbage collector. Collectable objects are indices into an arena; they
  sit on doubly linked chains, the chain of all objects and the chain of those found alive.
 */
module Collector {

  import opened RefCounts

  const NIL := -1

  /** The links of all objects. `rank` falls along `next` and stays below `bound`: a chain ends both ways. */
  datatype Links = Links(next: seq<int>, prev: seq<int>, rank: seq<nat>, bound: nat)

  ghost predicate Sized(k: Links, n: nat) {
    |k.next| == n && |k.prev| == n && |k.rank| == n && forall c :: 0 <= c < n ==> k.rank[c] <= k.bound
  }

  /** `members` are the objects of the doubly linked list that starts at `head`. */
  ghost predicate Chain(k: Links, n: nat, head: int, members: set<nat>) {
    && Sized(k, n) && (forall c :: c in members ==> c < n)
    && (if head == NIL then members == {} else 0 <= head && head in members && k.prev[head] == NIL)
    && (forall c {:trigger k.next[c]} :: c in members && k.next[c] != NIL ==>
          0 <= k.next[c] && k.next[c] in members && k.prev[k.next[c]] == c && k.rank[k.next[c]] < k.rank[c])
    && (forall c {:trigger k.prev[c]} :: c in members ==>
          if k.prev[c] == NIL then c == head else 0 <= k.prev[c] && k.prev[c] in members && k.next[k.prev[c]] == c)
  }

  function Unlink(k: Links, n: nat, c: nat): (r: Links)
    requires |k.next| == n && |k.prev| == n && c < n && NIL <= k.next[c] < n && NIL <= k.prev[c] < n
  {
    var next1 := if k.prev[c] != NIL then k.next[k.prev[c] := k.next[c]] else k.next;
    var prev1 := if k.next[c] != NIL then k.prev[k.next[c] := k.prev[c]] else k.prev;
    Links(next1[c := NIL], prev1[c := NIL], k.rank, k.bound)
  }

  /** Removing an object leaves the rest of its chain linked, and other chains alone. */
  lemma UnlinkChain(k: Links, n: nat, head: int, members: set<nat>, c: nat, head2: int, others: set<nat>)
    requires Chain(k, n, head, members) && c in members && Chain(k, n, head2, others) && members !! others
    ensures NIL <= k.next[c] < n && NIL <= k.prev[c] < n
    ensures Chain(Unlink(k, n, c), n, if k.prev[c] != NIL then head else k.next[c], members - {c})
    ensures Chain(Unlink(k, n, c), n, head2, others)
  {
    UnlinkRest(k, n, head, members, c);
    var k' := Unlink(k, n, c);
    forall d | d in others ensures k'.next[d] == k.next[d] && k'.prev[d] == k.prev[d] {
      assert d !in members;
    }
  }

  lemma UnlinkRest(k: Links, n: nat, head: int, members: set<nat>, c: nat)
    requires Chain(k, n, head, members) && c in members
    ensures NIL <= k.next[c] < n && NIL <= k.prev[c] < n
    ensures Chain(Unlink(k, n, c), n, if k.prev[c] != NIL then head else k.next[c], members - {c})
  {
    var k' := Unlink(k, n, c);
    var p, x := k.prev[c], k.next[c];
    forall d {:trigger k'.next[d]} | d in members - {c} && k'.next[d] != NIL
      ensures 0 <= k'.next[d] && k'.next[d] in members - {c} && k'.prev[k'.next[d]] == d
        && k'.rank[k'.next[d]] < k'.rank[d]
    {
      if d == p { assert k.next[d] == c; } else { assert k'.next[d] == k.next[d] && k.prev[k.next[d]] == d; }
    }
    forall d {:trigger k'.prev[d]} | d in members - {c}
      ensures if k'.prev[d] == NIL then d == (if p != NIL then head else x)
              else 0 <= k'.prev[d] && k'.prev[d] in members - {c} && k'.next[k'.prev[d]] == d
    {
      if d == x { assert k.prev[d] == c; }
        else { assert k'.prev[d] == k.prev[d]; if k.prev[d] != NIL { assert k.next[k.prev[d]] == d; } }
    }
    if p == NIL && x == NIL {
      forall d | d in members ensures d == c { Alone(k, n, head, members, c, d); }
    }
  }

  /** An object with neither neighbour is the whole chain. */
  lemma {:induction false} Alone(k: Links, n: nat, head: int, members: set<nat>, c: nat, d: nat)
    requires Chain(k, n, head, members) && c in members && d in members && k.prev[c] == NIL && k.next[c] == NIL
    ensures d == c
    decreases k.bound - k.rank[d]
  {
    if k.prev[d] != NIL {
      assert k.next[k.prev[d]] == d;
      Alone(k, n, head, members, c, k.prev[d]);
    }
  }

  function Link(k: Links, n: nat, head: int, c: nat): (r: Links)
    requires |k.next| == n && |k.prev| == n && |k.rank| == n && c < n && NIL <= head < n
  {
    var prev1 := k.prev[c := NIL];
    var top := if head != NIL then k.rank[head] + 1 else 0;
    Links(k.next[c := head], if head != NIL then prev1[head := c] else prev1, k.rank[c := top],
        if top > k.bound then top else k.bound)
  }

  /** Adding an object at the front. */
  lemma LinkChain(k: Links, n: nat, head: int, members: set<nat>, c: nat, head2: int, others: set<nat>)
    requires Chain(k, n, head, members) && c < n && c !in members && Chain(k, n, head2, others) && members !! others
      && c !in others
    ensures NIL <= head < n && Chain(Link(k, n, head, c), n, c, members + {c})
      && Chain(Link(k, n, head, c), n, head2, others)
  {
    var k' := Link(k, n, head, c);
    forall d {:trigger k'.next[d]} | d in members + {c} && k'.next[d] != NIL
      ensures 0 <= k'.next[d] && k'.next[d] in members + {c} && k'.prev[k'.next[d]] == d
        && k'.rank[k'.next[d]] < k'.rank[d]
    {
      if d != c { assert k'.next[d] == k.next[d] && k.prev[k.next[d]] == d; }
    }
    forall d {:trigger k'.prev[d]} | d in members + {c}
      ensures if k'.prev[d] == NIL then d == c
              else 0 <= k'.prev[d] && k'.prev[d] in members + {c} && k'.next[k'.prev[d]] == d
    {
      if d != c && d != head { assert k'.prev[d] == k.prev[d] && k.next[k.prev[d]] == d; }
    }
    forall d | d in others ensures k'.next[d] == k.next[d] && k'.prev[d] == k.prev[d] && k'.rank[d] == k.rank[d] {
      assert d !in members;
    }
  }

  /** Following `next` from the head misses no member. */
  lemma {:induction false} WalkVisits(k: Links, n: nat, head: int, members: set<nat>, seen: set<nat>, c: nat)
    requires Chain(k, n, head, members) && c in members && seen <= members && (head != NIL ==> head in seen)
    requires forall v :: v in seen ==> k.next[v] == NIL || k.next[v] in seen
    ensures c in seen
    decreases k.bound - k.rank[c]
  {
    if k.prev[c] != NIL {
      assert k.next[k.prev[c]] == c;
      WalkVisits(k, n, head, members, seen, k.prev[c]);
    }
  }

  /** `seen` is what a walk from the head has passed when it stands at `t`. */
  ghost predicate Walked(k: Links, n: nat, head: int, members: set<nat>, seen: set<nat>, t: int) {
    && Chain(k, n, head, members) && seen <= members && (t == NIL || (0 <= t && t in members && t !in seen))
    && (if seen == {} then t == head else head in seen)
    && (forall v :: v in seen ==> k.next[v] == t || k.next[v] in seen)
    && forall v :: v in seen && t != NIL ==> k.rank[t] < k.rank[v]
  }

  lemma WalkStep(k: Links, n: nat, head: int, members: set<nat>, seen: set<nat>, t: int)
    requires Walked(k, n, head, members, seen, t) && t != NIL
    ensures Walked(k, n, head, members, seen + {t}, k.next[t])
  {
  }

  lemma WalkEnds(k: Links, n: nat, head: int, members: set<nat>, seen: set<nat>)
    requires Walked(k, n, head, members, seen, NIL)
    ensures seen == members
  {
    forall c | c in members ensures c in seen { WalkVisits(k, n, head, members, seen, c); }
  }

  /** How many objects come before `c` in its chain. */
  ghost function Depth(k: Links, n: nat, head: int, members: set<nat>, c: nat): (d: nat)
    requires Chain(k, n, head, members) && c in members
    decreases k.bound - k.rank[c]
  {
    if k.prev[c] == NIL then 0
    else
      assert k.next[k.prev[c]] == c;
      1 + Depth(k, n, head, members, k.prev[c])
  }

  lemma {:induction false} SameDepth(k: Links, n: nat, head: int, members: set<nat>, c: nat, d: nat)
    requires Chain(k, n, head, members) && c in members && d in members
    requires Depth(k, n, head, members, c) == Depth(k, n, head, members, d)
    ensures c == d
    decreases Depth(k, n, head, members, c)
  {
    if k.prev[c] != NIL && k.prev[d] != NIL {
      assert k.next[k.prev[c]] == c && k.next[k.prev[d]] == d;
      SameDepth(k, n, head, members, k.prev[c], k.prev[d]);
    }
  }

  lemma {:induction false} Deeper(k: Links, n: nat, head: int, members: set<nat>, c: nat, d: nat)
    requires Chain(k, n, head, members) && c in members && d in members
    requires Depth(k, n, head, members, c) < Depth(k, n, head, members, d)
    ensures k.next[c] != NIL && k.rank[d] <= k.rank[k.next[c]] < k.rank[c]
    decreases Depth(k, n, head, members, d)
  {
    var q := k.prev[d];
    assert k.next[q] == d;
    if Depth(k, n, head, members, q) == Depth(k, n, head, members, c) {
      SameDepth(k, n, head, members, q, c);
    } else {
      Deeper(k, n, head, members, c, q);
    }
  }

  /** A chain is in the order of the ranks: nothing comes between an object and the next one. */
  lemma NextBelow(k: Links, n: nat, head: int, members: set<nat>, c: nat, d: nat)
    requires Chain(k, n, head, members) && c in members && d in members && c != d
    ensures k.rank[c] != k.rank[d]
    ensures k.rank[d] < k.rank[c] ==> k.next[c] != NIL && k.rank[d] <= k.rank[k.next[c]]
  {
    if Depth(k, n, head, members, c) == Depth(k, n, head, members, d) {
      SameDepth(k, n, head, members, c, d);
    } else if Depth(k, n, head, members, c) < Depth(k, n, head, members, d) {
      Deeper(k, n, head, members, c, d);
    } else {
      Deeper(k, n, head, members, d, c);
    }
  }

  lemma HeadAbove(k: Links, n: nat, head: int, members: set<nat>, d: nat)
    requires Chain(k, n, head, members) && d in members
    ensures head != NIL && k.rank[d] <= k.rank[head]
  {
    if d != head {
      assert Depth(k, n, head, members, head) == 0 && Depth(k, n, head, members, d) > 0;
      Deeper(k, n, head, members, head, d);
    }
  }

  /** The chain that starts at `head` is put behind the object `last`. */
  ghost function Join(k: Links, n: nat, front: set<nat>, head: int, last: nat): (r: Links)
    requires Sized(k, n) && last < n && NIL <= head < n
  {
    var lift := if head != NIL then k.rank[head] + 1 else 0;
    Links(k.next[last := head], if head != NIL then k.prev[head := last] else k.prev,
          seq(n, c requires 0 <= c < n => if c in front then k.rank[c] + lift else k.rank[c]), k.bound + lift)
  }

  lemma JoinChain(k: Links, n: nat, head: int, members: set<nat>, head2: int, others: set<nat>, last: nat)
    requires Chain(k, n, head, members) && Chain(k, n, head2, others) && members !! others && last in members
      && k.next[last] == NIL
    ensures NIL <= head2 < n && Chain(Join(k, n, members, head2, last), n, head, members + others)
  {
    var k' := Join(k, n, members, head2, last);
    forall d {:trigger k'.next[d]} | d in members + others && k'.next[d] != NIL
      ensures 0 <= k'.next[d] && k'.next[d] in members + others && k'.prev[k'.next[d]] == d
        && k'.rank[k'.next[d]] < k'.rank[d]
    {
      if d != last { assert k'.next[d] == k.next[d] && k.prev[k.next[d]] == d; }
    }
    forall d {:trigger k'.prev[d]} | d in members + others
      ensures if k'.prev[d] == NIL then d == head
              else 0 <= k'.prev[d] && k'.prev[d] in members + others && k'.next[k'.prev[d]] == d
    {
      if d != head2 { assert k'.prev[d] == k.prev[d]; if k.prev[d] != NIL { assert k.next[k.prev[d]] == d; } }
    }
  }

  // ---------- Which objects are alive ----------

  /** `p` goes from object to object along the references that marking follows. */
  ghost predicate Path(edges: seq<seq<nat>>, p: seq<nat>) {
    |p| > 0 && (forall i :: 0 <= i < |p| ==> p[i] < |edges|) && forall i :: 0 < i < |p| ==> p[i] in edges[p[i - 1]]
  }

  ghost predicate Alive(edges: seq<seq<nat>>, roots: seq<nat>, c: nat) {
    exists p :: Path(edges, p) && p[0] in roots && p[|p| - 1] == c
  }

  ghost predicate ClosedSet(edges: seq<seq<nat>>, s: set<nat>) {
    forall c, d :: c in s && c < |edges| && d in edges[c] ==> d in s
  }

  /** A closed set that holds the roots holds everything alive. */
  lemma {:induction false} AliveInClosed(edges: seq<seq<nat>>, roots: seq<nat>, s: set<nat>, p: seq<nat>)
    requires ClosedSet(edges, s) && (forall r :: r in roots ==> r in s) && Path(edges, p) && p[0] in roots
    ensures p[|p| - 1] in s
    decreases |p|
  {
    if |p| > 1 {
      var q := p[..|p| - 1];
      AliveInClosed(edges, roots, s, q);
      assert p[|p| - 1] in edges[p[|p| - 1 - 1]];
    }
  }

  /** What is referenced from something alive is alive. */
  lemma AliveNext(edges: seq<seq<nat>>, roots: seq<nat>, c: nat, d: nat)
    requires Alive(edges, roots, c) && d < |edges| && c < |edges| && d in edges[c]
    ensures Alive(edges, roots, d)
  {
    var p :| Path(edges, p) && p[0] in roots && p[|p| - 1] == c;
    var q := p + [d];
    assert Path(edges, q) && q[0] in roots && q[|q| - 1] == d;
  }

  lemma AliveRoot(edges: seq<seq<nat>>, roots: seq<nat>, c: nat)
    requires c in roots && c < |edges|
    ensures Alive(edges, roots, c)
  {
    assert Path(edges, [c]);
  }

  /** Marked objects are alive, and black ones have only marked references: with no grey object left, black is alive. */
  lemma BlackIsAlive(edges: seq<seq<nat>>, roots: seq<nat>, black: set<nat>)
    requires ClosedSet(edges, black) && (forall r :: r in roots ==> r in black) && forall c :: c in black ==>
      Alive(edges, roots, c)
    ensures forall c :: c in black <==> Alive(edges, roots, c)
  {
    forall c | Alive(edges, roots, c) ensures c in black {
      var p :| Path(edges, p) && p[0] in roots && p[|p| - 1] == c;
      AliveInClosed(edges, roots, black, p);
    }
  }

  lemma Blackened(edges: seq<seq<nat>>, roots: seq<nat>, marked: seq<bool>, black: set<nat>)
    requires |marked| == |edges| && AllMarked(marked, roots, |roots|)
    requires forall c :: 0 <= c < |edges| ==> (marked[c] <==> c in black)
    requires Found(edges, roots, marked, black)
    ensures forall c :: c in black <==> Alive(edges, roots, c)
  {
    forall c, d | c in black && c < |edges| && d in edges[c] ensures d in black {
      var j :| 0 <= j < |edges[c]| && edges[c][j] == d;
      assert AllMarked(marked, edges[c], |edges[c]|);
    }
    BlackIsAlive(edges, roots, black);
  }

  lemma EdgesAlive(edges: seq<seq<nat>>, roots: seq<nat>, o: nat)
    requires o < |edges| && Alive(edges, roots, o) && forall j :: 0 <= j < |edges[o]| ==> edges[o][j] < |edges|
    ensures forall j :: 0 <= j < |edges[o]| ==> Alive(edges, roots, edges[o][j])
  {
    forall j | 0 <= j < |edges[o]| ensures Alive(edges, roots, edges[o][j]) { AliveNext(edges, roots, o, edges[o][j]); }
  }

  /** The objects in `black` are alive, and their references are to marked objects. */
  ghost predicate Found(edges: seq<seq<nat>>, roots: seq<nat>, marked: seq<bool>, black: set<nat>) {
    forall c :: c in black ==> c < |edges| && Alive(edges, roots, c) && AllMarked(marked, edges[c], |edges[c]|)
  }

  lemma FoundMore(edges: seq<seq<nat>>, roots: seq<nat>, marked: seq<bool>, black: set<nat>, o: nat)
    requires Found(edges, roots, marked, black) && o < |edges| && Alive(edges, roots, o)
    requires AllMarked(marked, edges[o], |edges[o]|)
    ensures Found(edges, roots, marked, black + {o})
  {
  }

  lemma FoundOnward(edges: seq<seq<nat>>, roots: seq<nat>, m: seq<bool>, m': seq<bool>, black: set<nat>)
    requires Found(edges, roots, m, black) && Onward(m, m')
    ensures Found(edges, roots, m', black)
  {
    forall c | c in black ensures AllMarked(m', edges[c], |edges[c]|) { OnwardMarked(m, m', edges[c], |edges[c]|); }
  }

  /** The white and the black objects are all, and the grey and the black ones are marked. */
  ghost predicate Shared(n: nat, white: set<nat>, grey: set<nat>, black: set<nat>, marked: seq<bool>) {
    && |marked| == n && white !! black && grey <= white
    && (forall c :: c in white || c in black <==> 0 <= c < n)
    && forall c :: 0 <= c < n ==> (marked[c] <==> c in grey || c in black)
  }

  lemma SharedGrey(n: nat, white: set<nat>, grey: set<nat>, black: set<nat>, marked: seq<bool>, o: nat)
    requires Shared(n, white, grey, black, marked) && o < n && !marked[o]
    ensures Shared(n, white, grey + {o}, black, marked[o := true]) && grey + {o} - {o} == grey
  {
    assert o !in grey && o in white;
  }

  lemma SharedBlack(n: nat, white: set<nat>, grey: set<nat>, black: set<nat>, marked: seq<bool>, o: nat)
    requires Shared(n, white, grey, black, marked) && o in grey
    ensures Shared(n, white - {o}, grey - {o}, black + {o}, marked)
  {
  }

  /** The objects of a chain are still in the same order. */
  ghost predicate SameRanks(k: Links, k': Links, members: set<nat>) {
    forall c :: c in members ==> c < |k.rank| && c < |k'.rank| && k'.rank[c] == k.rank[c]
  }

  class SQSharedState {
    var next: seq<int>
    var prev: seq<int>
    var marked: seq<bool>            // MARK_FLAG of each object
    const edges: seq<seq<nat>>       // the references Mark follows from each object
    var gcChain: int
    var tChain: int                  // the chain of objects found alive
    const ext: seq<nat>              // the references to each object from outside
    var held: seq<seq<nat>>          // the references each object holds
    var rc: seq<nat>                 // the reference counts
    ghost var h: Heap                // `held` and `rc`, with the objects freed
    ghost var k: Links               // `next` and `prev`, with the ranks that order the chains
    ghost var white: set<nat>        // objects on the chain of all objects
    ghost var grey: set<nat>         // objects whose marking is under way, still on the chain of all objects
    ghost var black: set<nat>        // objects on the chain of those found alive

    ghost predicate Linked(head: int, members: set<nat>)
      reads this`next, this`prev, this`k
    {
      next == k.next && prev == k.prev && Chain(k, |edges|, head, members)
    }

    /** Both chains are well formed and share out all objects; every reference is to an object. */
    ghost predicate Valid()
      reads this
    {
      && var n := |edges|;
      && Linked(gcChain, white) && Linked(tChain, black) && Shared(n, white, grey, black, marked) && EdgesInside()
    }

    ghost predicate EdgesInside() {
      forall c, j :: 0 <= c < |edges| && 0 <= j < |edges[c]| ==> edges[c][j] < |edges|
    }

    /** Objects found alive are alive, and every reference of one is to a marked object. */
    ghost predicate Marking(roots: seq<nat>)
      reads this
    {
      Valid() && Found(edges, roots, marked, black)
    }

    method RemoveFromChain(c: nat)
      requires Linked(gcChain, white) && Linked(tChain, black) && white !! black && c in white
      modifies this`next, this`prev, this`gcChain, this`k, this`white
      ensures white == old(white) - {c} && k.rank == old(k.rank)
      ensures Linked(gcChain, white) && Linked(tChain, black)
    {
      UnlinkChain(k, |edges|, gcChain, white, c, tChain, black);
      var p, x := prev[c], next[c];
      if p != NIL { next := next[p := x]; } else { gcChain := x; }
      if x != NIL { prev := prev[x := p]; }
      next, prev := next[c := NIL], prev[c := NIL];
      k, white := Unlink(k, |edges|, c), white - {c};
    }

    method AddToChain(c: nat)
      requires Linked(gcChain, white) && Linked(tChain, black) && white !! black
      requires c < |edges| && c !in white && c !in black
      modifies this`next, this`prev, this`tChain, this`k, this`black
      ensures black == old(black) + {c} && SameRanks(old(k), k, white)
      ensures Linked(gcChain, white) && Linked(tChain, black)
    {
      LinkChain(k, |edges|, tChain, black, c, gcChain, white);
      k, black := Link(k, |edges|, tChain, c), black + {c};
      prev, next := prev[c := NIL], next[c := tChain];
      if tChain != NIL { prev := prev[tChain := c]; }
      tChain := c;
    }

    method SetMark(o: nat, ghost roots: seq<nat>)
      requires Marking(roots) && o < |edges| && !marked[o]
      modifies this`marked, this`grey
      ensures Marking(roots) && marked == old(marked)[o := true] && grey == old(grey) + {o}
      ensures Unmarked(marked) < Unmarked(old(marked))
    {
      ghost var before := marked;
      SharedGrey(|edges|, white, grey, black, marked, o);
      FoundOnward(edges, roots, marked, marked[o := true], black);
      marked, grey := marked[o := true], grey + {o};
      assert o !in Unmarked(marked) && o in Unmarked(before) && Unmarked(marked) <= Unmarked(before);
    }

    method ChangeChain(o: nat)
      requires Linked(gcChain, white) && Linked(tChain, black) && white !! black && o in white
      modifies this`next, this`prev, this`gcChain, this`tChain, this`k, this`white, this`black
      ensures Linked(gcChain, white) && Linked(tChain, black) && SameRanks(old(k), k, white)
      ensures white == old(white) - {o} && black == old(black) + {o}
    {
      RemoveFromChain(o);
      AddToChain(o);
    }

    method MoveToLive(o: nat, ghost roots: seq<nat>)
      requires Marking(roots) && o in grey && Alive(edges, roots, o) && AllMarked(marked, edges[o], |edges[o]|)
      modifies this`next, this`prev, this`gcChain, this`tChain, this`k, this`white, this`grey, this`black
      ensures Marking(roots) && grey == old(grey) - {o} && white <= old(white) && SameRanks(old(k), k, white)
    {
      SharedBlack(|edges|, white, grey, black, marked, o);
      FoundMore(edges, roots, marked, black, o);
      ChangeChain(o);
      grey := grey - {o};
    }

    /**
      Marks what is reachable from `o`, in any graph. Objects whose marking is under way stay where
      they are; all others that get marked move to the chain of those found alive.
     */
    method Mark(o: nat, ghost roots: seq<nat>)
      requires Marking(roots) && o < |edges| && Alive(edges, roots, o)
      modifies this`next, this`prev, this`marked, this`gcChain, this`tChain, this`k, this`white, this`grey, this`black
      ensures Marking(roots) && marked[o] && Onward(old(marked), marked)
      ensures grey == old(grey) && white <= old(white) && SameRanks(old(k), k, white)
      decreases Unmarked(marked), 1
    {
      if !marked[o] { MarkNew(o, roots); }
    }

    method MarkNew(o: nat, ghost roots: seq<nat>)
      requires Marking(roots) && o < |edges| && Alive(edges, roots, o) && !marked[o]
      modifies this`next, this`prev, this`marked, this`gcChain, this`tChain, this`k, this`white, this`grey, this`black
      ensures Marking(roots) && marked[o] && Onward(old(marked), marked)
      ensures grey == old(grey) && white <= old(white) && SameRanks(old(k), k, white)
      decreases Unmarked(marked), 0
    {
      SharedGrey(|edges|, white, grey, black, marked, o);
      SetMark(o, roots);
      EdgesAlive(edges, roots, o);
      ghost var m := marked;
      MarkEach(edges[o], roots);
      OnwardTrans(old(marked), m, marked);
      MoveToLive(o, roots);
    }

    /** Marks each of some objects and what they lead to. */
    method MarkEach(os: seq<nat>, ghost roots: seq<nat>)
      requires Marking(roots) && forall j :: 0 <= j < |os| ==> os[j] < |edges| && Alive(edges, roots, os[j])
      modifies this`next, this`prev, this`marked, this`gcChain, this`tChain, this`k, this`white, this`grey, this`black
      ensures Marking(roots) && AllMarked(marked, os, |os|) && Onward(old(marked), marked)
      ensures grey == old(grey) && white <= old(white) && SameRanks(old(k), k, white)
      decreases Unmarked(marked), 2
    {
      var i := 0;
      while i < |os|
        invariant 0 <= i <= |os| && Marking(roots) && AllMarked(marked, os, i) && Onward(old(marked), marked)
        invariant grey == old(grey) && white <= old(white) && SameRanks(old(k), k, white)
      {
        ghost var m := marked;
        OnwardUnmarked(old(marked), marked);
        Mark(os[i], roots);
        OnwardMarked(m, marked, os, i);
        OnwardTrans(old(marked), m, marked);
        OneMoreMarked(marked, os, i);
        i := i + 1;
      }
    }

    /**
      On any graph, cyclic or not, the chain of objects found alive ends up with exactly those
      reachable from the roots.
     */
    method RunMark(roots: seq<nat>)
      requires Valid() && grey == {} && black == {} && forall j :: 0 <= j < |roots| ==> roots[j] < |edges|
      modifies this`next, this`prev, this`marked, this`gcChain, this`tChain, this`k, this`white, this`grey, this`black
      ensures Valid() && grey == {} && forall c :: c in black <==> Alive(edges, roots, c)
      ensures white <= old(white) && SameRanks(old(k), k, white)
    {
      forall j | 0 <= j < |roots| ensures Alive(edges, roots, roots[j]) { AliveRoot(edges, roots, roots[j]); }
      MarkEach(roots, roots);
      Blackened(edges, roots, marked, black);
    }

    /** Clears the mark of every object on a chain. */
    method UnMark(head: int, ghost members: set<nat>)
      requires |marked| == |edges| && Linked(head, members)
      modifies this`marked
      ensures |marked| == |edges| && forall c :: 0 <= c < |edges| ==> marked[c] == (old(marked)[c] && c !in members)
    {
      var t := head;
      ghost var seen: set<nat> := {};
      while t != NIL
        invariant Walked(k, |edges|, head, members, seen, t) && |marked| == |edges|
        invariant forall c :: 0 <= c < |edges| ==> marked[c] == (old(marked)[c] && c !in seen)
        decreases if t == NIL then 0 else k.rank[t] + 1
      {
        WalkStep(k, |edges|, head, members, seen, t);
        seen := seen + {t};
        marked := marked[t := false];
        t := next[t];
      }
      WalkEnds(k, |edges|, head, members, seen);
    }

    /**
      The garbage comes back to life: `ret` lists the objects that are not alive, each once, except
      function prototypes and outers; all objects are on one chain again and none is marked.
     */
    method ResurrectUnreachable(roots: seq<nat>, hidden: seq<bool>) returns (ret: seq<nat>, n: nat)
      requires Valid() && grey == {} && black == {} && forall j :: 0 <= j < |roots| ==> roots[j] < |edges|
      requires |hidden| == |edges|
      modifies this
      ensures Linked(gcChain, white + black) && forall c :: c in white + black <==> 0 <= c < |edges|
      ensures |marked| == |edges| && forall c :: 0 <= c < |edges| ==> !marked[c]
      ensures n == |white| && forall c :: c in white <==> 0 <= c < |edges| && !Alive(edges, roots, c)
      ensures forall i, j :: 0 <= i < j < |ret| ==> ret[i] != ret[j]
      ensures forall c :: c in ret <==> c in white && !hidden[c]
    {
      RunMark(roots);
      var last;
      ret, n, last := Gather(gcChain, white, hidden);
      PutBehind(last);
      UnMark(gcChain, white + black);
    }

    /** The live objects go behind the garbage, which ends at `last`. */
    method PutBehind(last: int)
      requires Linked(gcChain, white) && Linked(tChain, black) && white !! black
      requires if gcChain == NIL then last == NIL else 0 <= last && last in white && next[last] == NIL
      modifies this`next, this`prev, this`gcChain, this`k
      ensures Linked(gcChain, white + black)
    {
      if gcChain == NIL {
        gcChain := tChain;
        assert white + black == black;
      } else {
        JoinChain(k, |edges|, gcChain, white, tChain, black, last);
        k := Join(k, |edges|, white, tChain, last);
        next := next[last := tChain];
        if tChain != NIL { prev := prev[tChain := last]; }
      }
    }

    /** Walks the chain of all objects; `last` is where it ends. */
    method Gather(head: int, ghost members: set<nat>, hidden: seq<bool>) returns (ret: seq<nat>, n: nat, last: int)
      requires Linked(head, members) && |hidden| == |edges|
      ensures n == |members| && (forall i, j :: 0 <= i < j < |ret| ==> ret[i] != ret[j])
      ensures forall c :: c in ret <==> c in members && !hidden[c]
      ensures if head == NIL then last == NIL else 0 <= last && last in members && next[last] == NIL
    {
      var t := head;
      ghost var seen: set<nat> := {};
      ret, n, last := [], 0, NIL;
      while t != NIL
        invariant Walked(k, |edges|, head, members, seen, t) && n == |seen|
        invariant forall i, j :: 0 <= i < j < |ret| ==> ret[i] != ret[j]
        invariant forall c :: c in ret <==> c in seen && !hidden[c]
        invariant if t == head then last == NIL else 0 <= last && last in members && next[last] == t
        decreases if t == NIL then 0 else k.rank[t] + 1
      {
        WalkStep(k, |edges|, head, members, seen, t);
        last := t;
        if !hidden[t] { ret := ret + [t]; }
        seen := seen + {t};
        t := next[t];
        n := n + 1;
      }
      WalkEnds(k, |edges|, head, members, seen);
    }
  }

  ghost function Unmarked(marked: seq<bool>): (s: set<nat>) {
    set c: nat | c < |marked| && !marked[c]
  }

  ghost predicate AllMarked(m: seq<bool>, os: seq<nat>, n: nat) {
    n <= |os| && forall j :: 0 <= j < n ==> os[j] < |m| && m[os[j]]
  }

  lemma OnwardMarked(m: seq<bool>, m': seq<bool>, os: seq<nat>, n: nat)
    requires Onward(m, m') && AllMarked(m, os, n)
    ensures AllMarked(m', os, n)
  {
  }

  lemma OneMoreMarked(m: seq<bool>, os: seq<nat>, n: nat)
    requires AllMarked(m, os, n) && n < |os| && os[n] < |m| && m[os[n]]
    ensures AllMarked(m, os, n + 1)
  {
  }

  lemma OnwardTrans(m: seq<bool>, m': seq<bool>, m'': seq<bool>)
    requires Onward(m, m') && Onward(m', m'')
    ensures Onward(m, m'')
  {
  }

  lemma OnwardUnmarked(m: seq<bool>, m': seq<bool>)
    requires Onward(m, m')
    ensures Unmarked(m') <= Unmarked(m)
  {
  }

  ghost predicate Onward(m: seq<bool>, m': seq<bool>) {
    |m| == |m'| && forall c :: 0 <= c < |m| && m[c] ==> m'[c]
  }
}
