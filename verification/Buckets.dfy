/**
  Singly linked lists in one arena of nodes, as in the reference table and the string table
  (utility/sqstate.cpp). A link is the index of a node, or -1.
 */
module Buckets {
  /** `owner[i]` is the list node `i` is in, or -1; `rank[i]` is the number of nodes after it. */
  datatype Lists = Lists(next: seq<int>, heads: seq<int>, owner: seq<int>, rank: seq<nat>, len: seq<nat>)

  predicate Sized(l: Lists) {
    |l.owner| == |l.next| && |l.rank| == |l.next| && |l.len| == |l.heads|
  }

  predicate Linked(l: Lists, i: nat)
    requires Sized(l) && i < |l.next|
  {
    var b := l.owner[i];
    && -1 <= b < |l.heads|
    && (b >= 0 ==>
          && l.rank[i] < l.len[b]
          && (if l.rank[i] == 0 then l.next[i] == -1
              else 0 <= l.next[i] < |l.next| && l.owner[l.next[i]] == b && l.rank[l.next[i]] == l.rank[i] - 1))
  }

  predicate Headed(l: Lists, b: nat)
    requires Sized(l) && b < |l.heads|
  {
    if l.len[b] == 0 then l.heads[b] == -1
    else 0 <= l.heads[b] < |l.next| && l.owner[l.heads[b]] == b && l.rank[l.heads[b]] == l.len[b] - 1
  }

  predicate Apart(l: Lists, i: nat, j: nat)
    requires Sized(l) && i < |l.next| && j < |l.next|
  {
    l.owner[i] == l.owner[j] >= 0 && l.rank[i] == l.rank[j] ==> i == j
  }

  ghost predicate Valid(l: Lists) {
    && Sized(l)
    && (forall i :: 0 <= i < |l.next| ==> Linked(l, i))
    && (forall b :: 0 <= b < |l.heads| ==> Headed(l, b))
    && (forall i, j :: 0 <= i < |l.next| && 0 <= j < |l.next| ==> Apart(l, i, j))
  }

  /** Node `i`, in no list, put in front of list `b`. */
  function Push(l: Lists, b: nat, i: nat): (r: Lists)
    requires Sized(l) && b < |l.heads| && i < |l.next|
  {
    Lists(l.next[i := l.heads[b]], l.heads[b := i], l.owner[i := b], l.rank[i := l.len[b]], l.len[b := l.len[b] + 1])
  }

  lemma PushValid(l: Lists, b: nat, i: nat)
    requires Valid(l) && b < |l.heads| && i < |l.next| && l.owner[i] == -1
    ensures Valid(Push(l, b, i))
  {
    var m := Push(l, b, i);
    assert Headed(l, b);
    forall j | 0 <= j < |m.next| ensures Linked(m, j) { assert Linked(l, j); }
    forall d | 0 <= d < |m.heads| ensures Headed(m, d) { assert Headed(l, d); }
    forall j, k | 0 <= j < |m.next| && 0 <= k < |m.next| ensures Apart(m, j, k) {
      assert Apart(l, j, k) && Linked(l, j) && Linked(l, k);
    }
  }

  /** The ranks in a list once the node of rank `r` is gone. */
  function Lowered(l: Lists, b: int, r: nat): (res: seq<nat>)
    requires Sized(l)
  {
    seq(|l.rank|, i requires 0 <= i < |l.rank| => if l.owner[i] == b && l.rank[i] > r then l.rank[i] - 1 else l.rank[i])
  }

  /** Node `i` taken out of its list; `prev` is the node before it, or -1 if it is the first. */
  function Cut(l: Lists, i: nat, prev: int): (r: Lists)
    requires Sized(l) && i < |l.next| && 0 <= l.owner[i] < |l.heads| && -1 <= prev < |l.next|
    requires l.len[l.owner[i]] > 0
  {
    var b := l.owner[i];
    Lists(if prev >= 0 then l.next[prev := l.next[i]] else l.next,
          if prev >= 0 then l.heads else l.heads[b := l.next[i]],
          l.owner[i := -1], Lowered(l, b, l.rank[i]), l.len[b := l.len[b] - 1])
  }

  /** `prev` is the node before `i`, or -1 if `i` is the first of its list. */
  predicate Before(l: Lists, i: nat, prev: int)
    requires Sized(l) && i < |l.next|
  {
    if prev == -1 then 0 <= l.owner[i] < |l.heads| && l.heads[l.owner[i]] == i
    else 0 <= prev < |l.next| && l.owner[prev] == l.owner[i] >= 0 && l.next[prev] == i
  }

  lemma CutValid(l: Lists, i: nat, prev: int)
    requires Valid(l) && i < |l.next| && l.owner[i] >= 0 && Before(l, i, prev)
    ensures l.owner[i] < |l.heads| && l.len[l.owner[i]] > 0 && Valid(Cut(l, i, prev))
  {
    assert Linked(l, i);
    var b, r := l.owner[i], l.rank[i];
    var m := Cut(l, i, prev);
    assert Headed(l, b);
    if prev >= 0 { assert Linked(l, prev); }
    forall j | 0 <= j < |m.next| ensures Linked(m, j) {
      assert Linked(l, j) && Apart(l, i, j);
      if l.owner[j] == b && l.rank[j] > 0 {
        assert Apart(l, i, l.next[j]);
        if prev >= 0 { assert Apart(l, j, prev); }
      }
    }
    forall d | 0 <= d < |m.heads| ensures Headed(m, d) {
      assert Headed(l, d);
      if d == b && l.len[b] > 1 {
        assert Apart(l, l.heads[b], i);
        assert Linked(l, l.heads[b]);
      }
    }
    forall j, k | 0 <= j < |m.next| && 0 <= k < |m.next| ensures Apart(m, j, k) {
      assert Apart(l, j, k) && Apart(l, i, j) && Apart(l, i, k);
    }
  }
}
