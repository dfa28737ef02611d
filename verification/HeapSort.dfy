/**
  Sorting an array in place. The heap is unusual: node k has children 2k and 2k+1 from a zero
  base, so that node 0 is a child of itself and node 1 its other child.
 */
module HeapSort {

  /** What a call of the compare function answers: a number, or nothing when it fails. */
  datatype Answer = Failed | Number(n: int)

  /**
    The compare function. It may be a script that answers differently every time, so its answer
    depends on how often it was called before.
   */
  type Compare<!T> = (nat, T, T) -> Answer

  /** A compare function that never fails and agrees with an order. */
  ghost predicate Agrees<T(!new)>(cmp: Compare<T>, le: (T, T) -> bool) {
    && (forall k: nat, x, y ::
          cmp(k, x, y).Number? && (cmp(k, x, y).n <= 0 <==> le(x, y)) && (cmp(k, x, y).n < 0 <==> !le(y, x)))
    && Preorder(le)
  }

  ghost predicate Preorder<T(!new)>(le: (T, T) -> bool) {
    && (forall x, y :: le(x, y) || le(y, x))
    && (forall x, y, z {:trigger le(x, y), le(y, z)} :: le(x, y) && le(y, z) ==> le(x, z))
  }

  /** The calls of the compare function so far: what it was called with. */
  type Calls<T> = seq<(T, T)>

  /** No call has failed. */
  ghost predicate Answered<T>(cmp: Compare<T>, calls: Calls<T>) {
    forall k :: 0 <= k < |calls| ==> cmp(k, calls[k].0, calls[k].1).Number?
  }

  /** The last call failed, or made an element smaller than itself; no other failed. */
  ghost predicate Refused<T>(cmp: Compare<T>, calls: Calls<T>) {
    var last := |calls| - 1;
    && calls != [] && Answered(cmp, calls[..last])
    && var (x, y) := calls[last];
       var r := cmp(last, x, y);
       r.Failed? || (r.n < 0 && x == y)
  }

  predicate Child(p: int, c: int) {
    p >= 0 && (c == 2 * p || c == 2 * p + 1)
  }

  /** From node `lo` on, up to `hi`, no child is greater than its parent; `hole` is not looked at as a parent. */
  ghost predicate Heap<T>(s: seq<T>, le: (T, T) -> bool, lo: nat, hi: int, hole: int) {
    hi < |s| && forall p, c {:trigger Child(p, c)} :: Child(p, c) && lo <= p && p != hole && c <= hi ==> le(s[c], s[p])
  }

  function Swap<T>(s: seq<T>, i: nat, j: nat): (r: seq<T>)
    requires i < |s| && j < |s|
  {
    s[i := s[j]][j := s[i]]
  }

  lemma SwapPermutes<T>(s: seq<T>, i: nat, j: nat)
    requires i < |s| && j < |s|
    ensures multiset(Swap(s, i, j)) == multiset(s)
  {
  }

  /** The parents of a node that sinks are not smaller than its children. */
  ghost predicate Above<T>(s: seq<T>, le: (T, T) -> bool, lo: nat, hi: int, root: nat) {
    root < |s| && hi < |s| && forall p, c {:trigger Child(p, root), Child(root, c)} ::
      Child(p, root) && Child(root, c) && lo <= p && p != root && c <= hi && c != root ==> le(s[c], s[p])
  }

  /** One step of sinking: the greater child goes up. */
  lemma SinkStep<T(!new)>(s: seq<T>, le: (T, T) -> bool, lo: nat, hi: int, root: nat, child: nat)
    requires Preorder(le) && lo <= root <= hi && Heap(s, le, lo, hi, root) && Above(s, le, lo, hi, root)
    requires Child(root, child) && child <= hi && child != root && le(s[root], s[child])
    requires forall c {:trigger Child(root, c)} :: Child(root, c) && c <= hi ==> le(s[c], s[child])
    ensures Heap(Swap(s, root, child), le, lo, hi, child) && Above(Swap(s, root, child), le, lo, hi, child)
  {
    var r := Swap(s, root, child);
    forall p, c {:trigger Child(p, c)} | Child(p, c) && lo <= p && p != child && c <= hi ensures le(r[c], r[p]) {
      if p == root {
        assert Child(root, c);
      } else if c == root {
        assert Child(p, root) && Child(root, child);
      }
    }
    forall p, c {:trigger Child(p, child), Child(child, c)} | Child(p, child) && Child(child, c) && lo <= p
      && p != child && c <= hi && c != child
      ensures le(r[c], r[p])
    {
      assert p == root;
      assert le(s[c], s[child]);
    }
  }

  /** When no child is greater than the root, sinking is over. */
  lemma SinkDone<T>(s: seq<T>, le: (T, T) -> bool, lo: nat, hi: int, root: nat)
    requires Heap(s, le, lo, hi, root)
    requires forall c {:trigger Child(root, c)} :: Child(root, c) && c <= hi && root < |s| ==> le(s[c], s[root])
    requires root < |s|
    ensures Heap(s, le, lo, hi, -1)
  {
  }

  /** In a heap no element is greater than the first. */
  lemma {:induction false} RootIsMax<T(!new)>(s: seq<T>, le: (T, T) -> bool, hi: int, j: nat)
    requires Preorder(le) && Heap(s, le, 0, hi, -1) && j <= hi
    ensures le(s[j], s[0])
    decreases j
  {
    if j > 0 {
      assert Child(j / 2, j);
      RootIsMax(s, le, hi, j / 2);
    }
  }

  lemma PrefixPermuted<T>(s: seq<T>, r: seq<T>, k: nat)
    requires |s| == |r| && k <= |s| && multiset(s) == multiset(r) && s[k..] == r[k..]
    ensures multiset(s[..k]) == multiset(r[..k])
  {
    var a, b, c := multiset(s[..k]), multiset(r[..k]), multiset(s[k..]);
    assert s == s[..k] + s[k..] && r == r[..k] + r[k..];
    assert a + c == b + c;
    assert a == (a + c) - c && b == (b + c) - c;
  }

  /**
    The child that an element would change places with, and whether it does. A compare function
    that makes an element smaller than itself is found out.
   */
  method PickChild<T(!new)>(a: array<T>, root: nat, bottom: nat, cmp: Compare<T>, calls: nat, ghost all: Calls<T>,
      ghost le: (T, T) -> bool)
      returns (ok: bool, sinks: bool, child: nat, calls': nat, ghost all': Calls<T>)
    requires 2 * root <= bottom < a.Length && calls == |all| && Answered(cmp, all)
    ensures child <= bottom && Child(root, child) && (ok && sinks ==> child != root)
    ensures calls' == |all'| && all < all' && if ok then Answered(cmp, all') else Refused(cmp, all')
    ensures ok ==> var r := cmp(calls' - 1, a[root], a[child]); r.Number? && (sinks <==> r.n < 0)
    ensures ok && 2 * root < bottom ==>
      var r := cmp(calls, a[2 * root], a[2 * root + 1]); r.Number? && (child == 2 * root <==> r.n > 0)
    ensures Agrees(cmp, le) ==> ok
    ensures Agrees(cmp, le) && sinks ==>
      le(a[root], a[child]) && forall c {:trigger Child(root, c)} :: Child(root, c) && c <= bottom ==>
        le(a[c], a[child])
    ensures Agrees(cmp, le) && !sinks ==> forall c {:trigger Child(root, c)} :: Child(root, c) && c <= bottom ==>
      le(a[c], a[root])
  {
    var root2 := 2 * root;
    child, calls', sinks, all' := root2, calls, false, all;
    if root2 != bottom {
      var r := cmp(calls', a[root2], a[root2 + 1]);
      calls', all' := calls' + 1, all' + [(a[root2], a[root2 + 1])];
      assert all'[..|all|] == all;
      if r.Failed? { return false, false, child, calls', all'; }
      if r.n <= 0 { child := root2 + 1; }
    }
    ghost var before := all';
    var r := cmp(calls', a[root], a[child]);
    calls', all' := calls' + 1, all' + [(a[root], a[child])];
    assert all'[..|before|] == before;
    if r.Failed? { return false, false, child, calls', all'; }
    sinks := r.n < 0;
    ok := !(sinks && root == child);
  }

  /**
    Lets the element at `root0` sink. Whatever the compare function answers, this ends and only
    permutes; with a compare function that agrees with an order it mends the heap.
   */
  method SiftDown<T(==, !new)>(a: array<T>, root0: nat, bottom: int, cmp: Compare<T>, calls: nat, ghost all: Calls<T>,
      ghost le: (T, T) -> bool)
      returns (ok: bool, calls': nat, ghost all': Calls<T>)
    requires -1 <= bottom < a.Length && root0 < a.Length && calls == |all| && Answered(cmp, all)
    modifies a
    ensures calls' == |all'| && all <= all' && if ok then Answered(cmp, all') else Refused(cmp, all')
    ensures multiset(a[..]) == multiset(old(a[..])) && a[bottom + 1..] == old(a[bottom + 1..])
    ensures Agrees(cmp, le) ==> ok
    ensures Agrees(cmp, le) && old(Heap(a[..], le, root0, bottom, root0)) ==> Heap(a[..], le, root0, bottom, -1)
  {
    var root, done := root0, false;
    calls', all' := calls, all;
    ghost var s := a[..];
    ghost var good := Agrees(cmp, le) && Heap(s, le, root0, bottom, root0);
    while 2 * root <= bottom && !done
      invariant a[..] == s && root0 <= root < a.Length && multiset(s) == multiset(old(a[..]))
      invariant calls' == |all'| && all <= all' && Answered(cmp, all')
      invariant a[bottom + 1..] == old(a[bottom + 1..])
      invariant good && !done ==>
        Heap(s, le, root0, bottom, root) && (root <= bottom ==> Above(s, le, root0, bottom, root))
      invariant good && done ==> Heap(s, le, root0, bottom, -1)
      decreases !done, bottom - root
    {
      var sinks: bool, child: nat;
      ok, sinks, child, calls', all' := PickChild(a, root, bottom, cmp, calls', all', le);
      if !ok { return; }
      if sinks {
        if good { SinkStep(s, le, root0, bottom, root, child); }
        SwapPermutes(s, root, child);
        s := Swap(s, root, child);
        a[root], a[child] := a[child], a[root];
        root := child;
      } else {
        if good { SinkDone(s, le, root0, bottom, root); }
        done := true;
      }
    }
    ok := true;
    if good && !done { SinkDone(s, le, root0, bottom, root); }
  }

  /** The elements from `k` on are in order, and none before them is greater. */
  ghost predicate SortedFrom<T>(s: seq<T>, le: (T, T) -> bool, k: nat) {
    forall i, j :: 0 <= i < j < |s| && k <= j ==> le(s[i], s[j])
  }

  /** The greatest element goes behind the heap. */
  lemma TakeMax<T(!new)>(s: seq<T>, le: (T, T) -> bool, i: nat)
    requires Preorder(le) && 0 < i < |s| && Heap(s, le, 0, i, -1) && SortedFrom(s, le, i + 1)
    ensures Heap(Swap(s, 0, i), le, 0, i - 1, 0) && SortedFrom(Swap(s, 0, i), le, i)
  {
    var r := Swap(s, 0, i);
    forall x, y | 0 <= x < y < |r| && i <= y ensures le(r[x], r[y]) {
      if y == i {
        RootIsMax(s, le, i, if x == 0 then i else x);
      } else if x == 0 {
        assert le(s[i], s[y]);
      } else if x == i {
        assert le(s[0], s[y]);
      }
    }
    forall p, c {:trigger Child(p, c)} | Child(p, c) && 0 <= p && p != 0 && c <= i - 1 ensures le(r[c], r[p]) {
    }
  }

  /** Permuting the part before `k` keeps what is in order. */
  lemma PermuteBefore<T>(s: seq<T>, r: seq<T>, le: (T, T) -> bool, k: nat)
    requires SortedFrom(s, le, k) && |s| == |r| && k <= |s| && multiset(s) == multiset(r) && s[k..] == r[k..]
    ensures SortedFrom(r, le, k)
  {
    PrefixPermuted(s, r, k);
    forall i, j | 0 <= i < j < |r| && k <= j ensures le(r[i], r[j]) {
      assert r[j] == r[k..][j - k] == s[k..][j - k] == s[j];
      if i < k {
        assert r[i] == r[..k][i] && r[i] in multiset(r[..k]);
        assert r[i] in s[..k];
        var x :| 0 <= x < k && s[..k][x] == r[i];
        assert s[x] == r[i];
      } else {
        assert r[i] == r[k..][i - k] == s[k..][i - k] == s[i];
      }
    }
  }

  /**
    Sorts. Whatever the compare function answers, this ends with the same elements; with a compare
    function that agrees with an order it succeeds and leaves them in order.
   */
  method Sort<T(==, !new)>(a: array<T>, cmp: Compare<T>, ghost le: (T, T) -> bool)
      returns (ok: bool, ghost all: Calls<T>)
    modifies a
    ensures if ok then Answered(cmp, all) else Refused(cmp, all)
    ensures multiset(a[..]) == multiset(old(a[..]))
    ensures Agrees(cmp, le) ==> ok && SortedFrom(a[..], le, 0)
  {
    var calls := 0;
    all := [];
    var n := a.Length;
    if n <= 1 { return true, all; }
    var i: int := n / 2;
    while i >= 0
      invariant -1 <= i <= n / 2 && multiset(a[..]) == multiset(old(a[..])) && calls == |all| && Answered(cmp, all)
      invariant Agrees(cmp, le) ==> Heap(a[..], le, i + 1, n - 1, -1)
    {
      assert Agrees(cmp, le) ==> Heap(a[..], le, i, n - 1, i);
      ok, calls, all := SiftDown(a, i, n - 1, cmp, calls, all, le);
      if !ok { return; }
      i := i - 1;
    }
    i := n - 1;
    while i >= 1
      invariant 0 <= i < n && multiset(a[..]) == multiset(old(a[..])) && calls == |all| && Answered(cmp, all)
      invariant Agrees(cmp, le) ==> Heap(a[..], le, 0, i, -1) && SortedFrom(a[..], le, i + 1)
    {
      ghost var s := a[..];
      SwapPermutes(s, 0, i);
      a[0], a[i] := a[i], a[0];
      ghost var r := a[..];
      assert r == Swap(s, 0, i);
      if Agrees(cmp, le) { TakeMax(s, le, i); }
      ok, calls, all := SiftDown(a, 0, i - 1, cmp, calls, all, le);
      if !ok { return; }
      if Agrees(cmp, le) { PermuteBefore(r, a[..], le, i); }
      i := i - 1;
    }
    ok := true;
  }
}
