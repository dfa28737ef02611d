/** The hash table behind every Squirrel table, class and instance. */
module Table {
  import opened ScatterNodes

  const MINPOWER2: nat := 4

  /** Where an iteration resumes: the null object, or the index the last step returned. */
  datatype RefPos = Start | At(idx: nat)

  function TranslateIndex(pos: RefPos): (i: nat) {
    match pos case Start => 0 case At(i) => i
  }

  /** No tombstone anywhere, and every node above the free pointer is live. */
  ghost predicate Compact<T>(s: seq<Node<T>>, ff: int) {
    && (forall i :: 0 <= i < |s| && ff < i ==> s[i].key.Ref?)
    && (forall i :: 0 <= i < |s| && s[i].key.Null? ==> s[i].next == NIL)
  }

  /** The node that inserting an absent key uses up: its main position, or else the free node. */
  ghost function TakenNode<T>(hash: Obj<T> -> nat, s: seq<Node<T>>, ff: int, k: Obj<T>): (i: int)
    requires |s| > 0
  {
    var mp := MainPos(hash, k, |s|);
    if s[mp].key.Null? then mp else ff
  }

  /** Some node at or below the free pointer stays free after inserting `k`. */
  ghost predicate HasSpareNode<T>(hash: Obj<T> -> nat, s: seq<Node<T>>, ff: int, k: Obj<T>)
    requires |s| > 0
  {
    exists i :: 0 <= i <= ff && i < |s| && Free(s[i]) && i != TakenNode(hash, s, ff, k)
  }

  /** The table's node array at rest or between two steps of an insertion. */
  ghost predicate Shaped<T>(hash: Obj<T> -> nat, s: seq<Node<T>>, rank: seq<nat>, ff: nat) {
    IsPow2(|s|) && |s| >= MINPOWER2 && ff < |s| && Layout(hash, s, rank, -1)
  }

  /** The table's node array at rest: the free pointer is free and the count is exact. */
  ghost predicate ValidNodes<T>(hash: Obj<T> -> nat, s: seq<Node<T>>, rank: seq<nat>, ff: nat, used: nat) {
    Shaped(hash, s, rank, ff) && LinksAbove(s, ff) && Free(s[ff]) && used == Live(s)
  }

  /** `s'` is `s` with the absent key `k` put on node `at`; `ff` may now be taken. */
  ghost predicate Placed<T>(hash: Obj<T> -> nat, s: seq<Node<T>>, ff: nat, k: Obj<T>,
      s': seq<Node<T>>, rank': seq<nat>, at: nat)
    requires |s| > 0 && k.Ref?
  {
    && |s'| == |s| && ff < |s|
    && Layout(hash, s', rank', ff - 1)
    && (Free(s'[ff]) ==> LinksAbove(s', ff))
    && LiveAt(s', at) && s'[at].key == k
    && Live(s') == Live(s) + 1
    && ContentsOf(s') == ContentsOf(s)[k.o := s'[at].val]
    && (forall i :: 0 <= i <= ff ==> (Free(s'[i]) <==> Free(s[i]) && i != TakenNode(hash, s, ff, k)))
    && (Compact(s, ff) ==> Compact(s', ff))
  }

  lemma PlaceAtPlaced<T>(hash: Obj<T> -> nat, s: seq<Node<T>>, rank: seq<nat>, ff: nat, mp: nat, k: Obj<T>)
    requires ff < |s| && Layout(hash, s, rank, ff) && mp < |s| && s[mp].key.Null?
    requires k.Ref? && Absent(s, k) && mp == MainPos(hash, k, |s|)
    ensures Placed(hash, s, ff, k, PlaceAt(s, mp, k), rank, mp)
  {
    PlaceAtLayout(hash, s, rank, ff, mp, k);
    LowerPointer(hash, PlaceAt(s, mp, k), rank, ff, ff - 1);
    PlaceAtContents(s, mp, k);
    PlaceAtFree(hash, s, ff, mp, k);
  }

  lemma PlaceAtFree<T>(hash: Obj<T> -> nat, s: seq<Node<T>>, ff: nat, mp: nat, k: Obj<T>)
    requires ff < |s| && mp < |s| && s[mp].key.Null? && k.Ref? && mp == MainPos(hash, k, |s|)
    ensures var s' := PlaceAt(s, mp, k);
            && (forall i :: 0 <= i <= ff ==> (Free(s'[i]) <==> Free(s[i]) && i != TakenNode(hash, s, ff, k)))
            && (Compact(s, ff) ==> Compact(s', ff))
  {
  }

  /** The layout does not depend on how low the free pointer is. */
  lemma LowerPointer<T>(hash: Obj<T> -> nat, s: seq<Node<T>>, rank: seq<nat>, ff: int, ff': int)
    requires Layout(hash, s, rank, ff) && ff' <= ff
    ensures Layout(hash, s, rank, ff')
  {
  }

  lemma ChainAfterPlaced<T>(hash: Obj<T> -> nat, s: seq<Node<T>>, rank: seq<nat>, mp: nat, n: nat, k: Obj<T>)
    requires n < |s| && Layout(hash, s, rank, n) && Free(s[n])
    requires mp < |s| && s[mp].key.Ref? && MainPos(hash, s[mp].key, |s|) == mp
    requires k.Ref? && Absent(s, k) && mp == MainPos(hash, k, |s|)
    ensures Placed(hash, s, n, k, ChainAfter(s, mp, n, k), RankAfter(rank, mp, n), n)
  {
    ChainAfterLayout(hash, s, rank, mp, n, k);
    ChainAfterContents(s, mp, n, k);
    ChainAfterFree(hash, s, mp, n, k);
  }

  lemma ChainAfterFree<T>(hash: Obj<T> -> nat, s: seq<Node<T>>, mp: nat, n: nat, k: Obj<T>)
    requires mp < |s| && n < |s| && mp != n && s[mp].key.Ref? && k.Ref? && mp == MainPos(hash, k, |s|)
    ensures var s' := ChainAfter(s, mp, n, k);
            && (forall i :: 0 <= i <= n ==> (Free(s'[i]) <==> Free(s[i]) && i != TakenNode(hash, s, n, k)))
            && (Compact(s, n) ==> Compact(s', n))
  {
  }

  lemma DisplacePlaced<T>(hash: Obj<T> -> nat, s: seq<Node<T>>, rank: seq<nat>, prev: nat, mp: nat, n: nat, k: Obj<T>)
    requires n < |s| && Layout(hash, s, rank, n) && Free(s[n])
    requires prev < |s| && n < mp < |s| && s[mp].key.Ref? && s[prev].next == mp
    requires MainPos(hash, s[mp].key, |s|) != mp
    requires k.Ref? && Absent(s, k) && mp == MainPos(hash, k, |s|)
    ensures Placed(hash, s, n, k, Displace(s, prev, mp, n, k), RankMoved(rank, mp, n), mp)
  {
    DisplaceLayout(hash, s, rank, prev, mp, n, k);
    assert prev != n && prev != mp;
    DisplaceContents(s, prev, mp, n, k);
    DisplaceLive(s, prev, mp, n, k);
    DisplaceFree(hash, s, prev, mp, n, k);
  }

  lemma DisplaceFree<T>(hash: Obj<T> -> nat, s: seq<Node<T>>, prev: nat, mp: nat, n: nat, k: Obj<T>)
    requires prev < |s| && n < mp < |s| && s[mp].key.Ref? && s[prev].next == mp && prev != n && prev != mp
    requires k.Ref? && mp == MainPos(hash, k, |s|)
    ensures var s' := Displace(s, prev, mp, n, k);
            && (forall i :: 0 <= i <= n ==> (Free(s'[i]) <==> Free(s[i]) && i != TakenNode(hash, s, n, k)))
            && (Compact(s, n) ==> Compact(s', n))
  {
  }

  /** A compact array that is not full has a free node at or below the free pointer. */
  lemma CompactHasFree<T>(s: seq<Node<T>>, ff: nat)
    requires ff < |s| && Compact(s, ff) && Live(s) < |s|
    ensures exists i :: 0 <= i <= ff && Free(s[i])
  {
    LiveAll(s);
    var i :| 0 <= i < |s| && !s[i].key.Ref?;
    assert Free(s[i]);
  }

  /** The size Rehash chooses; it keeps the old size only when forced. */
  function NewSize(oldsize: nat, nelems: nat): (size: nat) {
    if nelems >= oldsize - oldsize / 4 then oldsize * 2
    else if nelems <= oldsize / 4 && oldsize > MINPOWER2 then oldsize / 2
    else oldsize
  }

  lemma DoublePow2(n: nat)
    requires IsPow2(n)
    ensures IsPow2(2 * n) && IsPow2(n * 2)
  {
    assert 2 * n / 2 == n && n * 2 == 2 * n;
  }

  /** In all three cases one more key than was counted still leaves a node over. */
  lemma NewSizeHasRoom(oldsize: nat, nelems: nat, live: nat)
    requires IsPow2(oldsize) && oldsize >= MINPOWER2 && live <= nelems + 1 && live <= oldsize
    ensures live < NewSize(oldsize, nelems)
    ensures IsPow2(NewSize(oldsize, nelems)) && NewSize(oldsize, nelems) >= MINPOWER2
  {
    assert IsPow2(oldsize / 2) && IsPow2(oldsize / 4);
    DoublePow2(oldsize);
    if oldsize > 4 { assert IsPow2(oldsize / 8) && oldsize % 8 == 0; }
  }

  /** Three quarters full is too full, a quarter is too empty; four nodes are the least. */
  lemma NewSizeIs(oldsize: nat, nelems: nat)
    requires IsPow2(oldsize) && oldsize >= 4
    ensures 4 * nelems >= 3 * oldsize ==> NewSize(oldsize, nelems) == 2 * oldsize
    ensures 4 * nelems <= oldsize && oldsize > 4 ==> 2 * NewSize(oldsize, nelems) == oldsize
    ensures 4 * nelems < 3 * oldsize && (4 * nelems > oldsize || oldsize == 4) ==> NewSize(oldsize, nelems) == oldsize
  {
    assert IsPow2(oldsize / 2) && oldsize / 2 / 2 == oldsize / 4;
  }

  function WithVal<T>(s: seq<Node<T>>, n: nat, v: Obj<T>): (s': seq<Node<T>>)
    requires n < |s|
  {
    s[n := s[n].(val := v)]
  }

  /** Replacing a value changes one entry of the map and nothing else. */
  lemma WithValShaped<T>(hash: Obj<T> -> nat, s: seq<Node<T>>, rank: seq<nat>, ff: nat, n: nat, v: Obj<T>)
    requires Shaped(hash, s, rank, ff) && n < |s|
    ensures Shaped(hash, WithVal(s, n, v), rank, ff)
    ensures Live(WithVal(s, n, v)) == Live(s)
    ensures ContentsOf(WithVal(s, n, v)) == if s[n].key.Ref? then ContentsOf(s)[s[n].key.o := v] else ContentsOf(s)
  {
    KeptLinks(hash, s, WithVal(s, n, v), rank, -1);
    SetValContents(s, n, v);
  }

  lemma WithValValid<T>(hash: Obj<T> -> nat, s: seq<Node<T>>, rank: seq<nat>, ff: nat, used: nat, n: nat, v: Obj<T>)
    requires ValidNodes(hash, s, rank, ff, used) && n < |s|
    ensures ValidNodes(hash, WithVal(s, n, v), rank, ff, used)
    ensures ContentsOf(WithVal(s, n, v)) == if s[n].key.Ref? then ContentsOf(s)[s[n].key.o := v] else ContentsOf(s)
    ensures Compact(s, ff) ==> Compact(WithVal(s, n, v), ff)
  {
    WithValShaped(hash, s, rank, ff, n, v);
    assert LinksAbove(WithVal(s, n, v), ff);
  }

  /** A completed insertion: the array at rest stands for `m`. */
  ghost predicate Inserted<T>(hash: Obj<T> -> nat, m: map<T, Obj<T>>, used: nat, compact: bool,
      s': seq<Node<T>>, rank': seq<nat>, ff': nat) {
    ValidNodes(hash, s', rank', ff', used) && ContentsOf(s') == m && (compact ==> Compact(s', ff'))
  }

  /** An insertion of `k` that found no free node: the key is in, but not yet its value. */
  ghost predicate Overfull<T>(hash: Obj<T> -> nat, m: map<T, Obj<T>>, live: nat, k: T,
      s': seq<Node<T>>, rank': seq<nat>, ff': nat) {
    && Shaped(hash, s', rank', ff')
    && Live(s') == live
    && k in ContentsOf(s') && ContentsOf(s') == m[k := ContentsOf(s')[k]]
  }

  /** The free pointer found a free node below: the array is at rest again. */
  lemma PointerMoved<T>(hash: Obj<T> -> nat, s: seq<Node<T>>, ff: nat, k: Obj<T>,
      s': seq<Node<T>>, rank': seq<nat>, at: nat, ff': nat)
    requires |s| > 0 && k.Ref? && Placed(hash, s, ff, k, s', rank', at) && IsPow2(|s|) && |s| >= MINPOWER2
    requires ff' <= ff && Free(s'[ff'])
    requires forall i :: ff' < i <= ff ==> !Free(s'[i])
    ensures ValidNodes(hash, s', rank', ff', Live(s) + 1)
    ensures Compact(s, ff) ==> Compact(s', ff')
  {
    LowerPointer(hash, s', rank', ff - 1, -1);
    assert LinksAbove(s', ff');
  }

  /** Storing the value completes the insertion. */
  lemma ValueStored<T>(hash: Obj<T> -> nat, m: map<T, Obj<T>>, used: nat, compact: bool, k: T,
      s': seq<Node<T>>, rank': seq<nat>, at: nat, ff': nat, v: Obj<T>)
    requires ValidNodes(hash, s', rank', ff', used) && (compact ==> Compact(s', ff'))
    requires LiveAt(s', at) && s'[at].key == Ref(k) && ContentsOf(s') == m[k := s'[at].val]
    ensures Inserted(hash, m[k := v], used, compact, WithVal(s', at, v), rank', ff')
  {
    WithValValid(hash, s', rank', ff', used, at, v);
    Overwritten(m, k, s'[at].val, v);
  }

  lemma Overwritten<T, V>(m: map<T, V>, k: T, v: V, v': V)
    ensures m[k := v][k := v'] == m[k := v']
  {
  }

  /** Whether a free node is left is decided by the state before the insertion. */
  lemma SpareIffFree<T>(hash: Obj<T> -> nat, s: seq<Node<T>>, ff: nat, k: Obj<T>,
      s': seq<Node<T>>, rank': seq<nat>, at: nat)
    requires |s| > 0 && k.Ref? && Placed(hash, s, ff, k, s', rank', at)
    ensures HasSpareNode(hash, s, ff, k) <==> exists i :: 0 <= i <= ff && Free(s'[i])
  {
    if i :| 0 <= i <= ff && Free(s'[i]) { assert Free(s[i]); }
    if i :| 0 <= i <= ff && i < |s| && Free(s[i]) && i != TakenNode(hash, s, ff, k) { assert Free(s'[i]); }
  }

  lemma NoSpareOverfull<T>(hash: Obj<T> -> nat, s: seq<Node<T>>, ff: nat, k: Obj<T>,
      s': seq<Node<T>>, rank': seq<nat>, at: nat, ff': nat)
    requires |s| > 0 && k.Ref? && Placed(hash, s, ff, k, s', rank', at) && IsPow2(|s|) && |s| >= MINPOWER2
    requires ff' < |s| && forall i :: 0 <= i <= ff ==> !Free(s'[i])
    ensures Overfull(hash, ContentsOf(s), Live(s) + 1, k.o, s', rank', ff')
    ensures !(Compact(s, ff) && Live(s) + 1 < |s|)
  {
    LowerPointer(hash, s', rank', ff - 1, -1);
    if Compact(s', ff) && Live(s') < |s'| { CompactHasFree(s', ff); }
  }

  /**
    The absent key `k` is on node `at` and the next free node was looked for: there is one, and the
    array is at rest but for the value; or there is none, which never happens to a compact array with room.
   */
  ghost predicate Scanned<T>(hash: Obj<T> -> nat, s: seq<Node<T>>, ff: nat, k: Obj<T>,
                             s': seq<Node<T>>, rank': seq<nat>, at: nat, ff': nat, ok: bool)
    requires |s| > 0 && k.Ref?
  {
    && (ok <==> HasSpareNode(hash, s, ff, k))
    && (if ok then
          && ValidNodes(hash, s', rank', ff', Live(s) + 1) && LiveAt(s', at) && s'[at].key == k
          && ContentsOf(s') == ContentsOf(s)[k.o := s'[at].val]
          && (Compact(s, ff) ==> Compact(s', ff'))
        else
          && Overfull(hash, ContentsOf(s), Live(s) + 1, k.o, s', rank', ff')
          && !(Compact(s, ff) && Live(s) + 1 < |s'|))
  }

  lemma RemovedValid<T>(hash: Obj<T> -> nat, s: seq<Node<T>>, rank: seq<nat>, ff: nat, used: nat, n: nat)
    requires ValidNodes(hash, s, rank, ff, used) && n < |s| && s[n].key.Ref?
    ensures used > 0
    ensures var s' := s[n := Node(Null, Null, s[n].next)];
            ValidNodes(hash, s', rank, ff, used - 1) && ContentsOf(s') == ContentsOf(s) - {s[n].key.o}
  {
    var s' := s[n := Node(Null, Null, s[n].next)];
    KeptLinks(hash, s, s', rank, -1);
    DropKeyContents(s, n);
    assert LinksAbove(s', ff);
  }

  lemma ClearedShaped<T>(hash: Obj<T> -> nat, s: seq<Node<T>>, s': seq<Node<T>>, rank: seq<nat>, ff: nat)
    requires Shaped(hash, s, rank, ff) && |s'| == |s|
    requires forall i :: 0 <= i < |s| ==> s'[i] == Node(Null, Null, s[i].next)
    ensures Shaped(hash, s', rank, ff) && ContentsOf(s') == map[] && Live(s') == 0
  {
    KeptLinks(hash, s, s', rank, -1);
    LiveAll(s');
    ContentsAre(s', map[]);
  }

  class SQTable<T(==)> {
    const hash: Obj<T> -> nat
    var nodes: array<Node<T>>
    var firstfree: nat
    var usednodes: nat
    ghost var rank: seq<nat>

    ghost predicate WellShaped()
      reads this, nodes
    {
      Shaped(hash, nodes[..], rank, firstfree)
    }

    ghost predicate Valid()
      reads this, nodes
    {
      ValidNodes(hash, nodes[..], rank, firstfree, usednodes)
    }

    /** The finite map the table stands for. */
    ghost function Contents(): (m: map<T, Obj<T>>)
      reads this, nodes
    {
      ContentsOf(nodes[..])
    }

    /** Inserting `k` is certain not to rehash. */
    ghost predicate Settled(k: Obj<T>)
      reads this, nodes
      requires k.Ref?
    {
      || k.o in Contents()
      || (Compact(nodes[..], firstfree) && usednodes + 1 < nodes.Length)
    }

    constructor (hash: Obj<T> -> nat, initialSize: nat)
      ensures Valid() && fresh(nodes)
      ensures this.hash == hash
      ensures Contents() == map[] && usednodes == 0
      ensures nodes.Length >= initialSize
      ensures nodes.Length == MINPOWER2 || nodes.Length < 2 * initialSize
    {
      var pow2size := RoundUp(initialSize);
      this.hash := hash;
      usednodes := 0;
      nodes := new Node<T>[pow2size](_ => Node(Null, Null, NIL));
      firstfree := pow2size - 1;
      rank := seq(pow2size, _ => 0);
      new;
      EmptyIsValid();
    }

    static method RoundUp(initialSize: nat) returns (pow2size: nat)
      ensures IsPow2(pow2size) && pow2size >= MINPOWER2 && pow2size >= initialSize
      ensures pow2size == MINPOWER2 || pow2size < 2 * initialSize
    {
      pow2size := MINPOWER2;
      while initialSize > pow2size
        invariant IsPow2(pow2size) && pow2size >= MINPOWER2
        invariant pow2size == MINPOWER2 || pow2size < 2 * initialSize
      {
        DoublePow2(pow2size);
        pow2size := pow2size * 2;
      }
    }

    lemma EmptyIsValid()
      requires IsPow2(nodes.Length) && nodes.Length >= MINPOWER2
      requires firstfree == nodes.Length - 1 && usednodes == 0 && |rank| == nodes.Length
      requires forall i :: 0 <= i < nodes.Length ==> nodes[i] == Node(Null, Null, NIL)
      ensures Valid() && Contents() == map[] && Compact(nodes[..], firstfree)
    {
      LiveAll(nodes[..]);
      ContentsAre(nodes[..], map[]);
    }

    method AllocNodes(size: nat)
      requires IsPow2(size) && size >= MINPOWER2
      modifies this
      ensures fresh(nodes) && nodes.Length == size && firstfree == size - 1
      ensures usednodes == old(usednodes)
      ensures |rank| == size && forall i :: 0 <= i < size ==> nodes[i] == Node(Null, Null, NIL)
    {
      nodes := new Node<T>[size](_ => Node(Null, Null, NIL));
      firstfree := size - 1;
      rank := seq(size, _ => 0);
    }

    /** Walk the chain from node `h` looking for `key`. */
    method FindInChain(key: Obj<T>, h: nat) returns (n: int)
      requires WellShaped() && h < nodes.Length
      ensures n == NIL || (0 <= n < nodes.Length && nodes[n].key == key && Reach(nodes[..], rank, h, n))
      ensures n == NIL ==> forall j :: 0 <= j < nodes.Length && nodes[j].key == key ==> !Reach(nodes[..], rank, h, j)
    {
      n := h;
      ghost var s := nodes[..];
      while true
        invariant 0 <= n < nodes.Length && Reach(s, rank, h, n)
        invariant forall j :: 0 <= j < |s| && s[j].key == key && Reach(s, rank, h, j) ==> Reach(s, rank, n, j)
        decreases rank[n]
      {
        if nodes[n].key == key { return; }
        if nodes[n].next == NIL { return NIL; }
        assert Reach(s, rank, h, s[n].next) by { ReachTrans(s, rank, h, n, s[n].next); }
        n := nodes[n].next;
      }
    }

    /** For a non-null key the walk from its main position decides membership. */
    lemma FoundIffPresent(key: Obj<T>, n: int)
      requires WellShaped() && key.Ref?
      requires n == NIL || (0 <= n < nodes.Length && nodes[n].key == key)
      requires n == NIL ==> forall j :: 0 <= j < nodes.Length && nodes[j].key == key ==>
                                          !Reach(nodes[..], rank, MainPos(hash, key, nodes.Length), j)
      ensures n != NIL <==> key.o in Contents()
      ensures n != NIL ==> Contents()[key.o] == nodes[n].val
      ensures n == NIL ==> Absent(nodes[..], key)
    {
      var s := nodes[..];
      if n != NIL {
        assert LiveAt(s, n);
        ContentsAt(s, n);
      } else {
        forall i | 0 <= i < |s|
          ensures s[i].key != key
        {
          if s[i].key == key { assert LiveAt(s, i); }
        }
        if key.o in Contents() {
          var i := ContentsFrom(s, key.o);
        }
      }
    }

    method Get(key: Obj<T>) returns (found: bool, val: Obj<T>)
      requires Valid()
      ensures found <==> key.Ref? && key.o in Contents()
      ensures found ==> val == Contents()[key.o]
    {
      val := Null;
      if key.Null? { return false, val; }
      var n := FindInChain(key, MainPos(hash, key, nodes.Length));
      FoundIffPresent(key, n);
      if n != NIL { return true, nodes[n].val; }
      return false, val;
    }

    /** On the null key this may answer true for an empty node; the map is untouched. */
    method Set(key: Obj<T>, val: Obj<T>) returns (stored: bool)
      requires Valid()
      modifies nodes
      ensures Valid()
      ensures key.Ref? ==> (stored <==> key.o in old(Contents()))
      ensures Contents() == if key.Ref? && stored then old(Contents())[key.o := val] else old(Contents())
    {
      var n := FindInChain(key, MainPos(hash, key, nodes.Length));
      if key.Ref? { FoundIffPresent(key, n); }
      if n == NIL { return false; }
      WithValValid(hash, nodes[..], rank, firstfree, usednodes, n, val);
      nodes[n] := nodes[n].(val := val);
      assert nodes[..] == WithVal(old(nodes[..]), n, val);
      return true;
    }

    /** The walk from `start` to the node in front of `mp` on its chain. */
    method FindPrevious(start: nat, mp: nat) returns (othern: nat)
      requires WellShaped() && start < nodes.Length && mp < nodes.Length && start != mp
      requires Reach(nodes[..], rank, start, mp)
      ensures othern < nodes.Length && nodes[othern].next == mp
    {
      othern := start;
      ghost var s := nodes[..];
      while nodes[othern].next != mp
        invariant 0 <= othern < nodes.Length && othern != mp && Reach(s, rank, othern, mp)
        decreases rank[othern]
      {
        othern := nodes[othern].next;
      }
    }

    /** Put `key` on a node of its own, as NewSlot does before it looks for a new free node. */
    method Place(key: Obj<T>) returns (mp: nat)
      requires Valid() && key.Ref? && Absent(nodes[..], key)
      modifies nodes, `rank
      ensures Placed(hash, old(nodes[..]), firstfree, key, nodes[..], rank, mp)
    {
      ghost var s := nodes[..];
      mp := MainPos(hash, key, nodes.Length);
      if nodes[mp].key.Ref? {
        var n := firstfree;
        var mph := MainPos(hash, nodes[mp].key, nodes.Length);
        if mp > n && mph != mp {
          assert LiveAt(s, mp);
          var othern := FindPrevious(mph, mp);
          nodes[othern] := nodes[othern].(next := n);
          nodes[n] := nodes[mp];
          nodes[mp] := Node(key, Null, NIL);
          assert nodes[..] == Displace(s, othern, mp, n, key);
          DisplacePlaced(hash, s, rank, othern, mp, n, key);
          rank := RankMoved(rank, mp, n);
        } else {
          if mph != mp { ForeignIsAbove(hash, s, rank, firstfree, mp); }
          nodes[n] := Node(key, nodes[n].val, nodes[mp].next);
          nodes[mp] := nodes[mp].(next := n);
          assert nodes[..] == ChainAfter(s, mp, n, key);
          ChainAfterPlaced(hash, s, rank, mp, n, key);
          rank := RankAfter(rank, mp, n);
          mp := n;
        }
      } else {
        nodes[mp] := nodes[mp].(key := key);
        assert nodes[..] == PlaceAt(s, mp, key);
        PlaceAtPlaced(hash, s, rank, firstfree, mp, key);
      }
    }

    /** Move the free pointer down to a free node, if there is one. */
    method CorrectFirstFree() returns (ok: bool)
      requires firstfree < nodes.Length
      modifies `firstfree
      ensures firstfree <= old(firstfree)
      ensures ok <==> exists i :: 0 <= i <= old(firstfree) && Free(nodes[i])
      ensures ok ==> Free(nodes[firstfree])
      ensures forall i :: firstfree < i <= old(firstfree) ==> !Free(nodes[i])
    {
      while true
        invariant firstfree <= old(firstfree)
        invariant forall i :: firstfree < i <= old(firstfree) ==> !Free(nodes[i])
        decreases firstfree
      {
        if nodes[firstfree].key.Null? && nodes[firstfree].next == NIL { return true; }
        if firstfree == 0 { return false; }
        firstfree := firstfree - 1;
      }
    }

    /** Look for the next free node once an absent key has its own. */
    method Scan(key: Obj<T>, mp: nat, ghost s: seq<Node<T>>) returns (ok: bool)
      requires |s| > 0 && key.Ref? && IsPow2(|s|) && |s| >= MINPOWER2
      requires Placed(hash, s, firstfree, key, nodes[..], rank, mp)
      modifies `firstfree
      ensures Scanned(hash, s, old(firstfree), key, nodes[..], rank, mp, firstfree, ok)
    {
      ghost var ff := firstfree;
      SpareIffFree(hash, s, ff, key, nodes[..], rank, mp);
      ok := CorrectFirstFree();
      if ok {
        PointerMoved(hash, s, ff, key, nodes[..], rank, mp, firstfree);
      } else {
        NoSpareOverfull(hash, s, ff, key, nodes[..], rank, mp, firstfree);
      }
    }

    /** Place an absent key and look for the next free node; the value is still to come. */
    method PlaceAndScan(key: Obj<T>) returns (mp: nat, ok: bool)
      requires Valid() && key.Ref? && Absent(nodes[..], key)
      modifies nodes, `rank, `firstfree
      ensures Scanned(hash, old(nodes[..]), old(firstfree), key, nodes[..], rank, mp, firstfree, ok)
    {
      ghost var s := nodes[..];
      mp := Place(key);
      ok := Scan(key, mp, s);
    }

    /** The body of NewSlot for an absent key, up to the point where it may have to rehash. */
    method Insert(key: Obj<T>, val: Obj<T>) returns (ok: bool)
      requires Valid() && key.Ref? && Absent(nodes[..], key)
      modifies nodes, `rank, `firstfree, `usednodes
      ensures ok <==> old(HasSpareNode(hash, nodes[..], firstfree, key))
      ensures usednodes == old(usednodes) + if ok then 1 else 0
      ensures ok ==> Inserted(hash, old(Contents())[key.o := val], usednodes, old(Compact(nodes[..], firstfree)),
                              nodes[..], rank, firstfree)
      ensures !ok ==> Overfull(hash, old(Contents()), usednodes + 1, key.o, nodes[..], rank, firstfree)
      ensures !ok ==> !(old(Compact(nodes[..], firstfree)) && usednodes + 1 < nodes.Length)
    {
      ghost var m, compact := Contents(), Compact(nodes[..], firstfree);
      var mp;
      mp, ok := PlaceAndScan(key);
      if ok {
        ghost var s' := nodes[..];
        ValueStored(hash, m, usednodes + 1, compact, key.o, s', rank, mp, firstfree, val);
        nodes[mp] := nodes[mp].(val := val);
        usednodes := usednodes + 1;
        assert nodes[..] == WithVal(s', mp, val);
      }
    }

    /**
      Store `val` under `key`. The answer is true exactly when the key was absent and a
      free node is left over; an insertion that has to rehash answers false although it
      did create the slot.
     */
    method NewSlot(key: Obj<T>, val: Obj<T>) returns (created: bool)
      requires Valid() && key.Ref?
      modifies this, nodes
      ensures Valid() && (nodes == old(nodes) || fresh(nodes))
      ensures Contents() == old(Contents())[key.o := val]
      ensures created <==> old(key.o !in Contents() && HasSpareNode(hash, nodes[..], firstfree, key))
      ensures nodes.Length == if old(key.o in Contents() || HasSpareNode(hash, nodes[..], firstfree, key))
                              then old(nodes.Length) else NewSize(old(nodes.Length), old(usednodes))
      ensures old(Settled(key)) ==> nodes == old(nodes)
      ensures old(Settled(key) && Compact(nodes[..], firstfree)) ==> Compact(nodes[..], firstfree)
      decreases if Settled(key) then 0 else 4
    {
      var n := FindInChain(key, MainPos(hash, key, nodes.Length));
      FoundIffPresent(key, n);
      if n != NIL {
        WithValValid(hash, nodes[..], rank, firstfree, usednodes, n, val);
        nodes[n] := nodes[n].(val := val);
        assert nodes[..] == WithVal(old(nodes[..]), n, val);
        return false;
      }
      created := Insert(key, val);
      if !created { created := GrowAndStore(key, val); }
    }

    /** The end of NewSlot when no free node is left: the key is in, but not its value and not in the count. */
    method GrowAndStore(key: Obj<T>, val: Obj<T>) returns (created: bool)
      requires WellShaped() && Live(nodes[..]) == usednodes + 1 && key.Ref? && key.o in Contents()
      modifies this, nodes
      ensures Valid() && fresh(nodes) && Contents() == old(Contents())[key.o := val] && !created
      ensures nodes.Length == NewSize(old(nodes.Length), old(usednodes))
      decreases 3
    {
      Rehash(true);
      created := NewSlot(key, val);
    }

    /** Rebuild the node array when it is too full, too empty, or when forced to. */
    method Rehash(force: bool)
      requires WellShaped()
      requires Live(nodes[..]) == usednodes || (force && Live(nodes[..]) == usednodes + 1)
      requires !force ==> Valid()
      modifies this
      ensures Valid() && Contents() == old(Contents())
      ensures nodes == old(nodes) || fresh(nodes)
      ensures nodes.Length == NewSize(old(nodes.Length), old(usednodes))
      ensures fresh(nodes) ==> Compact(nodes[..], firstfree)
      ensures force ==> fresh(nodes)
      decreases 2
    {
      var oldsize := nodes.Length;
      var nold := nodes;
      var size := NewSize(oldsize, usednodes);
      NewSizeHasRoom(oldsize, usednodes, Live(nodes[..]));
      if size == oldsize && !force { return; }
      AllocNodes(size);
      usednodes := 0;
      EmptyIsValid();
      Reinsert(nold);
    }

    /** Insert the live nodes of the old array, in order. None of these insertions rehashes. */
    method Reinsert(nold: array<Node<T>>)
      requires Valid() && Compact(nodes[..], firstfree) && Contents() == map[]
      requires nodes != nold && Distinct(nold[..]) && Live(nold[..]) < nodes.Length
      modifies this, nodes
      ensures Valid() && nodes == old(nodes) && Compact(nodes[..], firstfree)
      ensures Contents() == ContentsOf(nold[..])
      decreases 1
    {
      ghost var s := nold[..];
      for i := 0 to nold.Length
        invariant Valid() && nodes == old(nodes) && nold[..] == s && Compact(nodes[..], firstfree)
        invariant Contents() == ContentsOf(s[..i])
      {
        assert s[..i + 1][..i] == s[..i];
        if nold[i].key.Ref? {
          ReinsertSettled(s, i);
          var _ := NewSlot(nold[i].key, nold[i].val);
        }
      }
      assert s[..nold.Length] == s;
    }

    lemma ReinsertSettled(s: seq<Node<T>>, i: nat)
      requires Valid() && Compact(nodes[..], firstfree)
      requires i < |s| && s[i].key.Ref? && Distinct(s) && Contents() == ContentsOf(s[..i]) && Live(s) < nodes.Length
      ensures Settled(s[i].key)
    {
      LiveIsCardinality(s[..i]);
      LiveIsCardinality(nodes[..]);
      LivePrefix(s, i + 1);
      assert s[..i + 1][..i] == s[..i];
    }

    /** Forget `key`. Its node stays linked as a tombstone unless the array is rebuilt. */
    method Remove(key: Obj<T>)
      requires Valid() && key.Ref?
      modifies this, nodes
      ensures Valid() && (nodes == old(nodes) || fresh(nodes))
      ensures Contents() == old(Contents()) - {key.o}
      ensures key.o !in old(Contents()) ==> nodes == old(nodes)
      ensures key.o in old(Contents()) ==>
        old(usednodes) > 0 && nodes.Length == NewSize(old(nodes.Length), old(usednodes) - 1)
    {
      var n := FindInChain(key, MainPos(hash, key, nodes.Length));
      FoundIffPresent(key, n);
      if n != NIL {
        Bury(key, n);
        Rehash(false);
      }
    }

    /** Leaves a tombstone in the node of a key. */
    method Bury(key: Obj<T>, n: nat)
      requires Valid() && n < nodes.Length && key.Ref? && nodes[n].key == key
      modifies nodes, `usednodes
      ensures Valid() && Contents() == old(Contents()) - {key.o} && old(usednodes) > 0
        && usednodes == old(usednodes) - 1
    {
      RemovedValid(hash, nodes[..], rank, firstfree, usednodes, n);
      nodes[n] := Node(Null, Null, nodes[n].next);
      assert nodes[..] == old(nodes[..])[n := Node(Null, Null, old(nodes[n].next))];
      usednodes := usednodes - 1;
    }

    method ClearNodes()
      modifies nodes
      ensures forall i :: 0 <= i < nodes.Length ==> nodes[i] == Node(Null, Null, old(nodes[i].next))
    {
      for i := 0 to nodes.Length
        invariant forall j :: 0 <= j < i ==> nodes[j] == Node(Null, Null, old(nodes[j].next))
        invariant forall j :: i <= j < nodes.Length ==> nodes[j] == old(nodes[j])
      {
        nodes[i] := Node(Null, Null, nodes[i].next);
      }
    }

    method Clear()
      requires Valid()
      modifies this, nodes
      ensures Valid() && fresh(nodes) && Contents() == map[]
      ensures nodes.Length == if old(nodes.Length) > MINPOWER2 then old(nodes.Length) / 2 else MINPOWER2
    {
      ghost var s := nodes[..];
      ClearNodes();
      ClearedShaped(hash, s, nodes[..], rank, firstfree);
      usednodes := 0;
      Rehash(true);
    }

    /** The first live node at or after the given position, and the position after it; -1 at the end. */
    method Next(refpos: RefPos) returns (r: int, outkey: Obj<T>, outval: Obj<T>)
      requires TranslateIndex(refpos) <= nodes.Length
      ensures NextFrom(nodes[..], TranslateIndex(refpos), r, outkey, outval)
    {
      outkey, outval := Null, Null;
      var idx := TranslateIndex(refpos);
      while idx < nodes.Length
        invariant TranslateIndex(refpos) <= idx <= nodes.Length
        invariant forall i :: TranslateIndex(refpos) <= i < idx ==> nodes[i].key.Null?
      {
        if nodes[idx].key.Ref? {
          return idx + 1, nodes[idx].key, nodes[idx].val;
        }
        idx := idx + 1;
      }
      return -1, outkey, outval;
    }

    /** Repeating Next from the null position meets every entry once, in node order. */
    method Traverse() returns (items: seq<(T, Obj<T>)>)
      requires Valid()
      ensures |items| == usednodes == |Contents()|
      ensures OncePerKey(items, Contents())
    {
      ghost var s := nodes[..];
      LiveIsCardinality(s);
      ItemsAreContents(s);
      items := [];
      var idx, key, val := Next(Start);
      ghost var from := 0;
      while idx != -1
        invariant 0 <= from <= |s| && NextFrom(s, from, idx, key, val)
        invariant items == ItemsOf(s[..from])
        decreases |s| - from
      {
        NextStep(s, from, idx, key, val);
        items := items + [(key.o, val)];
        from := idx;
        idx, key, val := Next(At(idx));
      }
      NextEnd(s, from, key, val);
    }

    /** A copy with the same entries, filled by iterating over this table. */
    method Clone() returns (nt: SQTable<T>)
      ensures fresh(nt) && fresh(nt.nodes) && nt.hash == hash
      ensures nt.Valid() && nt.Contents() == Contents()
    {
      nt := new SQTable(hash, nodes.Length);
      ghost var s := nodes[..];
      var idx, key, val := Next(Start);
      ghost var from := 0;
      while idx != -1
        invariant fresh(nt) && fresh(nt.nodes) && nt.hash == hash && nt.Valid()
        invariant nodes[..] == s && 0 <= from <= |s| && NextFrom(s, from, idx, key, val)
        invariant nt.Contents() == ContentsOf(s[..from])
        decreases |s| - from
      {
        NextStep(s, from, idx, key, val);
        var _ := nt.NewSlot(key, val);
        from := idx;
        idx, key, val := Next(At(idx));
      }
      NextEnd(s, from, key, val);
    }
  }

  /** `items` lists each entry of `m` exactly once. */
  ghost predicate OncePerKey<T>(items: seq<(T, Obj<T>)>, m: map<T, Obj<T>>) {
    && (forall i, j :: 0 <= i < j < |items| ==> items[i].0 != items[j].0)
    && (forall i :: 0 <= i < |items| ==> items[i].0 in m && m[items[i].0] == items[i].1)
    && (forall k :: k in m ==> exists i :: 0 <= i < |items| && items[i].0 == k)
  }

  /** What a step of an iteration over `s` answers from position `from`. */
  ghost predicate NextFrom<T>(s: seq<Node<T>>, from: nat, r: int, key: Obj<T>, val: Obj<T>)
    requires from <= |s|
  {
    if r == -1 then
      forall i :: from <= i < |s| ==> s[i].key.Null?
    else
      && from < r <= |s|
      && s[r - 1].key.Ref? && key == s[r - 1].key && val == s[r - 1].val
      && forall i :: from <= i < r - 1 ==> s[i].key.Null?
  }

  lemma NextStep<T>(s: seq<Node<T>>, from: nat, r: int, key: Obj<T>, val: Obj<T>)
    requires from <= |s| && NextFrom(s, from, r, key, val) && r != -1
    ensures ItemsOf(s[..r]) == ItemsOf(s[..from]) + [(key.o, val)]
    ensures ContentsOf(s[..r]) == ContentsOf(s[..from])[key.o := val]
  {
    SkipNulls(s, from, r - 1);
    assert s[..r][..r - 1] == s[..r - 1];
  }

  lemma NextEnd<T>(s: seq<Node<T>>, from: nat, key: Obj<T>, val: Obj<T>)
    requires from <= |s| && NextFrom(s, from, -1, key, val)
    ensures ItemsOf(s) == ItemsOf(s[..from]) && ContentsOf(s) == ContentsOf(s[..from])
  {
    SkipNulls(s, from, |s|);
    assert s[..|s|] == s;
  }

  /** The entries of the live nodes, in node order. */
  function ItemsOf<T>(s: seq<Node<T>>): (items: seq<(T, Obj<T>)>)
    ensures |items| == Live(s)
  {
    if s == [] then []
    else
      var last := s[|s| - 1];
      ItemsOf(s[..|s| - 1]) + (if last.key.Ref? then [(last.key.o, last.val)] else [])
  }

  lemma {:induction false} SkipNulls<T>(s: seq<Node<T>>, a: nat, b: nat)
    requires a <= b <= |s| && forall i :: a <= i < b ==> s[i].key.Null?
    ensures ItemsOf(s[..b]) == ItemsOf(s[..a]) && ContentsOf(s[..b]) == ContentsOf(s[..a])
    decreases b
  {
    if a < b {
      SkipNulls(s, a, b - 1);
      assert s[..b][..b - 1] == s[..b - 1];
    }
  }

  lemma {:induction false} ItemsAreContents<T>(s: seq<Node<T>>)
    requires Distinct(s)
    ensures OncePerKey(ItemsOf(s), ContentsOf(s))
  {
    if s != [] {
      var l := |s| - 1;
      ItemsAreContents(s[..l]);
      if s[l].key.Ref? {
        LastIsNew(s);
        OneMoreItem(ItemsOf(s[..l]), ContentsOf(s[..l]), s[l].key.o, s[l].val);
      } else {
        assert ItemsOf(s) == ItemsOf(s[..l]);
      }
    }
  }

  lemma OneMoreItem<T>(items: seq<(T, Obj<T>)>, m: map<T, Obj<T>>, k: T, v: Obj<T>)
    requires OncePerKey(items, m) && k !in m
    ensures OncePerKey(items + [(k, v)], m[k := v])
  {
    var all := items + [(k, v)];
    forall x | x == k || x in m
      ensures exists i :: 0 <= i < |all| && all[i].0 == x
    {
      if x == k {
        assert all[|items|].0 == k;
      } else {
        var i :| 0 <= i < |items| && items[i].0 == x;
        assert all[i].0 == x;
      }
    }
  }

  lemma LastIsNew<T>(s: seq<Node<T>>)
    requires Distinct(s) && s != [] && s[|s| - 1].key.Ref?
    ensures s[|s| - 1].key.o !in ContentsOf(s[..|s| - 1])
  {
    var l := |s| - 1;
    if s[l].key.o in ContentsOf(s[..l]) {
      var i := ContentsFrom(s[..l], s[l].key.o);
    }
  }
}
