/**
  The table of objects the host holds references to (RefTable in utility/sqstate.cpp): hash
  buckets and a list of free nodes share one arena of nodes.
 */
module RefTable {
  import opened Buckets
  import opened Common

  /** The nodes, field by field, the first node of each bucket, and the first free node. */
  datatype Table<K> = Table(objs: seq<Option<K>>, refs: seq<nat>, next: seq<int>, buckets: seq<int>, freelist: int,
      slotused: nat)

  /** The lists, the last one being that of the free nodes, and the node of each object. */
  datatype Plan<K> = Plan(l: Lists, at: map<K, nat>)

  ghost predicate Shaped<K>(t: Table<K>, p: Plan<K>) {
    var n := |t.buckets|;
    && n > 0 && |t.objs| == |t.refs| == |t.next| == n
    && Valid(p.l) && p.l.next == t.next && p.l.heads == t.buckets + [t.freelist]
    && t.slotused + p.l.len[n] == n
    && t.slotused == |p.at|
  }

  /** A node holds an object exactly when it is in a bucket, which is then the object's own. */
  ghost predicate Holds<K>(t: Table<K>, p: Plan<K>, hash: K -> nat, i: nat)
    requires Shaped(t, p) && i < |t.objs|
  {
    match t.objs[i]
    case None => p.l.owner[i] == |t.buckets| && t.refs[i] == 0
    case Some(k) => p.l.owner[i] == hash(k) % |t.buckets| && k in p.at && p.at[k] == i
  }

  ghost predicate Ok<K>(t: Table<K>, p: Plan<K>, hash: K -> nat) {
    && Shaped(t, p)
    && (forall i :: 0 <= i < |t.objs| ==> Holds(t, p, hash, i))
    && (forall k :: k in p.at ==> p.at[k] < |t.objs| && t.objs[p.at[k]] == Some(k))
  }

  /** The number of references held to each object. */
  ghost function Counts<K>(t: Table<K>, p: Plan<K>): (r: map<K, nat>) {
    map k | k in p.at && p.at[k] < |t.refs| :: t.refs[p.at[k]]
  }

  /** The free list is empty exactly when every slot is used. */
  lemma FreeListEmpty<K>(t: Table<K>, p: Plan<K>, hash: K -> nat)
    requires Ok(t, p, hash)
    ensures t.freelist == -1 <==> t.slotused == |t.buckets|
    ensures t.freelist != -1 ==>
      0 <= t.freelist < |t.objs| && t.objs[t.freelist] == None && p.l.owner[t.freelist] == |t.buckets|
  {
    var n := |t.buckets|;
    assert Headed(p.l, n);
    if t.freelist != -1 { assert Holds(t, p, hash, t.freelist); }
  }

  // ---------- One step ----------

  function Added<K>(t: Table<K>, b: nat, obj: K): (r: Table<K>)
    requires |t.objs| == |t.next| && 0 <= t.freelist < |t.objs| && b < |t.buckets|
  {
    var i := t.freelist;
    Table(t.objs[i := Some(obj)], t.refs, t.next[i := t.buckets[b]], t.buckets[b := i], t.next[i], t.slotused + 1)
  }

  ghost function AddedPlan<K>(t: Table<K>, p: Plan<K>, hash: K -> nat, b: nat, obj: K): (q: Plan<K>)
    requires Ok(t, p, hash) && t.slotused < |t.buckets| && b < |t.buckets|
  {
    FreeListEmpty(t, p, hash);
    CutValid(p.l, t.freelist, -1);
    Plan(Push(Cut(p.l, t.freelist, -1), b, t.freelist), p.at[obj := t.freelist])
  }

  lemma AddShaped<K>(t: Table<K>, p: Plan<K>, hash: K -> nat, b: nat, obj: K)
    requires Ok(t, p, hash) && t.slotused < |t.buckets| && obj !in p.at && b < |t.buckets|
    ensures 0 <= t.freelist < |t.objs| && t.objs[t.freelist] == None
    ensures Shaped(Added(t, b, obj), AddedPlan(t, p, hash, b, obj))
  {
    FreeListEmpty(t, p, hash);
    CutValid(p.l, t.freelist, -1);
    PushValid(Cut(p.l, t.freelist, -1), b, t.freelist);
    var u, q := Added(t, b, obj), AddedPlan(t, p, hash, b, obj);
    assert q.l.heads == u.buckets + [u.freelist];
  }

  lemma AddOk<K>(t: Table<K>, p: Plan<K>, hash: K -> nat, b: nat, obj: K)
    requires Ok(t, p, hash) && t.slotused < |t.buckets| && obj !in p.at && b == hash(obj) % |t.buckets|
    ensures 0 <= t.freelist < |t.objs|
    ensures Ok(Added(t, b, obj), AddedPlan(t, p, hash, b, obj), hash)
  {
    AddShaped(t, p, hash, b, obj);
    assert Holds(t, p, hash, t.freelist);
    var u, q := Added(t, b, obj), AddedPlan(t, p, hash, b, obj);
    forall j | 0 <= j < |u.objs| ensures Holds(u, q, hash, j) { assert Holds(t, p, hash, j); }
  }

  lemma AddCounts<K>(t: Table<K>, p: Plan<K>, hash: K -> nat, b: nat, obj: K)
    requires Ok(t, p, hash) && t.slotused < |t.buckets| && obj !in p.at && b == hash(obj) % |t.buckets|
    requires 0 <= t.freelist < |t.objs| && Ok(Added(t, b, obj), AddedPlan(t, p, hash, b, obj), hash)
    ensures Counts(Added(t, b, obj), AddedPlan(t, p, hash, b, obj)) == Counts(t, p)[obj := 0]
  {
    FreeListEmpty(t, p, hash);
    assert Holds(t, p, hash, t.freelist);
  }

  function Unlinked<K>(t: Table<K>, i: nat, b: nat, prev: int): (r: Table<K>)
    requires i < |t.objs| == |t.next| && b < |t.buckets| && -1 <= prev < |t.next| && t.slotused > 0
  {
    var next := if prev >= 0 then t.next[prev := t.next[i]] else t.next;
    var buckets := if prev >= 0 then t.buckets else t.buckets[b := t.next[i]];
    Table(t.objs[i := None], t.refs, next[i := t.freelist], buckets, i, t.slotused - 1)
  }

  ghost function UnlinkedPlan<K>(t: Table<K>, p: Plan<K>, hash: K -> nat, obj: K, prev: int): (q: Plan<K>)
    requires Ok(t, p, hash) && obj in p.at && Before(p.l, p.at[obj], prev)
  {
    var i := p.at[obj];
    assert Holds(t, p, hash, i);
    CutValid(p.l, i, prev);
    Plan(Push(Cut(p.l, i, prev), |t.buckets|, i), p.at - {obj})
  }

  lemma UnlinkShaped<K>(t: Table<K>, p: Plan<K>, hash: K -> nat, obj: K, prev: int)
    requires Ok(t, p, hash) && obj in p.at && Before(p.l, p.at[obj], prev)
    ensures t.slotused > 0
    ensures Shaped(Unlinked(t, p.at[obj], hash(obj) % |t.buckets|, prev), UnlinkedPlan(t, p, hash, obj, prev))
  {
    var i, b := p.at[obj], hash(obj) % |t.buckets|;
    assert Holds(t, p, hash, i) && |p.at| > 0;
    CutValid(p.l, i, prev);
    PushValid(Cut(p.l, i, prev), |t.buckets|, i);
    var u, q := Unlinked(t, i, b, prev), UnlinkedPlan(t, p, hash, obj, prev);
    assert q.l.heads == u.buckets + [u.freelist];
    assert |q.at| == |p.at| - 1;
  }

  lemma UnlinkOk<K>(t: Table<K>, p: Plan<K>, hash: K -> nat, obj: K, prev: int)
    requires Ok(t, p, hash) && obj in p.at && Before(p.l, p.at[obj], prev) && t.refs[p.at[obj]] == 0
    ensures t.slotused > 0
    ensures var b := hash(obj) % |t.buckets|;
            Ok(Unlinked(t, p.at[obj], b, prev), UnlinkedPlan(t, p, hash, obj, prev), hash)
  {
    var i, b := p.at[obj], hash(obj) % |t.buckets|;
    UnlinkShaped(t, p, hash, obj, prev);
    var u, q := Unlinked(t, i, b, prev), UnlinkedPlan(t, p, hash, obj, prev);
    assert q.l.owner == p.l.owner[i := |t.buckets|];
    assert Holds(t, p, hash, i);
    forall j | 0 <= j < |u.objs| ensures Holds(u, q, hash, j) { assert Holds(t, p, hash, j); }
  }

  lemma UnlinkCounts<K>(t: Table<K>, p: Plan<K>, hash: K -> nat, obj: K, prev: int)
    requires Ok(t, p, hash) && obj in p.at && Before(p.l, p.at[obj], prev) && t.slotused > 0
    ensures var b := hash(obj) % |t.buckets|;
            Counts(Unlinked(t, p.at[obj], b, prev), UnlinkedPlan(t, p, hash, obj, prev)) == Counts(t, p) - {obj}
  {
  }

  lemma RecountOk<K>(t: Table<K>, p: Plan<K>, hash: K -> nat, obj: K, count: nat)
    requires Ok(t, p, hash) && obj in p.at
    ensures var u := t.(refs := t.refs[p.at[obj] := count]);
            Ok(u, p, hash) && Counts(u, p) == Counts(t, p)[obj := count]
  {
    var u := t.(refs := t.refs[p.at[obj] := count]);
    assert Shaped(u, p);
    forall j | 0 <= j < |u.objs| ensures Holds(u, p, hash, j) { assert Holds(t, p, hash, j); }
  }

  /** The counts of the objects in the first `n` nodes. */
  ghost function CountsUpTo<K>(t: Table<K>, p: Plan<K>, hash: K -> nat, n: nat): (r: map<K, nat>)
    requires Ok(t, p, hash)
  {
    map k | k in p.at && p.at[k] < n :: t.refs[p.at[k]]
  }

  lemma CountsStep<K>(t: Table<K>, p: Plan<K>, hash: K -> nat, n: nat)
    requires Ok(t, p, hash) && n < |t.objs|
    ensures CountsUpTo(t, p, hash, n + 1) ==
            match t.objs[n]
            case None => CountsUpTo(t, p, hash, n)
            case Some(k) => CountsUpTo(t, p, hash, n)[k := t.refs[n]]
    ensures t.objs[n].Some? ==> t.objs[n].value !in CountsUpTo(t, p, hash, n)
  {
    assert Holds(t, p, hash, n);
  }

  /** The counts after each node that is moved: `m[n]` once `n` nodes have been looked at. */
  predicate Moves<K>(t: Table<K>, m: seq<map<K, nat>>, n: nat) {
    && n < |t.objs| && n < |t.refs| && n + 1 < |m|
    && match t.objs[n]
       case None => m[n + 1] == m[n]
       case Some(k) => k !in m[n] && m[n + 1] == m[n][k := t.refs[n]]
  }

  ghost predicate Moving<K>(t: Table<K>, m: seq<map<K, nat>>) {
    |m| == |t.objs| + 1 && m[0] == map[] && forall n :: 0 <= n < |t.objs| ==> Moves(t, m, n)
  }

  lemma CountsInSteps<K>(t: Table<K>, p: Plan<K>, hash: K -> nat) returns (m: seq<map<K, nat>>)
    requires Ok(t, p, hash)
    ensures Moving(t, m) && m[|t.objs|] == Counts(t, p)
  {
    m := seq(|t.objs| + 1, n requires 0 <= n => CountsUpTo(t, p, hash, n));
    forall n | 0 <= n < |t.objs| ensures Moves(t, m, n) { CountsStep(t, p, hash, n); }
    assert CountsUpTo(t, p, hash, |t.objs|) == Counts(t, p);
  }

  lemma KeysSize<K>(t: Table<K>, p: Plan<K>, hash: K -> nat)
    requires Ok(t, p, hash)
    ensures Counts(t, p).Keys == p.at.Keys
    ensures t.slotused == |Counts(t, p)|
  {
    var m := Counts(t, p);
    assert m.Keys == p.at.Keys;
    assert |m| == |m.Keys| && |p.at| == |p.at.Keys|;
  }

  /** Every object is there because of some reference. */
  ghost predicate Positive<K>(refs: map<K, nat>) {
    forall k :: k in refs ==> refs[k] > 0
  }

  lemma Overwritten<K>(was: map<K, nat>, refs: map<K, nat>, obj: K, count: nat)
    requires refs == was[obj := 0]
    ensures refs[obj := count] == was[obj := count]
  {
  }

  /** Counts are 32 bits wide. */
  function Up(n: nat): (r: nat) {
    (n + 1) % 0x1_0000_0000
  }

  function Down(n: nat): (r: nat) {
    if n == 0 then 0xFFFF_FFFF else n - 1
  }

  /** One more reference to an object. */
  function Bumped<K>(refs: map<K, nat>, obj: K): (r: map<K, nat>) {
    refs[obj := Up(if obj in refs then refs[obj] else 0)]
  }

  lemma BumpInserted<K>(was: map<K, nat>, refs: map<K, nat>, obj: K)
    requires refs == if obj in was then was else was[obj := 0]
    ensures refs[obj := Up(refs[obj])] == Bumped(was, obj)
  {
  }

  /** The last reference that can be counted takes the count back to zero. */
  lemma BumpedPositive<K>(refs: map<K, nat>, obj: K)
    ensures Positive(refs) ==> (Positive(Bumped(refs, obj)) <==> !(obj in refs && Up(refs[obj]) == 0))
  {
    assert Bumped(refs, obj)[obj] == Up(if obj in refs then refs[obj] else 0);
  }

  /** One reference less; the object goes with the last one, and a count of zero becomes the largest. */
  function Dropped<K>(refs: map<K, nat>, obj: K): (r: map<K, nat>) {
    if obj !in refs then refs else if Down(refs[obj]) == 0 then refs - {obj} else refs[obj := Down(refs[obj])]
  }

  lemma DropEmptied<K>(refs: map<K, nat>, obj: K, n: nat)
    requires obj in refs
    ensures refs[obj := n] - {obj} == refs - {obj}
    ensures Positive(refs) ==> Positive(Dropped(refs, obj))
  {
  }

  /** Releasing takes one away exactly if there is one. */
  lemma ReleasesOne<K>(refs: map<K, nat>, obj: K)
    requires obj in refs
    ensures var r := Dropped(refs, obj); (if obj in r then r[obj] else 0) + 1 == refs[obj] <==> refs[obj] > 0
  {
    if refs[obj] == 0 { assert Dropped(refs, obj)[obj] == 0xFFFF_FFFF; }
  }

  /** What was added is released again, exactly if the object was not there with a count of zero. */
  lemma BumpThenDrop<K>(refs: map<K, nat>, obj: K)
    requires obj in refs ==> refs[obj] < 0x1_0000_0000
    ensures Dropped(Bumped(refs, obj), obj) == refs <==> !(obj in refs && refs[obj] == 0)
  {
    var n := if obj in refs then refs[obj] else 0;
    assert Bumped(refs, obj)[obj] == Up(n);
    if obj in refs && n == 0 { assert obj !in Dropped(Bumped(refs, obj), obj); }
  }

  // ---------- The class ----------

  class RefTable<K(==)> {
    const hash: K -> nat
    var t: Table<K>
    ghost var p: Plan<K>

    /** The number of references held to each object. */
    ghost var refs: map<K, nat>

    ghost predicate Good()
      reads this
    {
      Ok(t, p, hash) && refs == Counts(t, p)
    }

    method AllocNodes(size: nat)
      requires size > 0
      modifies this
      ensures Good() && refs == map[] && |t.buckets| == size && t.slotused == 0
    {
      var next, n := [], 0;
      while n < size
        invariant n <= size && |next| == n
        invariant forall i :: 0 <= i < n ==> next[i] == if i < size - 1 then i + 1 else -1
      {
        next := next + [if n < size - 1 then n + 1 else -1];
        n := n + 1;
      }
      t := Table(seq(size, i => None), seq(size, i => 0), next, seq(size, i => -1), 0, 0);
      p := Plan(Lists(next, t.buckets + [0], seq(size, i => size),
          seq(size, i requires 0 <= i < size => (size - 1 - i) as nat),
                      seq(size + 1, i => if i == size then size else 0)), map[]);
      refs := map[];
      assert Valid(p.l) by {
        forall i | 0 <= i < size ensures Linked(p.l, i) { }
        forall b | 0 <= b < size + 1 ensures Headed(p.l, b) { }
      }
    }

    constructor (hash: K -> nat)
      ensures Good() && refs == map[]
    {
      this.hash := hash;
      new;
      AllocNodes(4);
    }

    method Add(mainpos: nat, obj: K) returns (newnode: nat)
      requires Good() && t.slotused < |t.buckets| && obj !in refs && mainpos == hash(obj) % |t.buckets|
      modifies this
      ensures Good() && t.slotused == old(t.slotused) + 1 && |t.buckets| == old(|t.buckets|)
      ensures obj in p.at && newnode == p.at[obj] && refs == old(refs)[obj := 0]
    {
      KeysSize(t, p, hash);
      AddOk(t, p, hash, mainpos, obj);
      AddCounts(t, p, hash, mainpos, obj);
      newnode := t.freelist;
      p, refs := AddedPlan(t, p, hash, mainpos, obj), refs[obj := 0];
      var head := t.buckets[mainpos];
      t := t.(objs := t.objs[newnode := Some(obj)], buckets := t.buckets[mainpos := newnode]);
      t := t.(freelist := t.next[newnode]);
      t := t.(next := t.next[newnode := head], slotused := t.slotused + 1);
    }

    /** The loop of Get: the node of the object and the one before it, or -1. */
    method Find(mainpos: nat, obj: K) returns (ref: int, prev: int)
      requires Good() && mainpos == hash(obj) % |t.buckets|
      ensures ref == if obj in p.at then p.at[obj] else -1
      ensures ref >= 0 ==> Before(p.l, ref, prev)
    {
      ref, prev := t.buckets[mainpos], -1;
      ghost var l := p.l;
      assert Headed(l, mainpos);
      if obj in p.at { assert Holds(t, p, hash, p.at[obj]) && Linked(l, p.at[obj]); }
      ghost var left: nat := l.len[mainpos];
      while ref != -1 && t.objs[ref] != Some(obj)
        invariant if ref == -1 then left == 0
                  else 0 <= ref < |t.objs| && l.owner[ref] == mainpos && left == l.rank[ref] + 1
        invariant ref != -1 ==> Before(l, ref, prev)
        invariant obj in p.at ==> l.owner[p.at[obj]] == mainpos && l.rank[p.at[obj]] < left
        decreases left
      {
        assert Linked(l, ref);
        if obj in p.at { assert Apart(l, ref, p.at[obj]); }
        left := left - 1;
        prev, ref := ref, t.next[ref];
      }
      if ref != -1 { assert Holds(t, p, hash, ref); }
    }

    method Recount(obj: K, i: nat, count: nat)
      requires Good() && obj in p.at && i == p.at[obj]
      modifies this`t, this`refs
      ensures Good() && refs == old(refs)[obj := count]
      ensures t == old(t).(refs := old(t).refs[i := count])
    {
      RecountOk(t, p, hash, obj, count);
      t := t.(refs := t.refs[i := count]);
      refs := refs[obj := count];
    }

    /** Adds an object with its count. */
    method AddBack(obj: K, count: nat)
      requires Good() && t.slotused < |t.buckets| && obj !in refs
      modifies this
      ensures Good() && refs == old(refs)[obj := count]
      ensures t.slotused == old(t.slotused) + 1 && |t.buckets| == old(|t.buckets|)
    {
      var nn := Add(hash(obj) % |t.buckets|, obj);
      ghost var r := refs;
      RecountOk(t, p, hash, obj, count);
      t := t.(refs := t.refs[nn := count]);
      refs := refs[obj := count];
      Overwritten(old(refs), r, obj, count);
    }

    /** Looks at one node of the old table. */
    method MoveOne(from: Table<K>, ghost m: seq<map<K, nat>>, n: nat)
      requires Good() && Moves(from, m, n) && refs == m[n] && t.slotused <= n < |t.buckets|
      modifies this
      ensures Good() && refs == m[n + 1] && |t.buckets| == old(|t.buckets|) && t.slotused <= n + 1
    {
      if from.objs[n].Some? { AddBack(from.objs[n].value, from.refs[n]); }
    }

    /** The loop of Resize, into an empty table that is large enough. */
    method Refill(from: Table<K>, ghost m: seq<map<K, nat>>)
      requires Good() && refs == map[] && t.slotused == 0 && Moving(from, m) && |from.objs| <= |t.buckets|
      modifies this
      ensures Good() && refs == m[|from.objs|] && |t.buckets| == old(|t.buckets|)
    {
      var n := 0;
      while n < |from.objs|
        invariant n <= |from.objs| && Good() && |t.buckets| == old(|t.buckets|) && t.slotused <= n
        invariant refs == m[n]
      {
        MoveOne(from, m, n);
        n := n + 1;
      }
    }

    /** Moves everything to a table of another size: every object keeps its count. */
    method Resize(size: nat)
      requires Good() && size >= |t.buckets|
      modifies this
      ensures Good() && refs == old(refs) && |t.buckets| == size && t.slotused == old(t.slotused)
    {
      var from := t;
      KeysSize(t, p, hash);
      ghost var m := CountsInSteps(t, p, hash);
      AllocNodes(size);
      Refill(from, m);
      KeysSize(t, p, hash);
    }

    /** How many slots there are once the object is in the table: twice as many if all were used. */
    ghost function SizeFor(obj: K): (n: nat)
      reads this
    {
      if obj !in refs && t.slotused == |t.buckets| then 2 * |t.buckets| else |t.buckets|
    }

    /** Get: the node of the object, added with a count of zero if asked for. */
    method Get(obj: K, add: bool) returns (ref: int, mainpos: nat, prev: int)
      requires Good()
      modifies this
      ensures Good() && mainpos == hash(obj) % |t.buckets|
      ensures !add ==> unchanged(this)
      ensures refs == if add && obj !in old(refs) then old(refs)[obj := 0] else old(refs)
      ensures ref == if obj in p.at then p.at[obj] else -1
      ensures add ==> obj in p.at
      ensures !add && ref >= 0 ==> Before(p.l, ref, prev)
      ensures add ==> |t.buckets| == old(SizeFor(obj))
    {
      KeysSize(t, p, hash);
      mainpos := hash(obj) % |t.buckets|;
      ref, prev := Find(mainpos, obj);
      if ref == -1 && add {
        if |t.buckets| == t.slotused {
          Resize(|t.buckets| * 2);
          KeysSize(t, p, hash);
          mainpos := hash(obj) % |t.buckets|;
        }
        ref := Add(mainpos, obj);
      }
    }

    method Increment(obj: K, ref: nat)
      requires Good() && obj in p.at && ref == p.at[obj]
      modifies this`t, this`refs
      ensures Good() && obj in old(refs) && refs == old(refs)[obj := Up(old(refs)[obj])]
    {
      assert obj in refs && t.refs[ref] == refs[obj];
      Recount(obj, ref, Up(t.refs[ref]));
    }

    method AddRef(obj: K)
      requires Good()
      modifies this
      ensures Good() && refs == Bumped(old(refs), obj)
      ensures Positive(old(refs)) ==> (Positive(refs) <==> !(obj in old(refs) && Up(old(refs)[obj]) == 0))
      ensures |t.buckets| == old(SizeFor(obj))
    {
      BumpedPositive(refs, obj);
      var ref, mainpos, prev := Get(obj, true);
      ghost var r := refs;
      BumpInserted(old(refs), r, obj);
      Increment(obj, ref);
      assert refs == r[obj := Up(r[obj])];
    }

    /** On an object that is not there it adds it, with a count of zero. */
    method GetRefCount(obj: K) returns (count: nat)
      requires Good()
      modifies this
      ensures Good() && count == if obj in old(refs) then old(refs)[obj] else 0
      ensures refs == if obj in old(refs) then old(refs) else old(refs)[obj := 0]
      ensures Positive(old(refs)) ==> (Positive(refs) <==> obj in old(refs))
      ensures |t.buckets| == old(SizeFor(obj))
    {
      var ref, mainpos, prev := Get(obj, true);
      count := t.refs[ref];
      assert obj in refs && refs[obj] == count;
    }

    /** True if that was the last reference; an object that is not there stays so. */
    method Release(obj: K) returns (last: bool)
      requires Good()
      modifies this
      ensures Good() && refs == Dropped(old(refs), obj)
      ensures last <==> obj in old(refs) && obj !in refs
      ensures Positive(old(refs)) ==> Positive(refs)
      ensures |t.buckets| == old(|t.buckets|)
    {
      KeysSize(t, p, hash);
      var ref, mainpos, prev := Get(obj, false);
      last := false;
      if ref >= 0 {
        DropEmptied(refs, obj, Down(t.refs[ref]));
        last := ReleaseAt(obj, ref, mainpos, prev);
      }
    }

    method ReleaseAt(obj: K, ref: nat, mainpos: nat, prev: int) returns (last: bool)
      requires Good() && obj in p.at && obj in refs && ref == p.at[obj] && mainpos == hash(obj) % |t.buckets|
      requires Before(p.l, ref, prev)
      modifies this
      ensures Good() && refs == Dropped(old(refs), obj) && (last <==> obj !in refs) && |t.buckets| == old(|t.buckets|)
    {
      ghost var n := Down(t.refs[ref]);
      assert refs[obj] == t.refs[ref];
      DropEmptied(refs, obj, n);
      Recount(obj, ref, Down(t.refs[ref]));
      last := t.refs[ref] == 0;
      if last { Unlink(obj, ref, mainpos, prev); }
    }

    method Unlink(obj: K, ref: nat, mainpos: nat, prev: int)
      requires Good() && obj in p.at && ref == p.at[obj] && mainpos == hash(obj) % |t.buckets|
      requires Before(p.l, ref, prev) && t.refs[ref] == 0
      modifies this
      ensures Good() && refs == old(refs) - {obj} && |t.buckets| == old(|t.buckets|)
    {
      UnlinkOk(t, p, hash, obj, prev);
      UnlinkCounts(t, p, hash, obj, prev);
      p, refs := UnlinkedPlan(t, p, hash, obj, prev), refs - {obj};
      if prev >= 0 {
        t := t.(next := t.next[prev := t.next[ref]]);
      } else {
        t := t.(buckets := t.buckets[mainpos := t.next[ref]]);
      }
      t := t.(next := t.next[ref := t.freelist], freelist := ref);
      t := t.(slotused := t.slotused - 1, objs := t.objs[ref := None]);
    }
  }
}
