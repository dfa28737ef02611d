/**
  The table that keeps one object for each string (SQStringTable in utility/sqstate.cpp): hash
  buckets are lists of string objects, linked through the objects. An object is known by its
  number; a number is not used again.
 */
module StringTable {
  import opened Buckets

  /** The objects, field by field, and the first object of each bucket. */
  datatype Table = Table(vals: seq<string>, hashes: seq<nat>, next: seq<int>, strings: seq<int>, slotused: nat)

  /** An object is in the bucket of its hash, and it is the object for its contents; or it is gone. */
  ghost predicate Placed(t: Table, l: Lists, at: map<string, nat>, hash: string -> nat, i: nat)
    requires Valid(l) && |t.strings| > 0 && |t.vals| == |t.hashes| == |l.next| && i < |t.vals|
  {
    l.owner[i] == -1
    || (l.owner[i] == t.hashes[i] % |t.strings| && t.hashes[i] == hash(t.vals[i])
        && t.vals[i] in at && at[t.vals[i]] == i)
  }

  ghost predicate Ok(t: Table, l: Lists, at: map<string, nat>, hash: string -> nat) {
    && |t.strings| > 0 && |t.vals| == |t.hashes| == |t.next|
    && Valid(l) && l.next == t.next && l.heads == t.strings
    && (forall i :: 0 <= i < |t.vals| ==> Placed(t, l, at, hash, i))
    && (forall s :: s in at ==> at[s] < |t.vals| && t.vals[at[s]] == s && l.owner[at[s]] >= 0)
    && t.slotused == |at|
  }

  /** Two objects in the table are the same exactly when their contents are. */
  lemma OneObjectPerString(t: Table, l: Lists, at: map<string, nat>, hash: string -> nat, i: nat, j: nat)
    requires Ok(t, l, at, hash) && i < |t.vals| && j < |t.vals| && l.owner[i] >= 0 && l.owner[j] >= 0
    ensures i == j <==> t.vals[i] == t.vals[j]
    ensures t.vals[i] in at && at[t.vals[i]] == i
  {
    assert Placed(t, l, at, hash, i) && Placed(t, l, at, hash, j);
  }

  lemma OneInTable(t: Table, l: Lists, at: map<string, nat>, hash: string -> nat, i: nat)
    requires Ok(t, l, at, hash) && i < |t.vals|
    ensures t.vals[i] in at && at[t.vals[i]] == i <==> l.owner[i] >= 0
  {
    assert Placed(t, l, at, hash, i);
  }

  // ---------- One step ----------

  /** A new node, in no list. */
  function Grown(l: Lists): (r: Lists) {
    Lists(l.next + [-1], l.heads, l.owner + [-1], l.rank + [0], l.len)
  }

  lemma GrownValid(l: Lists)
    requires Valid(l)
    ensures Valid(Grown(l))
  {
    var m := Grown(l);
    forall j | 0 <= j < |m.next| ensures Linked(m, j) { if j < |l.next| { assert Linked(l, j); } }
    forall d | 0 <= d < |m.heads| ensures Headed(m, d) { assert Headed(l, d); }
    forall j, k | 0 <= j < |m.next| && 0 <= k < |m.next| ensures Apart(m, j, k) {
      if j < |l.next| && k < |l.next| { assert Apart(l, j, k); }
    }
  }

  function Added(t: Table, s: string, hash: nat): (r: Table)
    requires |t.strings| > 0
  {
    var b := hash % |t.strings|;
    Table(t.vals + [s], t.hashes + [hash], t.next + [t.strings[b]], t.strings[b := |t.vals|], t.slotused + 1)
  }

  lemma AddOk(t: Table, l: Lists, at: map<string, nat>, hash: string -> nat, s: string)
    requires Ok(t, l, at, hash) && s !in at
    ensures Sized(Grown(l)) && |Grown(l).next| == |t.vals| + 1
    ensures Ok(Added(t, s, hash(s)), Push(Grown(l), hash(s) % |t.strings|, |t.vals|), at[s := |t.vals|], hash)
  {
    var n, b := |t.vals|, hash(s) % |t.strings|;
    GrownValid(l);
    PushValid(Grown(l), b, n);
    var u, m, at' := Added(t, s, hash(s)), Push(Grown(l), b, n), at[s := n];
    assert m.next == u.next;
    forall i | 0 <= i < |u.vals| ensures Placed(u, m, at', hash, i) {
      if i < n { assert Placed(t, l, at, hash, i); }
    }
  }

  /** The object `i` out of its list; `prev` is the one before it, or -1. */
  function Unlinked(t: Table, i: nat, b: nat, prev: int): (r: Table)
    requires i < |t.next| && b < |t.strings| && -1 <= prev < |t.next| && t.slotused > 0
  {
    t.(next := if prev >= 0 then t.next[prev := t.next[i]] else t.next,
       strings := if prev >= 0 then t.strings else t.strings[b := t.next[i]],
       slotused := t.slotused - 1)
  }

  lemma UnlinkOk(t: Table, l: Lists, at: map<string, nat>, hash: string -> nat, i: nat, prev: int)
    requires Ok(t, l, at, hash) && i < |t.vals| && l.owner[i] >= 0 && Before(l, i, prev)
    ensures t.slotused > 0 && l.owner[i] == t.hashes[i] % |t.strings| && l.len[l.owner[i]] > 0
    ensures Ok(Unlinked(t, i, l.owner[i], prev), Cut(l, i, prev), at - {t.vals[i]}, hash)
  {
    OneObjectPerString(t, l, at, hash, i, i);
    assert Placed(t, l, at, hash, i) && |at| > 0;
    CutValid(l, i, prev);
    var s := t.vals[i];
    var u, m, at' := Unlinked(t, i, l.owner[i], prev), Cut(l, i, prev), at - {s};
    assert |at'| == |at| - 1 by { assert at'.Keys == at.Keys - {s}; }
    forall j | 0 <= j < |u.vals| ensures Placed(u, m, at', hash, j) { assert Placed(t, l, at, hash, j); }
  }

  // ---------- Moving to more buckets ----------

  /** The old buckets behind `size` new ones. */
  function Behind(l: Lists, size: nat): (r: Lists) {
    Lists(l.next, seq(size, i => -1) + l.heads,
          seq(|l.owner|, i requires 0 <= i < |l.owner| => if l.owner[i] >= 0 then l.owner[i] + size else -1),
          l.rank, seq(size, i => 0) + l.len)
  }

  lemma BehindValid(l: Lists, size: nat)
    requires Valid(l)
    ensures Valid(Behind(l, size))
  {
    var m := Behind(l, size);
    forall j | 0 <= j < |m.next| ensures Linked(m, j) { assert Linked(l, j); }
    forall d | 0 <= d < |m.heads| ensures Headed(m, d) { if d >= size { assert Headed(l, d - size); } }
    forall j, k | 0 <= j < |m.next| && 0 <= k < |m.next| ensures Apart(m, j, k) {
      assert Apart(l, j, k) && Linked(l, j) && Linked(l, k);
    }
  }

  /** The new buckets alone, once the old ones are empty. */
  function Front(m: Lists, size: nat): (r: Lists)
    requires size <= |m.heads| && size <= |m.len|
  {
    m.(heads := m.heads[..size], len := m.len[..size])
  }

  lemma FrontValid(m: Lists, size: nat)
    requires Valid(m) && size <= |m.heads| && forall b :: size <= b < |m.heads| ==> m.len[b] == 0
    ensures Valid(Front(m, size))
  {
    var l := Front(m, size);
    forall j | 0 <= j < |l.next| ensures Linked(l, j) { assert Linked(m, j); }
    forall d | 0 <= d < |l.heads| ensures Headed(l, d) { assert Headed(m, d); }
    forall j, k | 0 <= j < |l.next| && 0 <= k < |l.next| ensures Apart(l, j, k) { assert Apart(m, j, k); }
  }

  /** In the middle of a move: each object is in a new bucket, its own, or still in an old one, or gone as before. */
  ghost predicate Moved(m: Lists, l: Lists, hashes: seq<nat>, size: nat) {
    && size > 0 && Valid(m) && |m.next| == |hashes| == |l.owner| && size <= |m.heads|
    && forall i :: 0 <= i < |hashes| ==>
         if l.owner[i] < 0 then m.owner[i] == -1
         else 0 <= m.owner[i] && (m.owner[i] < size ==> m.owner[i] == hashes[i] % size)
  }

  /** The machine's view of it: the new buckets, and `p`, where the walk over old bucket `i` is. */
  ghost predicate Midway(m: Lists, next: seq<int>, strings: seq<int>, from: seq<int>, i: nat, p: int) {
    && Sized(m) && m.next == next && |m.heads| == |strings| + |from|
    && (forall b :: 0 <= b < |strings| ==> m.heads[b] == strings[b])
    && (forall b :: |strings| <= b < |strings| + i && b < |m.heads| ==> m.len[b] == 0)
    && (i < |from| ==> m.heads[|strings| + i] == p)
    && (forall j :: i < j < |from| ==> m.heads[|strings| + j] == from[j])
  }

  /** The first object of an old bucket goes to the front of its new one. */
  function MoveFirst(m: Lists, i: nat, b: nat): (r: Lists)
    requires Sized(m) && i < |m.next| && 0 <= m.owner[i] < |m.heads| && m.len[m.owner[i]] > 0 && b < |m.heads|
  {
    Push(Cut(m, i, -1), b, i)
  }

  lemma MoveFirstOk(m: Lists, l: Lists, hashes: seq<nat>, size: nat, b: nat)
    requires Moved(m, l, hashes, size) && size <= b < |m.heads| && m.heads[b] != -1
    ensures 0 <= m.heads[b] < |m.next| && m.owner[m.heads[b]] == b && m.len[b] > 0
    ensures Moved(MoveFirst(m, m.heads[b], hashes[m.heads[b]] % size), l, hashes, size)
  {
    var i := m.heads[b];
    assert Headed(m, b);
    CutValid(m, i, -1);
    PushValid(Cut(m, i, -1), hashes[i] % size, i);
  }

  lemma MoveFirstMidway(m: Lists, next: seq<int>, strings: seq<int>, from: seq<int>, i: nat, p: int, h: nat)
    requires Midway(m, next, strings, from, i, p) && i < |from| && 0 <= p < |next| && h < |strings|
    requires m.owner[p] == |strings| + i && m.len[|strings| + i] > 0
    ensures Midway(MoveFirst(m, p, h), next[p := strings[h]], strings[h := p], from, i, next[p])
    ensures MoveFirst(m, p, h).len[|strings| + i] < m.len[|strings| + i]
  {
  }

  lemma MovedOk(t: Table, l: Lists, at: map<string, nat>, hash: string -> nat, m: Lists, size: nat)
    requires Ok(t, l, at, hash) && Moved(m, l, t.hashes, size)
    requires forall b :: size <= b < |m.heads| ==> m.len[b] == 0
    ensures Ok(t.(next := m.next, strings := m.heads[..size]), Front(m, size), at, hash)
  {
    FrontValid(m, size);
    var u, f := t.(next := m.next, strings := m.heads[..size]), Front(m, size);
    forall i | 0 <= i < |u.vals| ensures Placed(u, f, at, hash, i) {
      assert Placed(t, l, at, hash, i) && Linked(m, i);
    }
  }

  // ---------- The class ----------

  class SQStringTable {
    const hash: string -> nat
    var t: Table
    ghost var l: Lists

    /** The object of each string in the table. */
    ghost var at: map<string, nat>

    ghost predicate Good()
      reads this
    {
      Ok(t, l, at, hash) && t.slotused <= |t.strings|
    }

    constructor (hash: string -> nat)
      ensures Good() && at == map[] && this.hash == hash
    {
      this.hash := hash;
      t := Table([], [], [], seq(4, i => -1), 0);
      l := Lists([], seq(4, i => -1), [], [], seq(4, i => 0));
      at := map[];
    }

    /** The object for a string: the one it has, or a new one. */
    method Add(news: string) returns (s: nat)
      requires Good()
      modifies this
      ensures Good() && news in at && s == at[news]
      ensures if news in old(at) then at == old(at) else at == old(at)[news := s] && s >= |old(t.vals)|
      ensures old(t.vals) <= t.vals
      ensures |t.strings| == if news !in old(at) && old(t.slotused) >= old(|t.strings|) then 2 * old(|t.strings|)
                             else old(|t.strings|)
    {
      var newhash := hash(news);
      var h := newhash % |t.strings|;
      var p := Find(h, news);
      if p != -1 { return p; }
      s := |t.vals|;
      AddOk(t, l, at, hash, news);
      l, at := Push(Grown(l), h, s), at[news := s];
      t := Table(t.vals + [news], t.hashes + [newhash], t.next + [t.strings[h]], t.strings[h := s], t.slotused + 1);
      if t.slotused > |t.strings| {
        Resize(|t.strings| * 2);
      }
    }

    /** The loop of Add over a bucket. */
    method Find(h: nat, news: string) returns (s: int)
      requires Good() && h == hash(news) % |t.strings|
      ensures s == if news in at then at[news] else -1
    {
      s := t.strings[h];
      assert Headed(l, h);
      if news in at { assert Placed(t, l, at, hash, at[news]) && Linked(l, at[news]); }
      ghost var left: nat := l.len[h];
      while s != -1 && t.vals[s] != news
        invariant if s == -1 then left == 0 else 0 <= s < |t.vals| && l.owner[s] == h && left == l.rank[s] + 1
        invariant news in at ==> l.owner[at[news]] == h && l.rank[at[news]] < left
        decreases left
      {
        assert Linked(l, s);
        if news in at { assert Apart(l, s, at[news]); }
        left := left - 1;
        s := t.next[s];
      }
      if s != -1 { assert Placed(t, l, at, hash, s); }
    }

    /** The inner loop of Resize, over old bucket `i`. */
    method MoveBucket(ghost m: Lists, next: seq<int>, strings: seq<int>, oldtable: seq<int>, i: nat)
      returns (ghost m': Lists, next': seq<int>, strings': seq<int>)
      requires i < |oldtable| && |strings| > 0 && Moved(m, l, t.hashes, |strings|)
      requires Midway(m, next, strings, oldtable, i, oldtable[i])
      ensures |strings'| == |strings| && Moved(m', l, t.hashes, |strings'|)
      ensures Midway(m', next', strings', oldtable, i + 1, if i + 1 < |oldtable| then oldtable[i + 1] else -1)
    {
      var p := oldtable[i];
      m', next', strings' := m, next, strings;
      while p != -1
        invariant |strings'| == |strings| && Moved(m', l, t.hashes, |strings'|)
        invariant Midway(m', next', strings', oldtable, i, p)
        decreases m'.len[|strings| + i]
      {
        MoveFirstOk(m', l, t.hashes, |strings'|, |strings'| + i);
        var h := t.hashes[p] % |strings'|;
        MoveFirstMidway(m', next', strings', oldtable, i, p, h);
        m' := MoveFirst(m', p, h);
        var n := next'[p];
        next', strings' := next'[p := strings'[h]], strings'[h := p];
        p := n;
      }
      assert Headed(m', |strings| + i);
    }

    /** Moves every object to the bucket it has among `size`: the objects and their strings stay. */
    method Resize(size: nat)
      requires Ok(t, l, at, hash) && size > 0 && t.slotused <= size
      modifies this`t, this`l
      ensures Good() && t.vals == old(t.vals) && |t.strings| == size
    {
      var oldtable := t.strings;
      BehindValid(l, size);
      ghost var m := Behind(l, size);
      var next, strings := t.next, seq(size, i => -1);
      var i := 0;
      while i < |oldtable|
        invariant 0 <= i <= |oldtable| && |strings| == size && Moved(m, l, t.hashes, size)
        invariant Midway(m, next, strings, oldtable, i, if i < |oldtable| then oldtable[i] else -1)
        modifies {}
      {
        m, next, strings := MoveBucket(m, next, strings, oldtable, i);
        i := i + 1;
      }
      MovedOk(t, l, at, hash, m, size);
      assert m.heads[..size] == strings;
      l := Front(m, size);
      t := t.(next := next, strings := strings);
    }

    /** Takes an object out of the table. */
    method Remove(bs: nat)
      requires Good() && bs < |t.vals| && t.vals[bs] in at && at[t.vals[bs]] == bs
      modifies this
      ensures Good() && at == old(at) - {old(t.vals)[bs]} && t.vals == old(t.vals)
      ensures |t.strings| == old(|t.strings|)
    {
      var h := t.hashes[bs] % |t.strings|;
      OneInTable(t, l, at, hash, bs);
      var prev := FindNode(h, bs);
      Unlink(h, bs, prev);
    }

    method Unlink(h: nat, bs: nat, prev: int)
      requires Good() && bs < |t.vals| && l.owner[bs] >= 0 && h == t.hashes[bs] % |t.strings| && Before(l, bs, prev)
      modifies this
      ensures Good() && at == old(at) - {old(t.vals)[bs]} && t.vals == old(t.vals)
      ensures |t.strings| == old(|t.strings|)
    {
      UnlinkOk(t, l, at, hash, bs, prev);
      l, at := Cut(l, bs, prev), at - {t.vals[bs]};
      if prev != -1 {
        t := t.(next := t.next[prev := t.next[bs]]);
      } else {
        t := t.(strings := t.strings[h := t.next[bs]]);
      }
      t := t.(slotused := t.slotused - 1);
    }

    /** The loop of Remove: the object before `bs`, or -1. */
    method FindNode(h: nat, bs: nat) returns (prev: int)
      requires Good() && bs < |t.vals| && l.owner[bs] >= 0 && h == t.hashes[bs] % |t.strings|
      ensures Before(l, bs, prev)
    {
      assert Placed(t, l, at, hash, bs) && Headed(l, h) && Linked(l, bs);
      var s := t.strings[h];
      prev := -1;
      ghost var left: nat := l.len[h];
      while s != bs
        invariant 0 <= s < |t.vals| && l.owner[s] == h && left == l.rank[s] + 1 && Before(l, s, prev)
        invariant l.rank[bs] < left
        decreases left
      {
        assert Linked(l, s) && Apart(l, s, bs);
        left := left - 1;
        prev, s := s, t.next[s];
      }
    }
  }
}
