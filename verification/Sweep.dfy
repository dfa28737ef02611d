/**
  The sweep of the garbage collector: the objects left on the chain of all objects are made to drop
  their references one after the other, which frees objects along the way, also some that the walk
  along the chain has not come to.
 */
module Sweep {

  import opened RefCounts
  import opened Collector

  /**
    The garbage in the order of the chain, first the highest rank. Finalize makes an object drop the
    references in `fin`; those in `rest` it keeps until it is freed.
   */
  datatype Garbage = Garbage(members: set<nat>, rank: seq<nat>, fin: seq<seq<nat>>, rest: seq<seq<nat>>, ext: seq<nat>)

  ghost predicate Sound(g: Garbage) {
    && |g.rank| == |g.fin| == |g.rest| == |g.ext| && (forall x :: x in g.members ==> x < |g.ext|)
    && forall x, y :: x in g.members && y in g.members && g.rank[x] == g.rank[y] ==> x == y
  }

  /** What `y` refers to when the sweep has finalized everything down to `t`. */
  function Intact(g: Garbage, t: nat, y: nat): (s: seq<nat>)
    requires t < |g.rank| && y < |g.rank| && |g.fin| == |g.rank| && |g.rest| == |g.rank|
  {
    if g.rank[y] < g.rank[t] then g.fin[y] + g.rest[y] else g.rest[y]
  }

  ghost predicate IntactBy(g: Garbage, t: nat, p: set<nat>, x: nat)
    requires Sound(g) && t in g.members && p <= g.members
  {
    exists y :: y in p && x in Intact(g, t, y)
  }

  /** `p` has everything after `t`, and each of its objects but `t` is referred to from outside or from `p`. */
  ghost predicate KeptBy(g: Garbage, t: nat, p: set<nat>)
    requires Sound(g) && t in g.members
  {
    && p <= g.members
    && (forall x :: x in g.members && g.rank[x] < g.rank[t] ==> x in p)
    && forall x :: x in p && x != t ==> g.ext[x] > 0 || IntactBy(g, t, p, x)
  }

  /** Finalizing everything down to `t` frees nothing that comes after it. */
  ghost predicate Keeps(g: Garbage, t: nat)
    requires Sound(g) && t in g.members
  {
    exists p :: KeptBy(g, t, p)
  }

  ghost predicate AllKeep(g: Garbage)
    requires Sound(g)
  {
    forall t :: t in g.members ==> Keeps(g, t)
  }

  /** All that is kept at `t` or later. */
  ghost function Held(g: Garbage, t: nat): (p: set<nat>)
    requires Sound(g) && t in g.members
  {
    set x | x in g.members && LaterHeld(g, t, x)
  }

  ghost predicate LaterHeld(g: Garbage, t: nat, x: nat)
    requires Sound(g) && t in g.members
  {
    exists s, p :: s in g.members && g.rank[s] <= g.rank[t] && KeptBy(g, s, p) && x in p
  }

  lemma HeldIsKept(g: Garbage, t: nat)
    requires Sound(g) && t in g.members && AllKeep(g)
    ensures KeptBy(g, t, Held(g, t))
  {
    var q := Held(g, t);
    var own :| KeptBy(g, t, own);
    assert own <= q by { forall x | x in own ensures x in q { assert LaterHeld(g, t, x); } }
    forall x | x in q && x != t ensures g.ext[x] > 0 || IntactBy(g, t, q, x) {
      var s, p :| s in g.members && g.rank[s] <= g.rank[t] && KeptBy(g, s, p) && x in p;
      assert p <= q by { forall y | y in p ensures y in q { assert LaterHeld(g, t, y); } }
      if x != s {
        if g.ext[x] == 0 {
          assert IntactBy(g, s, p, x);
          var y :| y in p && x in Intact(g, s, y);
          assert x in Intact(g, t, y);
        }
      } else {
        assert x in own;
        if g.ext[x] == 0 {
          var y :| y in own && x in Intact(g, t, y);
        }
      }
    }
  }

  lemma HeldShrinks(g: Garbage, t: nat, u: nat)
    requires Sound(g) && t in g.members && u in g.members && g.rank[u] <= g.rank[t]
    ensures Held(g, u) <= Held(g, t)
  {
    forall x | x in Held(g, u) ensures x in Held(g, t) {
      var s, p :| s in g.members && g.rank[s] <= g.rank[u] && KeptBy(g, s, p) && x in p;
      assert LaterHeld(g, t, x);
    }
  }

  /** `p` holds itself by references that Finalize does not drop. */
  ghost predicate Self(g: Garbage, p: set<nat>)
    requires Sound(g)
  {
    p <= g.members && forall x :: x in p ==> g.ext[x] > 0 || RestBy(g, p, x)
  }

  ghost predicate RestBy(g: Garbage, p: set<nat>, x: nat)
    requires Sound(g) && p <= g.members
  {
    exists y :: y in p && x in g.rest[y]
  }

  /** The largest such set. */
  ghost function Lasting(g: Garbage): (p: set<nat>)
    requires Sound(g)
  {
    set x | x in g.members && InSelf(g, x)
  }

  ghost predicate InSelf(g: Garbage, x: nat)
    requires Sound(g)
  {
    exists p :: Self(g, p) && x in p
  }

  lemma LastingIsSelf(g: Garbage)
    requires Sound(g)
    ensures Self(g, Lasting(g))
  {
    var q := Lasting(g);
    forall x | x in q ensures g.ext[x] > 0 || RestBy(g, q, x) {
      var p :| Self(g, p) && x in p;
      assert p <= q by { forall y | y in p ensures y in q { assert InSelf(g, y); } }
      if g.ext[x] == 0 {
        assert RestBy(g, p, x);
        var y :| y in p && x in g.rest[y];
      }
    }
  }

  lemma SelfIsLasting(g: Garbage, p: set<nat>)
    requires Sound(g) && Self(g, p)
    ensures p <= Lasting(g)
  {
    forall x | x in p ensures x in Lasting(g) { assert InSelf(g, x); }
  }

  ghost function Left(h: Heap): (s: set<nat>) {
    set c: nat | c < |h.held| && c !in h.freed
  }

  /** `garbage` that has not been freed is what is on the chain; everything else is in `p`. */
  ghost predicate Good(ss: SQSharedState, garbage: set<nat>, p: set<nat>, keep: seq<seq<nat>>, due: set<nat>)
    reads ss
  {
    && ss.h.held == ss.held && ss.h.rc == ss.rc && |ss.ext| == |ss.edges|
    && Exact(ss.h, ss.ext) && Supported(ss.h, ss.ext, p, keep)
    && ss.Linked(ss.gcChain, ss.white) && ss.Linked(ss.tChain, ss.black) && garbage !! ss.black
    && (forall c :: c in garbage ==> c < |ss.ext|) && (forall c :: 0 <= c < |ss.ext| && c !in garbage ==> c in p)
    && due <= garbage && due <= ss.h.dying && ss.white == (garbage - ss.h.freed) + due
  }

  /** What dropping references may change: only objects freed meanwhile lose references, but `x`. */
  ghost predicate Frame(h: Heap, h': Heap, x: nat) {
    && h.freed <= h'.freed && h'.dying == h.dying && h'.pins == h.pins && |h.held| == |h'.held|
    && forall y :: 0 <= y < |h.held| && y != x && (y in h.freed || y !in h'.freed) ==> h'.held[y] == h.held[y]
  }

  /** Takes one reference away from `x`; `d` is due to be released if that was the last one to it. */
  method Unhold(ss: SQSharedState, x: nat, ghost garbage: set<nat>, ghost p: set<nat>, ghost keep: seq<seq<nat>>)
    returns (d: nat, last: bool)
    requires Good(ss, garbage, p, keep, {}) && x < |ss.held| && ss.held[x] != []
    requires x in p ==> forall d :: d in keep[x] ==> d in ss.held[x][1..]
    modifies ss`held, ss`rc, ss`h
    ensures Good(ss, garbage, p, keep, if last then {d} else {})
    ensures d < |ss.held| && d !in old(ss.h).freed && ss.held == old(ss.held)[x := old(ss.held)[x][1..]]
    ensures ss.h.pins == old(ss.h).pins
    ensures ss.h.freed == old(ss.h).freed + (if last then {d} else {})
    ensures ss.h.dying == old(ss.h).dying + (if last then {d} else {})
  {
    d := ss.held[x][0];
    DropExact(ss.h, ss.ext, x);
    DropSupported(ss.h, ss.ext, p, keep, x);
    ss.held, ss.rc := ss.held[x := ss.held[x][1..]], ss.rc[d := ss.rc[d] - 1];
    ss.h := Dropped(ss.h, x);
    last := ss.rc[d] == 0;
    if last {
      assert d !in p by { if d in p { SupportedStays(ss.h, ss.ext, p, keep, d); } }
    }
  }

  lemma DropFrame(h: Heap, h1: Heap, h': Heap, x: nat, d: nat)
    requires x < |h.held| && h.held[x] != [] && h1.held == h.held[x := h.held[x][1..]] && h1.pins == h.pins
    requires d !in h.freed && h.dying <= h.freed && h1.freed == h.freed + {d} && h1.dying == h.dying + {d}
    requires Frame(h1.(dying := h1.dying - {d}), h', d) && (x in h.freed || x !in h'.freed)
    ensures Frame(h, h', x) && h'.held[x] == h.held[x][1..]
  {
  }

  method DropOne(ss: SQSharedState, x: nat, ghost garbage: set<nat>, ghost p: set<nat>, ghost keep: seq<seq<nat>>)
    requires Good(ss, garbage, p, keep, {}) && x < |ss.held| && ss.held[x] != [] && (x in ss.h.dying || x in ss.h.pins)
    requires x in p ==> forall d :: d in keep[x] ==> d in ss.held[x][1..]
    modifies ss`next, ss`prev, ss`gcChain, ss`k, ss`white, ss`held, ss`rc, ss`h
    ensures Good(ss, garbage, p, keep, {}) && Frame(old(ss.h), ss.h, x) && ss.k.rank == old(ss.k.rank)
    ensures ss.held[x] == old(ss.held[x])[1..]
    decreases Left(ss.h), 0
  {
    PinnedStays(ss.h, ss.ext, x);
    var d, last := Unhold(ss, x, garbage, p, keep);
    if last {
      assert d in Left(old(ss.h)) && d !in Left(ss.h);
      ghost var h1 := ss.h;
      Release(ss, d, garbage, p, keep);
      PinnedStays(ss.h, ss.ext, x);
      DropFrame(old(ss.h), h1, ss.h, x, d);
    }
  }

  lemma PinnedStays(h: Heap, ext: seq<nat>, x: nat)
    requires Exact(h, ext) && x < |ext|
    ensures x in h.pins ==> x !in h.freed
  {
    assert Counted(h.held, h.rc, h.freed, h.pins, ext, x);
  }

  /** Frees an object to which nothing refers. */
  method Release(ss: SQSharedState, o: nat, ghost garbage: set<nat>, ghost p: set<nat>, ghost keep: seq<seq<nat>>)
    requires Good(ss, garbage, p, keep, {o})
    modifies ss`next, ss`prev, ss`gcChain, ss`k, ss`white, ss`held, ss`rc, ss`h
    ensures Good(ss, garbage, p, keep, {}) && ss.k.rank == old(ss.k.rank)
    ensures Frame(old(ss.h).(dying := old(ss.h).dying - {o}), ss.h, o)
    decreases Left(ss.h), 2
  {
    ss.RemoveFromChain(o);
    DropAll(ss, o, garbage, p, keep);
    DiedExact(ss.h, ss.ext, o);
    ss.h := ss.h.(dying := ss.h.dying - {o});
  }

  method DropAll(ss: SQSharedState, o: nat, ghost garbage: set<nat>, ghost p: set<nat>, ghost keep: seq<seq<nat>>)
    requires Good(ss, garbage, p, keep, {}) && o in ss.h.dying
    modifies ss`next, ss`prev, ss`gcChain, ss`k, ss`white, ss`held, ss`rc, ss`h
    ensures Good(ss, garbage, p, keep, {}) && Frame(old(ss.h), ss.h, o) && ss.k.rank == old(ss.k.rank)
    ensures ss.held[o] == []
    decreases Left(ss.h), 1
  {
    while ss.held[o] != []
      invariant Good(ss, garbage, p, keep, {}) && o in ss.h.dying && Frame(old(ss.h), ss.h, o)
        && ss.k.rank == old(ss.k.rank)
      decreases |ss.held[o]|
    {
      assert o !in p by { if o in p { SupportedStays(ss.h, ss.ext, p, keep, o); } }
      assert Left(ss.h) <= Left(old(ss.h));
      DropOne(ss, o, garbage, p, keep);
    }
  }

  // ---------- The walk ----------

  /** The objects that are not garbage are referred to from outside or by one another, and refer to one another only. */
  ghost predicate LiveOk(g: Garbage, held: seq<seq<nat>>)
    requires |held| == |g.ext|
  {
    && (forall x :: 0 <= x < |held| && x !in g.members ==> g.ext[x] > 0 || LiveBy(g, held, x))
    && forall y, d :: 0 <= y < |held| && y !in g.members && d in held[y] ==> d !in g.members
  }

  ghost predicate LiveBy(g: Garbage, held: seq<seq<nat>>, x: nat) {
    exists y :: 0 <= y < |held| && y !in g.members && x in held[y]
  }

  /** `counted` are the objects that have been finalized; the sweep stands at `t`. */
  ghost predicate Progress(g: Garbage, h: Heap, t: int, counted: set<nat>) {
    && Sound(g) && |h.held| == |g.ext| && counted <= g.members && LiveOk(g, h.held)
    && (t != NIL ==> 0 <= t && t in g.members)
    && (forall x :: x in g.members && x !in h.freed ==>
          h.held[x] == (if x in counted then g.rest[x] else g.fin[x] + g.rest[x]))
    && forall x :: x in g.members && x !in h.freed ==> (x in counted <==> t == NIL || g.rank[x] > g.rank[t])
  }

  /** What the sweep does not free once it stands at `t`. */
  ghost function Safe(g: Garbage, t: int): (p: set<nat>)
    requires Sound(g) && (t != NIL ==> 0 <= t && t in g.members)
  {
    (set c: nat | c < |g.ext| && c !in g.members) + Lasting(g) + if t != NIL && AllKeep(g) then Held(g, t) else {}
  }

  ghost function SafeRefs(g: Garbage, held: seq<seq<nat>>, t: int): (s: seq<seq<nat>>)
    requires Sound(g) && (t != NIL ==> 0 <= t && t in g.members)
  {
    seq(|g.ext|, y requires 0 <= y < |g.ext| =>
      if y !in g.members then (if y < |held| then held[y] else []) else if t == NIL then g.rest[y] else Intact(g, t, y))
  }

  lemma SafeSupported(g: Garbage, h: Heap, t: int, counted: set<nat>)
    requires Progress(g, h, t, counted) && (t != NIL ==> t in h.pins)
    requires forall x :: x in Safe(g, t) && x in g.members ==> x !in h.freed
    ensures Supported(h, g.ext, Safe(g, t), SafeRefs(g, h.held, t))
  {
    var p, keep := Safe(g, t), SafeRefs(g, h.held, t);
    LastingIsSelf(g);
    forall x | x in p ensures g.ext[x] > 0 || x in h.pins || SupportedBy(p, keep, x) {
      if x !in g.members {
        if g.ext[x] == 0 {
          assert LiveBy(g, h.held, x);
          var y :| 0 <= y < |h.held| && y !in g.members && x in h.held[y];
          assert y in p && x in keep[y];
        }
      } else {
        SafeMember(g, h.held, t, x);
      }
    }
  }

  lemma SafeMember(g: Garbage, held: seq<seq<nat>>, t: int, x: nat)
    requires Sound(g) && (t != NIL ==> 0 <= t && t in g.members) && x in g.members && x in Safe(g, t)
    ensures g.ext[x] > 0 || x == t || SupportedBy(Safe(g, t), SafeRefs(g, held, t), x)
  {
    if g.ext[x] == 0 && x != t {
      var y := SafeHolder(g, t, x);
      var p, keep := Safe(g, t), SafeRefs(g, held, t);
      assert y in p && y < |keep| && x in keep[y];
    }
  }

  lemma SafeHolder(g: Garbage, t: int, x: nat) returns (y: nat)
    requires Sound(g) && (t != NIL ==> 0 <= t && t in g.members) && x in g.members && x in Safe(g, t)
    requires g.ext[x] == 0 && x != t
    ensures y in g.members && y in Safe(g, t) && x in if t == NIL then g.rest[y] else Intact(g, t, y)
  {
    if x in Lasting(g) {
      y := LastingHolder(g, x);
    } else {
      y := HeldHolder(g, t, x);
    }
  }

  lemma LastingHolder(g: Garbage, x: nat) returns (y: nat)
    requires Sound(g) && x in Lasting(g) && g.ext[x] == 0
    ensures y in g.members && y in Lasting(g) && x in g.rest[y]
  {
    LastingIsSelf(g);
    assert RestBy(g, Lasting(g), x);
    y :| y in Lasting(g) && x in g.rest[y];
  }

  lemma HeldHolder(g: Garbage, t: nat, x: nat) returns (y: nat)
    requires Sound(g) && t in g.members && AllKeep(g) && x in Held(g, t) && g.ext[x] == 0 && x != t
    ensures y in g.members && y in Held(g, t) && x in Intact(g, t, y)
  {
    HeldIsKept(g, t);
    assert IntactBy(g, t, Held(g, t), x);
    y :| y in Held(g, t) && x in Intact(g, t, y);
  }

  lemma SafeShrinks(g: Garbage, t: nat, u: int)
    requires Sound(g) && t in g.members && (u != NIL ==> 0 <= u && u in g.members && g.rank[u] <= g.rank[t])
    ensures Safe(g, u) <= Safe(g, t)
  {
    if u != NIL { HeldShrinks(g, t, u); }
  }

  /** `t` has been finalized too. */
  ghost predicate Passed(g: Garbage, h: Heap, t: nat, counted: set<nat>) {
    && Sound(g) && |h.held| == |g.ext| && counted <= g.members && LiveOk(g, h.held) && t in g.members
    && (forall x :: x in g.members && x !in h.freed ==>
          h.held[x] == (if x in counted then g.rest[x] else g.fin[x] + g.rest[x]))
    && forall x :: x in g.members && x !in h.freed ==> (x in counted <==> g.rank[x] >= g.rank[t])
  }

  lemma FrameLive(g: Garbage, h: Heap, h': Heap, t: nat)
    requires |h.held| == |g.ext| && LiveOk(g, h.held) && Frame(h, h', t) && t in g.members
    requires forall y :: 0 <= y < |g.ext| && y !in g.members ==> y !in h'.freed
    ensures LiveOk(g, h'.held)
  {
    forall x | 0 <= x < |h'.held| && x !in g.members ensures g.ext[x] > 0 || LiveBy(g, h'.held, x) {
      if g.ext[x] == 0 {
        assert LiveBy(g, h.held, x);
        var y :| 0 <= y < |h.held| && y !in g.members && x in h.held[y];
        assert h'.held[y] == h.held[y];
      }
    }
  }

  lemma FinalizedPasses(g: Garbage, h: Heap, h': Heap, t: nat, counted: set<nat>)
    requires Progress(g, h, t, counted) && Frame(h, h', t) && h'.held[t] == g.rest[t] && t !in h'.freed
    requires forall y :: 0 <= y < |g.ext| && y !in g.members ==> y !in h'.freed
    ensures Passed(g, h', t, counted + {t})
  {
    FrameLive(g, h, h', t);
  }

  /** The next object on the chain is the first of those that have not been freed. */
  lemma PassedProgress(g: Garbage, h: Heap, t: nat, counted: set<nat>, u: int)
    requires Passed(g, h, t, counted) && (u != NIL ==> 0 <= u && u in g.members && g.rank[u] < g.rank[t])
    requires forall x :: x in g.members && x !in h.freed && g.rank[x] < g.rank[t] ==> u != NIL && g.rank[x] <= g.rank[u]
    ensures Progress(g, h, u, counted)
  {
  }

  lemma FrameProgress(g: Garbage, h: Heap, h': Heap, t: nat, u: int, counted: set<nat>)
    requires Progress(g, h, u, counted) && Frame(h, h', t) && t in g.members
      && (t in h'.freed || h'.held[t] == h.held[t])
    requires forall y :: 0 <= y < |g.ext| && y !in g.members ==> y !in h'.freed
    ensures Progress(g, h', u, counted)
  {
    FrameLive(g, h, h', t);
  }

  /** Some object that has not been freed refers to each one of the garbage that has not. */
  lemma GarbageHolder(g: Garbage, h: Heap, x: nat) returns (y: nat)
    requires Exact(h, g.ext) && Sound(g) && LiveOk(g, h.held) && h.dying == {}
    requires x in g.members && x !in h.freed && x !in h.pins && g.ext[x] == 0
    ensures y in g.members && y !in h.freed && x in h.held[y]
  {
    assert Counted(h.held, h.rc, h.freed, h.pins, g.ext, x);
    y := Holder(h.held, x);
  }

  /** If nothing after `t` has been freed when `t` has been finalized, that is why. */
  lemma KeepsNow(g: Garbage, h: Heap, t: nat, counted: set<nat>)
    requires Passed(g, h, t, counted) && Exact(h, g.ext) && h.dying == {} && h.pins == {t}
    requires forall x :: x in g.members && g.rank[x] < g.rank[t] ==> x !in h.freed
    ensures Keeps(g, t)
  {
    var p := g.members - h.freed;
    forall x | x in p && x != t ensures g.ext[x] > 0 || IntactBy(g, t, p, x) {
      if g.ext[x] == 0 {
        var y := GarbageHolder(g, h, x);
        assert y in p && x in Intact(g, t, y);
      }
    }
    assert KeptBy(g, t, p);
  }

  /** What is left in the end holds itself. */
  lemma LeftIsSelf(g: Garbage, h: Heap, counted: set<nat>)
    requires Progress(g, h, NIL, counted) && Exact(h, g.ext) && h.dying == {} && h.pins == {}
    ensures Self(g, g.members - h.freed)
  {
    var p := g.members - h.freed;
    forall x | x in p ensures g.ext[x] > 0 || RestBy(g, p, x) {
      if g.ext[x] == 0 {
        var y := GarbageHolder(g, h, x);
        assert y in p && x in g.rest[y];
      }
    }
  }

  /** Finalize: makes `t` drop its first `n` references. */
  method Finalize(ss: SQSharedState, t: nat, n: nat, ghost g: Garbage, ghost p: set<nat>, ghost keep: seq<seq<nat>>)
    requires Good(ss, g.members, p, keep, {}) && t in ss.h.pins && t < |ss.held| && t < |g.fin| && t < |g.rest|
    requires n == |g.fin[t]| && ss.held[t] == g.fin[t] + g.rest[t] && (t in p ==> keep[t] == g.rest[t])
    modifies ss`next, ss`prev, ss`gcChain, ss`k, ss`white, ss`held, ss`rc, ss`h
    ensures Good(ss, g.members, p, keep, {}) && Frame(old(ss.h), ss.h, t) && ss.k.rank == old(ss.k.rank)
    ensures ss.held[t] == g.rest[t]
  {
    var i := 0;
    while i < n
      invariant 0 <= i <= n && Good(ss, g.members, p, keep, {}) && Frame(old(ss.h), ss.h, t)
        && ss.k.rank == old(ss.k.rank)
      invariant ss.held[t] == g.fin[t][i..] + g.rest[t]
    {
      assert ss.held[t][1..] == g.fin[t][i + 1..] + g.rest[t];
      DropOne(ss, t, g.members, p, keep);
      i := i + 1;
    }
    assert g.fin[t][n..] + g.rest[t] == g.rest[t];
  }

  /** Takes hold of the object the walk comes to next. */
  method Hold(ss: SQSharedState, c: nat, ghost garbage: set<nat>, ghost p: set<nat>, ghost keep: seq<seq<nat>>)
    requires Good(ss, garbage, p, keep, {}) && c < |ss.ext| && c !in ss.h.pins && c !in ss.h.freed
    modifies ss`rc, ss`h
    ensures Good(ss, garbage, p, keep, {}) && ss.h.freed == old(ss.h).freed && ss.h.dying == old(ss.h).dying
    ensures ss.h == Pinned(old(ss.h), c)
  {
    PinExact(ss.h, ss.ext, c);
    ss.rc := ss.rc[c := ss.rc[c] + 1];
    ss.h := Pinned(ss.h, c);
  }

  /** Lets go of the object the walk leaves. */
  method LetGo(ss: SQSharedState, t: nat, ghost garbage: set<nat>, ghost p: set<nat>, ghost keep: seq<seq<nat>>)
    requires Good(ss, garbage, p, keep, {}) && t in garbage && t in ss.h.pins && ss.h.dying == {}
    requires Supported(ss.h.(pins := ss.h.pins - {t}), ss.ext, p, keep)
    modifies ss`next, ss`prev, ss`gcChain, ss`k, ss`white, ss`held, ss`rc, ss`h
    ensures Good(ss, garbage, p, keep, {}) && ss.k.rank == old(ss.k.rank)
    ensures Frame(old(ss.h).(pins := old(ss.h).pins - {t}), ss.h, t)
      && (t in ss.h.freed || ss.held[t] == old(ss.held[t]))
  {
    UnpinExact(ss.h, ss.ext, t);
    ss.rc := ss.rc[t := ss.rc[t] - 1];
    ss.h := Unpinned(ss.h, t);
    if ss.rc[t] == 0 {
      assert t !in p by { if t in p { SupportedStays(ss.h, ss.ext, p, keep, t); } }
      Release(ss, t, garbage, p, keep);
    }
  }

  ghost predicate At(ss: SQSharedState, g: Garbage, t: int, counted: set<nat>)
    reads ss
  {
    && Progress(g, ss.h, t, counted) && g.ext == ss.ext && g.rank == ss.k.rank && ss.h.dying == {}
    && ss.h.pins == (if t == NIL then {} else {t})
    && Good(ss, g.members, Safe(g, t), SafeRefs(g, ss.held, t), {})
  }

  /** Nothing has been freed before the walk came to it. */
  ghost predicate NoneMissed(g: Garbage, h: Heap, counted: set<nat>) {
    forall x :: x in g.members && x !in counted ==> x !in h.freed
  }

  ghost predicate Tally(g: Garbage, h: Heap, counted: set<nat>)
    requires Sound(g) && counted <= g.members
  {
    && (AllKeep(g) ==> NoneMissed(g, h, counted))
    && (NoneMissed(g, h, counted) ==> forall s :: s in counted ==> Keeps(g, s))
  }

  ghost predicate Behind(ss: SQSharedState, g: Garbage, t: nat, counted: set<nat>)
    reads ss
  {
    && Passed(g, ss.h, t, counted) && g.ext == ss.ext && g.rank == ss.k.rank && ss.h.dying == {}
    && Good(ss, g.members, Safe(g, t), SafeRefs(g, ss.held, t), {})
  }

  ghost predicate LaterLeft(g: Garbage, h: Heap, t: nat)
    requires Sound(g) && t in g.members
  {
    forall x :: x in g.members && g.rank[x] < g.rank[t] ==> x !in h.freed
  }

  /** The live objects keep their references. */
  lemma SameSafeRefs(g: Garbage, held: seq<seq<nat>>, held': seq<seq<nat>>, t: int)
    requires Sound(g) && (t != NIL ==> 0 <= t && t in g.members) && |held| == |held'|
    requires forall y :: 0 <= y < |held| && y !in g.members ==> held'[y] == held[y]
    ensures SafeRefs(g, held', t) == SafeRefs(g, held, t)
  {
  }

  ghost predicate SafeLeft(g: Garbage, h: Heap, t: int)
    requires Sound(g) && (t != NIL ==> 0 <= t && t in g.members)
  {
    forall x :: x in Safe(g, t) ==> x !in h.freed
  }

  lemma SafeStays(h: Heap, g: Garbage, t: int, keep: seq<seq<nat>>)
    requires Sound(g) && (t != NIL ==> 0 <= t && t in g.members)
    requires Exact(h, g.ext) && Supported(h, g.ext, Safe(g, t), keep)
    ensures SafeLeft(g, h, t)
  {
    forall x | x in Safe(g, t) ensures x !in h.freed { SupportedStays(h, g.ext, Safe(g, t), keep, x); }
  }

  method FinalizeFirst(ss: SQSharedState, t: nat, n: nat, ghost g: Garbage, ghost counted: set<nat>)
    requires At(ss, g, t, counted) && t in g.members && t < |g.fin| && n == |g.fin[t]|
    modifies ss`next, ss`prev, ss`gcChain, ss`k, ss`white, ss`held, ss`rc, ss`h
    ensures Behind(ss, g, t, counted + {t}) && ss.h.pins == {t} && t !in ss.h.freed && old(ss.h).freed <= ss.h.freed
    ensures LaterLeft(g, ss.h, t) ==> Keeps(g, t)
  {
    ghost var h, p, keep := ss.h, Safe(g, t), SafeRefs(g, ss.held, t);
    PinnedStays(ss.h, ss.ext, t);
    Finalize(ss, t, n, g, p, keep);
    PinnedStays(ss.h, ss.ext, t);
    SafeStays(ss.h, g, t, keep);
    FinalizedPasses(g, h, ss.h, t, counted);
    SameSafeRefs(g, h.held, ss.held, t);
    if LaterLeft(g, ss.h, t) { KeepsNow(g, ss.h, t, counted + {t}); }
  }

  /** Where the walk goes on: at the first of the objects after `t` that have not been freed. */
  ghost predicate NextLeft(g: Garbage, h: Heap, t: nat, nx: int)
    requires Sound(g) && t in g.members
  {
    && (nx != NIL ==> 0 <= nx && nx in g.members && nx !in h.freed && g.rank[nx] < g.rank[t])
    && forall x :: x in g.members && x !in h.freed && g.rank[x] < g.rank[t] ==> nx != NIL && g.rank[x] <= g.rank[nx]
  }

  lemma NextIsLeft(k: Links, n: nat, head: int, white: set<nat>, g: Garbage, h: Heap, t: nat)
    requires Chain(k, n, head, white) && Sound(g) && white == g.members - h.freed && g.rank == k.rank && t in white
    ensures NextLeft(g, h, t, k.next[t])
  {
    forall x | x in white && g.rank[x] < g.rank[t] ensures k.next[t] != NIL && g.rank[x] <= g.rank[k.next[t]] {
      NextBelow(k, n, head, white, t, x);
    }
  }

  method HoldNext(ss: SQSharedState, t: nat, ghost g: Garbage, ghost counted: set<nat>) returns (nx: int)
    requires Behind(ss, g, t, counted) && ss.h.pins == {t} && t !in ss.h.freed
    modifies ss`rc, ss`h
    ensures Behind(ss, g, t, counted) && NextLeft(g, ss.h, t, nx) && ss.h.freed == old(ss.h).freed
    ensures ss.h.pins == if nx == NIL then {t} else {t, nx}
  {
    NextIsLeft(ss.k, |ss.edges|, ss.gcChain, ss.white, g, ss.h, t);
    nx := ss.next[t];
    if nx != NIL {
      PinnedPasses(g, ss.h, t, nx, counted);
      Hold(ss, nx, g.members, Safe(g, t), SafeRefs(g, ss.held, t));
    }
  }

  lemma PinnedPasses(g: Garbage, h: Heap, t: nat, nx: nat, counted: set<nat>)
    requires Passed(g, h, t, counted) && NextLeft(g, h, t, nx) && nx < |h.rc|
    ensures Passed(g, Pinned(h, nx), t, counted) && NextLeft(g, Pinned(h, nx), t, nx)
  {
  }

  lemma MoveSupported(g: Garbage, h: Heap, t: nat, nx: int, counted: set<nat>)
    requires Passed(g, h, t, counted) && NextLeft(g, h, t, nx)
    requires h.pins == if nx == NIL then {t} else {t, nx}
    requires SafeLeft(g, h, t)
    ensures Progress(g, h, nx, counted)
    ensures Supported(h, g.ext, Safe(g, nx), SafeRefs(g, h.held, nx))
    ensures Supported(h.(pins := h.pins - {t}), g.ext, Safe(g, nx), SafeRefs(g, h.held, nx))
  {
    PassedProgress(g, h, t, counted, nx);
    SafeShrinks(g, t, nx);
    SafeSupported(g, h, nx, counted);
    SafeSupported(g, h.(pins := h.pins - {t}), nx, counted);
  }

  lemma Arrived(g: Garbage, h: Heap, h': Heap, t: nat, nx: int, counted: set<nat>)
    requires Progress(g, h, nx, counted) && Frame(h.(pins := h.pins - {t}), h', t) && t in g.members
    requires t in h'.freed || h'.held[t] == h.held[t]
    requires Exact(h', g.ext) && Supported(h', g.ext, Safe(g, nx), SafeRefs(g, h.held, nx))
    ensures Progress(g, h', nx, counted) && SafeRefs(g, h'.held, nx) == SafeRefs(g, h.held, nx) && SafeLeft(g, h', nx)
  {
    SafeStays(h', g, nx, SafeRefs(g, h.held, nx));
    FrameProgress(g, h.(pins := h.pins - {t}), h', t, nx, counted);
    SameSafeRefs(g, h.held, h'.held, nx);
  }

  method Leave(ss: SQSharedState, t: nat, nx: int, ghost g: Garbage, ghost counted: set<nat>)
    requires Progress(g, ss.h, nx, counted) && g.ext == ss.ext && g.rank == ss.k.rank && ss.h.dying == {}
    requires t in g.members && ss.h.pins == (if nx == NIL then {t} else {t, nx}) && t != nx
    requires Good(ss, g.members, Safe(g, nx), SafeRefs(g, ss.held, nx), {})
    requires Supported(ss.h.(pins := ss.h.pins - {t}), ss.ext, Safe(g, nx), SafeRefs(g, ss.held, nx))
    modifies ss`next, ss`prev, ss`gcChain, ss`k, ss`white, ss`held, ss`rc, ss`h
    ensures At(ss, g, nx, counted) && old(ss.h).freed <= ss.h.freed && SafeLeft(g, ss.h, nx)
  {
    ghost var h := ss.h;
    LetGo(ss, t, g.members, Safe(g, nx), SafeRefs(g, h.held, nx));
    Arrived(g, h, ss.h, t, nx, counted);
  }

  method MoveOn(ss: SQSharedState, t: nat, nx: int, ghost g: Garbage, ghost counted: set<nat>)
    requires Behind(ss, g, t, counted) && NextLeft(g, ss.h, t, nx) && ss.h.pins == if nx == NIL then {t} else {t, nx}
    requires SafeLeft(g, ss.h, t)
    modifies ss`next, ss`prev, ss`gcChain, ss`k, ss`white, ss`held, ss`rc, ss`h
    ensures At(ss, g, nx, counted) && old(ss.h).freed <= ss.h.freed && SafeLeft(g, ss.h, nx)
  {
    MoveSupported(g, ss.h, t, nx, counted);
    Leave(ss, t, nx, g, counted);
  }

  ghost predicate Above(g: Garbage, counted: set<nat>, t: int)
    requires Sound(g) && counted <= g.members && (t != NIL ==> 0 <= t && t in g.members)
  {
    t != NIL ==> forall x :: x in counted ==> g.rank[x] > g.rank[t]
  }

  lemma TallyKept(g: Garbage, h: Heap, h1: Heap, h': Heap, t: nat, nx: int, counted: set<nat>)
    requires Progress(g, h, t, counted) && NoneMissed(g, h, counted)
    requires AllKeep(g) && NextLeft(g, h1, t, nx) && (nx != NIL ==> nx !in h'.freed)
    requires SafeLeft(g, h1, t) && SafeLeft(g, h', nx)
    ensures NoneMissed(g, h', counted + {t})
  {
    HeldIsKept(g, t);
    if nx != NIL { HeldIsKept(g, nx); }
    forall x | x in g.members && x !in counted + {t} ensures x !in h'.freed {
      assert x !in h.freed;
      assert g.rank[x] < g.rank[t];
      assert x in Safe(g, t);
    }
  }

  lemma TallyBack(g: Garbage, h: Heap, h1: Heap, h': Heap, t: nat, counted: set<nat>)
    requires Sound(g) && counted <= g.members && t in g.members && Above(g, counted, t) && Tally(g, h, counted)
    requires h.freed <= h1.freed <= h'.freed && t !in h.freed && (LaterLeft(g, h1, t) ==> Keeps(g, t))
    requires NoneMissed(g, h', counted + {t})
    ensures forall s :: s in counted + {t} ==> Keeps(g, s)
  {
    assert NoneMissed(g, h, counted);
    assert LaterLeft(g, h1, t);
  }

  /** How one round changes the tally: from `h` to `h1` with `t` finalized, and to `h'` with `nx` next. */
  lemma TallyRound(g: Garbage, h: Heap, h1: Heap, h': Heap, t: nat, nx: int, counted: set<nat>)
    requires Progress(g, h, t, counted) && Above(g, counted, t) && Tally(g, h, counted)
    requires NextLeft(g, h1, t, nx) && (nx != NIL ==> nx !in h'.freed) && SafeLeft(g, h1, t) && SafeLeft(g, h', nx)
    requires h.freed <= h1.freed <= h'.freed && t !in h.freed && (LaterLeft(g, h1, t) ==> Keeps(g, t))
    ensures Tally(g, h', counted + {t}) && Above(g, counted + {t}, nx)
  {
    if AllKeep(g) { TallyKept(g, h, h1, h', t, nx, counted); }
    if NoneMissed(g, h', counted + {t}) { TallyBack(g, h, h1, h', t, counted); }
  }

  lemma OneMore(g: Garbage, counted: set<nat>, t: nat)
    requires Sound(g) && counted <= g.members && t in g.members && Above(g, counted, t)
    ensures |counted + {t}| == |counted| + 1
  {
    assert t !in counted;
  }

  method SweepOne(ss: SQSharedState, t: nat, n: nat, ghost g: Garbage, ghost counted: set<nat>)
    returns (nx: int, ghost more: set<nat>)
    requires At(ss, g, t, counted) && t in g.members && t < |g.fin| && n == |g.fin[t]|
    requires Above(g, counted, t) && Tally(g, ss.h, counted)
    modifies ss`next, ss`prev, ss`gcChain, ss`k, ss`white, ss`held, ss`rc, ss`h
    ensures At(ss, g, nx, more) && Above(g, more, nx) && Tally(g, ss.h, more) && more == counted + {t}
      && |more| == |counted| + 1
    ensures nx != NIL ==> g.rank[nx] < g.rank[t]
  {
    ghost var h := ss.h;
    more := counted + {t};
    OneMore(g, counted, t);
    PinnedStays(ss.h, ss.ext, t);
    FinalizeFirst(ss, t, n, g, counted);
    nx := HoldNext(ss, t, g, more);
    ghost var h1 := ss.h;
    SafeStays(h1, g, t, SafeRefs(g, ss.held, t));
    MoveOn(ss, t, nx, g, more);
    if nx != NIL { PinnedStays(ss.h, ss.ext, nx); }
    TallyRound(g, h, h1, ss.h, t, nx, counted);
  }

  /** The whole walk along the chain of garbage. */
  method SweepChain(ss: SQSharedState, fin: seq<seq<nat>>, head: int, ghost g: Garbage)
      returns (n: nat, ghost counted: set<nat>)
    requires At(ss, g, head, {}) && fin == g.fin && Above(g, {}, head) && Tally(g, ss.h, {})
    modifies ss`next, ss`prev, ss`gcChain, ss`k, ss`white, ss`held, ss`rc, ss`h
    ensures At(ss, g, NIL, counted) && Tally(g, ss.h, counted) && n == |counted| && (head != NIL ==> head in counted)
  {
    var t := head;
    n, counted := 0, {};
    while t != NIL
      invariant At(ss, g, t, counted) && Above(g, counted, t) && Tally(g, ss.h, counted) && n == |counted|
      invariant head == t || head in counted
      decreases if t == NIL then 0 else g.rank[t] + 1
    {
      t, counted := SweepOne(ss, t, |fin[t]|, g, counted);
      n := n + 1;
    }
  }

  /** The objects counted are all the garbage exactly when nothing is freed before the walk comes to it. */
  lemma CountIsAll(g: Garbage, h: Heap, counted: set<nat>)
    requires Progress(g, h, NIL, counted) && Tally(g, h, counted)
    ensures |counted| <= |g.members|
    ensures |counted| == |g.members| <==> AllKeep(g)
  {
    SubsetSize(counted, g.members);
    if AllKeep(g) {
      assert counted == g.members;
    }
    if |counted| == |g.members| {
      assert counted == g.members;
      assert NoneMissed(g, h, counted);
    }
  }

  lemma SubsetSize(a: set<nat>, b: set<nat>)
    requires a <= b
    ensures |a| <= |b| && (|a| == |b| ==> a == b)
  {
    assert b == a + (b - a);
    assert |b| == |a| + |b - a|;
  }

  /** What the sweep frees is all garbage but what holds itself by references Finalize does not drop. */
  lemma FreedIs(g: Garbage, h: Heap, counted: set<nat>)
    requires Progress(g, h, NIL, counted) && Exact(h, g.ext) && h.dying == {} && h.pins == {}
    requires Supported(h, g.ext, Safe(g, NIL), SafeRefs(g, h.held, NIL))
    ensures h.freed == g.members - Lasting(g)
  {
    SafeStays(h, g, NIL, SafeRefs(g, h.held, NIL));
    LeftIsSelf(g, h, counted);
    SelfIsLasting(g, g.members - h.freed);
  }

  /** Before the walk nothing has been freed, and it starts at the first object. */
  lemma StartProgress(g: Garbage, h: Heap, head: int)
    requires Sound(g) && |h.held| == |g.ext| && LiveOk(g, h.held) && h.freed == {}
    requires forall x :: x in g.members ==> h.held[x] == g.fin[x] + g.rest[x]
    requires if head == NIL then g.members == {} else 0 <= head && head in g.members && forall x :: x in g.members ==>
      g.rank[x] <= g.rank[head]
    ensures Progress(g, h, head, {}) && Above(g, {}, head) && Tally(g, h, {})
  {
  }

  method StartWalk(ss: SQSharedState, ghost g: Garbage)
    requires Progress(g, ss.h, ss.gcChain, {}) && g.ext == ss.ext && g.rank == ss.k.rank && ss.h.dying == {}
      && ss.h.pins == {}
    requires ss.h.freed == {} && ss.h.held == ss.held && ss.h.rc == ss.rc && |ss.ext| == |ss.edges|
      && Exact(ss.h, ss.ext)
    requires ss.Linked(ss.gcChain, ss.white) && ss.Linked(ss.tChain, ss.black) && ss.white == g.members
      && ss.white !! ss.black
    modifies ss`rc, ss`h
    ensures At(ss, g, ss.gcChain, {}) && ss.h.freed == {}
  {
    HoldFirst(ss, g);
    SafeSupported(g, ss.h, ss.gcChain, {});
  }

  method HoldFirst(ss: SQSharedState, ghost g: Garbage)
    requires Progress(g, ss.h, ss.gcChain, {}) && g.ext == ss.ext && ss.h.pins == {} && ss.h.rc == ss.rc
    requires ss.gcChain != NIL ==> 0 <= ss.gcChain < |ss.rc| && ss.gcChain !in ss.h.freed
    requires Exact(ss.h, ss.ext)
    modifies ss`rc, ss`h
    ensures Progress(g, ss.h, ss.gcChain, {}) && Exact(ss.h, ss.ext) && ss.h.rc == ss.rc
    ensures ss.h == old(ss.h).(rc := ss.rc, pins := if ss.gcChain == NIL then {} else {ss.gcChain})
  {
    var t := ss.gcChain;
    if t != NIL {
      PinExact(ss.h, ss.ext, t);
      ss.rc := ss.rc[t := ss.rc[t] + 1];
      ss.h := Pinned(ss.h, t);
    }
  }

  /** The references an object holds are those that marking follows. */
  ghost predicate Follows(edges: seq<seq<nat>>, held: seq<seq<nat>>) {
    |edges| == |held| && forall c, d :: 0 <= c < |edges| ==> (d in edges[c] <==> d in held[c])
  }

  lemma AliveIsLive(g: Garbage, edges: seq<seq<nat>>, held: seq<seq<nat>>, roots: seq<nat>)
    requires Follows(edges, held) && |held| == |g.ext|
      && (forall x, d :: 0 <= x < |edges| && d in edges[x] ==> d < |edges|)
    requires forall c :: c in g.members <==> 0 <= c < |edges| && !Alive(edges, roots, c)
    requires forall r :: r in roots ==> r < |g.ext| && g.ext[r] > 0
    ensures LiveOk(g, held)
  {
    forall x | 0 <= x < |held| && x !in g.members ensures g.ext[x] > 0 || LiveBy(g, held, x) {
      var p :| Path(edges, p) && p[0] in roots && p[|p| - 1] == x;
      if |p| > 1 {
        var q := p[..|p| - 1];
        var y := q[|q| - 1];
        assert Path(edges, q) && q[0] in roots;
        assert Alive(edges, roots, y) && x in edges[y] && y !in g.members && x in held[y];
      }
    }
    forall y, d | 0 <= y < |held| && y !in g.members && d in held[y] ensures d !in g.members {
      AliveNext(edges, roots, y, d);
    }
  }

  lemma ChainSound(k: Links, n: nat, head: int, g: Garbage)
    requires Chain(k, n, head, g.members) && g.rank == k.rank && |g.fin| == n && |g.rest| == n && |g.ext| == n
    ensures Sound(g)
    ensures head != NIL ==> 0 <= head && head in g.members && forall x :: x in g.members ==> g.rank[x] <= g.rank[head]
  {
    forall x, y | x in g.members && y in g.members && g.rank[x] == g.rank[y] ensures x == y {
      if x != y { NextBelow(k, n, head, g.members, x, y); }
    }
    forall x | x in g.members ensures head != NIL && g.rank[x] <= g.rank[head] { HeadAbove(k, n, head, g.members, x); }
  }

  /** `g` is what is not alive, in the order of the chain. */
  ghost predicate IsGarbage(g: Garbage, fin: seq<seq<nat>>, rest: seq<seq<nat>>, ext: seq<nat>, rank: seq<nat>,
      dead: iset<nat>) {
    && Sound(g) && g.fin == fin && g.rest == rest && g.ext == ext
    && (forall c :: c in g.members <==> c in dead)
    && forall c :: c in g.members ==> c < |rank| && g.rank[c] == rank[c]
  }

  ghost function Dead(edges: seq<seq<nat>>, roots: seq<nat>): (s: iset<nat>) {
    iset c: nat | c < |edges| && !Alive(edges, roots, c)
  }

  ghost predicate Ready(ss: SQSharedState, fin: seq<seq<nat>>, rest: seq<seq<nat>>)
    reads ss
  {
    && Follows(ss.edges, ss.held) && |fin| == |ss.edges| && |rest| == |ss.edges| && |ss.ext| == |ss.edges|
    && (forall c :: 0 <= c < |fin| ==> ss.held[c] == fin[c] + rest[c])
    && ss.h == Heap(ss.held, ss.rc, {}, {}, {}) && Exact(ss.h, ss.ext)
  }

  ghost predicate Begun(ss: SQSharedState, g: Garbage)
    reads ss
  {
    && At(ss, g, ss.gcChain, {}) && Above(g, {}, ss.gcChain) && Tally(g, ss.h, {})
    && (ss.gcChain == NIL <==> g.members == {})
  }

  /** The garbage is on one chain and the rest on the other. */
  ghost predicate Split(ss: SQSharedState, g: Garbage)
    reads ss
  {
    && Sound(g) && g.ext == ss.ext && g.rank == ss.k.rank && |ss.held| == |ss.ext| && LiveOk(g, ss.held)
    && ss.white == g.members && ss.white !! ss.black
    && ss.Linked(ss.gcChain, ss.white) && ss.Linked(ss.tChain, ss.black)
  }

  /** The mark phase; `g` is the garbage it leaves. */
  method MarkPhase(ss: SQSharedState, fin: seq<seq<nat>>, rest: seq<seq<nat>>, roots: seq<nat>)
      returns (ghost g: Garbage)
    requires ss.Valid() && ss.grey == {} && ss.black == {} && Ready(ss, fin, rest)
    requires forall j :: 0 <= j < |roots| ==> roots[j] < |ss.edges| && ss.ext[roots[j]] > 0
    modifies ss
    ensures forall c :: c in ss.black <==> Alive(ss.edges, roots, c)
    ensures |ss.marked| == |ss.edges| && forall c :: 0 <= c < |ss.edges| && ss.marked[c] ==> c in ss.black
    ensures IsGarbage(g, fin, rest, ss.ext, old(ss.k.rank), Dead(ss.edges, roots))
    ensures Ready(ss, fin, rest) && Split(ss, g)
  {
    ss.RunMark(roots);
    g := Garbage(ss.white, ss.k.rank, fin, rest, ss.ext);
    ChainSound(ss.k, |ss.edges|, ss.gcChain, g);
    AliveIsLive(g, ss.edges, ss.held, roots);
  }

  method Begin(ss: SQSharedState, fin: seq<seq<nat>>, rest: seq<seq<nat>>, ghost g: Garbage)
    requires Ready(ss, fin, rest) && Split(ss, g) && g.fin == fin && g.rest == rest
    modifies ss`rc, ss`h
    ensures Begun(ss, g)
  {
    ChainSound(ss.k, |ss.edges|, ss.gcChain, g);
    StartProgress(g, ss.h, ss.gcChain);
    StartWalk(ss, g);
  }

  /** The walk, and what has come of it. */
  method SweepAll(ss: SQSharedState, fin: seq<seq<nat>>, ghost g: Garbage) returns (n: nat)
    requires Begun(ss, g) && fin == g.fin
    modifies ss`next, ss`prev, ss`gcChain, ss`k, ss`white, ss`held, ss`rc, ss`h
    ensures ss.Linked(ss.tChain, ss.black) && ss.h.freed == g.members - Lasting(g)
    ensures n <= |g.members| && (n == |g.members| <==> AllKeep(g)) && (n == 0 <==> g.members == {})
  {
    ghost var counted;
    n, counted := SweepChain(ss, fin, ss.gcChain, g);
    CountIsAll(g, ss.h, counted);
    FreedIs(g, ss.h, counted);
  }

  /** Clears the marks; the chain of the live objects is now that of all. */
  method KeepLive(ss: SQSharedState)
    requires ss.Linked(ss.tChain, ss.black) && |ss.marked| == |ss.edges|
    requires forall c :: 0 <= c < |ss.edges| && ss.marked[c] ==> c in ss.black
    modifies ss`marked, ss`gcChain
    ensures ss.Linked(ss.gcChain, ss.black)
    ensures |ss.marked| == |ss.edges| && forall c :: 0 <= c < |ss.edges| ==> !ss.marked[c]
  {
    ss.UnMark(ss.tChain, ss.black);
    ss.gcChain := ss.tChain;
  }

  method BeginAndSweep(ss: SQSharedState, fin: seq<seq<nat>>, rest: seq<seq<nat>>, ghost g: Garbage) returns (n: nat)
    requires Ready(ss, fin, rest) && Split(ss, g) && g.fin == fin && g.rest == rest
    modifies ss`next, ss`prev, ss`gcChain, ss`k, ss`white, ss`held, ss`rc, ss`h
    ensures ss.Linked(ss.tChain, ss.black) && ss.h.freed == g.members - Lasting(g)
    ensures n <= |g.members| && (n == |g.members| <==> AllKeep(g)) && (n == 0 <==> g.members == {})
  {
    Begin(ss, fin, rest, g);
    n := SweepAll(ss, fin, g);
  }

  method SweepPhase(ss: SQSharedState, fin: seq<seq<nat>>, rest: seq<seq<nat>>, ghost g: Garbage) returns (n: nat)
    requires Ready(ss, fin, rest) && Split(ss, g) && g.fin == fin && g.rest == rest
    requires |ss.marked| == |ss.edges| && forall c :: 0 <= c < |ss.edges| && ss.marked[c] ==> c in ss.black
    modifies ss`next, ss`prev, ss`gcChain, ss`k, ss`white, ss`held, ss`rc, ss`h, ss`marked
    ensures ss.Linked(ss.gcChain, ss.black)
    ensures |ss.marked| == |ss.edges| && forall c :: 0 <= c < |ss.edges| ==> !ss.marked[c]
    ensures ss.h.freed == g.members - Lasting(g)
    ensures n <= |g.members| && (n == |g.members| <==> AllKeep(g)) && (n == 0 <==> g.members == {})
  {
    n := BeginAndSweep(ss, fin, rest, g);
    KeepLive(ss);
  }

  /**
    Collects the garbage `g`, in the order it has on the chain. The live objects are left, on the
    chain of all objects and unmarked. `n` is the number of garbage objects exactly when none of
    them is freed before the walk comes to it, and all are freed that do not hold themselves.
   */
  method CollectGarbage(ss: SQSharedState, fin: seq<seq<nat>>, rest: seq<seq<nat>>, roots: seq<nat>)
      returns (n: nat, ghost g: Garbage)
    requires ss.Valid() && ss.grey == {} && ss.black == {} && Ready(ss, fin, rest)
    requires forall j :: 0 <= j < |roots| ==> roots[j] < |ss.edges| && ss.ext[roots[j]] > 0
    modifies ss
    ensures IsGarbage(g, fin, rest, ss.ext, old(ss.k.rank), Dead(ss.edges, roots))
    ensures ss.Linked(ss.gcChain, ss.black) && forall c :: c in ss.black <==> Alive(ss.edges, roots, c)
    ensures |ss.marked| == |ss.edges| && forall c :: 0 <= c < |ss.edges| ==> !ss.marked[c]
    ensures ss.h.freed == g.members - Lasting(g)
    ensures n <= |g.members| && (n == |g.members| <==> AllKeep(g)) && (n == 0 <==> g.members == {})
  {
    g := MarkPhase(ss, fin, rest, roots);
    n := SweepPhase(ss, fin, rest, g);
  }

  /** Two tables that refer only to each other: the second is freed when the first is finalized, and not counted. */
  lemma CycleIsMissed(g: Garbage, a: nat, b: nat)
    requires Sound(g) && g.members == {a, b} && g.rank[a] > g.rank[b] && g.ext[a] == 0 && g.ext[b] == 0
    requires g.fin[a] == [b] && g.fin[b] == [a] && g.rest[a] == [] && g.rest[b] == []
    ensures !AllKeep(g) && Lasting(g) == {}
  {
    forall p ensures !KeptBy(g, a, p) {
      if p <= g.members { assert !IntactBy(g, a, p, b); }
    }
    assert !Keeps(g, a);
    forall p, x | Self(g, p) ensures x !in p {
      assert !RestBy(g, p, x);
    }
  }
}
