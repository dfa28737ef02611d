/**
  Reference counts of objects that refer to each other, while objects are released. Objects are
  indices; `held[x]` lists the references object `x` still holds, one entry for each.
 */
module RefCounts {

  function Count(s: seq<nat>, c: nat): (n: nat)
    ensures n == 0 <==> c !in s
  {
    if s == [] then 0 else (if s[0] == c then 1 else 0) + Count(s[1..], c)
  }

  /** How many references to `c` there are. */
  function Total(held: seq<seq<nat>>, c: nat): (n: nat) {
    if held == [] then 0 else Count(held[0], c) + Total(held[1..], c)
  }

  lemma {:induction false} TotalPut(held: seq<seq<nat>>, x: nat, s: seq<nat>, c: nat)
    requires x < |held|
    ensures Total(held[x := s], c) + Count(held[x], c) == Total(held, c) + Count(s, c)
  {
    if x > 0 {
      TotalPut(held[1..], x - 1, s, c);
      assert held[x := s][1..] == held[1..][x - 1 := s];
    } else {
      assert held[x := s][1..] == held[1..];
    }
  }

  lemma {:induction false} TotalHolder(held: seq<seq<nat>>, c: nat, x: nat)
    requires x < |held| && c in held[x]
    ensures Total(held, c) > 0
  {
    if x > 0 { TotalHolder(held[1..], c, x - 1); }
  }

  lemma {:induction false} Holder(held: seq<seq<nat>>, c: nat) returns (x: nat)
    requires Total(held, c) > 0
    ensures x < |held| && c in held[x]
  {
    if c in held[0] {
      x := 0;
    } else {
      x := Holder(held[1..], c);
      x := x + 1;
    }
  }

  /**
    `dying` are the freed objects that are still dropping their references, `pins` the objects the
    sweep itself holds.
   */
  datatype Heap = Heap(held: seq<seq<nat>>, rc: seq<nat>, freed: set<nat>, dying: set<nat>, pins: set<nat>)

  /** `ext[c]` counts the references to `c` from outside. */
  ghost predicate Counted(held: seq<seq<nat>>, rc: seq<nat>, freed: set<nat>, pins: set<nat>, ext: seq<nat>, c: nat)
    requires |rc| == |ext| && c < |ext|
  {
    rc[c] == Total(held, c) + ext[c] + (if c in pins then 1 else 0) && (c in freed <==> rc[c] == 0)
  }

  ghost predicate Inside(held: seq<seq<nat>>, x: nat)
    requires x < |held|
  {
    forall j :: 0 <= j < |held[x]| ==> held[x][j] < |held|
  }

  /** The counts are exact, and the freed objects are those that nothing refers to. */
  ghost predicate Exact(h: Heap, ext: seq<nat>) {
    && |h.held| == |h.rc| == |ext|
    && (forall x :: 0 <= x < |ext| ==> Inside(h.held, x))
    && (forall c :: 0 <= c < |ext| ==> Counted(h.held, h.rc, h.freed, h.pins, ext, c))
    && (forall c :: c in h.freed ==> c < |ext|) && h.dying <= h.freed
    && forall x :: x in h.freed && x !in h.dying ==> h.held[x] == []
  }

  /** Object `x` drops the first of its references; what nothing refers to any more starts to die. */
  function Dropped(h: Heap, x: nat): Heap
    requires x < |h.held| && h.held[x] != [] && h.held[x][0] < |h.rc| && h.rc[h.held[x][0]] > 0
  {
    var d := h.held[x][0];
    var rc := h.rc[d := h.rc[d] - 1];
    var more := if rc[d] == 0 then {d} else {};
    Heap(h.held[x := h.held[x][1..]], rc, h.freed + more, h.dying + more, h.pins)
  }

  lemma DropExact(h: Heap, ext: seq<nat>, x: nat)
    requires Exact(h, ext) && x < |ext| && h.held[x] != []
    ensures h.held[x][0] < |ext| && h.rc[h.held[x][0]] > 0 && h.held[x][0] !in h.freed
    ensures Exact(Dropped(h, x), ext)
  {
    var d := h.held[x][0];
    assert Inside(h.held, x) && Counted(h.held, h.rc, h.freed, h.pins, ext, d);
    TotalHolder(h.held, d, x);
    var h' := Dropped(h, x);
    forall y | 0 <= y < |ext| ensures Inside(h'.held, y) { assert Inside(h.held, y); }
    forall c | 0 <= c < |ext| ensures Counted(h'.held, h'.rc, h'.freed, h'.pins, ext, c) {
      assert Counted(h.held, h.rc, h.freed, h.pins, ext, c);
      TotalPut(h.held, x, h.held[x][1..], c);
    }
  }

  /** Each object of `p` is referred to from outside, by the sweep, or by `keep` from within `p`. */
  ghost predicate Supported(h: Heap, ext: seq<nat>, p: set<nat>, keep: seq<seq<nat>>) {
    && |keep| == |ext| && (forall x :: x in p ==> x < |ext|)
    && (forall x :: x in p ==> ext[x] > 0 || x in h.pins || SupportedBy(p, keep, x))
    && forall y, d :: y in p && y < |h.held| && d in keep[y] ==> d in h.held[y]
  }

  ghost predicate SupportedBy(p: set<nat>, keep: seq<seq<nat>>, x: nat) {
    exists y :: y in p && y < |keep| && x in keep[y]
  }

  /** So none of `p` is freed. */
  lemma SupportedStays(h: Heap, ext: seq<nat>, p: set<nat>, keep: seq<seq<nat>>, x: nat)
    requires Exact(h, ext) && Supported(h, ext, p, keep) && x in p
    ensures x !in h.freed
  {
    assert Counted(h.held, h.rc, h.freed, h.pins, ext, x);
    if ext[x] == 0 && x !in h.pins {
      var y :| y in p && y < |keep| && x in keep[y];
      TotalHolder(h.held, x, y);
    }
  }

  lemma DropSupported(h: Heap, ext: seq<nat>, p: set<nat>, keep: seq<seq<nat>>, x: nat)
    requires Exact(h, ext) && x < |ext| && h.held[x] != [] && Supported(h, ext, p, keep)
    requires x in p ==> forall d :: d in keep[x] ==> d in h.held[x][1..]
    ensures h.held[x][0] < |ext| && h.rc[h.held[x][0]] > 0 && Supported(Dropped(h, x), ext, p, keep)
  {
    DropExact(h, ext, x);
  }

  /** A dying object that holds nothing any more is gone. */
  lemma DiedExact(h: Heap, ext: seq<nat>, o: nat)
    requires Exact(h, ext) && o in h.freed && h.held[o] == []
    ensures Exact(h.(dying := h.dying - {o}), ext)
  {
  }

  /** The sweep takes hold of an object, or lets go of one to which something else refers. */
  function Pinned(h: Heap, c: nat): Heap
    requires c < |h.rc|
  {
    h.(rc := h.rc[c := h.rc[c] + 1], pins := h.pins + {c})
  }

  lemma PinExact(h: Heap, ext: seq<nat>, c: nat)
    requires Exact(h, ext) && c < |ext| && c !in h.pins && c !in h.freed
    ensures Exact(Pinned(h, c), ext)
  {
    var h' := Pinned(h, c);
    forall d | 0 <= d < |ext| ensures Counted(h'.held, h'.rc, h'.freed, h'.pins, ext, d) {
      assert Counted(h.held, h.rc, h.freed, h.pins, ext, d);
    }
  }

  function Unpinned(h: Heap, c: nat): Heap
    requires c < |h.rc| && h.rc[c] > 0
  {
    var more := if h.rc[c] == 1 then {c} else {};
    h.(rc := h.rc[c := h.rc[c] - 1], pins := h.pins - {c}, freed := h.freed + more, dying := h.dying + more)
  }

  lemma UnpinExact(h: Heap, ext: seq<nat>, c: nat)
    requires Exact(h, ext) && c in h.pins && c < |ext|
    ensures h.rc[c] > 0 && c !in h.freed && Exact(Unpinned(h, c), ext)
  {
    assert Counted(h.held, h.rc, h.freed, h.pins, ext, c);
    var h' := Unpinned(h, c);
    forall d | 0 <= d < |ext| ensures Counted(h'.held, h'.rc, h'.freed, h'.pins, ext, d) {
      assert Counted(h.held, h.rc, h.freed, h.pins, ext, d);
    }
  }
}
