/**
  Captured variables. A closure reaches a captured local through an outer, which points
  into the VM stack while the variable is in scope and holds the value itself afterwards.
  An outer is named by its index among the outers created so far. A pointer into the
  stack names the allocation it was made for, so that it is stale once the stack has
  been reallocated and no relocation has followed.
 */
module Outers {

  const MIN_STACK_OVERHEAD: nat := 15
  const NIL := -1

  /** Where an outer's value lives: a slot of one allocation of the stack, or inside the outer. */
  datatype Ptr = InStack(alloc: nat, slot: nat) | OwnValue

  datatype SQOuter<V> = SQOuter(valptr: Ptr, idx: nat, value: V, next: int)

  datatype CallInfo = CallInfo(prevstkbase: nat, prevtop: nat, ncalls: nat)

  /** How a function literal names one of its free variables. */
  datatype OuterVar = Local(pos: nat) | Outer(index: nat)

  /** The identity of a variable, for as long as anything can reach it. */
  type Cell = nat

  // ---------- The list of open outers ----------

  /** The list from `p` is well linked and its slots descend strictly from below `bound`. */
  ghost predicate Chain<V>(outers: seq<SQOuter<V>>, p: int, bound: nat)
    decreases bound
  {
    p == NIL ||
    (&& 0 <= p < |outers| && outers[p].valptr.InStack?
     && outers[p].valptr.slot == outers[p].idx < bound
     && Chain(outers, outers[p].next, outers[p].idx))
  }

  /** Outer `o` is on the list from `p`. */
  ghost predicate OnChain<V>(outers: seq<SQOuter<V>>, p: int, bound: nat, o: int)
    requires Chain(outers, p, bound)
    decreases bound
  {
    p != NIL && (p == o || OnChain(outers, outers[p].next, outers[p].idx, o))
  }

  lemma {:induction false} OnChainBelow<V>(outers: seq<SQOuter<V>>, p: int, bound: nat, o: int)
    requires Chain(outers, p, bound) && OnChain(outers, p, bound, o)
    ensures 0 <= o < |outers| && outers[o].idx < bound && outers[o].valptr.InStack?
    decreases bound
  {
    if p != o { OnChainBelow(outers, outers[p].next, outers[p].idx, o); }
  }

  /** One outer per slot. */
  lemma {:induction false} OnePerSlot<V>(outers: seq<SQOuter<V>>, p: int, bound: nat, o: int, o': int)
    requires Chain(outers, p, bound) && OnChain(outers, p, bound, o) && OnChain(outers, p, bound, o')
    requires 0 <= o < |outers| && 0 <= o' < |outers| && outers[o].idx == outers[o'].idx
    ensures o == o'
    decreases bound
  {
    if p == o && p != o' {
      OnChainBelow(outers, outers[p].next, outers[p].idx, o');
    } else if p != o && p == o' {
      OnChainBelow(outers, outers[p].next, outers[p].idx, o);
    } else if p != o {
      OnePerSlot(outers, outers[p].next, outers[p].idx, o, o');
    }
  }

  /** A list does not notice changes to outers at or above its bound, to values, or new outers. */
  lemma {:induction false} ChainFrame<V>(outers: seq<SQOuter<V>>, outers': seq<SQOuter<V>>, p: int, bound: nat)
    requires Chain(outers, p, bound) && |outers| <= |outers'|
    requires forall o :: 0 <= o < |outers| && outers[o].idx < bound && outers[o].valptr.InStack? ==>
               && outers'[o].valptr.InStack? && outers'[o].valptr.slot == outers[o].valptr.slot
               && outers'[o].idx == outers[o].idx && outers'[o].next == outers[o].next
    ensures Chain(outers', p, bound)
    ensures forall o :: OnChain(outers', p, bound, o) <==> OnChain(outers, p, bound, o)
    decreases bound
  {
    if p != NIL { ChainFrame(outers, outers', outers[p].next, outers[p].idx); }
  }

  /** The array after creating an outer and linking it behind `prev`. */
  function LinkIn<V>(outers: seq<SQOuter<V>>, prev: int, x: SQOuter<V>): (r: seq<SQOuter<V>>)
    requires prev == NIL || 0 <= prev < |outers|
  {
    (if prev == NIL then outers else outers[prev := outers[prev].(next := |outers|)]) + [x]
  }

  lemma {:induction false} LinkBehind<V>(outers: seq<SQOuter<V>>, p: int, bound: nat, prev: int, x: SQOuter<V>)
    requires Chain(outers, p, bound) && OnChain(outers, p, bound, prev) && 0 <= prev < |outers|
    requires x.valptr.InStack? && x.valptr.slot == x.idx < outers[prev].idx && x.next == outers[prev].next
    requires x.next != NIL ==> 0 <= x.next < |outers| && outers[x.next].idx < x.idx
    ensures Chain(LinkIn(outers, prev, x), p, bound)
    ensures forall o :: OnChain(LinkIn(outers, prev, x), p, bound, o) <==> OnChain(outers, p, bound, o) || o == |outers|
    decreases bound
  {
    var outers' := LinkIn(outers, prev, x);
    if p == prev {
      assert Chain(outers, outers[p].next, outers[p].idx);
      assert Chain(outers, x.next, x.idx);
      ChainFrame(outers, outers', x.next, x.idx);
      OnChainBound(outers, x.next, x.idx, outers[p].idx);
      assert outers'[|outers|] == x;
    } else {
      OnChainBelow(outers, outers[p].next, outers[p].idx, prev);
      LinkBehind(outers, outers[p].next, outers[p].idx, prev, x);
    }
  }

  /** Being on the list does not depend on the bound it is seen under. */
  lemma OnChainBound<V>(outers: seq<SQOuter<V>>, p: int, b1: nat, b2: nat)
    requires Chain(outers, p, b1) && Chain(outers, p, b2)
    ensures forall o :: OnChain(outers, p, b1, o) <==> OnChain(outers, p, b2, o)
  {
  }

  // ---------- What the stack and the outers mean ----------

  /** Slot `i` is the home of its own cell and shows that cell's value. */
  ghost predicate Slots<V>(stack: seq<V>, home: seq<Cell>, store: map<Cell, V>) {
    && |home| == |stack|
    && (forall i :: 0 <= i < |home| ==> home[i] in store && stack[i] == store[home[i]])
    && (forall i, j :: 0 <= i < j < |home| ==> home[i] != home[j])
  }

  /** An outer shows cell `c`: through the slot that is the cell's home, or on its own. */
  ghost predicate Shows<V>(x: SQOuter<V>, c: Cell, alloc: nat, home: seq<Cell>, store: map<Cell, V>) {
    && c in store
    && match x.valptr
       case InStack(a, s) => a == alloc && s == x.idx && s < |home| && home[s] == c
       case OwnValue => x.value == store[c] && forall i :: 0 <= i < |home| ==> home[i] != c
  }

  ghost predicate AllShow<V>(outers: seq<SQOuter<V>>, cellOf: seq<Cell>, alloc: nat, home: seq<Cell>, store: map<Cell,
      V>) {
    && |cellOf| == |outers|
    && (forall o :: 0 <= o < |outers| ==> Shows(outers[o], cellOf[o], alloc, home, store))
    && (forall o, p :: 0 <= o < p < |cellOf| ==> cellOf[o] != cellOf[p])
  }

  /** The open list holds exactly the outers that point into the stack. */
  ghost predicate OpenList<V>(outers: seq<SQOuter<V>>, head: int, size: nat) {
    && Chain(outers, head, size)
    && forall o :: 0 <= o < |outers| && outers[o].valptr.InStack? ==> OnChain(outers, head, size, o)
  }

  predicate OpenAt<V>(x: SQOuter<V>, slot: nat) {
    x.valptr.InStack? && x.idx == slot
  }

  /** A slot has one open outer at most. */
  lemma OnlyOneOpen<V>(outers: seq<SQOuter<V>>, head: int, size: nat, p: nat, slot: nat)
    requires OpenList(outers, head, size) && p < |outers| && OpenAt(outers[p], slot)
    ensures forall o :: 0 <= o < |outers| && OpenAt(outers[o], slot) <==> o == p
  {
    forall o | 0 <= o < |outers| && OpenAt(outers[o], slot)
      ensures o == p
    {
      OnePerSlot(outers, head, size, o, p);
    }
  }

  lemma LinkKeepsOpenList<V>(outers: seq<SQOuter<V>>, head: int, size: nat, prev: int, p: int, bound: nat,
      x: SQOuter<V>)
    requires OpenList(outers, head, size)
    requires Chain(outers, p, bound) && x.valptr.InStack? && x.valptr.slot == x.idx < size && x.next == p
    requires p != NIL ==> outers[p].idx < x.idx
    requires prev == NIL ==> p == head
    requires prev != NIL ==> OnChain(outers, head, size, prev) && 0 <= prev < |outers| &&
                             outers[prev].next == p && outers[prev].idx > x.idx
    ensures OpenList(LinkIn(outers, prev, x), if prev == NIL then |outers| else head, size)
  {
    var outers' := LinkIn(outers, prev, x);
    if prev == NIL {
      assert outers'[|outers|] == x;
      assert Chain(outers, p, x.idx);
      ChainFrame(outers, outers', p, x.idx);
      OnChainBound(outers, p, x.idx, size);
    } else {
      LinkBehind(outers, head, size, prev, x);
    }
  }

  class SQVM<V> {
    const nil: V
    var stack: seq<V>
    var alloc: nat                    // which allocation of the stack is current
    var stackbase: nat
    var top: nat
    var outers: seq<SQOuter<V>>
    var openouters: int
    var callsstack: seq<CallInfo>
    var nmetamethodscall: nat

    ghost var home: seq<Cell>         // the variable each stack slot holds
    ghost var cellOf: seq<Cell>       // the variable each outer stands for
    ghost var store: map<Cell, V>     // the last value written to each variable

    constructor (nil: V, stacksize: nat)
      ensures Valid() && |stack| == stacksize && outers == [] && callsstack == []
    {
      this.nil := nil;
      stack := seq(stacksize, _ => nil);
      alloc, stackbase, top, nmetamethodscall := 0, 0, 0, 0;
      outers, openouters, callsstack := [], NIL, [];
      ghost var cells := seq(stacksize, i => i);
      home, cellOf := cells, [];
      store := map c | c in cells :: nil;
    }

    ghost predicate Valid()
      reads this
    {
      && Slots(stack, home, store)
      && AllShow(outers, cellOf, alloc, home, store)
      && OpenList(outers, openouters, |stack|)
      && forall i :: 0 <= i < |callsstack| ==> callsstack[i].prevstkbase <= callsstack[i].prevtop
    }

    // ---------- Reads and writes ----------

    /** Reading through any outer gives the last value written to its variable. */
    method GetOuter(o: nat) returns (v: V)
      requires Valid() && o < |outers|
      ensures v == store[cellOf[o]]
    {
      match outers[o].valptr {
        case InStack(_, s) => v := stack[s];
        case OwnValue => v := outers[o].value;
      }
    }

    /** So does reading the local itself. */
    method ReadLocal(i: nat) returns (v: V)
      requires Valid() && i < |stack|
      ensures v == store[home[i]]
    {
      v := stack[i];
    }

    method WriteLocal(i: nat, v: V)
      requires Valid() && i < |stack|
      modifies `stack, `store
      ensures Valid() && store == old(store)[home[i] := v] && |stack| == old(|stack|)
    {
      stack := stack[i := v];
      store := store[home[i] := v];
    }

    method SetOuter(o: nat, v: V)
      requires Valid() && o < |outers|
      modifies `stack, `outers, `store
      ensures Valid() && store == old(store)[cellOf[o] := v]
      ensures |stack| == old(|stack|) && |outers| == old(|outers|)
    {
      match outers[o].valptr {
        case InStack(_, s) =>
          WriteLocal(s, v);
        case OwnValue =>
          ghost var before := outers;
          outers := outers[o := outers[o].(value := v)];
          store := store[cellOf[o] := v];
          ChainFrame(before, outers, openouters, |stack|);
      }
    }

    // ---------- Capturing ----------

    /** Walk the open list down to `stackindex`: its outer `p`, or the place where one belongs. */
    method Locate(stackindex: nat) returns (prev: int, p: int, ghost bound: nat)
      requires Valid() && stackindex < |stack|
      ensures Chain(outers, p, bound)
      ensures prev == NIL ==> p == openouters
      ensures prev != NIL ==> OnChain(outers, openouters, |stack|, prev) && 0 <= prev < |outers| &&
                              outers[prev].next == p && outers[prev].idx > stackindex
      ensures p != NIL ==> 0 <= p < |outers| && outers[p].idx <= stackindex
      ensures p == NIL || outers[p].idx < stackindex ==>
                forall o :: 0 <= o < |outers| && outers[o].valptr.InStack? ==> outers[o].idx != stackindex
    {
      prev, p, bound := NIL, openouters, |stack|;
      while p != NIL && outers[p].valptr.slot > stackindex
        invariant Chain(outers, p, bound)
        invariant prev == NIL ==> p == openouters
        invariant prev != NIL ==> OnChain(outers, openouters, |stack|, prev) && 0 <= prev < |outers| &&
                                  outers[prev].next == p && outers[prev].idx > stackindex
        invariant p != NIL ==> OnChain(outers, openouters, |stack|, p)
        invariant forall o ::
          OnChain(outers, openouters, |stack|, o) && 0 <= o < |outers| && outers[o].idx <= stackindex ==>
            OnChain(outers, p, bound, o)
        decreases bound
      {
        if outers[p].next != NIL { NextOnChain(outers, openouters, |stack|, p); }
        prev, p, bound := p, outers[p].next, outers[p].idx;
      }
      forall o | 0 <= o < |outers| && outers[o].valptr.InStack? && (p == NIL || outers[p].idx < stackindex)
        ensures outers[o].idx != stackindex
      {
        if outers[o].idx == stackindex { OnChainAtMost(outers, p, bound, o); }
      }
    }

    /** The outer of a stack slot: the open one if there is one, else a new one linked in order. */
    method FindOuter(stackindex: nat) returns (target: nat)
      requires Valid() && stackindex < |stack|
      modifies `outers, `openouters, `cellOf
      ensures Valid() && target < |outers| && cellOf[target] == home[stackindex]
      ensures old(cellOf) <= cellOf
      ensures home[stackindex] in old(cellOf) ==> outers == old(outers)
      ensures forall o :: 0 <= o < |outers| && OpenAt(outers[o], stackindex) <==> o == target
    {
      var prev, p, bound := Locate(stackindex);
      if p != NIL && outers[p].valptr.slot == stackindex {
        OnlyOneOpen(outers, openouters, |stack|, p, stackindex);
        return p;
      }
      assert forall o :: 0 <= o < |outers| ==> cellOf[o] != home[stackindex] by {
        forall o | 0 <= o < |outers| ensures cellOf[o] != home[stackindex] {
          assert Shows(outers[o], cellOf[o], alloc, home, store);
        }
      }
      target := |outers|;
      var x := SQOuter(InStack(alloc, stackindex), stackindex, nil, p);
      LinkKeepsOpenList(outers, openouters, |stack|, prev, p, bound, x);
      if prev == NIL { openouters := target; }
      outers := LinkIn(outers, prev, x);
      cellOf := cellOf + [home[stackindex]];
      OnlyOneOpen(outers, openouters, |stack|, target, stackindex);
    }

    predicate InScope(x: OuterVar, current: seq<nat>)
      reads this
    {
      match x case Local(pos) => stackbase + pos < |stack| case Outer(j) => j < |current| && current[j] < |outers|
    }

    /** The variable a free name denotes in the frame where the function literal is evaluated. */
    ghost function VariableOf(x: OuterVar, current: seq<nat>): (c: Cell)
      requires Valid() && InScope(x, current)
      reads this
    {
      match x case Local(pos) => home[stackbase + pos] case Outer(j) => cellOf[current[j]]
    }

    /** The values default parameters have when a closure is made. */
    method DefaultParams(defaults: seq<nat>) returns (params: seq<V>)
      requires forall i :: 0 <= i < |defaults| ==> stackbase + defaults[i] < |stack|
      ensures |params| == |defaults|
      ensures forall i :: 0 <= i < |defaults| ==> params[i] == stack[stackbase + defaults[i]]
    {
      params := [];
      for i := 0 to |defaults|
        invariant |params| == i && forall k :: 0 <= k < i ==> params[k] == stack[stackbase + defaults[k]]
      {
        params := params + [stack[stackbase + defaults[i]]];
      }
    }

    /**
      Build a closure: locals are captured, outers of the running closure shared, and default
      parameters copied.
     */
    method ClosureOp(vars: seq<OuterVar>, current: seq<nat>, defaults: seq<nat>)
        returns (outervalues: seq<nat>, params: seq<V>)
      requires Valid() && forall i :: 0 <= i < |defaults| ==> stackbase + defaults[i] < |stack|
      requires forall i :: 0 <= i < |current| ==> current[i] < |outers|
      requires forall i :: 0 <= i < |vars| ==> InScope(vars[i], current)
      modifies `outers, `openouters, `cellOf
      ensures Valid() && old(cellOf) <= cellOf && |outervalues| == |vars|
      ensures forall i :: 0 <= i < |vars| ==> outervalues[i] < |outers|
      ensures forall i :: 0 <= i < |vars| ==> cellOf[outervalues[i]] == old(VariableOf(vars[i], current))
      ensures |params| == |defaults| && forall i :: 0 <= i < |defaults| ==> params[i] == stack[stackbase + defaults[i]]
    {
      outervalues := [];
      for i := 0 to |vars|
        invariant Valid() && old(cellOf) <= cellOf && |outervalues| == i
        invariant forall k :: 0 <= k < i ==> outervalues[k] < |outers|
        invariant forall k :: 0 <= k < i ==> cellOf[outervalues[k]] == old(VariableOf(vars[k], current))
      {
        match vars[i] {
          case Local(pos) =>
            var o := FindOuter(stackbase + pos);
            outervalues := outervalues + [o];
          case Outer(j) =>
            outervalues := outervalues + [current[j]];
        }
      }
      params := DefaultParams(defaults);
    }

    // ---------- Leaving scope ----------

    /** Close the outer of the highest captured slot. */
    method CloseFirst()
      requires Valid() && openouters != NIL
      modifies `outers, `openouters, `home, `store
      ensures Valid() && |outers| == old(|outers|)
      ensures openouters == NIL || outers[openouters].idx < old(outers[openouters].idx)
      ensures Extends(old(store), store)
      ensures Rehomed(old(home), home, old(store), cellOf, old(outers[openouters].idx))
    {
      var p := openouters;
      var slot := outers[p].valptr.slot;
      assert Chain(outers, outers[p].next, outers[p].idx);
      CloseHead(outers, openouters, |stack|, stack[slot]);
      ghost var c := Above(store.Keys);
      outers := outers[p := outers[p].(value := stack[slot], valptr := OwnValue)];
      openouters := outers[p].next;
      assert home[slot] == cellOf[p];
      home := home[slot := c];
      store := store[c := stack[slot]];
    }

    /** Close the outers of all slots from `from` up; each keeps its variable, the slots get new ones. */
    method CloseOuters(from: nat)
      requires Valid()
      modifies `outers, `openouters, `home, `store
      ensures Valid() && |outers| == old(|outers|)
      ensures forall o :: 0 <= o < |outers| && outers[o].valptr.InStack? ==> outers[o].idx < from
      ensures Extends(old(store), store)
      ensures Rehomed(old(home), home, old(store), cellOf, from)
    {
      while openouters != NIL && outers[openouters].valptr.slot >= from
        invariant Valid() && |outers| == old(|outers|)
        invariant Extends(old(store), store)
        invariant Rehomed(old(home), home, old(store), cellOf, from)
        decreases if openouters == NIL then 0 else outers[openouters].idx + 1
      {
        CloseFirst();
      }
      forall o | 0 <= o < |outers| && outers[o].valptr.InStack?
        ensures outers[o].idx < from
      {
        OnChainAtMost(outers, openouters, |stack|, o);
      }
    }

    // ---------- Frames ----------

    /** Point the open outers into the current allocation of the stack. */
    method RelocateOuters(ghost stale: nat)
      requires Slots(stack, home, store) && OpenList(outers, openouters, |stack|)
      requires AllShow(outers, cellOf, stale, home, store)
      modifies `outers
      ensures OpenList(outers, openouters, |stack|) && |outers| == old(|outers|)
      ensures AllShow(outers, cellOf, alloc, home, store)
    {
      var p := openouters;
      ghost var bound: nat := |stack|;
      while p != NIL
        invariant OpenList(outers, openouters, |stack|) && |outers| == old(|outers|)
        invariant Chain(outers, p, bound)
        invariant forall o :: 0 <= o < |outers| ==> SameButAlloc(outers[o], old(outers)[o])
        invariant forall o :: 0 <= o < |outers| && outers[o].valptr.InStack? ==>
                    outers[o].valptr.alloc == alloc || OnChain(outers, p, bound, o)
        decreases bound
      {
        ghost var before := outers;
        outers := outers[p := outers[p].(valptr := InStack(alloc, outers[p].idx))];
        ChainFrame(before, outers, openouters, |stack|);
        ChainFrame(before, outers, p, bound);
        p, bound := outers[p].next, outers[p].idx;
      }
      forall o | 0 <= o < |outers|
        ensures Shows(outers[o], cellOf[o], alloc, home, store)
      {
        assert Shows(old(outers)[o], cellOf[o], stale, home, store);
      }
    }

    /** Push a call frame; grow the stack when the frame does not fit, except inside a metamethod. */
    method EnterFrame(newbase: nat, newtop: nat, tailcall: bool) returns (ok: bool)
      requires Valid() && stackbase <= newbase <= top
      requires tailcall ==> callsstack != []
      modifies this
      ensures Valid() && stackbase == newbase && top == newtop
      ensures nmetamethodscall == old(nmetamethodscall)
      ensures ok <==> newtop + MIN_STACK_OVERHEAD <= old(|stack|) || nmetamethodscall == 0
      ensures ok ==> top + MIN_STACK_OVERHEAD <= |stack|
      ensures old(stack) <= stack && old(home) <= home && cellOf == old(cellOf) && |outers| == old(|outers|)
      ensures forall i :: old(|stack|) <= i < |stack| ==> stack[i] == nil
      ensures Extends(old(store), store)
      ensures |stack| == if !ok || newtop + MIN_STACK_OVERHEAD <= old(|stack|) then old(|stack|)
                         else newtop + 4 * MIN_STACK_OVERHEAD
      ensures callsstack ==
        if tailcall then var last := old(|callsstack|) - 1;
          old(callsstack)[last := old(callsstack)[last].(ncalls := old(callsstack)[last].ncalls + 1)]
        else old(callsstack) + [CallInfo(newbase - old(stackbase), old(top) - old(stackbase), 1)]
    {
      if !tailcall {
        callsstack := callsstack + [CallInfo(newbase - stackbase, top - stackbase, 1)];
      } else {
        var last := |callsstack| - 1;
        callsstack := callsstack[last := callsstack[last].(ncalls := callsstack[last].ncalls + 1)];
      }
      stackbase, top := newbase, newtop;
      if newtop + MIN_STACK_OVERHEAD > |stack| {
        if nmetamethodscall > 0 { return false; }
        Grow(newtop + 4 * MIN_STACK_OVERHEAD);
      }
      return true;
    }

    /** Reallocate the stack with `size` slots and relocate the open outers. */
    method Grow(size: nat)
      requires Valid() && |stack| <= size
      modifies `stack, `alloc, `outers, `home, `store
      ensures Valid() && |stack| == size
      ensures old(stack) <= stack && old(home) <= home && |outers| == old(|outers|)
      ensures forall i :: old(|stack|) <= i < size ==> stack[i] == nil
      ensures Extends(old(store), store)
    {
      var n := |stack|;
      ghost var b, stale := Above(store.Keys), alloc;
      ghost var cells := seq(size - n, i requires 0 <= i < size - n => b + i);
      OpenListWider(outers, openouters, n, size);
      ghost var more := AllNil(cells, nil);
      var slots := seq(size - n, _ => nil);
      StackWider(stack, slots, home, store, outers, cellOf, alloc, cells, nil);
      stack := stack + slots;
      alloc := alloc + 1;
      home := home + cells;
      store := store + more;
      RelocateOuters(stale);
    }

    /** Sets the slots from `lastTop` down to `top` to null; no outer points to them. */
    method ClearDown(lastTop: int, base: nat)
      requires Valid() && lastTop < |stack| && base <= top
      requires forall o :: 0 <= o < |outers| && outers[o].valptr.InStack? ==> outers[o].idx < base
      modifies this
      ensures Valid() && |outers| == old(|outers|) && cellOf == old(cellOf) && home == old(home)
        && callsstack == old(callsstack)
      ensures stackbase == old(stackbase) && top == old(top) && |stack| == old(|stack|)
      ensures forall i :: 0 <= i < |stack| ==> stack[i] == if top <= i <= lastTop then nil else old(stack)[i]
      ensures forall o :: 0 <= o < |outers| ==> cellOf[o] in store && store[cellOf[o]] == old(store)[cellOf[o]]
    {
      var j := lastTop;
      while j >= top
        invariant Valid() && |outers| == old(|outers|) && cellOf == old(cellOf) && home == old(home)
          && callsstack == old(callsstack)
        invariant stackbase == old(stackbase) && top == old(top) && |stack| == old(|stack|) && j <= lastTop
        invariant forall i :: 0 <= i < |stack| ==>
          stack[i] == if top <= i && j < i <= lastTop then nil else old(stack)[i]
        invariant forall o :: 0 <= o < |outers| && outers[o].valptr.InStack? ==> outers[o].idx < base
        invariant forall o :: 0 <= o < |outers| ==> cellOf[o] in store && store[cellOf[o]] == old(store)[cellOf[o]]
        decreases j - top
      {
        forall o | 0 <= o < |outers| ensures home[j] != cellOf[o] {
          assert Shows(outers[o], cellOf[o], alloc, home, store);
        }
        WriteLocal(j, nil);
        j := j - 1;
      }
    }

    /** Pop a call frame: close what it captured, then clear its slots. No captured variable changes. */
    method LeaveFrame()
      requires Valid() && callsstack != [] && top < |stack|
      requires stackbase >= callsstack[|callsstack| - 1].prevstkbase
      modifies this
      ensures Valid() && |outers| == old(|outers|) && cellOf == old(cellOf)
      ensures callsstack == old(callsstack)[..old(|callsstack|) - 1]
      ensures var ci := old(callsstack)[old(|callsstack|) - 1];
              stackbase == old(stackbase) - ci.prevstkbase && top == stackbase + ci.prevtop
      ensures forall o :: 0 <= o < |outers| ==> cellOf[o] in store && store[cellOf[o]] == old(store)[cellOf[o]]
      ensures |stack| == old(|stack|)
      ensures forall i :: 0 <= i < |stack| ==> stack[i] == if top <= i <= old(top) then nil else old(stack)[i]
      ensures forall i :: 0 <= i < old(stackbase) && i < |stack| ==> home[i] == old(home)[i]
    {
      var lastTop: int := top;
      var lastStackbase := stackbase;
      var ci := callsstack[|callsstack| - 1];
      callsstack := callsstack[..|callsstack| - 1];
      stackbase := stackbase - ci.prevstkbase;
      top := stackbase + ci.prevtop;
      CloseOuters(lastStackbase);
      ClearDown(lastTop, lastStackbase);
    }
  }

  /** Some slots from `from` up, all of them captured, were given variables of their own. */
  ghost predicate Rehomed<V>(home: seq<Cell>, home': seq<Cell>, store: map<Cell, V>, cellOf: seq<Cell>, from: nat) {
    && |home'| == |home|
    && forall i :: 0 <= i < |home| ==> home'[i] == home[i] || (from <= i && home'[i] !in store && home[i] in cellOf)
  }

  ghost predicate SameButAlloc<V>(x: SQOuter<V>, y: SQOuter<V>) {
    && x.idx == y.idx && x.value == y.value && x.next == y.next
    && (x.valptr.InStack? <==> y.valptr.InStack?)
    && (x.valptr.InStack? ==> x.valptr.slot == y.valptr.slot)
  }

  lemma OpenListWider<V>(outers: seq<SQOuter<V>>, head: int, n: nat, size: nat)
    requires OpenList(outers, head, n) && n <= size
    ensures OpenList(outers, head, size)
  {
    OnChainBound(outers, head, n, size);
  }

  ghost function AllNil<V>(cells: seq<Cell>, nil: V): (m: map<Cell, V>) {
    map c | c in cells :: nil
  }

  /** A stack with more slots, whose cells were not in use: it shows its cells, and outers show theirs as before. */
  lemma StackWider<V>(stack: seq<V>, slots: seq<V>, home: seq<Cell>, store: map<Cell, V>, outers: seq<SQOuter<V>>,
      cellOf: seq<Cell>, alloc: nat, cells: seq<Cell>, nil: V)
    requires Slots(stack, home, store) && AllShow(outers, cellOf, alloc, home, store)
    requires |slots| == |cells| && forall i :: 0 <= i < |slots| ==> slots[i] == nil
    requires forall i :: 0 <= i < |cells| ==> cells[i] !in store
    requires forall i, j :: 0 <= i < j < |cells| ==> cells[i] != cells[j]
    ensures var store' := store + AllNil(cells, nil);
      && Extends(store, store') && Slots(stack + slots, home + cells, store')
      && AllShow(outers, cellOf, alloc, home + cells, store')
  {
    var store' := store + AllNil(cells, nil);
    forall o | 0 <= o < |outers| ensures Shows(outers[o], cellOf[o], alloc, home + cells, store') {
      assert Shows(outers[o], cellOf[o], alloc, home, store);
    }
  }

  ghost predicate Extends<V>(store: map<Cell, V>, store': map<Cell, V>) {
    forall c :: c in store ==> c in store' && store'[c] == store[c]
  }

  /** A cell name not in use. */
  ghost function Above(s: set<nat>): (b: nat)
    ensures forall c :: c in s ==> c < b
  {
    if s == {} then 0
    else
      var x :| x in s;
      var b := Above(s - {x});
      assert forall c :: c in s ==> c == x || c in s - {x};
      if x < b then b else x + 1
  }

  lemma CloseHead<V>(outers: seq<SQOuter<V>>, head: int, size: nat, v: V)
    requires OpenList(outers, head, size) && head != NIL
    ensures OpenList(outers[head := outers[head].(value := v, valptr := OwnValue)], outers[head].next, size)
  {
    var outers' := outers[head := outers[head].(value := v, valptr := OwnValue)];
    ChainFrame(outers, outers', outers[head].next, outers[head].idx);
    OnChainBound(outers', outers[head].next, outers[head].idx, size);
  }

  lemma OnChainAtMost<V>(outers: seq<SQOuter<V>>, p: int, bound: nat, o: int)
    requires Chain(outers, p, bound) && OnChain(outers, p, bound, o)
    ensures 0 <= o < |outers| && outers[o].idx <= outers[p].idx
  {
    if p != o { OnChainBelow(outers, outers[p].next, outers[p].idx, o); }
  }

  lemma {:induction false} NextOnChain<V>(outers: seq<SQOuter<V>>, p: int, bound: nat, o: int)
    requires Chain(outers, p, bound) && OnChain(outers, p, bound, o) && 0 <= o < |outers| && outers[o].next != NIL
    ensures OnChain(outers, p, bound, outers[o].next)
    decreases bound
  {
    if p != o { NextOnChain(outers, outers[p].next, outers[p].idx, o); }
  }
}
