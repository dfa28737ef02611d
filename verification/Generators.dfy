/**
  Generators (SQGenerator in utility/sqobject.cpp): a frame is taken off the stack when it yields
  and put back, perhaps elsewhere, when it is resumed. Stack positions and counts are 16 bits wide.
 */
module Generators {

  type u16 = n: int | 0 <= n < 0x1_0000

  const MIN_STACK_OVERHEAD := 15

  /** An object is known by its number; `Weak` is a weak reference to one. */
  datatype Value = Null | Number(n: int) | Object(id: nat) | Weak(id: nat)

  datatype Trap = Trap(stacksize: u16, stackbase: u16, ip: int, extarget: int)

  datatype CallInfo = CallInfo(ip: int, literals: int, closure: Value, generator: bool,
                               etraps: u16, prevstkbase: u16, prevtop: u16, target: u16, ncalls: u16, root: bool)

  /** What a function sees of its frame: its registers, and its traps relative to the stack base, oldest first. */
  datatype Frame = Frame(regs: seq<Value>, traps: seq<Trap>)

  function Wrap(n: int): (r: u16) {
    n % 0x1_0000
  }

  /** A trap as it is put away by a frame at `base`, and as it is put back by one. */
  function Relative(t: Trap, base: u16): (r: Trap) {
    t.(stacksize := Wrap(t.stacksize - base), stackbase := Wrap(t.stackbase - base))
  }

  function Absolute(t: Trap, base: u16): (r: Trap) {
    t.(stacksize := Wrap(t.stacksize + base), stackbase := Wrap(t.stackbase + base))
  }

  function AllRelative(ts: seq<Trap>, base: u16): (r: seq<Trap>) {
    seq(|ts|, i requires 0 <= i < |ts| => Relative(ts[i], base))
  }

  function AllAbsolute(ts: seq<Trap>, base: u16): (r: seq<Trap>) {
    seq(|ts|, i requires 0 <= i < |ts| => Absolute(ts[i], base))
  }

  function Reversed(ts: seq<Trap>): (r: seq<Trap>) {
    seq(|ts|, i requires 0 <= i < |ts| => ts[|ts| - 1 - i])
  }

  /** The registers below `target`, the rest null. */
  function Kept(regs: seq<Value>, target: nat): (r: seq<Value>) {
    seq(|regs|, i requires 0 <= i < |regs| => if i < target then regs[i] else Null)
  }

  /** How `this` is kept, and what it is again later, when the objects of `released` are gone. */
  function Weakened(v: Value): (r: Value) {
    if v.Object? then Weak(v.id) else v
  }

  function Revived(v: Value, released: set<nat>): (r: Value) {
    if v.Weak? then if v.id in released then Null else Object(v.id) else v
  }

  /** The frame as it is put away, and as it is put back. */
  function Suspended(f: Frame, target: nat): (r: Frame)
    requires f.regs != []
  {
    f.(regs := Kept(f.regs, target)[0 := Weakened(f.regs[0])])
  }

  function Restored(f: Frame, released: set<nat>): (r: Frame)
    requires f.regs != []
  {
    f.(regs := f.regs[0 := Revived(f.regs[0], released)])
  }

  class SQVM {
    var stack: seq<Value>
    var top: u16
    var stackbase: u16
    var etraps: seq<Trap>
    var calls: seq<CallInfo>
    var nmetamethodscall: nat
    var released: set<nat>     // the objects that are gone

    ghost predicate Valid()
      reads this
    {
      stackbase < top && top <= |stack| && calls != [] && calls[|calls| - 1].etraps <= |etraps|
    }

    /** The traps of the running function, oldest first. */
    ghost function Traps(): (r: seq<Trap>)
      requires Valid()
      reads this
    {
      etraps[|etraps| - calls[|calls| - 1].etraps..]
    }

    ghost function View(): (f: Frame)
      requires Valid()
      reads this
    {
      Frame(stack[stackbase..top], AllRelative(Traps(), stackbase))
    }

    /** The stack is large enough for a frame up to `newtop`, or may grow. */
    predicate CanEnter(newtop: nat)
      reads this
    {
      newtop + MIN_STACK_OVERHEAD <= |stack| || nmetamethodscall == 0
    }

    /** A new frame; the stack grows for it, but not during a metamethod call. */
    method EnterFrame(newbase: u16, newtop: nat) returns (ok: bool)
      modifies this`stack, this`top, this`stackbase, this`calls
      ensures ok <==> old(CanEnter(newtop))
      ensures stackbase == newbase && top == Wrap(newtop)
      ensures calls == old(calls) + [CallInfo(0, 0, Null, false, 0, Wrap(newbase - old(stackbase)),
                                              Wrap(old(top) - old(stackbase)), 0, 1, false)]
      ensures old(stack) <= stack && (ok ==> newtop + MIN_STACK_OVERHEAD <= |stack|)
    {
      calls := calls + [CallInfo(0, 0, Null, false, 0, Wrap(newbase - stackbase), Wrap(top - stackbase), 0, 1, false)];
      stackbase, top := newbase, Wrap(newtop);
      ok := true;
      if newtop + MIN_STACK_OVERHEAD > |stack| {
        if nmetamethodscall > 0 { return false; }
        stack := stack + seq(newtop + MIN_STACK_OVERHEAD * 4 - |stack|, i => Null);
      }
    }

    /** Back to the frame before; what was above its top is null. */
    method LeaveFrame()
      requires calls != [] && top < |stack|
      modifies this`stack, this`top, this`stackbase, this`calls
      ensures calls == old(calls[..|calls| - 1])
      ensures stackbase == Wrap(old(stackbase) - old(calls[|calls| - 1].prevstkbase))
      ensures top == Wrap(stackbase + old(calls[|calls| - 1].prevtop))
      ensures |stack| == |old(stack)|
      ensures forall i :: 0 <= i < |stack| ==> stack[i] == if top <= i <= old(top) then Null else old(stack)[i]
    {
      var last, ci := top, calls[|calls| - 1];
      calls := calls[..|calls| - 1];
      stackbase := Wrap(stackbase - ci.prevstkbase);
      top := Wrap(stackbase + ci.prevtop);
      while last >= top
        invariant -1 <= last <= old(top) && (last >= top - 1 || last == old(top)) && |stack| == |old(stack)|
        invariant forall i :: 0 <= i < |stack| ==>
          stack[i] == if top <= i && last < i <= old(top) then Null else old(stack)[i]
        modifies this`stack
      {
        stack := stack[last := Null];
        last := last - 1;
      }
    }
  }

  /** Leaving undoes entering. */
  lemma LeaveUndoesEnter(stackbase: u16, top: u16, newbase: u16)
    ensures Wrap(newbase - Wrap(newbase - stackbase)) == stackbase
    ensures Wrap(stackbase + Wrap(top - stackbase)) == top
  {
  }

  datatype State = Running | Waiting | Dead

  class SQGenerator {
    var state: State
    var stack: seq<Value>
    var ci: CallInfo
    var etraps: seq<Trap>      // newest first

    /** What is put away while it runs is null, and there are no traps. */
    ghost predicate Valid()
      reads this
    {
      match state
      case Running => etraps == [] && forall i :: 1 <= i < |stack| ==> stack[i] == Null
      case Waiting => stack != [] && |etraps| == ci.etraps
      case Dead => true
    }

    ghost function Saved(): (f: Frame)
      reads this
    {
      Frame(stack, Reversed(etraps))
    }

    constructor ()
      ensures Valid() && state == Running
    {
      state, stack, etraps := Running, [], [];
    }

    method Kill()
      modifies this`state, this`stack
      ensures Valid() && state == Dead
    {
      state, stack := Dead, [];
    }

    /** The first loop of Yield. */
    method SaveRegisters(v: SQVM, target: nat)
      requires Valid() && state == Running && v.Valid() && 1 <= target <= v.top - v.stackbase
      modifies this`stack
      ensures v.View().regs == old(v.View().regs)
      ensures stack == Kept(v.View().regs, target)[0 := Weakened(v.View().regs[0])]
    {
      var size, base: nat := v.top - v.stackbase, v.stackbase;
      if |stack| < size { stack := stack + seq(size - |stack|, i => Null); } else { stack := stack[..size]; }
      stack := stack[0 := Weakened(v.stack[base])];
      var n := 1;
      while n < target
        invariant 1 <= n <= target && |stack| == size && stack[0] == Weakened(v.stack[base])
        invariant forall i :: 1 <= i < size ==> stack[i] == if i < n then v.stack[base + i] else Null
      {
        stack := stack[n := v.stack[base + n]];
        n := n + 1;
      }
    }

    /** The second loop of Yield. */
    method ClearFrame(v: SQVM)
      requires v.Valid()
      modifies v`stack
      ensures |v.stack| == |old(v.stack)|
      ensures forall i :: 0 <= i < |v.stack| ==>
        v.stack[i] == if v.stackbase <= i < v.top then Null else old(v.stack)[i]
    {
      var size, base, j := v.top - v.stackbase, v.stackbase, 0;
      while j < size
        invariant 0 <= j <= size && |v.stack| == |old(v.stack)|
        invariant forall i :: 0 <= i < |v.stack| ==>
          v.stack[i] == if base <= i < base + j then Null else old(v.stack)[i]
      {
        v.stack := v.stack[base + j := Null];
        j := j + 1;
      }
    }

    /** The third loop of Yield: traps are taken from the machine newest first. */
    method SaveTraps(v: SQVM)
      requires etraps == [] && ci.etraps <= |v.etraps|
      modifies this`etraps, v`etraps
      ensures v.etraps == old(v.etraps)[..|old(v.etraps)| - ci.etraps] && |etraps| == ci.etraps
      ensures forall i :: 0 <= i < |etraps| ==>
        etraps[i] == Relative(old(v.etraps)[|old(v.etraps)| - 1 - i], v.stackbase)
    {
      var i := 0;
      while i < ci.etraps
        invariant 0 <= i <= ci.etraps && v.etraps == old(v.etraps)[..|old(v.etraps)| - i] && |etraps| == i
        invariant forall j :: 0 <= j < i ==> etraps[j] == Relative(old(v.etraps)[|old(v.etraps)| - 1 - j], v.stackbase)
      {
        etraps := etraps + [Relative(v.etraps[|v.etraps| - 1], v.stackbase)];
        v.etraps := v.etraps[..|v.etraps| - 1];
        i := i + 1;
      }
    }

    /** The frame is put away, relative to its base; on the stack null is left of it. */
    method Yield(v: SQVM, target: nat) returns (ok: bool)
      requires Valid() && v.Valid() && 1 <= target <= v.top - v.stackbase
      modifies this, v`stack, v`etraps
      ensures ok <==> old(state) == Running
      ensures !ok ==> unchanged(this) && unchanged(v)
      ensures ok ==> Valid() && state == Waiting && Saved() == Suspended(old(v.View()), target)
      ensures ok ==> ci == old(v.calls[|v.calls| - 1]).(generator := false)
      ensures ok ==> v.etraps == old(v.etraps)[..|old(v.etraps)| - ci.etraps] && |v.stack| == |old(v.stack)|
      ensures ok ==> forall i :: 0 <= i < |v.stack| ==>
        v.stack[i] == if v.stackbase <= i < v.top then Null else old(v.stack)[i]
    {
      if state != Running { return false; }
      SaveRegisters(v, target);
      ClearFrame(v);
      ci := v.calls[|v.calls| - 1].(generator := false);
      SaveTraps(v);
      state := Waiting;
      ok := true;
      assert Saved().traps == AllRelative(old(v.Traps()), v.stackbase);
    }

    /** The first loop of Resume. */
    method RestoreTraps(v: SQVM, newbase: u16)
      requires |etraps| == ci.etraps
      modifies this`etraps, v`etraps
      ensures etraps == [] && v.etraps == old(v.etraps) + AllAbsolute(old(Saved().traps), newbase)
    {
      var i := 0;
      ghost var ts := Saved().traps;
      while i < ci.etraps
        invariant 0 <= i <= ci.etraps && etraps == old(etraps)[..|old(etraps)| - i]
        invariant v.etraps == old(v.etraps) + AllAbsolute(ts[..i], newbase)
      {
        v.etraps := v.etraps + [Absolute(etraps[|etraps| - 1], newbase)];
        assert ts[..i + 1] == ts[..i] + [ts[i]] && ts[i] == etraps[|etraps| - 1];
        etraps := etraps[..|etraps| - 1];
        i := i + 1;
      }
      assert ts[..i] == ts;
    }

    /** The second loop of Resume. */
    method RestoreRegisters(v: SQVM)
      requires stack != [] && v.stackbase + |stack| <= |v.stack|
      modifies this`stack, v`stack
      ensures |stack| == |old(stack)| && forall i :: 1 <= i < |stack| ==> stack[i] == Null
      ensures |v.stack| == |old(v.stack)|
      ensures forall i :: 0 <= i < |v.stack| && !(v.stackbase <= i < v.stackbase + |stack|) ==>
        v.stack[i] == old(v.stack)[i]
      ensures v.stack[v.stackbase..v.stackbase + |stack|] == old(stack)[0 := Revived(old(stack)[0], v.released)]
    {
      var size, base, n := |stack|, v.stackbase, 1;
      v.stack := v.stack[base := Revived(stack[0], v.released)];
      while n < size
        invariant 1 <= n <= size == |stack| && |v.stack| == |old(v.stack)|
          && v.stack[base] == Revived(old(stack)[0], v.released)
        invariant forall i :: 0 <= i < |v.stack| && i != base ==>
          v.stack[i] == if base < i < base + n then old(stack)[i - base] else old(v.stack)[i]
        invariant forall i :: 1 <= i < size ==> stack[i] == if i < n then Null else old(stack)[i]
      {
        v.stack := v.stack[base + n := stack[n]];
        stack := stack[n := Null];
        n := n + 1;
      }
    }

    /** The frame is put back on top of the stack. */
    method Resume(v: SQVM, target: u16) returns (ok: bool)
      requires Valid() && v.top <= |v.stack|
      modifies this, v
      ensures ok <==> old(state) == Waiting && old(v.CanEnter(v.top + |stack|))
      ensures !ok ==> unchanged(this)
      ensures old(state) != Waiting ==> unchanged(v)
      ensures ok ==> Valid() && state == Running
      ensures ok ==> v.stackbase == old(v.top) && v.top == Wrap(old(v.top) + |old(stack)|)
      ensures ok ==> v.stackbase + |old(stack)| + MIN_STACK_OVERHEAD <= |v.stack|
      ensures ok ==> v.stack[v.stackbase..v.stackbase + |old(stack)|] == Restored(old(Saved()), old(v.released)).regs
      ensures ok ==> v.etraps == old(v.etraps) + AllAbsolute(old(Saved()).traps, v.stackbase)
      ensures ok ==> v.stack[..v.stackbase] == old(v.stack)[..v.stackbase]
      ensures ok ==> |v.calls| == |old(v.calls)| + 1 && v.calls[..|old(v.calls)|] == old(v.calls)
      ensures ok ==> ci == old(ci) && v.calls[|v.calls| - 1] == ci.(generator := true, target := target,
                       prevstkbase := Wrap(old(v.top - v.stackbase)),
                       prevtop := Wrap(old(v.top - v.stackbase)))
    {
      if state != Waiting { return false; }
      var size, newbase := |stack|, v.top;
      ok := v.EnterFrame(v.top, v.top + size);
      if !ok { return; }
      var c := v.calls[|v.calls| - 1];
      v.calls := v.calls[|v.calls| - 1 := ci.(generator := true, target := target, prevstkbase := c.prevstkbase,
          prevtop := c.prevtop)];
      RestoreTraps(v, newbase);
      RestoreRegisters(v);
      state := Running;
    }
  }

  // ---------- From yield to resume ----------

  lemma WrapSum(x: int, y: int)
    ensures Wrap(Wrap(x) + y) == Wrap(x + y)
  {
  }

  /** A trap moves with its frame; one of the frame itself is one of the frame where it is put back. */
  lemma TrapMoves(t: Trap, base: u16, newbase: u16, size: nat)
    ensures var r := Absolute(Relative(t, base), newbase);
      && r == t.(stackbase := Wrap(t.stackbase - base + newbase), stacksize := Wrap(t.stacksize - base + newbase))
      && (t.stackbase == base && t.stacksize == base + size ==>
            r.stackbase == newbase && r.stacksize == Wrap(newbase + size))
  {
    WrapSum(t.stackbase - base, newbase);
    WrapSum(t.stacksize - base, newbase);
    assert t.stacksize == base + size ==> t.stacksize - base + newbase == newbase + size;
  }

  lemma AsPutAway(t: Trap, base: u16)
    ensures Relative(Absolute(t, base), base) == t
  {
    WrapSum(t.stackbase + base, 0 - base);
    WrapSum(t.stacksize + base, 0 - base);
  }

  lemma AllAsPutAway(ts: seq<Trap>, base: u16)
    ensures AllRelative(AllAbsolute(ts, base), base) == ts
  {
    forall i | 0 <= i < |ts| ensures Relative(Absolute(ts[i], base), base) == ts[i] { AsPutAway(ts[i], base); }
  }

  /**
    A frame that yields on one machine state and is resumed on another, at any base: the function
    finds the registers it had below the yield's target, null in the others, its `this` unless that
    object is gone, and its traps in order, at the new base. The stack is as the machine takes it to
    be exactly when the frame ends below position 0x1_0000.
   */
  method YieldAndResume(g: SQGenerator, v: SQVM, target: nat, w: SQVM, dest: u16) returns (ok: bool)
    requires v != w && g.Valid() && g.state == Running && v.Valid() && 1 <= target <= v.top - v.stackbase
    requires w.top <= |w.stack|
    modifies g, v, w
    ensures ok <==> old(w.CanEnter(w.top + (v.top - v.stackbase)))
    ensures ok ==>
      (w.top == w.stackbase + old(v.top - v.stackbase) <==> old(w.top + (v.top - v.stackbase)) < 0x1_0000)
    ensures ok && w.top > w.stackbase ==>
      w.Valid() && w.View() == Restored(Suspended(old(v.View()), target), old(w.released))
  {
    ok := g.Yield(v, target);
    ghost var ts := g.Saved().traps;
    ok := g.Resume(w, dest);
    if ok {
      AllAsPutAway(ts, w.stackbase);
      if w.top > w.stackbase { assert w.Traps() == AllAbsolute(ts, w.stackbase); }
    }
  }

  /**
    A generator that is resumed and yields again, seen by its caller: when the frame is left, the
    caller has its frame, its calls and its traps again, and its stack as it was.
   */
  method ResumeAndYield(g: SQGenerator, v: SQVM, target: nat, dest: u16) returns (ok: bool)
    requires g.Valid() && g.state == Waiting && v.Valid() && 1 <= target <= |g.stack| && v.top + |g.stack| < 0x1_0000
    modifies g, v
    ensures ok <==> old(v.CanEnter(v.top + |g.stack|))
    ensures ok ==> g.Valid() && g.state == Waiting && v.Valid()
    ensures ok ==> v.stackbase == old(v.stackbase) && v.top == old(v.top)
    ensures ok ==> v.calls == old(v.calls) && v.etraps == old(v.etraps) && v.stack[..v.top] == old(v.stack[..v.top])
  {
    ok := g.Resume(v, dest);
    if !ok { return; }
    assert v.Valid();
    ok := g.Yield(v, target);
    LeaveUndoesEnter(old(v.stackbase), old(v.top), v.stackbase);
    v.LeaveFrame();
  }

  /** What the function then finds: what it had below the target, and null. */
  lemma Finds(f: Frame, target: nat, released: set<nat>, i: nat)
    requires i < |f.regs| && 1 <= target && !f.regs[0].Weak?
    ensures var r := Restored(Suspended(f, target), released);
      && r.traps == f.traps && |r.regs| == |f.regs|
      && r.regs[i] == if i >= target then Null else if i == 0 && f.regs[0].Object?
        && f.regs[0].id in released then Null else f.regs[i]
  {
  }
}
