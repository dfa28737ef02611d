/**
  The request pool: programs in a table, requests in a queue, worker threads, and calls that load,
  request and close, as a step protocol. A step is what happens between two releases of the
  global lock; taking a request off the queue needs no lock.
 */
module RequestPool {

  const THREADS := 4
  const QUEUE_LENGTH := 25
  const NONE := 0

  /** A program structure in memory. A pointer to it is a number; 0 is the null pointer. */
  datatype Prog = Prog(id: nat, refcount: int, busy: int, vm: bool)

  /** A call that waits: the slot it looks at, and the program it was called for. */
  datatype Closer = Closer(slot: nat, named: nat)

  datatype State = State(
    progs: map<nat, Prog>,     // the structures that are allocated
    unused: nat,               // no pointer from here on has been used
    slots: seq<nat>,           // the program table
    queue: seq<nat>,           // programs of the requests in the queue, oldest first
    held: seq<nat>,            // the program of the request each worker has taken
    running: seq<nat>,         // the program each worker is executing
    waited: seq<bool>,         // whether the worker found its program busy before
    sender: nat,               // a request about to be queued by a caller that holds the lock
    closers: seq<Closer>,      // calls that wait to close a table slot, without the lock
    fault: bool)               // a worker executed a program that has no VM any more

  /** The lock is free and nothing has gone wrong. */
  predicate Quiet(s: State) {
    !s.fault && s.sender == NONE
  }

  // ---------- Steps ----------

  function Deref(progs: map<nat, Prog>, p: nat): (r: map<nat, Prog>)
    requires p in progs
  {
    if progs[p].refcount == 1 then map q | q in progs && q != p :: progs[q]
    else progs[p := progs[p].(refcount := progs[p].refcount - 1)]
  }

  /** Loading a program: a slot, a reference for the table and one for the request that will run it. */
  predicate CanLoad(s: State, slot: nat, id: nat) {
    && Quiet(s) && slot < |s.slots| && s.slots[slot] == NONE
    && forall i :: 0 <= i < |s.slots| && s.slots[i] in s.progs ==> s.progs[s.slots[i]].id != id
  }

  function Load(s: State, slot: nat, id: nat): (s': State)
    requires CanLoad(s, slot, id)
  {
    s.(progs := s.progs[s.unused := Prog(id, 2, 0, true)], slots := s.slots[slot := s.unused], sender := s.unused,
        unused := s.unused + 1)
  }

  predicate CanRequest(s: State, slot: nat) {
    Quiet(s) && slot < |s.slots| && s.slots[slot] in s.progs
  }

  function MakeRequest(s: State, slot: nat): (s': State)
    requires CanRequest(s, slot)
  {
    var p := s.slots[slot];
    s.(progs := s.progs[p := s.progs[p].(refcount := s.progs[p].refcount + 1)], sender := p)
  }

  predicate CanSend(s: State) {
    !s.fault && s.sender != NONE && |s.queue| < QUEUE_LENGTH
  }

  function Send(s: State): (s': State)
    requires CanSend(s)
  {
    s.(queue := s.queue + [s.sender], sender := NONE)
  }

  predicate CanTake(s: State, w: nat) {
    !s.fault && w < |s.held| && w < |s.waited| && s.held[w] == NONE && s.queue != []
  }

  function Take(s: State, w: nat): (s': State)
    requires CanTake(s, w)
  {
    s.(held := s.held[w := s.queue[0]], queue := s.queue[1..], waited := s.waited[w := false])
  }

  predicate CanEnter(s: State, w: nat) {
    Quiet(s) && w < |s.held| && w < |s.waited| && w < |s.running| && s.held[w] in s.progs && s.running[w] == NONE
  }

  /** A worker that has the lock: it gives up, waits, or executes; the VM is looked at only after a wait. */
  function Enter(s: State, w: nat): (s': State)
    requires CanEnter(s, w)
  {
    var p := s.held[w];
    var g := s.progs[p];
    if s.waited[w] && !g.vm then s.(progs := Deref(s.progs, p), held := s.held[w := NONE])
    else if g.busy > 0 then s.(waited := s.waited[w := true])
    else if !g.vm then s.(fault := true)
    else s.(progs := s.progs[p := g.(busy := g.busy + 1)], running := s.running[w := p])
  }

  predicate CanFinish(s: State, w: nat) {
    Quiet(s) && w < |s.held| && w < |s.running| && s.running[w] in s.progs && s.held[w] == s.running[w]
  }

  function Finish(s: State, w: nat): (s': State)
    requires CanFinish(s, w)
  {
    var p := s.running[w];
    s.(progs := Deref(s.progs[p := s.progs[p].(busy := s.progs[p].busy - 1)], p), held := s.held[w := NONE],
        running := s.running[w := NONE])
  }

  predicate CanClose(s: State, slot: nat) {
    Quiet(s) && slot < |s.slots| && s.slots[slot] in s.progs
  }

  /** The VM goes, then the table's reference, then the slot. */
  function Closed(s: State, slot: nat): (s': State)
    requires slot < |s.slots| && s.slots[slot] in s.progs
  {
    var p := s.slots[slot];
    s.(progs := Deref(s.progs[p := s.progs[p].(vm := false)], p), slots := s.slots[slot := NONE])
  }

  function Close(s: State, slot: nat): (s': State)
    requires CanClose(s, slot)
  {
    if s.progs[s.slots[slot]].busy > 0 then s.(closers := s.closers + [Closer(slot, s.slots[slot])])
      else Closed(s, slot)
  }

  predicate CanRetry(s: State, i: nat) {
    Quiet(s) && i < |s.closers| && s.closers[i].slot < |s.slots|
      && (s.slots[s.closers[i].slot] == NONE || s.slots[s.closers[i].slot] in s.progs)
  }

  /** A call that waits to close a slot looks again. */
  function Retry(s: State, i: nat): (s': State)
    requires CanRetry(s, i)
  {
    var slot := s.closers[i].slot;
    var s1 := s.(closers := s.closers[..i] + s.closers[i + 1..]);
    if s.slots[slot] == NONE then s1
    else if s.progs[s.slots[slot]].busy > 0 then s
    else Closed(s1, slot)
  }

  /** A first run that fails closes its own program, found by its id, and gives up the request. */
  predicate CanFail(s: State, w: nat, slot: nat) {
    && CanFinish(s, w) && slot < |s.slots| && s.slots[slot] in s.progs
    && s.progs[s.slots[slot]].id == s.progs[s.running[w]].id
  }

  function Fail(s: State, w: nat, slot: nat): (s': State)
    requires CanFail(s, w, slot)
  {
    var s1 := Closed(s, slot);
    var p := s.running[w];
    if p in s1.progs then
      s1.(progs := Deref(s1.progs[p := s1.progs[p].(busy := s1.progs[p].busy - 1)], p), held := s1.held[w := NONE],
          running := s1.running[w := NONE])
    else s1.(fault := true)
  }

  datatype Step =
    | DoLoad(slot: nat, id: nat) | DoRequest(slot: nat) | DoSend | DoTake(w: nat) | DoEnter(w: nat)
    | DoFinish(w: nat) | DoClose(slot: nat) | DoRetry(i: nat) | DoFail(w: nat, slot: nat)

  predicate Enabled(s: State, a: Step) {
    match a
    case DoLoad(slot, id) => CanLoad(s, slot, id)
    case DoRequest(slot) => CanRequest(s, slot)
    case DoSend => CanSend(s)
    case DoTake(w) => CanTake(s, w)
    case DoEnter(w) => CanEnter(s, w)
    case DoFinish(w) => CanFinish(s, w)
    case DoClose(slot) => CanClose(s, slot)
    case DoRetry(i) => CanRetry(s, i)
    case DoFail(w, slot) => CanFail(s, w, slot)
  }

  function Do(s: State, a: Step): (s': State)
    requires Enabled(s, a)
  {
    match a
    case DoLoad(slot, id) => Load(s, slot, id)
    case DoRequest(slot) => MakeRequest(s, slot)
    case DoSend => Send(s)
    case DoTake(w) => Take(s, w)
    case DoEnter(w) => Enter(s, w)
    case DoFinish(w) => Finish(s, w)
    case DoClose(slot) => Close(s, slot)
    case DoRetry(i) => Retry(s, i)
    case DoFail(w, slot) => Fail(s, w, slot)
  }

  // ---------- What every step keeps ----------

  /** How often `p` occurs in a list of pointers. */
  ghost function Count(a: seq<nat>, p: nat): (n: nat) {
    if a == [] then 0 else (if a[0] == p then 1 else 0) + Count(a[1..], p)
  }

  lemma {:induction false} CountUpdate(a: seq<nat>, i: nat, x: nat, p: nat)
    requires i < |a|
    ensures Count(a[i := x], p) == Count(a, p) - (if a[i] == p then 1 else 0) + (if x == p then 1 else 0)
    ensures a[i] == p ==> Count(a, p) > 0
  {
    if i > 0 {
      assert a[i := x][1..] == a[1..][i - 1 := x];
      CountUpdate(a[1..], i - 1, x, p);
    } else {
      assert a[i := x][1..] == a[1..];
    }
  }

  lemma {:induction false} CountAppend(a: seq<nat>, x: nat, p: nat)
    ensures Count(a + [x], p) == Count(a, p) + (if x == p then 1 else 0)
  {
    if a != [] {
      assert (a + [x])[1..] == a[1..] + [x];
      CountAppend(a[1..], x, p);
    } else {
      assert a + [x] == [x] && [x][1..] == [];
    }
  }

  lemma {:induction false} CountBound(a: seq<nat>, p: nat)
    ensures Count(a, p) <= |a|
  {
    if a != [] { CountBound(a[1..], p); }
  }

  lemma {:induction false} CountLe(a: seq<nat>, b: seq<nat>, p: nat)
    requires |a| == |b| && forall i :: 0 <= i < |a| && a[i] == p ==> b[i] == p
    ensures Count(a, p) <= Count(b, p)
  {
    if a != [] { CountLe(a[1..], b[1..], p); }
  }

  /** Replacing one element of a list of pointers. */
  lemma Replaced(a: seq<nat>, i: nat, x: nat)
    requires i < |a|
    ensures forall p :: Count(a[i := x], p) == Count(a, p) - (if a[i] == p then 1 else 0) + (if x == p then 1 else 0)
    ensures Count(a, a[i]) > 0
  {
    forall p ensures Count(a[i := x], p) == Count(a, p) - (if a[i] == p then 1 else 0) + (if x == p then 1 else 0) {
      CountUpdate(a, i, x, p);
    }
    CountUpdate(a, i, x, a[i]);
  }

  /** How many pointers to `p` there are: table, queue, workers, and a request about to be queued. */
  ghost function Refs(s: State, p: nat): (n: nat) {
    Count(s.slots, p) + Count(s.queue, p) + Count(s.held, p) + (if s.sender == p then 1 else 0)
  }

  ghost predicate Shaped(s: State) {
    && |s.held| == |s.running| == |s.waited| == THREADS && |s.queue| <= QUEUE_LENGTH && s.unused > NONE
    && (forall i :: 0 <= i < |s.closers| ==> s.closers[i].slot < |s.slots|)
  }

  /** Reference counts are exact, and a structure is allocated just as long as something points to it. */
  ghost predicate Counted(s: State) {
    && (forall p :: p in s.progs ==> p != NONE && p < s.unused && s.progs[p].refcount == Refs(s, p))
    && (forall p {:trigger Refs(s, p)} :: p != NONE ==> (p in s.progs <==> Refs(s, p) > 0))
  }

  /** `busy` counts the workers that execute a program: one at most, and only while it is in the table. */
  ghost predicate Busy(s: State) {
    && (forall w :: 0 <= w < |s.running| && s.running[w] != NONE ==> w < |s.held| && s.held[w] == s.running[w])
    && (forall p :: p in s.progs ==> s.progs[p].busy == Count(s.running, p) <= Count(s.slots, p))
  }

  /** A program has a VM just while it is in the table, in one slot; ids in the table are distinct. */
  ghost predicate Tabled(s: State) {
    && (forall p :: p in s.progs ==> Count(s.slots, p) == if s.progs[p].vm then 1 else 0)
    && (forall p, q ::
          p in s.progs && q in s.progs && s.progs[p].vm && s.progs[q].vm && s.progs[p].id == s.progs[q].id ==> p == q)
  }

  ghost predicate Inv(s: State) {
    !s.fault ==> Shaped(s) && Counted(s) && Busy(s) && Tabled(s)
  }

  lemma LoadKeeps(s: State, slot: nat, id: nat)
    requires Inv(s) && CanLoad(s, slot, id)
    ensures Inv(Load(s, slot, id))
  {
    Replaced(s.slots, slot, s.unused);
    var s' := Load(s, slot, id);
    assert Refs(s, s.unused) == 0;
    CountLe(s.running, s.held, s.unused);
    forall p | p in s.progs && s.progs[p].vm ensures s.progs[p].id != id {
      var i := FindSlot(s.slots, p);
    }
    forall p {:trigger Refs(s', p)} | p != NONE ensures p in s'.progs <==> Refs(s', p) > 0 {
      assert Refs(s', p) == Refs(s, p) + if p == s.unused then 2 else 0;
    }
    assert Counted(s') && Busy(s') && Tabled(s');
  }

  lemma {:induction false} FindSlot(a: seq<nat>, p: nat) returns (i: nat)
    requires Count(a, p) > 0
    ensures i < |a| && a[i] == p
  {
    if a[0] == p {
      i := 0;
    } else {
      var j := FindSlot(a[1..], p);
      i := j + 1;
    }
  }

  lemma RequestKeeps(s: State, slot: nat)
    requires Inv(s) && CanRequest(s, slot)
    ensures Inv(MakeRequest(s, slot))
  {
    var p, s' := s.slots[slot], MakeRequest(s, slot);
    forall q {:trigger Refs(s', q)} | q != NONE ensures q in s'.progs <==> Refs(s', q) > 0 {
      assert Refs(s', q) == Refs(s, q) + if q == p then 1 else 0;
    }
  }

  lemma SendKeeps(s: State)
    requires Inv(s) && CanSend(s)
    ensures Inv(Send(s))
  {
    var s' := Send(s);
    forall q ensures q != NONE ==> Refs(s', q) == Refs(s, q) {
      CountAppend(s.queue, s.sender, q);
    }
  }

  lemma TakeKeeps(s: State, w: nat)
    requires Inv(s) && CanTake(s, w)
    ensures Inv(Take(s, w))
  {
    Replaced(s.held, w, s.queue[0]);
    var s' := Take(s, w);
    forall q ensures q != NONE ==> Refs(s', q) == Refs(s, q) {
    }
  }

  /** Dropping the reference a worker holds. */
  lemma DropKeeps(s: State, w: nat, s': State)
    requires Shaped(s) && Counted(s) && w < |s.held| && s.held[w] in s.progs
    requires s' == s.(progs := Deref(s.progs, s.held[w]), held := s.held[w := NONE])
    ensures Counted(s')
  {
    Replaced(s.held, w, NONE);
    var p := s.held[w];
    forall q {:trigger Refs(s', q)} | q != NONE ensures q in s'.progs <==> Refs(s', q) > 0 {
      assert Refs(s', q) == Refs(s, q) - if q == p then 1 else 0;
    }
  }

  lemma EnterKeeps(s: State, w: nat)
    requires Inv(s) && CanEnter(s, w)
    ensures Inv(Enter(s, w))
  {
    var p, s' := s.held[w], Enter(s, w);
    var g := s.progs[p];
    if s.waited[w] && !g.vm {
      DropKeeps(s, w, s');
    } else if g.busy == 0 && g.vm {
      ExecuteKeeps(s, w, s');
    } else if g.busy > 0 {
      forall q ensures Refs(s', q) == Refs(s, q) { }
    }
  }

  /** A worker starts executing a program that nobody executes. */
  lemma ExecuteKeeps(s: State, w: nat, s': State)
    requires Inv(s) && CanEnter(s, w) && s.progs[s.held[w]].busy == 0 && s.progs[s.held[w]].vm
    requires s' == s.(progs := s.progs[s.held[w] := s.progs[s.held[w]].(busy := 1)],
        running := s.running[w := s.held[w]])
    ensures Counted(s') && Busy(s') && Tabled(s')
  {
    Replaced(s.running, w, s.held[w]);
    forall q ensures Refs(s', q) == Refs(s, q) { }
  }

  lemma FinishKeeps(s: State, w: nat)
    requires Inv(s) && CanFinish(s, w)
    ensures Inv(Finish(s, w))
  {
    var p := s.running[w];
    var s1 := s.(progs := s.progs[p := s.progs[p].(busy := s.progs[p].busy - 1)], running := s.running[w := NONE]);
    IdleKeeps(s, w, s1);
    IdleDrops(s1, w, Finish(s, w));
  }

  /** A worker that executes nothing gives up its request. */
  lemma IdleDrops(s: State, w: nat, s': State)
    requires Shaped(s) && Counted(s) && Busy(s) && Tabled(s) && w < |s.held| && w < |s.running|
    requires s.held[w] in s.progs && s.running[w] == NONE
    requires s' == s.(progs := Deref(s.progs, s.held[w]), held := s.held[w := NONE])
    ensures Inv(s')
  {
    DropKeeps(s, w, s');
  }

  /** A worker stops executing. */
  lemma IdleKeeps(s: State, w: nat, s1: State)
    requires Inv(s) && CanFinish(s, w)
    requires s1 == s.(progs := s.progs[s.running[w] := s.progs[s.running[w]].(busy := s.progs[s.running[w]].busy - 1)],
        running := s.running[w := NONE])
    ensures Shaped(s1) && Counted(s1) && Busy(s1) && Tabled(s1)
  {
    Replaced(s.running, w, NONE);
    forall q ensures Refs(s1, q) == Refs(s, q) { }
  }

  lemma ClosedCounted(s: State, slot: nat)
    requires Counted(s) && slot < |s.slots| && s.slots[slot] in s.progs
    ensures Counted(Closed(s, slot))
  {
    Replaced(s.slots, slot, NONE);
    var p, s' := s.slots[slot], Closed(s, slot);
    forall q {:trigger Refs(s', q)} | q != NONE ensures q in s'.progs <==> Refs(s', q) > 0 {
      assert Refs(s', q) == Refs(s, q) - if q == p then 1 else 0;
    }
  }

  lemma ClosedKeeps(s: State, slot: nat)
    requires Inv(s) && !s.fault && slot < |s.slots| && s.slots[slot] in s.progs && s.progs[s.slots[slot]].busy == 0
    ensures Inv(Closed(s, slot))
  {
    ClosedCounted(s, slot);
    Replaced(s.slots, slot, NONE);
  }

  lemma CloseKeeps(s: State, slot: nat)
    requires Inv(s) && CanClose(s, slot)
    ensures Inv(Close(s, slot))
  {
    if s.progs[s.slots[slot]].busy > 0 {
      var s' := Close(s, slot);
      forall q ensures Refs(s', q) == Refs(s, q) { }
    } else {
      assert s.progs[s.slots[slot]].busy == Count(s.running, s.slots[slot]);
      ClosedKeeps(s, slot);
    }
  }

  lemma RetryKeeps(s: State, i: nat)
    requires Inv(s) && CanRetry(s, i)
    ensures Inv(Retry(s, i))
  {
    var slot := s.closers[i].slot;
    var s1 := s.(closers := s.closers[..i] + s.closers[i + 1..]);
    forall q ensures Refs(s1, q) == Refs(s, q) { }
    assert Shaped(s1) by {
      forall j | 0 <= j < |s1.closers| ensures s1.closers[j].slot < |s1.slots| {
        assert s1.closers[j] == s.closers[if j < i then j else j + 1];
      }
    }
    assert Counted(s1) && Busy(s1) && Tabled(s1);
    if s.slots[slot] != NONE && s.progs[s.slots[slot]].busy <= 0 {
      assert s.progs[s.slots[slot]].busy == Count(s.running, s.slots[slot]);
      ClosedKeeps(s1, slot);
    }
  }

  /**
    The failing program is in the table, alone under its id, and only this worker executes it:
    closing it has not to wait.
   */
  lemma FailsOwn(s: State, w: nat, slot: nat)
    requires Inv(s) && CanFail(s, w, slot)
    ensures s.slots[slot] == s.running[w] && s.progs[s.running[w]].busy == 1 && s.progs[s.running[w]].refcount >= 2
  {
    var p := s.running[w];
    CountUpdate(s.running, w, NONE, p);
    CountUpdate(s.held, w, NONE, p);
    CountUpdate(s.slots, slot, NONE, s.slots[slot]);
    assert s.slots[slot] == p;
    assert Refs(s, p) >= 2;
  }

  /** So the structure is still there when the request is given up. */
  lemma FailIs(s: State, w: nat, slot: nat, s2: State)
    requires Inv(s) && CanFail(s, w, slot) && s.slots[slot] == s.running[w] && s.progs[s.running[w]].busy == 1
      && s.progs[s.running[w]].refcount >= 2
    requires s2 == Closed(s.(progs := s.progs[s.running[w] := s.progs[s.running[w]].(busy := 0)],
        running := s.running[w := NONE]), slot)
    ensures s.running[w] in s2.progs
      && Fail(s, w, slot) == s2.(progs := Deref(s2.progs, s.running[w]), held := s2.held[w := NONE])
  {
    var p := s.running[w];
    assert s2.progs == s.progs[p := s.progs[p].(busy := 0, vm := false, refcount := s.progs[p].refcount - 1)];
  }

  lemma FailKeeps(s: State, w: nat, slot: nat)
    requires Inv(s) && CanFail(s, w, slot)
    ensures Inv(Fail(s, w, slot)) && !Fail(s, w, slot).fault
  {
    FailsOwn(s, w, slot);
    var p := s.running[w];
    var s1 := s.(progs := s.progs[p := s.progs[p].(busy := 0)], running := s.running[w := NONE]);
    IdleKeeps(s, w, s1);
    ClosedKeeps(s1, slot);
    var s2 := Closed(s1, slot);
    FailIs(s, w, slot, s2);
    IdleDrops(s2, w, Fail(s, w, slot));
  }

  lemma StepKeeps(s: State, a: Step)
    requires Inv(s) && Enabled(s, a)
    ensures Inv(Do(s, a))
  {
    match a {
      case DoLoad(slot, id) => LoadKeeps(s, slot, id);
      case DoRequest(slot) => RequestKeeps(s, slot);
      case DoSend => SendKeeps(s);
      case DoTake(w) => TakeKeeps(s, w);
      case DoEnter(w) => EnterKeeps(s, w);
      case DoFinish(w) => FinishKeeps(s, w);
      case DoClose(slot) => CloseKeeps(s, slot);
      case DoRetry(i) => RetryKeeps(s, i);
      case DoFail(w, slot) => FailKeeps(s, w, slot);
    }
  }

  // ---------- Runs ----------

  function Start(slots: nat): (s: State) {
    State(map[], 1, seq(slots, _ => NONE), [], seq(THREADS, _ => NONE), seq(THREADS, _ => NONE),
        seq(THREADS, _ => false), NONE, [], false)
  }

  /** The steps `run`, one after the other, lead from `s` to `s'`. */
  ghost predicate Leads(s: State, run: seq<Step>, s': State)
    decreases |run|
  {
    if run == [] then s == s' else Enabled(s, run[0]) && Leads(Do(s, run[0]), run[1..], s')
  }

  lemma {:induction false} RunKeeps(s: State, run: seq<Step>, s': State)
    requires Inv(s) && Leads(s, run, s')
    ensures Inv(s')
    decreases |run|
  {
    if run != [] {
      StepKeeps(s, run[0]);
      RunKeeps(Do(s, run[0]), run[1..], s');
    }
  }

  lemma StartHolds(n: nat)
    ensures Inv(Start(n))
  {
    var s := Start(n);
    forall p ensures p != NONE ==> Refs(s, p) == 0 && Count(s.running, p) == 0 {
      if p != NONE {
        NoneCounted(s.slots, p);
        NoneCounted(s.held, p);
        NoneCounted(s.running, p);
      }
    }
  }

  lemma {:induction false} NoneCounted(a: seq<nat>, p: nat)
    requires forall i :: 0 <= i < |a| ==> a[i] != p
    ensures Count(a, p) == 0
  {
    if a != [] { NoneCounted(a[1..], p); }
  }

  /**
    Safety over every run. Until a worker executes a closed program: reference counts are exact
    and fit in a char, a structure is allocated just as long as something points to it, and no
    two workers execute the same program.
   */
  lemma RunsAreSafe(slots: nat, run: seq<Step>, s: State)
    requires Leads(Start(slots), run, s) && !s.fault
    ensures |s.running| == THREADS
    ensures forall p :: p in s.progs ==> s.progs[p].refcount == Refs(s, p) <= 31
    ensures forall p :: p != NONE ==> (p in s.progs <==> Refs(s, p) > 0)
    ensures forall v, w :: 0 <= v < w < THREADS && s.running[v] == s.running[w] ==> s.running[v] == NONE
    ensures forall w :: 0 <= w < THREADS && s.running[w] != NONE ==> s.running[w] in s.progs && s.progs[s.running[w]].vm
  {
    StartHolds(slots);
    RunKeeps(Start(slots), run, s);
    forall p | p in s.progs ensures Refs(s, p) <= 31 {
      CountBound(s.queue, p);
      CountBound(s.held, p);
    }
    forall w | 0 <= w < THREADS && s.running[w] != NONE ensures s.running[w] in s.progs && s.progs[s.running[w]].vm {
      CountUpdate(s.held, w, NONE, s.running[w]);
      CountUpdate(s.running, w, NONE, s.running[w]);
      assert Refs(s, s.running[w]) > 0;
    }
    forall v, w | 0 <= v < w < THREADS && s.running[v] == s.running[w] ensures s.running[v] == NONE {
      if s.running[v] != NONE { TwoCounted(s.running, v, w); }
    }
  }

  lemma {:induction false} TwoCounted(a: seq<nat>, v: nat, w: nat)
    requires v < w < |a| && a[v] == a[w]
    ensures Count(a, a[v]) >= 2
  {
    if v > 0 {
      TwoCounted(a[1..], v - 1, w - 1);
    } else {
      CountUpdate(a[1..], w - 1, NONE, a[0]);
    }
  }

  /** A step takes the VM from a program only when nobody executes it, or when its one executor does so on failing. */
  lemma VmEndsIdle(s: State, a: Step, p: nat)
    requires Inv(s) && !s.fault && Enabled(s, a) && p in s.progs && s.progs[p].vm
    requires var s' := Do(s, a); p !in s'.progs || !s'.progs[p].vm
    ensures s.progs[p].busy == 0 || (a.DoFail? && s.progs[p].busy == 1 && s.running[a.w] == p)
  {
    if a.DoFail? {
      FailVm(s, a.w, a.slot, p);
    } else if a.DoFinish? || a.DoEnter? {
      WorkerVm(s, a, p);
    }
  }

  lemma FailVm(s: State, w: nat, slot: nat, p: nat)
    requires Inv(s) && !s.fault && CanFail(s, w, slot) && p in s.progs && s.progs[p].vm
    requires p !in Fail(s, w, slot).progs || !Fail(s, w, slot).progs[p].vm
    ensures s.progs[p].busy == 1 && s.running[w] == p
  {
    FailsOwn(s, w, slot);
  }

  /** A worker that enters or finishes takes no VM. */
  lemma WorkerVm(s: State, a: Step, p: nat)
    requires Inv(s) && !s.fault && Enabled(s, a) && (a.DoFinish? || a.DoEnter?) && p in s.progs && s.progs[p].vm
    ensures p in Do(s, a).progs && Do(s, a).progs[p].vm
  {
    if a.DoFinish? { CountUpdate(s.held, a.w, NONE, p); }
  }

  /** A step goes wrong exactly when a worker enters a closed program without having waited for it. */
  lemma FaultsWhen(s: State, a: Step)
    requires Inv(s) && !s.fault && Enabled(s, a)
    ensures Do(s, a).fault <==> a.DoEnter? && !s.waited[a.w] && !s.progs[s.held[a.w]].vm
  {
    if a.DoFail? { FailKeeps(s, a.w, a.slot); }
  }

  /** It does happen: a program is closed while its first request is still in the queue. */
  lemma FaultHappens()
    ensures exists s :: Leads(Start(1), [DoLoad(0, 7), DoSend, DoClose(0), DoTake(0), DoEnter(0)], s) && s.fault
  {
    var s0 := Start(1);
    var s2 := Send(Load(s0, 0, 7));
    var s4 := Take(Close(s2, 0), 0);
    var s5 := Enter(s4, 0);
    TwoSteps(s0, DoLoad(0, 7), DoSend);
    TwoSteps(s2, DoClose(0), DoTake(0));
    OneStep(s4, DoEnter(0));
    LeadsOn(s2, [DoClose(0), DoTake(0)], s4, [DoEnter(0)], s5);
    LeadsOn(s0, [DoLoad(0, 7), DoSend], s2, [DoClose(0), DoTake(0)] + [DoEnter(0)], s5);
    assert [DoLoad(0, 7), DoSend] + ([DoClose(0), DoTake(0)] + [DoEnter(0)])
        == [DoLoad(0, 7), DoSend, DoClose(0), DoTake(0), DoEnter(0)];
  }

  // ---------- What becomes of a request ----------

  /** A worker that enters executes its program exactly if that is idle and has its machine, waited or not. */
  lemma EnterExecutes(s: State, w: nat)
    requires Inv(s) && CanEnter(s, w)
    ensures var p, s' := s.held[w], Enter(s, w);
      && (s'.running[w] == p <==> s.progs[p].busy == 0 && s.progs[p].vm)
      && (s'.running[w] == p ==> s'.held[w] == p && p in s'.progs && s'.progs[p].vm && s'.progs[p].busy == 1)
  {
    var p := s.held[w];
    assert s.progs[p].busy == Count(s.running, p);
  }

  /** Otherwise it gives up a closed program it has waited for, and waits for a busy one with nothing else changed. */
  lemma EnterWaits(s: State, w: nat)
    requires Inv(s) && CanEnter(s, w) && s.progs[s.held[w]].busy > 0
    ensures s.progs[s.held[w]].vm && Enter(s, w) == s.(waited := s.waited[w := true])
  {
    assert s.progs[s.held[w]].busy <= Count(s.slots, s.held[w]);
  }

  /** A worker loses its request only by finishing it, by failing on it, or because its program has no machine. */
  lemma HeldUntilOver(s: State, a: Step, w: nat)
    requires Inv(s) && !s.fault && Enabled(s, a) && w < THREADS && s.held[w] != NONE
    ensures Do(s, a).held[w] == s.held[w]
      || (Do(s, a).held[w] == NONE
          && (a == DoFinish(w) || (a.DoFail? && a.w == w) || (a == DoEnter(w) && !s.progs[s.held[w]].vm)))
  {
    if a.DoFail? { FailKeeps(s, a.w, a.slot); }
  }

  /** Requests for a program: about to be queued, in the queue, or with a worker. */
  ghost function Pending(s: State, p: nat): (n: nat) {
    Count(s.queue, p) + Count(s.held, p) + (if s.sender == p then 1 else 0)
  }

  function One(b: bool): (n: nat) {
    if b then 1 else 0
  }

  /** The step makes a request for `p`. */
  predicate Makes(s: State, a: Step, p: nat)
    requires Enabled(s, a)
  {
    (a.DoLoad? && s.unused == p) || (a.DoRequest? && s.slots[a.slot] == p)
  }

  /** A request for `p` has been executed to its end, or failed. */
  predicate Ends(s: State, a: Step, p: nat)
    requires Enabled(s, a)
  {
    (a.DoFinish? || a.DoFail?) && s.running[a.w] == p
  }

  /** A request for `p`, which is closed, is given up. */
  predicate GivesUp(s: State, a: Step, p: nat)
    requires Enabled(s, a)
  {
    a.DoEnter? && s.held[a.w] == p && s.waited[a.w] && !s.progs[p].vm
  }

  /** A request for `p` starts to be executed. */
  predicate Starts(s: State, a: Step, p: nat)
    requires Enabled(s, a)
  {
    a.DoEnter? && s.held[a.w] == p && s.progs[p].vm && s.progs[p].busy == 0
  }

  /** No step loses a request or makes one up. */
  lemma StepCounts(s: State, a: Step, p: nat)
    requires Inv(s) && !s.fault && Enabled(s, a) && !Do(s, a).fault && p != NONE
    ensures Pending(s, p) + One(Makes(s, a, p)) == Pending(Do(s, a), p) + One(Ends(s, a, p)) + One(GivesUp(s, a, p))
    ensures Count(s.running, p) + One(Starts(s, a, p)) == Count(Do(s, a).running, p) + One(Ends(s, a, p))
  {
    match a {
      case DoSend => QueueCounts(s, a, p);
      case DoTake(w) => QueueCounts(s, a, p);
      case DoEnter(w) => EnterCounts(s, w, p);
      case DoFinish(w) => EndCounts(s, w, Finish(s, w), p);
      case DoFail(w, slot) => EndCounts(s, w, Fail(s, w, slot), p);
      case _ => CallCounts(s, a, p);
    }
  }

  lemma CallCounts(s: State, a: Step, p: nat)
    requires Inv(s) && !s.fault && Enabled(s, a) && p != NONE && (a.DoLoad? || a.DoRequest? || a.DoClose? || a.DoRetry?)
    ensures Pending(s, p) + One(Makes(s, a, p)) == Pending(Do(s, a), p) && Do(s, a).running == s.running
  {
  }

  lemma QueueCounts(s: State, a: Step, p: nat)
    requires Inv(s) && !s.fault && Enabled(s, a) && p != NONE && (a.DoSend? || a.DoTake?)
    ensures Pending(s, p) == Pending(Do(s, a), p) && Do(s, a).running == s.running
  {
    if a.DoSend? { CountAppend(s.queue, s.sender, p); } else { CountUpdate(s.held, a.w, s.queue[0], p); }
  }

  lemma EnterCounts(s: State, w: nat, p: nat)
    requires Inv(s) && CanEnter(s, w) && !Enter(s, w).fault && p != NONE
    ensures var a := DoEnter(w);
      && Pending(s, p) == Pending(Enter(s, w), p) + One(GivesUp(s, a, p))
      && Count(s.running, p) + One(Starts(s, a, p)) == Count(Enter(s, w).running, p)
  {
    assert s.progs[s.held[w]].busy == Count(s.running, s.held[w]);
    CountUpdate(s.held, w, NONE, p);
    CountUpdate(s.running, w, s.held[w], p);
  }

  lemma EndCounts(s: State, w: nat, s': State, p: nat)
    requires CanFinish(s, w) && p != NONE && s'.queue == s.queue && s'.sender == s.sender
    requires s'.held == s.held[w := NONE] && s'.running == s.running[w := NONE]
    ensures Pending(s, p) == Pending(s', p) + One(s.running[w] == p)
    ensures Count(s.running, p) == Count(s'.running, p) + One(s.running[w] == p)
  {
    CountUpdate(s.held, w, NONE, p);
    CountUpdate(s.running, w, NONE, p);
  }

  // The same events, counted over a run.

  ghost function Made(s: State, run: seq<Step>, p: nat): (n: nat)
    decreases |run|
  {
    if run == [] || !Enabled(s, run[0]) then 0 else One(Makes(s, run[0], p)) + Made(Do(s, run[0]), run[1..], p)
  }

  ghost function Ended(s: State, run: seq<Step>, p: nat): (n: nat)
    decreases |run|
  {
    if run == [] || !Enabled(s, run[0]) then 0 else One(Ends(s, run[0], p)) + Ended(Do(s, run[0]), run[1..], p)
  }

  ghost function GivenUp(s: State, run: seq<Step>, p: nat): (n: nat)
    decreases |run|
  {
    if run == [] || !Enabled(s, run[0]) then 0 else One(GivesUp(s, run[0], p)) + GivenUp(Do(s, run[0]), run[1..], p)
  }

  ghost function Started(s: State, run: seq<Step>, p: nat): (n: nat)
    decreases |run|
  {
    if run == [] || !Enabled(s, run[0]) then 0 else One(Starts(s, run[0], p)) + Started(Do(s, run[0]), run[1..], p)
  }

  lemma FaultStays(s: State, run: seq<Step>, s': State)
    requires Leads(s, run, s') && s.fault
    ensures s' == s
  {
    assert forall a :: !Enabled(s, a);
  }

  lemma {:induction false} RunCounts(s: State, run: seq<Step>, s': State, p: nat)
    requires Inv(s) && Leads(s, run, s') && !s'.fault && p != NONE
    ensures Pending(s, p) + Made(s, run, p) == Pending(s', p) + Ended(s, run, p) + GivenUp(s, run, p)
    ensures Count(s.running, p) + Started(s, run, p) == Count(s'.running, p) + Ended(s, run, p)
    decreases |run|
  {
    if run != [] {
      if s.fault { FaultStays(s, run, s'); }
      var s1 := Do(s, run[0]);
      if s1.fault { FaultStays(s1, run[1..], s'); }
      StepKeeps(s, run[0]);
      StepCounts(s, run[0], p);
      RunCounts(s1, run[1..], s', p);
    }
  }

  /**
    On every run each request made for a program was executed, once, or is being executed, or was
    given up because the program had been closed, or still waits.
   */
  lemma RequestsAreKept(slots: nat, run: seq<Step>, s: State, p: nat)
    requires Leads(Start(slots), run, s) && !s.fault && p != NONE
    ensures Made(Start(slots), run, p)
         == Ended(Start(slots), run, p) + GivenUp(Start(slots), run, p) + Pending(s, p)
    ensures Started(Start(slots), run, p) == Ended(Start(slots), run, p) + Count(s.running, p)
    ensures Count(s.running, p) <= Pending(s, p)
  {
    var s0 := Start(slots);
    StartHolds(slots);
    RunKeeps(s0, run, s);
    NoneCounted(s0.held, p);
    NoneCounted(s0.running, p);
    RunCounts(s0, run, s, p);
    CountLe(s.running, s.held, p);
  }

  // Requests are taken in the order in which they were queued.

  ghost function Sent(s: State, run: seq<Step>): (r: seq<nat>)
    decreases |run|
  {
    if run == [] || !Enabled(s, run[0]) then []
    else (if run[0].DoSend? then [s.sender] else []) + Sent(Do(s, run[0]), run[1..])
  }

  ghost function Taken(s: State, run: seq<Step>): (r: seq<nat>)
    decreases |run|
  {
    if run == [] || !Enabled(s, run[0]) then []
    else (if run[0].DoTake? then [Do(s, run[0]).held[run[0].w]] else []) + Taken(Do(s, run[0]), run[1..])
  }

  lemma {:induction false} TakenInOrder(s: State, run: seq<Step>, s': State)
    requires Leads(s, run, s')
    ensures s.queue + Sent(s, run) == Taken(s, run) + s'.queue
    decreases |run|
  {
    if run != [] {
      var a, s1 := run[0], Do(s, run[0]);
      TakenInOrder(s1, run[1..], s');
      QueueStep(s, a);
      var now, got := if a.DoSend? then [s.sender] else [], if a.DoTake? then [s1.held[a.w]] else [];
      Rearranged(s.queue, now, Sent(s1, run[1..]), got, s1.queue, Taken(s1, run[1..]), s'.queue);
    }
  }

  lemma Rearranged(q: seq<nat>, now: seq<nat>, sent: seq<nat>, got: seq<nat>, q1: seq<nat>, taken: seq<nat>,
      q2: seq<nat>)
    requires q + now == got + q1 && q1 + sent == taken + q2
    ensures q + (now + sent) == got + taken + q2
  {
    assert q + (now + sent) == q + now + sent && got + q1 + sent == got + (q1 + sent);
  }

  lemma QueueStep(s: State, a: Step)
    requires Enabled(s, a)
    ensures s.queue + (if a.DoSend? then [s.sender] else [])
         == (if a.DoTake? then [Do(s, a).held[a.w]] else []) + Do(s, a).queue
  {
    if a.DoTake? { assert [s.queue[0]] + s.queue[1..] == s.queue; }
  }

  /** A request for a program that has its machine can be executed: at once, or when the one before it is over. */
  lemma HeldCanRun(s: State, w: nat) returns (run: seq<Step>, s': State)
    requires Inv(s) && CanEnter(s, w) && s.progs[s.held[w]].vm
    ensures Leads(s, run, s') && |s'.running| == THREADS && s'.running[w] == s.held[w]
  {
    var p := s.held[w];
    assert s.progs[p].busy == Count(s.running, p);
    if s.progs[p].busy == 0 {
      run, s' := [DoEnter(w)], Enter(s, w);
      EnterExecutes(s, w);
      OneStep(s, DoEnter(w));
    } else {
      var v := FindSlot(s.running, p);
      CountUpdate(s.held, v, NONE, p);
      CountUpdate(s.held[v := NONE], w, NONE, p);
      assert Refs(s, p) >= 2;
      FinishKeeps(s, v);
      var s1 := Finish(s, v);
      run, s' := [DoFinish(v), DoEnter(w)], Enter(s1, w);
      assert p in s1.progs && s1.progs[p].vm && s1.progs[p].busy == 0;
      EnterExecutes(s1, w);
      TwoSteps(s, DoFinish(v), DoEnter(w));
    }
  }

  /** While the lock is free and a request is not over, some worker can go on. */
  lemma WorkGoesOn(s: State, p: nat) returns (a: Step)
    requires Inv(s) && Quiet(s) && p != NONE && Pending(s, p) > 0
    ensures Enabled(s, a) && (a.DoTake? || a.DoEnter? || a.DoFinish?)
  {
    if Count(s.held, p) > 0 {
      var w := FindSlot(s.held, p);
      assert Refs(s, p) > 0;
      a := if s.running[w] == NONE then DoEnter(w) else DoFinish(w);
    } else if w :| 0 <= w < THREADS && s.held[w] != NONE {
      CountUpdate(s.held, w, NONE, s.held[w]);
      assert Refs(s, s.held[w]) > 0;
      a := if s.running[w] == NONE then DoEnter(w) else DoFinish(w);
    } else {
      a := DoTake(0);
    }
  }

  // What loading, requesting and closing do.

  lemma LoadRuns(s: State, slot: nat, id: nat)
    requires Inv(s) && CanLoad(s, slot, id)
    ensures var s' := Load(s, slot, id);
      var p := s'.slots[slot];
      && p !in s.progs && p in s'.progs && s'.progs[p].id == id && s'.progs[p].vm && s'.sender == p
      && forall q :: q in s.progs ==> q in s'.progs && s'.progs[q] == s.progs[q]
  {
  }

  /** Closing takes a program out of the table at once, or waits while it is busy. */
  lemma CloseCloses(s: State, slot: nat)
    requires Inv(s) && CanClose(s, slot)
    ensures var p, s' := s.slots[slot], Close(s, slot);
      && (s.progs[p].busy > 0 ==> s' == s.(closers := s.closers + [Closer(slot, p)]))
      && (s.progs[p].busy <= 0 ==>
            && s'.slots == s.slots[slot := NONE] && s'.closers == s.closers && (p in s'.progs ==> !s'.progs[p].vm)
            && (p in s'.progs <==> Pending(s, p) > 0))
  {
    var p, s' := s.slots[slot], Close(s, slot);
    if s.progs[p].busy <= 0 {
      CloseKeeps(s, slot);
      CountUpdate(s.slots, slot, NONE, p);
      assert Refs(s', p) == Pending(s, p);
    }
  }

  /** A first run that fails takes its own program out of the table. */
  lemma FailCloses(s: State, w: nat, slot: nat)
    requires Inv(s) && CanFail(s, w, slot)
    ensures var p, s' := s.running[w], Fail(s, w, slot);
      && s.slots[slot] == p && s'.slots == s.slots[slot := NONE] && s'.held == s.held[w := NONE]
      && s'.running == s.running[w := NONE] && (p in s'.progs ==> !s'.progs[p].vm)
  {
    FailsOwn(s, w, slot);
    FailKeeps(s, w, slot);
  }

  // ---------- Closing after a wait ----------

  /**
    A call that waited closes a program exactly when its slot holds one that is not busy; that is the
    program it was called for exactly when the slot still holds that one.
   */
  lemma RetryCloses(s: State, i: nat, p: nat)
    requires Inv(s) && CanRetry(s, i) && p in s.progs && s.progs[p].vm
    ensures var slot, s' := s.closers[i].slot, Retry(s, i);
      (p !in s'.progs || !s'.progs[p].vm) <==> s.slots[slot] == p && s.progs[p].busy == 0
  {
    var slot := s.closers[i].slot;
    if s.slots[slot] != NONE { assert s.progs[s.slots[slot]].busy == Count(s.running, s.slots[slot]); }
  }

  /** A waiting call is about to close another program than the one it was called for. */
  predicate Mistaken(s: State) {
    && |s.slots| == 1 && CanRetry(s, 0) && s.closers[0].slot == 0 && s.slots[0] in s.progs
    && s.slots[0] != s.closers[0].named && s.progs[s.slots[0]].vm && s.progs[s.slots[0]].busy == 0
  }

  /** One worker executes program 1, and two calls wait to close it. */
  const TWO_WAITING := State(map[1 := Prog(7, 2, 1, true)], 2, [1], [], [1, NONE, NONE, NONE], [1, NONE, NONE, NONE],
                             [false, false, false, false], NONE, [Closer(0, 1), Closer(0, 1)], false)

  lemma OneRunning() returns (run: seq<Step>)
    ensures Leads(Start(1), run, TWO_WAITING.(closers := []))
  {
    var s0 := Start(1);
    var s1 := Send(Load(s0, 0, 7));
    var s2 := Enter(Take(s1, 0), 0);
    TwoSteps(s0, DoLoad(0, 7), DoSend);
    TwoSteps(s1, DoTake(0), DoEnter(0));
    run := [DoLoad(0, 7), DoSend] + [DoTake(0), DoEnter(0)];
    LeadsOn(s0, [DoLoad(0, 7), DoSend], s1, [DoTake(0), DoEnter(0)], s2);
    assert s2 == TWO_WAITING.(closers := []);
  }

  lemma TwoWaiting() returns (run: seq<Step>)
    ensures Leads(Start(1), run, TWO_WAITING)
  {
    var s := TWO_WAITING.(closers := []);
    run := OneRunning();
    TwoSteps(s, DoClose(0), DoClose(0));
    LeadsOn(Start(1), run, s, [DoClose(0), DoClose(0)], TWO_WAITING);
    run := run + [DoClose(0), DoClose(0)];
  }

  /** It does happen: the first call closes the program, the second the one that is loaded into the slot next. */
  lemma ClosesAnother()
    ensures exists run, s :: Leads(Start(1), run, s) && Mistaken(s)
  {
    var run := TwoWaiting();
    var s4 := Retry(Finish(TWO_WAITING, 0), 0);
    var s5 := Send(Load(s4, 0, 8));
    TwoSteps(TWO_WAITING, DoFinish(0), DoRetry(0));
    TwoSteps(s4, DoLoad(0, 8), DoSend);
    LeadsOn(Start(1), run, TWO_WAITING, [DoFinish(0), DoRetry(0)], s4);
    LeadsOn(Start(1), run + [DoFinish(0), DoRetry(0)], s4, [DoLoad(0, 8), DoSend], s5);
    assert Mistaken(s5);
  }

  lemma TwoSteps(s: State, a: Step, b: Step)
    requires Enabled(s, a) && Enabled(Do(s, a), b)
    ensures Leads(s, [a, b], Do(Do(s, a), b))
  {
    OneStep(s, a);
    OneStep(Do(s, a), b);
    LeadsOn(s, [a], Do(s, a), [b], Do(Do(s, a), b));
    assert [a] + [b] == [a, b];
  }

  // ---------- Blocking ----------

  ghost predicate Blocked(s: State) {
    forall a :: !Enabled(s, a)
  }

  /**
    A caller that is queueing a request, and with it the whole pool, is stuck exactly when the queue
    is full and every worker already has a request.
   */
  lemma BlockedWhen(s: State)
    requires Inv(s) && !s.fault && s.sender != NONE
    ensures Blocked(s) <==> |s.queue| == QUEUE_LENGTH && forall w :: 0 <= w < THREADS ==> s.held[w] != NONE
  {
    if Blocked(s) {
      assert !Enabled(s, DoSend);
      forall w | 0 <= w < THREADS ensures s.held[w] != NONE {
        assert !Enabled(s, DoTake(w));
      }
    }
  }

  lemma {:induction false} LeadsOn(s: State, run: seq<Step>, s1: State, more: seq<Step>, s2: State)
    requires Leads(s, run, s1) && Leads(s1, more, s2)
    ensures Leads(s, run + more, s2)
    decreases |run|
  {
    if run == [] {
      assert run + more == more;
    } else {
      assert (run + more)[1..] == run[1..] + more;
      LeadsOn(Do(s, run[0]), run[1..], s1, more, s2);
    }
  }

  lemma OneStep(s: State, a: Step)
    requires Enabled(s, a)
    ensures Leads(s, [a], Do(s, a))
  {
    assert Leads(Do(s, a), [], Do(s, a));
  }

  /** Requests for the program in slot 0 can be queued as long as there is room. */
  lemma {:induction false} Pump(s: State, j: nat) returns (run: seq<Step>, s': State)
    requires CanRequest(s, 0) && s.slots[0] != NONE && |s.queue| + j <= QUEUE_LENGTH && NONE !in s.queue
    ensures NONE !in s'.queue
    ensures Leads(s, run, s') && CanRequest(s', 0) && s'.slots == s.slots && |s'.queue| == |s.queue| + j
    ensures s'.held == s.held && s'.waited == s.waited
    decreases j
  {
    if j == 0 {
      run, s' := [], s;
    } else {
      var s1 := MakeRequest(s, 0);
      var s2 := Send(s1);
      OneStep(s, DoRequest(0));
      OneStep(s1, DoSend);
      LeadsOn(s, [DoRequest(0)], s1, [DoSend], s2);
      var more;
      more, s' := Pump(s2, j - 1);
      run := [DoRequest(0)] + [DoSend] + more;
      LeadsOn(s, [DoRequest(0)] + [DoSend], s2, more, s');
    }
  }

  /** Workers from `w` on take a request each. */
  lemma {:induction false} TakeAll(s: State, w: nat) returns (run: seq<Step>, s': State)
    requires CanRequest(s, 0) && w <= THREADS && |s.held| == |s.waited| == THREADS && |s.queue| >= THREADS - w
    requires (forall i :: 0 <= i < w ==> s.held[i] != NONE) && (forall i :: w <= i < THREADS ==> s.held[i] == NONE)
    requires NONE !in s.queue
    ensures NONE !in s'.queue
    ensures Leads(s, run, s') && CanRequest(s', 0) && s'.slots == s.slots && |s'.queue| == |s.queue| - (THREADS - w)
    ensures |s'.held| == |s'.waited| == THREADS && forall i :: 0 <= i < THREADS ==> s'.held[i] != NONE
    decreases THREADS - w
  {
    if w == THREADS {
      run, s' := [], s;
    } else {
      var s1 := Take(s, w);
      OneStep(s, DoTake(w));
      var more;
      more, s' := TakeAll(s1, w + 1);
      run := [DoTake(w)] + more;
      LeadsOn(s, [DoTake(w)], s1, more, s');
    }
  }

  /** One program is loaded, and every worker has taken a request for it. */
  lemma AllTaken() returns (run: seq<Step>, s: State)
    ensures Leads(Start(1), run, s) && CanRequest(s, 0) && s.slots[0] != NONE && s.queue == []
    ensures |s.held| == THREADS && forall i :: 0 <= i < THREADS ==> s.held[i] != NONE
  {
    var s0 := Start(1);
    var s1 := Load(s0, 0, 7);
    var s2 := Send(s1);
    OneStep(s0, DoLoad(0, 7));
    OneStep(s1, DoSend);
    LeadsOn(s0, [DoLoad(0, 7)], s1, [DoSend], s2);
    assert s2.queue == [1];
    var r3, s3 := Pump(s2, THREADS - 1);
    LeadsOn(s0, [DoLoad(0, 7)] + [DoSend], s2, r3, s3);
    var r4;
    r4, s := TakeAll(s3, 0);
    run := [DoLoad(0, 7)] + [DoSend] + r3 + r4;
    LeadsOn(s0, [DoLoad(0, 7)] + [DoSend] + r3, s3, r4, s);
  }

  /** The pool can get stuck: thirty requests for one program before any worker has got the lock. */
  lemma BlockedHappens()
    ensures exists run, s :: Leads(Start(1), run, s) && !s.fault && s.sender != NONE && Blocked(s)
  {
    var r4, s4 := AllTaken();
    var r5, s5 := Pump(s4, QUEUE_LENGTH);
    LeadsOn(Start(1), r4, s4, r5, s5);
    var s6 := MakeRequest(s5, 0);
    OneStep(s5, DoRequest(0));
    LeadsOn(Start(1), r4 + r5, s5, [DoRequest(0)], s6);
    StartHolds(1);
    RunKeeps(Start(1), r4 + r5 + [DoRequest(0)], s6);
    BlockedWhen(s6);
  }
}
