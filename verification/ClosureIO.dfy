/**
  Saving and loading compiled functions through a stream's write and read callbacks
  (utility/sqobject.cpp), proved against the format in ClosureStream.
 */
module ClosureIO {
  import opened ClosureStream
  import opened Common

  /** The bytes a stream has still to deliver. */
  class Reader {
    var rest: seq<byte>

    method SafeRead(size: nat) returns (ok: bool, b: seq<byte>)
      modifies this
      ensures ok <==> size <= |old(rest)|
      ensures ok ==> b == old(rest)[..size] && rest == old(rest)[size..]
    {
      if |rest| < size {
        ok, b, rest := false, [], [];
      } else {
        ok, b, rest := true, rest[..size], rest[size..];
      }
    }
  }

  /** The outcome of a method is what the format says of the bytes it started with. */
  predicate Took<T(==)>(g: Got<T>, ok: bool, x: T, rest: seq<byte>) {
    ok == g.Got? && (ok ==> g == Got(x, rest))
  }

  function Prepend<T>(xs: seq<T>, g: Got<seq<T>>): (r: Got<seq<T>>) {
    if g.Bad? then Bad else Got(xs + g.value, g.rest)
  }

  lemma Start<T>(g: Got<seq<T>>)
    ensures Prepend([], g) == g
  {
    if g.Got? { assert [] + g.value == g.value; }
  }

  lemma Finish<T>(xs: seq<T>, s: seq<byte>)
    ensures Prepend(xs, Got([], s)) == Got(xs, s)
  {
    assert xs + [] == xs;
  }

  method ReadWord(r: Reader) returns (ok: bool, n: word)
    modifies r
    ensures Took(GetWord(old(r.rest)), ok, n, r.rest)
  {
    var b;
    n := 0;
    ok, b := r.SafeRead(4);
    if ok {
      var b0: int, b1: int, b2: int, b3: int := b[0], b[1], b[2], b[3];
      n := b0 + b1 * 0x100 + b2 * 0x1_0000 + b3 * 0x100_0000;
    }
  }

  method CheckTag(r: Reader, tag: word) returns (ok: bool)
    modifies r
    ensures Took(GetTag(tag, old(r.rest)), ok, tag, r.rest)
  {
    var t;
    ok, t := ReadWord(r);
    ok := ok && t == tag;
  }

  method ReadCount(r: Reader) returns (ok: bool, n: count)
    modifies r
    ensures Took(GetCount(old(r.rest)), ok, n, r.rest)
  {
    var w;
    n := 0;
    ok, w := ReadWord(r);
    ok := ok && w < 0x8000_0000;
    if ok { n := w; }
  }

  method ReadObject(r: Reader) returns (ok: bool, o: Obj)
    modifies r
    ensures Took(GetObj(old(r.rest)), ok, o, r.rest)
  {
    var tag, n, b;
    o := Null;
    ok, tag := ReadWord(r);
    if !ok { return; }
    if tag == OT_NULL {
    } else if tag == OT_STRING {
      ok, n := ReadCount(r);
      if !ok { return; }
      ok, b := r.SafeRead(n);
      if ok { o := Str(b); }
    } else if tag == OT_INTEGER {
      ok, n := ReadWord(r);
      o := Integer(n);
    } else if tag == OT_BOOL {
      ok, n := ReadWord(r);
      o := Bool(n);
    } else if tag == OT_FLOAT {
      ok, n := ReadWord(r);
      o := Float(n);
    } else {
      ok := false;
    }
  }

  method ReadOuter(r: Reader) returns (ok: bool, v: OuterVar)
    modifies r
    ensures Took(GetOuter(old(r.rest)), ok, v, r.rest)
  {
    var kind, src, name := 0, Null, Null;
    v := OuterVar(kind, src, name);
    ok, kind := ReadWord(r);
    if !ok { return; }
    ok, src := ReadObject(r);
    if !ok { return; }
    ok, name := ReadObject(r);
    v := OuterVar(kind, src, name);
  }

  method ReadLocal(r: Reader) returns (ok: bool, v: LocalVar)
    modifies r
    ensures Took(GetLocal(old(r.rest)), ok, v, r.rest)
  {
    var name, pos, startOp, endOp := Null, 0, 0, 0;
    v := LocalVar(name, pos, startOp, endOp);
    ok, name := ReadObject(r);
    if !ok { return; }
    ok, pos := ReadWord(r);
    if !ok { return; }
    ok, startOp := ReadWord(r);
    if !ok { return; }
    ok, endOp := ReadWord(r);
    v := LocalVar(name, pos, startOp, endOp);
  }

  lemma OneMore<T>(get: seq<byte> -> Got<T>, m: nat, xs: seq<T>, s: seq<byte>)
    requires Shrinks(get) && m > 0
    ensures match get(s)
            case Bad => GetMany(get, m, s) == Bad
            case Got(x, t) => Prepend(xs, GetMany(get, m, s)) == Prepend(xs + [x], GetMany(get, m - 1, t))
  {
    match get(s) {
      case Bad =>
      case Got(x, t) =>
        var g := GetMany(get, m - 1, t);
        if g.Got? { assert xs + ([x] + g.value) == xs + [x] + g.value; }
    }
  }

  method ReadObjects(r: Reader, n: nat) returns (ok: bool, xs: seq<Obj>)
    modifies r
    ensures Took(GetMany(GetObj, n, old(r.rest)), ok, xs, r.rest)
  {
    ghost var g := GetMany(GetObj, n, r.rest);
    Start(g);
    var left: nat := n;
    ok, xs := true, [];
    while left > 0 && ok
      invariant g == if ok then Prepend(xs, GetMany(GetObj, left, r.rest)) else Bad
    {
      OneMore(GetObj, left, xs, r.rest);
      var x;
      ok, x := ReadObject(r);
      xs, left := xs + [x], left - 1;
    }
    if ok { Finish(xs, r.rest); }
  }

  method ReadOuters(r: Reader, n: nat) returns (ok: bool, xs: seq<OuterVar>)
    modifies r
    ensures Took(GetMany(GetOuter, n, old(r.rest)), ok, xs, r.rest)
  {
    ghost var g := GetMany(GetOuter, n, r.rest);
    Start(g);
    var left: nat := n;
    ok, xs := true, [];
    while left > 0 && ok
      invariant g == if ok then Prepend(xs, GetMany(GetOuter, left, r.rest)) else Bad
    {
      OneMore(GetOuter, left, xs, r.rest);
      var x;
      ok, x := ReadOuter(r);
      xs, left := xs + [x], left - 1;
    }
    if ok { Finish(xs, r.rest); }
  }

  method ReadLocals(r: Reader, n: nat) returns (ok: bool, xs: seq<LocalVar>)
    modifies r
    ensures Took(GetMany(GetLocal, n, old(r.rest)), ok, xs, r.rest)
  {
    ghost var g := GetMany(GetLocal, n, r.rest);
    Start(g);
    var left: nat := n;
    ok, xs := true, [];
    while left > 0 && ok
      invariant g == if ok then Prepend(xs, GetMany(GetLocal, left, r.rest)) else Bad
    {
      OneMore(GetLocal, left, xs, r.rest);
      var x;
      ok, x := ReadLocal(r);
      xs, left := xs + [x], left - 1;
    }
    if ok { Finish(xs, r.rest); }
  }

  method ReadObjectList(r: Reader, n: nat) returns (ok: bool, xs: seq<Obj>)
    modifies r
    ensures Took(GetList(GetObj, n, old(r.rest)), ok, xs, r.rest)
  {
    xs := [];
    ok := CheckTag(r, PART);
    if !ok { return; }
    ok, xs := ReadObjects(r, n);
  }

  method ReadOuterList(r: Reader, n: nat) returns (ok: bool, xs: seq<OuterVar>)
    modifies r
    ensures Took(GetList(GetOuter, n, old(r.rest)), ok, xs, r.rest)
  {
    xs := [];
    ok := CheckTag(r, PART);
    if !ok { return; }
    ok, xs := ReadOuters(r, n);
  }

  method ReadLocalList(r: Reader, n: nat) returns (ok: bool, xs: seq<LocalVar>)
    modifies r
    ensures Took(GetList(GetLocal, n, old(r.rest)), ok, xs, r.rest)
  {
    xs := [];
    ok := CheckTag(r, PART);
    if !ok { return; }
    ok, xs := ReadLocals(r, n);
  }

  method ReadLists(r: Reader, c: Counts) returns (ok: bool, l: Lists)
    modifies r
    ensures Took(GetLists(c, old(r.rest)), ok, l, r.rest)
  {
    var literals, params, outers, locals;
    l := Lists([], [], [], []);
    ok, literals := ReadObjectList(r, Rounds(c.literals));
    if !ok { return; }
    ok, params := ReadObjectList(r, Rounds(c.params));
    if !ok { return; }
    ok, outers := ReadOuterList(r, Rounds(c.outers));
    if !ok { return; }
    ok, locals := ReadLocalList(r, Rounds(c.locals));
    if ok { l := Lists(literals, params, outers, locals); }
  }

  method ReadCells(r: Reader, size: nat) returns (ok: bool, b: vec<byte>)
    modifies r
    ensures Took(GetCells(size, old(r.rest)), ok, b, r.rest)
  {
    var block;
    b := [];
    ok := CheckTag(r, PART);
    if !ok { return; }
    if size >= 0x8000_0000 { ok := false; return; }
    ok, block := r.SafeRead(size);
    if ok { b := block; }
  }

  method ReadBlocks(r: Reader, c: Counts) returns (ok: bool, b: Blocks)
    modifies r
    ensures Took(GetBlocks(c, old(r.rest)), ok, b, r.rest)
  {
    var lines, defaults, instructions;
    b := Blocks([], [], []);
    ok, lines := ReadCells(r, Size(8, c.lines));
    if !ok { return; }
    ok, defaults := ReadCells(r, Size(4, c.defaults));
    if !ok { return; }
    ok, instructions := ReadCells(r, Size(8, c.instructions));
    if !ok { return; }
    ok := CheckTag(r, PART);
    b := Blocks(lines, defaults, instructions);
  }

  method ReadFoot(r: Reader) returns (ok: bool, f: Foot)
    modifies r
    ensures Took(GetFoot(old(r.rest)), ok, f, r.rest)
  {
    var stackSize, b, varParams;
    f := Foot(0, 0, 0);
    ok, stackSize := ReadWord(r);
    if !ok { return; }
    ok, b := r.SafeRead(1);
    if !ok { return; }
    ok, varParams := ReadWord(r);
    f := Foot(stackSize, b[0], varParams);
  }

  method ReadCounts(r: Reader) returns (ok: bool, c: Counts)
    modifies r
    ensures Took(GetCounts(old(r.rest)), ok, c, r.rest)
  {
    ghost var g := GetMany(GetWord, 8, r.rest);
    Start(g);
    var n: seq<word> := [];
    c := Counts(0, 0, 0, 0, 0, 0, 0, 0);
    while |n| < 8
      invariant |n| <= 8
      invariant g == Prepend(n, GetMany(GetWord, 8 - |n|, r.rest))
    {
      OneMore(GetWord, 8 - |n|, n, r.rest);
      var x;
      ok, x := ReadWord(r);
      if !ok { return; }
      n := n + [x];
    }
    Finish(n, r.rest);
    ok := true;
    c := Counts(n[0], n[1], n[2], n[3], n[4], n[5], n[6], n[7]);
  }

  method ReadHead(r: Reader) returns (ok: bool, h: Head)
    modifies r
    ensures Took(GetHead(old(r.rest)), ok, h, r.rest)
  {
    var source, name, counts;
    h := Head(Null, Null, Counts(0, 0, 0, 0, 0, 0, 0, 0));
    ok := CheckTag(r, PART);
    if !ok { return; }
    ok, source := ReadObject(r);
    if !ok { return; }
    ok, name := ReadObject(r);
    if !ok { return; }
    ok := CheckTag(r, PART);
    if !ok { return; }
    ok, counts := ReadCounts(r);
    h := Head(source, name, counts);
  }

  const BLANK := Hollow(NO_COUNTS)

  method LoadProto(r: Reader) returns (ok: bool, p: Proto)
    modifies r
    ensures Took(GetProto(old(r.rest)), ok, p, r.rest)
    decreases |r.rest|, 0
  {
    var h, lists, blocks, functions, foot;
    p := BLANK;
    ok, h := ReadHead(r);
    if !ok { return; }
    ok, lists := ReadLists(r, h.counts);
    if !ok { return; }
    ok, blocks := ReadBlocks(r, h.counts);
    if !ok { return; }
    ProtosGet(Rounds(h.counts.functions), r.rest);
    ok, functions := LoadProtos(r, Rounds(h.counts.functions));
    if !ok { return; }
    ok, foot := ReadFoot(r);
    p := Proto(h.source, h.name, h.counts, lists, blocks, functions, foot);
  }

  method LoadProtos(r: Reader, n: nat) returns (ok: bool, xs: seq<Proto>)
    modifies r
    ensures Took(GetMany(GetProto, n, old(r.rest)), ok, xs, r.rest)
    decreases |r.rest|, 1
  {
    ghost var g := GetMany(GetProto, n, r.rest);
    Start(g);
    var left: nat := n;
    ok, xs := true, [];
    while left > 0 && ok
      invariant ok ==> |r.rest| <= |old(r.rest)|
      invariant g == if ok then Prepend(xs, GetMany(GetProto, left, r.rest)) else Bad
    {
      OneMore(GetProto, left, xs, r.rest);
      var x;
      ok, x := LoadProto(r);
      xs, left := xs + [x], left - 1;
    }
    if ok { Finish(xs, r.rest); }
  }

  method Load(r: Reader) returns (ok: bool, p: Proto)
    modifies r
    ensures Took(GetClosure(old(r.rest)), ok, p, r.rest)
  {
    p := BLANK;
    ok := CheckTag(r, HEAD);
    if !ok { return; }
    ok := CheckTag(r, 1);
    if !ok { return; }
    ok := CheckTag(r, 4);
    if !ok { return; }
    ok := CheckTag(r, 4);
    if !ok { return; }
    ok, p := LoadProto(r);
    if !ok { return; }
    ok := CheckTag(r, TAIL);
  }

  /** A stream that accepts some more bytes and then refuses; `failed` records that it did. */
  class Writer {
    var data: seq<byte>
    var room: nat
    var failed: bool

    method SafeWrite(b: seq<byte>) returns (ok: bool)
      requires !failed
      modifies this
      ensures ok <==> !failed
      ensures ok ==> forall t :: data + t == old(data) + (b + t)
    {
      if |b| <= room {
        ok, data, room := true, data + b, room - |b|;
        assert forall t :: old(data) + b + t == old(data) + (b + t);
      } else {
        ok, failed := false, true;
      }
    }
  }

  method WriteWord(w: Writer, n: word) returns (ok: bool)
    requires !w.failed
    modifies w
    ensures ok <==> !w.failed
    ensures ok ==> forall t :: w.data + t == old(w.data) + PutWord(n, t)
  {
    ok := w.SafeWrite([n % 0x100, n / 0x100 % 0x100, n / 0x1_0000 % 0x100, n / 0x100_0000]);
  }

  method WriteObject(w: Writer, o: Obj) returns (ok: bool)
    requires !w.failed
    modifies w
    ensures ok <==> !w.failed && !o.Other?
    ensures ok ==> forall t :: w.data + t == old(w.data) + PutObj(o, t)
  {
    match o
    case Null => ok := WriteWord(w, OT_NULL);
    case Integer(n) =>
      ok := WriteWord(w, OT_INTEGER);
      if ok { ok := WriteWord(w, n); }
    case Float(n) =>
      ok := WriteWord(w, OT_FLOAT);
      if ok { ok := WriteWord(w, n); }
    case Bool(n) =>
      ok := WriteWord(w, OT_BOOL);
      if ok { ok := WriteWord(w, n); }
    case Str(cs) =>
      ok := WriteWord(w, OT_STRING);
      if ok { ok := WriteWord(w, |cs|); }
      if ok { ok := w.SafeWrite(cs); }
    case Other(tag) =>
      ok := WriteWord(w, tag);
      ok := false;
  }

  method WriteObjects(w: Writer, xs: seq<Obj>) returns (ok: bool)
    requires !w.failed
    modifies w
    ensures ok <==> !w.failed && forall i :: 0 <= i < |xs| ==> Plain(xs[i])
    ensures ok ==> forall t :: w.data + t == old(w.data) + PutMany(PutObj, xs, t)
  {
    var i := 0;
    ok := true;
    while i < |xs|
      invariant 0 <= i <= |xs| && ok && !w.failed
      invariant forall j :: 0 <= j < i ==> Plain(xs[j])
      invariant forall t :: w.data + PutMany(PutObj, xs[i..], t) == old(w.data) + PutMany(PutObj, xs, t)
    {
      ok := WriteObject(w, xs[i]);
      if !ok { return; }
      assert xs[i..][1..] == xs[i + 1..];
      i := i + 1;
    }
  }

  method WriteOuter(w: Writer, v: OuterVar) returns (ok: bool)
    requires !w.failed
    modifies w
    ensures ok <==> !w.failed && SavableOuter(v)
    ensures ok ==> forall t :: w.data + t == old(w.data) + PutOuter(v, t)
  {
    ok := WriteWord(w, v.kind);
    if !ok { return; }
    ok := WriteObject(w, v.src);
    if !ok { return; }
    ok := WriteObject(w, v.name);
  }

  method WriteLocal(w: Writer, v: LocalVar) returns (ok: bool)
    requires !w.failed
    modifies w
    ensures ok <==> !w.failed && Named(v)
    ensures ok ==> forall t :: w.data + t == old(w.data) + PutLocal(v, t)
  {
    ok := WriteObject(w, v.name);
    if !ok { return; }
    ok := WriteWord(w, v.pos);
    if !ok { return; }
    ok := WriteWord(w, v.startOp);
    if !ok { return; }
    ok := WriteWord(w, v.endOp);
  }

  method WriteOuters(w: Writer, xs: seq<OuterVar>) returns (ok: bool)
    requires !w.failed
    modifies w
    ensures ok <==> !w.failed && forall i :: 0 <= i < |xs| ==> SavableOuter(xs[i])
    ensures ok ==> forall t :: w.data + t == old(w.data) + PutMany(PutOuter, xs, t)
  {
    var i := 0;
    ok := true;
    while i < |xs|
      invariant 0 <= i <= |xs| && ok && !w.failed
      invariant forall j :: 0 <= j < i ==> SavableOuter(xs[j])
      invariant forall t :: w.data + PutMany(PutOuter, xs[i..], t) == old(w.data) + PutMany(PutOuter, xs, t)
    {
      ok := WriteOuter(w, xs[i]);
      if !ok { return; }
      assert xs[i..][1..] == xs[i + 1..];
      i := i + 1;
    }
  }

  method WriteLocals(w: Writer, xs: seq<LocalVar>) returns (ok: bool)
    requires !w.failed
    modifies w
    ensures ok <==> !w.failed && forall i :: 0 <= i < |xs| ==> Named(xs[i])
    ensures ok ==> forall t :: w.data + t == old(w.data) + PutMany(PutLocal, xs, t)
  {
    var i := 0;
    ok := true;
    while i < |xs|
      invariant 0 <= i <= |xs| && ok && !w.failed
      invariant forall j :: 0 <= j < i ==> Named(xs[j])
      invariant forall t :: w.data + PutMany(PutLocal, xs[i..], t) == old(w.data) + PutMany(PutLocal, xs, t)
    {
      ok := WriteLocal(w, xs[i]);
      if !ok { return; }
      assert xs[i..][1..] == xs[i + 1..];
      i := i + 1;
    }
  }

  method WriteLists(w: Writer, l: Lists) returns (ok: bool)
    requires !w.failed
    modifies w
    ensures ok <==> !w.failed && SavableLists(l)
    ensures ok ==> forall t :: w.data + t == old(w.data) + PutLists(l, t)
  {
    ok := WriteWord(w, PART);
    if !ok { return; }
    ok := WriteObjects(w, l.literals);
    if !ok { return; }
    ok := WriteWord(w, PART);
    if !ok { return; }
    ok := WriteObjects(w, l.params);
    if !ok { return; }
    ok := WriteWord(w, PART);
    if !ok { return; }
    ok := WriteOuters(w, l.outers);
    if !ok { return; }
    ok := WriteWord(w, PART);
    if !ok { return; }
    ok := WriteLocals(w, l.locals);
  }

  method WriteCells(w: Writer, b: seq<byte>) returns (ok: bool)
    requires !w.failed
    modifies w
    ensures ok <==> !w.failed
    ensures ok ==> forall t :: w.data + t == old(w.data) + PutWord(PART, b + t)
  {
    ok := WriteWord(w, PART);
    if !ok { return; }
    ok := w.SafeWrite(b);
  }

  method WriteBlocks(w: Writer, b: Blocks) returns (ok: bool)
    requires !w.failed
    modifies w
    ensures ok <==> !w.failed
    ensures ok ==> forall t :: w.data + t == old(w.data) + PutBlocks(b, t)
  {
    ok := WriteCells(w, b.lines);
    if !ok { return; }
    ok := WriteCells(w, b.defaults);
    if !ok { return; }
    ok := WriteCells(w, b.instructions);
    if !ok { return; }
    ok := WriteWord(w, PART);
  }

  method WriteFoot(w: Writer, f: Foot) returns (ok: bool)
    requires !w.failed
    modifies w
    ensures ok <==> !w.failed
    ensures ok ==> forall t :: w.data + t == old(w.data) + PutFoot(f, t)
  {
    ok := WriteWord(w, f.stackSize);
    if !ok { return; }
    ok := w.SafeWrite([f.generator]);
    if !ok { return; }
    ok := WriteWord(w, f.varParams);
  }

  method WriteCounts(w: Writer, c: Counts) returns (ok: bool)
    requires !w.failed
    modifies w
    ensures ok <==> !w.failed
    ensures ok ==> forall t :: w.data + t == old(w.data) + PutCounts(c, t)
  {
    var xs, i := InOrder(c), 0;
    ok := true;
    while i < |xs|
      invariant 0 <= i <= |xs| && ok && !w.failed
      invariant forall t :: w.data + PutMany(PutWord, xs[i..], t) == old(w.data) + PutMany(PutWord, xs, t)
    {
      ok := WriteWord(w, xs[i]);
      if !ok { return; }
      assert xs[i..][1..] == xs[i + 1..];
      i := i + 1;
    }
  }

  method WriteHead(w: Writer, h: Head) returns (ok: bool)
    requires !w.failed
    modifies w
    ensures ok <==> !w.failed && !h.source.Other? && !h.name.Other?
    ensures ok ==> forall t :: w.data + t == old(w.data) + PutHead(h, t)
  {
    ok := WriteWord(w, PART);
    if !ok { return; }
    ok := WriteObject(w, h.source);
    if !ok { return; }
    ok := WriteObject(w, h.name);
    if !ok { return; }
    ok := WriteWord(w, PART);
    if !ok { return; }
    ok := WriteCounts(w, h.counts);
  }

  method SaveProto(w: Writer, p: Proto) returns (ok: bool)
    requires !w.failed && Fitting(p)
    modifies w
    ensures ok <==> !w.failed && Savable(p)
    ensures ok ==> forall t :: w.data + t == old(w.data) + PutProto(p, t)
    decreases p, 0
  {
    ok := WriteHead(w, Head(p.source, p.name, p.counts));
    if !ok { return; }
    ok := WriteLists(w, p.lists);
    if !ok { return; }
    ok := WriteBlocks(w, p.blocks);
    if !ok { return; }
    ok := SaveProtos(w, p.functions);
    if !ok { return; }
    ok := WriteFoot(w, p.foot);
  }

  method SaveProtos(w: Writer, xs: seq<Proto>) returns (ok: bool)
    requires !w.failed && forall i :: 0 <= i < |xs| ==> Fitting(xs[i])
    modifies w
    ensures ok <==> !w.failed && forall i :: 0 <= i < |xs| ==> Savable(xs[i])
    ensures ok ==> forall t :: w.data + t == old(w.data) + PutProtos(xs, t)
    decreases xs, 1
  {
    var i := 0;
    ok := true;
    while i < |xs|
      invariant 0 <= i <= |xs| && ok && !w.failed
      invariant forall j :: 0 <= j < i ==> Savable(xs[j])
      invariant forall t :: w.data + PutProtos(xs[i..], t) == old(w.data) + PutProtos(xs, t)
    {
      ok := SaveNext(w, xs, i);
      if !ok { return; }
      i := i + 1;
    }
    assert xs[i..] == [];
  }

  /** One of several function prototypes: with those behind it the data is the same before and after. */
  method SaveNext(w: Writer, xs: seq<Proto>, i: nat) returns (ok: bool)
    requires !w.failed && i < |xs| && Fitting(xs[i])
    modifies w
    ensures ok <==> !w.failed && Savable(xs[i])
    ensures ok ==> forall t :: w.data + PutProtos(xs[i + 1..], t) == old(w.data) + PutProtos(xs[i..], t)
    decreases xs, 0
  {
    ok := SaveProto(w, xs[i]);
    if ok { assert xs[i..][1..] == xs[i + 1..]; }
  }

  /**
    Saving succeeds unless the stream refuses or a value cannot be saved, and then it has
    written exactly the saved form.
   */
  method Save(w: Writer, p: Proto) returns (ok: bool)
    requires !w.failed && Fitting(p)
    modifies w
    ensures ok <==> !w.failed && Savable(p)
    ensures ok ==> w.data == old(w.data) + PutClosure(p, [])
  {
    ok := WriteWord(w, HEAD);
    if !ok { return; }
    ok := WriteWord(w, 1);
    if !ok { return; }
    ok := WriteWord(w, 4);
    if !ok { return; }
    ok := WriteWord(w, 4);
    if !ok { return; }
    ok := SaveProto(w, p);
    if !ok { return; }
    ok := WriteWord(w, TAIL);
    assert w.data + [] == w.data;
  }
}
