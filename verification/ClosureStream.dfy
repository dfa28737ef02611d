/**
  The byte format in which compiled functions are saved and loaded
  (utility/sqobject.cpp), on the 32-bit build: an SQInteger and an SQFloat take
  four bytes, least significant byte first, an SQChar and a bool one.

  Every `Put` function takes the bytes that follow, so the format of a whole is the
  nesting of the formats of its parts.
 */
module ClosureStream {
  import opened Common

  type word = n: int | 0 <= n < 0x1_0000_0000
  type count = n: int | 0 <= n < 0x8000_0000

  type vec<T> = s: seq<T> | |s| < 0x8000_0000

  const OT_NULL: word := 0x01000001
  const OT_INTEGER: word := 0x05000002
  const OT_FLOAT: word := 0x05000004
  const OT_BOOL: word := 0x01000008
  const OT_STRING: word := 0x08000010
  const HEAD: word := 0x53514952
  const PART: word := 0x50415254
  const TAIL: word := 0x5441494C

  /** `Other` is any value of a type that cannot be saved, such as a table. */
  datatype Obj =
    | Null
    | Integer(n: word)
    | Float(bits: word)
    | Bool(truth: word)
    | Str(chars: vec<byte>)
    | Other(tag: word)

  datatype OuterVar = OuterVar(kind: word, src: Obj, name: Obj)
  datatype LocalVar = LocalVar(name: Obj, pos: word, startOp: word, endOp: word)

  /** The counts a function keeps; one of 0x8000_0000 or more is a negative SQInteger. */
  datatype Counts = Counts(literals: word, params: word, outers: word, locals: word,
                           lines: word, defaults: word, instructions: word, functions: word)
  datatype Lists = Lists(literals: vec<Obj>, params: vec<Obj>,
                         outers: vec<OuterVar>, locals: vec<LocalVar>)
  /** Raw memory of eight-byte lines, four-byte defaults and eight-byte instructions. */
  datatype Blocks = Blocks(lines: vec<byte>, defaults: vec<byte>, instructions: vec<byte>)
  datatype Foot = Foot(stackSize: word, generator: byte, varParams: word)

  datatype Proto = Proto(source: Obj, name: Obj, counts: Counts, lists: Lists, blocks: Blocks,
                         functions: vec<Proto>, foot: Foot)

  /** How often a loop up to `n` goes round: never when `n` is negative. */
  function Rounds(n: word): (r: nat) {
    if n < 0x8000_0000 then n else 0
  }

  /** The size of `n` cells, computed in 32 bits. */
  function Size(cell: nat, n: word): (r: nat) {
    cell * n % 0x1_0000_0000
  }

  /** What a function holds is as long as the loops over it, and the blocks are as long as their sizes. */
  predicate FitsLists(c: Counts, l: Lists) {
    && |l.literals| == Rounds(c.literals)
    && |l.params| == Rounds(c.params)
    && |l.outers| == Rounds(c.outers)
    && |l.locals| == Rounds(c.locals)
  }

  predicate FitsBlocks(c: Counts, b: Blocks) {
    && |b.lines| == Size(8, c.lines)
    && |b.defaults| == Size(4, c.defaults)
    && |b.instructions| == Size(8, c.instructions)
  }

  predicate FitsCounts(p: Proto) {
    FitsLists(p.counts, p.lists) && FitsBlocks(p.counts, p.blocks) && |p.functions| == Rounds(p.counts.functions)
  }

  predicate Fitting(p: Proto) {
    FitsCounts(p) && forall i :: 0 <= i < |p.functions| ==> Fitting(p.functions[i])
  }

  predicate SavableOuter(v: OuterVar) {
    !v.src.Other? && !v.name.Other?
  }

  predicate SavableLists(l: Lists) {
    && (forall i :: 0 <= i < |l.literals| ==> !l.literals[i].Other?)
    && (forall i :: 0 <= i < |l.params| ==> !l.params[i].Other?)
    && (forall i :: 0 <= i < |l.outers| ==> SavableOuter(l.outers[i]))
    && (forall i :: 0 <= i < |l.locals| ==> !l.locals[i].name.Other?)
  }

  /**
    What Save can write: a function that fits its counts where every value, and every value of
    the functions within it, has one of the five types.
   */
  predicate Savable(p: Proto) {
    && FitsCounts(p)
    && !p.source.Other?
    && !p.name.Other?
    && SavableLists(p.lists)
    && forall i :: 0 <= i < |p.functions| ==> Savable(p.functions[i])
  }

  // ---------- Writing ----------

  function PutWord(n: word, t: seq<byte>): (r: seq<byte>) {
    [n % 0x100, n / 0x100 % 0x100, n / 0x1_0000 % 0x100, n / 0x100_0000] + t
  }

  function PutObj(o: Obj, t: seq<byte>): (r: seq<byte>) {
    match o
    case Null => PutWord(OT_NULL, t)
    case Integer(n) => PutWord(OT_INTEGER, PutWord(n, t))
    case Float(n) => PutWord(OT_FLOAT, PutWord(n, t))
    case Bool(n) => PutWord(OT_BOOL, PutWord(n, t))
    case Str(cs) => PutWord(OT_STRING, PutWord(|cs|, cs + t))
    case Other(tag) => PutWord(tag, t)
  }

  function PutOuter(v: OuterVar, t: seq<byte>): (r: seq<byte>) {
    PutWord(v.kind, PutObj(v.src, PutObj(v.name, t)))
  }

  function PutLocal(v: LocalVar, t: seq<byte>): (r: seq<byte>) {
    PutObj(v.name, PutWord(v.pos, PutWord(v.startOp, PutWord(v.endOp, t))))
  }

  function PutMany<T>(put: (T, seq<byte>) -> seq<byte>, xs: seq<T>, t: seq<byte>): (r: seq<byte>) {
    if xs == [] then t else put(xs[0], PutMany(put, xs[1..], t))
  }

  function InOrder(c: Counts): (r: seq<word>) {
    [c.literals, c.params, c.outers, c.locals, c.lines, c.defaults, c.instructions, c.functions]
  }

  function PutCounts(c: Counts, t: seq<byte>): (r: seq<byte>) {
    PutMany(PutWord, InOrder(c), t)
  }

  function PutLists(l: Lists, t: seq<byte>): (r: seq<byte>) {
    PutWord(PART, PutMany(PutObj, l.literals,
    PutWord(PART, PutMany(PutObj, l.params,
    PutWord(PART, PutMany(PutOuter, l.outers,
    PutWord(PART, PutMany(PutLocal, l.locals, t))))))))
  }

  function PutBlocks(b: Blocks, t: seq<byte>): (r: seq<byte>) {
    PutWord(PART, b.lines + PutWord(PART, b.defaults + PutWord(PART, b.instructions + PutWord(PART, t))))
  }

  function PutFoot(f: Foot, t: seq<byte>): (r: seq<byte>) {
    PutWord(f.stackSize, [f.generator] + PutWord(f.varParams, t))
  }

  function PutProto(p: Proto, t: seq<byte>): (r: seq<byte>)
    decreases p, 0
  {
    PutWord(PART, PutObj(p.source, PutObj(p.name, PutWord(PART, PutCounts(p.counts,
    PutLists(p.lists, PutBlocks(p.blocks, PutProtos(p.functions, PutFoot(p.foot, t)))))))))
  }

  function PutProtos(fs: seq<Proto>, t: seq<byte>): (r: seq<byte>)
    decreases fs, 1
  {
    if fs == [] then t else PutProto(fs[0], PutProtos(fs[1..], t))
  }

  /** A saved closure, with the sizes the loading build must agree on. */
  function PutClosure(p: Proto, t: seq<byte>): (r: seq<byte>) {
    PutWord(HEAD, PutWord(1, PutWord(4, PutWord(4, PutProto(p, PutWord(TAIL, t))))))
  }

  /** The tags and the sizes as bytes, least significant first. */
  lemma TagBytes(t: seq<byte>)
    ensures PutWord(HEAD, t) == [0x52, 0x49, 0x51, 0x53] + t && PutWord(PART, t) == [0x54, 0x52, 0x41, 0x50] + t
    ensures PutWord(TAIL, t) == [0x4C, 0x49, 0x41, 0x54] + t
    ensures PutWord(1, t) == [1, 0, 0, 0] + t && PutWord(4, t) == [4, 0, 0, 0] + t
  {
  }

  /** How a stream begins and ends around a function: a tag, the sizes of a character, an integer and a float, a tag. */
  lemma StreamBegins(p: Proto, t: seq<byte>)
    ensures PutClosure(p, t)
         == PutWord(0x53514952, PutWord(1, PutWord(4, PutWord(4, PutProto(p, PutWord(0x5441494C, t))))))
  {
  }

  /** The values of each type, with their tags. */
  lemma ObjectBytes(n: word, cs: vec<byte>, t: seq<byte>)
    ensures PutObj(Null, t) == [1, 0, 0, 1] + t
    ensures PutObj(Integer(n), t) == [2, 0, 0, 5] + PutWord(n, t)
    ensures PutObj(Float(n), t) == [4, 0, 0, 5] + PutWord(n, t)
    ensures PutObj(Bool(n), t) == [8, 0, 0, 1] + PutWord(n, t)
    ensures PutObj(Str(cs), t) == [16, 0, 0, 8] + PutWord(|cs|, cs + t)
  {
  }

  /** The eight counts come in this order. */
  lemma CountsOrder(c: Counts, t: seq<byte>)
    ensures PutCounts(c, t) == PutWord(c.literals, PutWord(c.params, PutWord(c.outers, PutWord(c.locals,
                               PutWord(c.lines, PutWord(c.defaults,
                                   PutWord(c.instructions, PutWord(c.functions, t))))))))
  {
    PutFour(c.lines, c.defaults, c.instructions, c.functions, [], t);
    PutFour(c.literals, c.params, c.outers, c.locals, [c.lines, c.defaults, c.instructions, c.functions], t);
    assert [c.lines, c.defaults, c.instructions, c.functions] + [] == [c.lines, c.defaults, c.instructions,
        c.functions];
    assert InOrder(c) == [c.literals, c.params, c.outers, c.locals] + [c.lines, c.defaults, c.instructions,
        c.functions];
  }

  lemma PutFour(a: word, b: word, c: word, d: word, xs: seq<word>, t: seq<byte>)
    ensures PutMany(PutWord, [a, b, c, d] + xs, t) == PutWord(a,
        PutWord(b, PutWord(c, PutWord(d, PutMany(PutWord, xs, t)))))
  {
    PutNext(a, [b, c, d] + xs, t);
    PutNext(b, [c, d] + xs, t);
    PutNext(c, [d] + xs, t);
    PutNext(d, xs, t);
    assert [a] + ([b, c, d] + xs) == [a, b, c, d] + xs && [b] + ([c, d] + xs) == [b, c, d] + xs;
    assert [c] + ([d] + xs) == [c, d] + xs;
  }

  lemma PutNext(a: word, xs: seq<word>, t: seq<byte>)
    ensures PutMany(PutWord, [a] + xs, t) == PutWord(a, PutMany(PutWord, xs, t))
  {
    assert ([a] + xs)[1..] == xs;
  }

  // ---------- Reading ----------

  datatype Got<+T> = Bad | Got(value: T, rest: seq<byte>)

  function GetWord(s: seq<byte>): (g: Got<word>)
    ensures g.Got? ==> |g.rest| < |s|
  {
    if |s| < 4 then Bad
    else
      var b0: int, b1: int, b2: int, b3: int := s[0], s[1], s[2], s[3];
      Got(b0 + b1 * 0x100 + b2 * 0x1_0000 + b3 * 0x100_0000, s[4..])
  }

  /** The bytes after a tag, if it is the expected one. */
  function GetTag(tag: word, s: seq<byte>): (g: Got<word>)
    ensures g.Got? ==> g.value == tag && |g.rest| < |s|
  {
    var g := GetWord(s);
    if g.Got? && g.value == tag then g else Bad
  }

  function GetBlock(n: nat, s: seq<byte>): (g: Got<seq<byte>>)
    ensures g.Got? ==> |g.value| == n && |g.rest| <= |s|
  {
    if |s| < n then Bad else Got(s[..n], s[n..])
  }

  /** No stream delivers a negative number of bytes. */
  function GetCount(s: seq<byte>): (g: Got<count>)
    ensures g.Got? ==> |g.rest| < |s|
  {
    var g := GetWord(s);
    if g.Got? && g.value < 0x8000_0000 then Got(g.value, g.rest) else Bad
  }

  function GetObj(s: seq<byte>): (g: Got<Obj>)
    ensures g.Got? ==> |g.rest| < |s|
  {
    match GetWord(s)
    case Bad => Bad
    case Got(tag, t) =>
      if tag == OT_NULL then Got(Null, t)
      else if tag == OT_STRING then
        match GetCount(t)
        case Bad => Bad
        case Got(n, u) =>
          (match GetBlock(n, u)
           case Bad => Bad
           case Got(cs, v) => Got(Str(cs), v))
      else if tag == OT_INTEGER || tag == OT_FLOAT || tag == OT_BOOL then
        match GetWord(t)
        case Bad => Bad
        case Got(n, u) =>
          Got(if tag == OT_INTEGER then Integer(n) else if tag == OT_FLOAT then Float(n) else Bool(n), u)
      else Bad
  }

  function GetOuter(s: seq<byte>): (g: Got<OuterVar>)
    ensures g.Got? ==> |g.rest| < |s|
  {
    match GetWord(s)
    case Bad => Bad
    case Got(kind, t) =>
      match GetObj(t)
      case Bad => Bad
      case Got(src, u) =>
        match GetObj(u)
        case Bad => Bad
        case Got(name, v) => Got(OuterVar(kind, src, name), v)
  }

  function GetLocal(s: seq<byte>): (g: Got<LocalVar>)
    ensures g.Got? ==> |g.rest| < |s|
  {
    match GetObj(s)
    case Bad => Bad
    case Got(name, t) =>
      match GetWord(t)
      case Bad => Bad
      case Got(pos, u) =>
        match GetWord(u)
        case Bad => Bad
        case Got(startOp, v) =>
          match GetWord(v)
          case Bad => Bad
          case Got(endOp, w) => Got(LocalVar(name, pos, startOp, endOp), w)
  }

  ghost predicate Shrinks<T>(get: seq<byte> -> Got<T>) {
    forall s :: get(s).Got? ==> |get(s).rest| <= |s|
  }

  function GetMany<T>(get: seq<byte> -> Got<T>, n: nat, s: seq<byte>): (g: Got<seq<T>>)
    requires Shrinks(get)
    ensures g.Got? ==> |g.value| == n && |g.rest| <= |s|
  {
    if n == 0 then Got([], s)
    else
      match get(s)
      case Bad => Bad
      case Got(x, t) =>
        match GetMany(get, n - 1, t)
        case Bad => Bad
        case Got(xs, u) => Got([x] + xs, u)
  }

  function GetCounts(s: seq<byte>): (g: Got<Counts>)
    ensures g.Got? ==> |g.rest| <= |s|
  {
    match GetMany(GetWord, 8, s)
    case Bad => Bad
    case Got(n, t) => Got(Counts(n[0], n[1], n[2], n[3], n[4], n[5], n[6], n[7]), t)
  }

  /** A tag, and then that many entries. */
  function GetList<T>(get: seq<byte> -> Got<T>, n: nat, s: seq<byte>): (g: Got<seq<T>>)
    requires Shrinks(get)
    ensures g.Got? ==> |g.value| == n && |g.rest| <= |s|
  {
    match GetTag(PART, s)
    case Bad => Bad
    case Got(_, t) => GetMany(get, n, t)
  }

  function GetLists(c: Counts, s: seq<byte>): (g: Got<Lists>)
    ensures g.Got? ==> |g.rest| <= |s|
  {
    match GetList(GetObj, Rounds(c.literals), s)
    case Bad => Bad
    case Got(literals, t) =>
      match GetList(GetObj, Rounds(c.params), t)
      case Bad => Bad
      case Got(params, u) =>
        match GetList(GetOuter, Rounds(c.outers), u)
        case Bad => Bad
        case Got(outers, v) =>
          match GetList(GetLocal, Rounds(c.locals), v)
          case Bad => Bad
          case Got(locals, w) => Got(Lists(literals, params, outers, locals), w)
  }

  /** A tag, and then a block; a size that reads as negative is refused. */
  function GetCells(size: nat, s: seq<byte>): (g: Got<vec<byte>>)
    ensures g.Got? ==> |g.value| == size && |g.rest| <= |s|
  {
    match GetTag(PART, s)
    case Bad => Bad
    case Got(_, t) => if size >= 0x8000_0000 || |t| < size then Bad else Got(t[..size], t[size..])
  }

  function GetBlocks(c: Counts, s: seq<byte>): (g: Got<Blocks>)
    ensures g.Got? ==> |g.rest| <= |s|
  {
    match GetCells(Size(8, c.lines), s)
    case Bad => Bad
    case Got(lines, t) =>
      match GetCells(Size(4, c.defaults), t)
      case Bad => Bad
      case Got(defaults, u) =>
        match GetCells(Size(8, c.instructions), u)
        case Bad => Bad
        case Got(instructions, v) =>
          match GetTag(PART, v)
          case Bad => Bad
          case Got(_, w) => Got(Blocks(lines, defaults, instructions), w)
  }

  function GetFoot(s: seq<byte>): (g: Got<Foot>)
    ensures g.Got? ==> |g.rest| <= |s|
  {
    match GetWord(s)
    case Bad => Bad
    case Got(stackSize, t) =>
      match GetBlock(1, t)
      case Bad => Bad
      case Got(generator, u) =>
        match GetWord(u)
        case Bad => Bad
        case Got(varParams, v) => Got(Foot(stackSize, generator[0], varParams), v)
  }

  datatype Head = Head(source: Obj, name: Obj, counts: Counts)

  function GetHead(s: seq<byte>): (g: Got<Head>)
    ensures g.Got? ==> |g.rest| < |s|
  {
    match GetTag(PART, s)
    case Bad => Bad
    case Got(_, t) =>
      match GetObj(t)
      case Bad => Bad
      case Got(source, u) =>
        match GetObj(u)
        case Bad => Bad
        case Got(name, v) =>
          match GetTag(PART, v)
          case Bad => Bad
          case Got(_, w) =>
            match GetCounts(w)
            case Bad => Bad
            case Got(counts, x) => Got(Head(source, name, counts), x)
  }

  function GetProto(s: seq<byte>): (g: Got<Proto>)
    ensures g.Got? ==> |g.rest| < |s|
    decreases |s|, 0
  {
    match GetHead(s)
    case Bad => Bad
    case Got(h, t) => GetBody(h, t)
  }

  function GetBody(h: Head, s: seq<byte>): (g: Got<Proto>)
    ensures g.Got? ==> |g.rest| <= |s|
    decreases |s|, 2
  {
    match GetLists(h.counts, s)
    case Bad => Bad
    case Got(lists, u) =>
      match GetBlocks(h.counts, u)
      case Bad => Bad
      case Got(blocks, v) =>
        match GetProtos(Rounds(h.counts.functions), v)
        case Bad => Bad
        case Got(functions, w) =>
          match GetFoot(w)
          case Bad => Bad
          case Got(foot, x) => Got(Proto(h.source, h.name, h.counts, lists, blocks, functions, foot), x)
  }

  function GetProtos(n: nat, s: seq<byte>): (g: Got<seq<Proto>>)
    ensures g.Got? ==> |g.value| == n && |g.rest| <= |s|
    decreases |s|, 1
  {
    if n == 0 then Got([], s)
    else
      match GetProto(s)
      case Bad => Bad
      case Got(p, t) =>
        match GetProtos(n - 1, t)
        case Bad => Bad
        case Got(ps, u) => Got([p] + ps, u)
  }

  function GetClosure(s: seq<byte>): (r: Got<Proto>) {
    match GetTag(HEAD, s)
    case Bad => Bad
    case Got(_, t) =>
      match GetTag(1, t)
      case Bad => Bad
      case Got(_, u) =>
        match GetTag(4, u)
        case Bad => Bad
        case Got(_, v) =>
          match GetTag(4, v)
          case Bad => Bad
          case Got(_, w) =>
            match GetProto(w)
            case Bad => Bad
            case Got(p, x) =>
              match GetTag(TAIL, x)
              case Bad => Bad
              case Got(_, y) => Got(p, y)
  }

  // ---------- The two agree ----------

  /** Reading and writing are inverse on the values that can be saved. */
  ghost predicate Inverse<T(!new)>(put: (T, seq<byte>) -> seq<byte>, get: seq<byte> -> Got<T>, ok: T -> bool) {
    && (forall x, t :: ok(x) ==> get(put(x, t)) == Got(x, t))
    && (forall s :: get(s).Got? ==> ok(get(s).value) && s == put(get(s).value, get(s).rest))
  }

  /** What is read from the streams up to some length is what writing it gives. */
  ghost predicate Explained<T(!new)>(put: (T, seq<byte>) -> seq<byte>, get: seq<byte> -> Got<T>, ok: T -> bool,
      len: nat) {
    forall s :: |s| <= len && get(s).Got? ==> ok(get(s).value) && s == put(get(s).value, get(s).rest)
  }

  lemma Digits(n: word)
    ensures n % 0x100 + n / 0x100 % 0x100 * 0x100 + n / 0x1_0000 % 0x100 * 0x1_0000 + n / 0x100_0000 * 0x100_0000 == n
  {
    var a, b := n / 0x100, n / 0x1_0000;
    assert a / 0x100 == b && b / 0x100 == n / 0x100_0000;
  }

  lemma WordBack(n: word, t: seq<byte>)
    ensures GetWord(PutWord(n, t)) == Got(n, t)
  {
    Digits(n);
    assert PutWord(n, t)[4..] == t;
  }

  lemma WordFrom(s: seq<byte>)
    ensures GetWord(s).Got? ==> s == PutWord(GetWord(s).value, GetWord(s).rest)
  {
    if GetWord(s).Got? {
      var b0: int, b1: int, b2: int, b3: int := s[0], s[1], s[2], s[3];
      var n := GetWord(s).value;
      Bytes(n, b0, b1, b2, b3);
    }
  }

  lemma Bytes(n: int, b0: int, b1: int, b2: int, b3: int)
    requires 0 <= b0 < 0x100 && 0 <= b1 < 0x100 && 0 <= b2 < 0x100 && 0 <= b3 < 0x100
    requires n == b0 + b1 * 0x100 + b2 * 0x1_0000 + b3 * 0x100_0000
    ensures n % 0x100 == b0 && n / 0x100 % 0x100 == b1 && n / 0x1_0000 % 0x100 == b2 && n / 0x100_0000 == b3
  {
    assert n / 0x100 == b1 + 0x100 * (b2 + 0x100 * b3);
    assert n / 0x1_0000 == b2 + 0x100 * b3;
  }

  lemma TagExact(tag: word, s: seq<byte>)
    ensures GetTag(tag, PutWord(tag, s)) == Got(tag, s)
    ensures GetTag(tag, s).Got? ==> s == PutWord(tag, GetTag(tag, s).rest)
  {
    WordBack(tag, s);
    WordFrom(s);
  }

  lemma BlockExact(b: seq<byte>, s: seq<byte>)
    ensures GetBlock(|b|, b + s) == Got(b, s)
    ensures GetBlock(|b|, s).Got? ==> s == GetBlock(|b|, s).value + GetBlock(|b|, s).rest
  {
    assert (b + s)[..|b|] == b && (b + s)[|b|..] == s;
  }

  lemma ObjBack(o: Obj, t: seq<byte>)
    requires !o.Other?
    ensures GetObj(PutObj(o, t)) == Got(o, t)
  {
    match o
    case Null => WordBack(OT_NULL, t);
    case Integer(n) => WordBack(OT_INTEGER, PutWord(n, t)); WordBack(n, t);
    case Float(n) => WordBack(OT_FLOAT, PutWord(n, t)); WordBack(n, t);
    case Bool(n) => WordBack(OT_BOOL, PutWord(n, t)); WordBack(n, t);
    case Str(cs) =>
      WordBack(OT_STRING, PutWord(|cs|, cs + t));
      WordBack(|cs|, cs + t);
      BlockExact(cs, t);
  }

  lemma ObjFrom(s: seq<byte>)
    ensures GetObj(s).Got? ==> !GetObj(s).value.Other? && s == PutObj(GetObj(s).value, GetObj(s).rest)
  {
    WordFrom(s);
    if GetWord(s).Got? {
      var t := GetWord(s).rest;
      WordFrom(t);
      if GetObj(s).Got? && GetObj(s).value.Str? {
        var cs := GetObj(s).value.chars;
        BlockExact(cs, GetWord(t).rest);
      }
    }
  }

  predicate Plain(o: Obj) {
    !o.Other?
  }

  predicate Named(v: LocalVar) {
    !v.name.Other?
  }

  predicate Any(n: word) {
    true
  }

  lemma ObjExact()
    ensures Inverse(PutObj, GetObj, Plain)
  {
    forall o, t | Plain(o) ensures GetObj(PutObj(o, t)) == Got(o, t) { ObjBack(o, t); }
    forall s ensures GetObj(s).Got? ==> Plain(GetObj(s).value) && s == PutObj(GetObj(s).value, GetObj(s).rest) {
      ObjFrom(s);
    }
  }

  lemma OuterExact()
    ensures Inverse(PutOuter, GetOuter, SavableOuter)
  {
    forall v, t | SavableOuter(v) ensures GetOuter(PutOuter(v, t)) == Got(v, t) {
      var u := PutObj(v.name, t);
      WordBack(v.kind, PutObj(v.src, u));
      ObjBack(v.src, u);
      ObjBack(v.name, t);
    }
    forall s ensures GetOuter(s).Got? ==>
      SavableOuter(GetOuter(s).value) && s == PutOuter(GetOuter(s).value, GetOuter(s).rest) {
      if GetOuter(s).Got? {
        var t := GetWord(s).rest;
        WordFrom(s);
        ObjFrom(t);
        ObjFrom(GetObj(t).rest);
      }
    }
  }

  lemma LocalExact()
    ensures Inverse(PutLocal, GetLocal, Named)
  {
    forall v, t | Named(v) ensures GetLocal(PutLocal(v, t)) == Got(v, t) {
      var w := PutWord(v.endOp, t);
      var u := PutWord(v.startOp, w);
      ObjBack(v.name, PutWord(v.pos, u));
      WordBack(v.pos, u);
      WordBack(v.startOp, w);
      WordBack(v.endOp, t);
    }
    forall s ensures GetLocal(s).Got? ==>
      Named(GetLocal(s).value) && s == PutLocal(GetLocal(s).value, GetLocal(s).rest) {
      if GetLocal(s).Got? {
        var t := GetObj(s).rest;
        var u := GetWord(t).rest;
        ObjFrom(s);
        WordFrom(t);
        WordFrom(u);
        WordFrom(GetWord(u).rest);
      }
    }
  }

  lemma {:induction false} ManyBack<T(!new)>(put: (T, seq<byte>) -> seq<byte>, get: seq<byte> -> Got<T>,
      xs: seq<T>, t: seq<byte>)
    requires Shrinks(get)
    requires forall i, u :: 0 <= i < |xs| ==> get(put(xs[i], u)) == Got(xs[i], u)
    ensures GetMany(get, |xs|, PutMany(put, xs, t)) == Got(xs, t)
  {
    if xs == [] {
    } else {
      ManyBack(put, get, xs[1..], t);
      HeadTail(xs);
      assert get(put(xs[0], PutMany(put, xs[1..], t))) == Got(xs[0], PutMany(put, xs[1..], t));
    }
  }

  lemma {:induction false} ManyFrom<T(!new)>(put: (T, seq<byte>) -> seq<byte>, get: seq<byte> -> Got<T>, ok: T -> bool,
      n: nat, s: seq<byte>)
    requires Explained(put, get, ok, |s|) && Shrinks(get)
    ensures var g := GetMany(get, n, s);
            g.Got? ==> (forall i :: 0 <= i < |g.value| ==> ok(g.value[i])) && s == PutMany(put, g.value, g.rest)
  {
    var g := GetMany(get, n, s);
    if n > 0 && g.Got? {
      var t := get(s).rest;
      ManyFrom(put, get, ok, n - 1, t);
      assert g.value[1..] == GetMany(get, n - 1, t).value;
    }
  }

  lemma WordExact()
    ensures Inverse(PutWord, GetWord, Any)
  {
    forall n: word, t ensures GetWord(PutWord(n, t)) == Got(n, t) { WordBack(n, t); }
    forall s ensures GetWord(s).Got? ==> s == PutWord(GetWord(s).value, GetWord(s).rest) { WordFrom(s); }
  }

  lemma CountsBack(c: Counts, t: seq<byte>)
    ensures GetCounts(PutCounts(c, t)) == Got(c, t)
  {
    WordExact();
    ManyBack(PutWord, GetWord, InOrder(c), t);
  }

  lemma CountsFrom(s: seq<byte>)
    ensures GetCounts(s).Got? ==> s == PutCounts(GetCounts(s).value, GetCounts(s).rest)
  {
    var g := GetMany(GetWord, 8, s);
    if g.Got? {
      assert s == PutMany(PutWord, g.value, g.rest) by {
        WordExact();
        ManyFrom(PutWord, GetWord, Any, 8, s);
      }
      Eight(g.value);
    }
  }

  lemma Eight(n: seq<word>)
    requires |n| == 8
    ensures InOrder(Counts(n[0], n[1], n[2], n[3], n[4], n[5], n[6], n[7])) == n
  {
  }

  lemma ListBack<T(!new)>(put: (T, seq<byte>) -> seq<byte>, get: seq<byte> -> Got<T>, ok: T -> bool,
      xs: seq<T>, t: seq<byte>)
    requires Inverse(put, get, ok) && Shrinks(get)
    requires forall i :: 0 <= i < |xs| ==> ok(xs[i])
    ensures GetList(get, |xs|, PutWord(PART, PutMany(put, xs, t))) == Got(xs, t)
  {
    TagExact(PART, PutMany(put, xs, t));
    ManyBack(put, get, xs, t);
  }

  lemma ListFrom<T(!new)>(put: (T, seq<byte>) -> seq<byte>, get: seq<byte> -> Got<T>, ok: T -> bool,
      n: nat, s: seq<byte>)
    requires Inverse(put, get, ok) && Shrinks(get)
    ensures var g := GetList(get, n, s);
            g.Got? ==>
              && (forall i :: 0 <= i < |g.value| ==> ok(g.value[i]))
              && s == PutWord(PART, PutMany(put, g.value, g.rest))
  {
    TagExact(PART, s);
    if GetTag(PART, s).Got? { ManyFrom(put, get, ok, n, GetTag(PART, s).rest); }
  }

  lemma ObjsBack(xs: seq<Obj>, t: seq<byte>)
    requires forall i :: 0 <= i < |xs| ==> Plain(xs[i])
    ensures GetList(GetObj, |xs|, PutWord(PART, PutMany(PutObj, xs, t))) == Got(xs, t)
  {
    ObjExact();
    ListBack(PutObj, GetObj, Plain, xs, t);
  }

  lemma OutersBack(xs: seq<OuterVar>, t: seq<byte>)
    requires forall i :: 0 <= i < |xs| ==> SavableOuter(xs[i])
    ensures GetList(GetOuter, |xs|, PutWord(PART, PutMany(PutOuter, xs, t))) == Got(xs, t)
  {
    OuterExact();
    ListBack(PutOuter, GetOuter, SavableOuter, xs, t);
  }

  lemma LocalsBack(xs: seq<LocalVar>, t: seq<byte>)
    requires forall i :: 0 <= i < |xs| ==> Named(xs[i])
    ensures GetList(GetLocal, |xs|, PutWord(PART, PutMany(PutLocal, xs, t))) == Got(xs, t)
  {
    LocalExact();
    ListBack(PutLocal, GetLocal, Named, xs, t);
  }

  lemma ListsBack(l: Lists, c: Counts, t: seq<byte>)
    requires SavableLists(l) && FitsLists(c, l)
    ensures GetLists(c, PutLists(l, t)) == Got(l, t)
  {
    var w := PutWord(PART, PutMany(PutLocal, l.locals, t));
    var v := PutWord(PART, PutMany(PutOuter, l.outers, w));
    var u := PutWord(PART, PutMany(PutObj, l.params, v));
    ObjsBack(l.literals, u);
    ObjsBack(l.params, v);
    OutersBack(l.outers, w);
    LocalsBack(l.locals, t);
  }

  lemma ObjsFrom(n: nat, s: seq<byte>)
    ensures var g := GetList(GetObj, n, s);
            g.Got? ==>
              && (forall i :: 0 <= i < |g.value| ==> Plain(g.value[i]))
              && s == PutWord(PART, PutMany(PutObj, g.value, g.rest))
  {
    ObjExact();
    ListFrom(PutObj, GetObj, Plain, n, s);
  }

  lemma OutersFrom(n: nat, s: seq<byte>)
    ensures var g := GetList(GetOuter, n, s);
            g.Got? ==>
              && (forall i :: 0 <= i < |g.value| ==> SavableOuter(g.value[i]))
              && s == PutWord(PART, PutMany(PutOuter, g.value, g.rest))
  {
    OuterExact();
    ListFrom(PutOuter, GetOuter, SavableOuter, n, s);
  }

  lemma LocalsFrom(n: nat, s: seq<byte>)
    ensures var g := GetList(GetLocal, n, s);
            g.Got? ==>
              && (forall i :: 0 <= i < |g.value| ==> Named(g.value[i]))
              && s == PutWord(PART, PutMany(PutLocal, g.value, g.rest))
  {
    LocalExact();
    ListFrom(PutLocal, GetLocal, Named, n, s);
  }

  lemma ListsFrom(c: Counts, s: seq<byte>)
    ensures var g := GetLists(c, s);
            g.Got? ==>
              && SavableLists(g.value)
              && s == PutLists(g.value, g.rest)
              && FitsLists(c, g.value)
  {
    if GetLists(c, s).Got? {
      var t := GetList(GetObj, Rounds(c.literals), s).rest;
      var u := GetList(GetObj, Rounds(c.params), t).rest;
      var v := GetList(GetOuter, Rounds(c.outers), u).rest;
      ObjsFrom(Rounds(c.literals), s);
      ObjsFrom(Rounds(c.params), t);
      OutersFrom(Rounds(c.outers), u);
      LocalsFrom(Rounds(c.locals), v);
    }
  }

  lemma CellsBack(b: vec<byte>, t: seq<byte>)
    ensures GetCells(|b|, PutWord(PART, b + t)) == Got(b, t)
  {
    TagExact(PART, b + t);
    BlockExact(b, t);
  }

  lemma CellsFrom(size: nat, s: seq<byte>)
    ensures GetCells(size, s).Got? ==> s == PutWord(PART, GetCells(size, s).value + GetCells(size, s).rest)
  {
    TagExact(PART, s);
  }

  lemma BlocksBack(b: Blocks, c: Counts, t: seq<byte>)
    requires FitsBlocks(c, b)
    ensures GetBlocks(c, PutBlocks(b, t)) == Got(b, t)
  {
    var w := PutWord(PART, t);
    var v := PutWord(PART, b.instructions + w);
    var u := PutWord(PART, b.defaults + v);
    CellsBack(b.lines, u);
    CellsBack(b.defaults, v);
    CellsBack(b.instructions, w);
    TagExact(PART, t);
  }

  lemma BlocksFrom(c: Counts, s: seq<byte>)
    ensures var g := GetBlocks(c, s);
            g.Got? ==>
              && s == PutBlocks(g.value, g.rest)
              && FitsBlocks(c, g.value)
  {
    if GetBlocks(c, s).Got? {
      var t := GetCells(Size(8, c.lines), s).rest;
      var u := GetCells(Size(4, c.defaults), t).rest;
      var v := GetCells(Size(8, c.instructions), u).rest;
      CellsFrom(Size(8, c.lines), s);
      CellsFrom(Size(4, c.defaults), t);
      CellsFrom(Size(8, c.instructions), u);
      TagExact(PART, v);
    }
  }

  lemma FootBack(f: Foot, t: seq<byte>)
    ensures GetFoot(PutFoot(f, t)) == Got(f, t)
  {
    var u := PutWord(f.varParams, t);
    WordBack(f.stackSize, [f.generator] + u);
    BlockExact([f.generator], u);
    WordBack(f.varParams, t);
  }

  lemma FootFrom(s: seq<byte>)
    ensures GetFoot(s).Got? ==> s == PutFoot(GetFoot(s).value, GetFoot(s).rest)
  {
    if GetFoot(s).Got? {
      var t := GetWord(s).rest;
      WordFrom(s);
      OneByte(t);
      WordFrom(t[1..]);
    }
  }

  lemma OneByte(t: seq<byte>)
    ensures GetBlock(1, t).Got? ==> t != [] && GetBlock(1, t) == Got([t[0]], t[1..]) && t == [t[0]] + t[1..]
  {
    if |t| > 0 { assert t[..1] == [t[0]]; }
  }

  function PutHead(h: Head, t: seq<byte>): (r: seq<byte>) {
    PutWord(PART, PutObj(h.source, PutObj(h.name, PutWord(PART, PutCounts(h.counts, t)))))
  }

  lemma HeadBack(h: Head, t: seq<byte>)
    requires !h.source.Other? && !h.name.Other?
    ensures GetHead(PutHead(h, t)) == Got(h, t)
  {
    var w := PutCounts(h.counts, t);
    var v := PutWord(PART, w);
    var u := PutObj(h.name, v);
    TagExact(PART, PutObj(h.source, u));
    ObjBack(h.source, u);
    ObjBack(h.name, v);
    TagExact(PART, w);
    CountsBack(h.counts, t);
  }

  lemma HeadFrom(s: seq<byte>)
    ensures var g := GetHead(s);
            g.Got? ==> !g.value.source.Other? && !g.value.name.Other? && s == PutHead(g.value, g.rest)
  {
    if GetHead(s).Got? {
      var t := GetTag(PART, s).rest;
      var u := GetObj(t).rest;
      var v := GetObj(u).rest;
      TagExact(PART, s);
      ObjFrom(t);
      ObjFrom(u);
      TagExact(PART, v);
      CountsFrom(GetTag(PART, v).rest);
    }
  }

  ghost predicate OneThenRest<T>(get: seq<byte> -> Got<T>, all: (nat, seq<byte>) -> Got<seq<T>>, n: nat, s: seq<byte>) {
    all(n, s) ==
      if n == 0 then Got([], s)
      else
        match get(s)
        case Bad => Bad
        case Got(x, t) => match all(n - 1, t) case Bad => Bad case Got(xs, u) => Got([x] + xs, u)
  }

  lemma {:induction false} AllIsMany<T>(get: seq<byte> -> Got<T>, all: (nat, seq<byte>) -> Got<seq<T>>, n: nat,
      s: seq<byte>)
    requires Shrinks(get)
    requires forall n, s :: OneThenRest(get, all, n, s)
    ensures all(n, s) == GetMany(get, n, s)
  {
    assert OneThenRest(get, all, n, s);
    if n > 0 && get(s).Got? { AllIsMany(get, all, n - 1, get(s).rest); }
  }

  lemma ProtosGet(n: nat, s: seq<byte>)
    ensures GetProtos(n, s) == GetMany(GetProto, n, s)
  {
    forall n, s ensures OneThenRest(GetProto, GetProtos, n, s) { }
    AllIsMany(GetProto, GetProtos, n, s);
  }

  lemma {:induction false} ProtosPut(ps: seq<Proto>, t: seq<byte>)
    ensures PutProtos(ps, t) == PutMany(PutProto, ps, t)
  {
    if ps != [] { ProtosPut(ps[1..], t); }
  }

  lemma {:induction false} ProtoBack(p: Proto, t: seq<byte>)
    requires Savable(p)
    ensures GetProto(PutProto(p, t)) == Got(p, t)
    decreases p, 0
  {
    var h := Head(p.source, p.name, p.counts);
    var w := PutFoot(p.foot, t);
    var v := PutProtos(p.functions, w);
    var u := PutBlocks(p.blocks, v);
    HeadBack(h, PutLists(p.lists, u));
    ListsBack(p.lists, h.counts, u);
    BlocksBack(p.blocks, h.counts, v);
    ProtosBack(p.functions, w);
    FootBack(p.foot, t);
    assert GetBody(h, PutLists(p.lists, u)) == Got(p, t);
  }

  lemma {:induction false} ProtosBack(fs: seq<Proto>, t: seq<byte>)
    requires forall i :: 0 <= i < |fs| ==> Savable(fs[i])
    ensures GetProtos(|fs|, PutProtos(fs, t)) == Got(fs, t)
    decreases fs, 1
  {
    forall i, u | 0 <= i < |fs| ensures GetProto(PutProto(fs[i], u)) == Got(fs[i], u) { ProtoBack(fs[i], u); }
    ProtosPut(fs, t);
    ProtosGet(|fs|, PutProtos(fs, t));
    ManyBack(PutProto, GetProto, fs, t);
  }

  lemma {:induction false} ProtoFrom(s: seq<byte>)
    requires GetProto(s).Got?
    ensures Savable(GetProto(s).value) && s == PutProto(GetProto(s).value, GetProto(s).rest)
    decreases |s|, 0
  {
    var h, t := GetHead(s).value, GetHead(s).rest;
    HeadFrom(s);
    assert GetBody(h, t) == GetProto(s);
    var p := GetBody(h, t).value;
    var u := GetLists(h.counts, t).rest;
    var v := GetBlocks(h.counts, u).rest;
    ListsFrom(h.counts, t);
    BlocksFrom(h.counts, u);
    ProtosFrom(Rounds(h.counts.functions), v);
    FootFrom(GetProtos(Rounds(h.counts.functions), v).rest);
    assert p.counts == h.counts;
  }

  lemma {:induction false} ProtosFrom(n: nat, s: seq<byte>)
    requires GetProtos(n, s).Got?
    ensures forall i :: 0 <= i < |GetProtos(n, s).value| ==> Savable(GetProtos(n, s).value[i])
    ensures s == PutProtos(GetProtos(n, s).value, GetProtos(n, s).rest)
    decreases |s|, 1
  {
    assert Explained(PutProto, GetProto, Savable, |s|) by {
      forall u | |u| <= |s| && GetProto(u).Got?
        ensures Savable(GetProto(u).value) && u == PutProto(GetProto(u).value, GetProto(u).rest)
      {
        ProtoFrom(u);
      }
    }
    ProtosGet(n, s);
    ManyFrom(PutProto, GetProto, Savable, n, s);
    ProtosPut(GetProtos(n, s).value, GetProtos(n, s).rest);
  }

  /**
    A stream loads as a function, leaving some bytes, exactly when it is what saving that
    function writes, followed by those bytes.
   */
  lemma LoadsWhatWasSaved(s: seq<byte>, p: Proto, rest: seq<byte>)
    ensures GetClosure(s) == Got(p, rest) <==> Savable(p) && s == PutClosure(p, rest)
  {
    if Savable(p) && s == PutClosure(p, rest) {
      var x := PutWord(TAIL, rest);
      var w := PutProto(p, x);
      var v := PutWord(4, w);
      var u := PutWord(4, v);
      TagExact(HEAD, PutWord(1, u));
      TagExact(1, u);
      TagExact(4, v);
      TagExact(4, w);
      ProtoBack(p, x);
      TagExact(TAIL, rest);
    }
    if GetClosure(s) == Got(p, rest) {
      var t := GetTag(HEAD, s).rest;
      var u := GetTag(1, t).rest;
      var v := GetTag(4, u).rest;
      var w := GetTag(4, v).rest;
      TagExact(HEAD, s);
      TagExact(1, t);
      TagExact(4, u);
      TagExact(4, v);
      ProtoFrom(w);
      TagExact(TAIL, GetProto(w).rest);
    }
  }

  // ---------- Counts that are not lengths ----------

  /** Counts that say how much there is. */
  predicate Lengths(c: Counts, l: Lists, b: Blocks, functions: nat) {
    && c.literals == |l.literals| && c.params == |l.params| && c.outers == |l.outers| && c.locals == |l.locals|
    && 8 * c.lines == |b.lines| && 4 * c.defaults == |b.defaults| && 8 * c.instructions == |b.instructions|
    && c.functions == functions
  }

  /** A function as the compiler makes it. */
  predicate Regular(p: Proto) {
    Lengths(p.counts, p.lists, p.blocks, |p.functions|) && forall i :: 0 <= i < |p.functions| ==>
      Regular(p.functions[i])
  }

  /** Counts of which none is negative and none makes a size that is not an SQInteger. */
  predicate Moderate(c: Counts) {
    && c.literals < 0x8000_0000 && c.params < 0x8000_0000 && c.outers < 0x8000_0000 && c.locals < 0x8000_0000
    && 8 * c.lines < 0x8000_0000 && 4 * c.defaults < 0x8000_0000 && 8 * c.instructions < 0x8000_0000
    && c.functions < 0x8000_0000
  }

  predicate AllModerate(p: Proto) {
    Moderate(p.counts) && forall i :: 0 <= i < |p.functions| ==> AllModerate(p.functions[i])
  }

  lemma SizeIsLength(cell: nat, n: word, length: nat)
    requires length < 0x8000_0000 && length == Size(cell, n)
    ensures cell * n == length <==> cell * n < 0x8000_0000
  {
  }

  lemma LengthsOrNot(p: Proto)
    requires FitsCounts(p)
    ensures Lengths(p.counts, p.lists, p.blocks, |p.functions|) <==> Moderate(p.counts)
  {
    SizeIsLength(8, p.counts.lines, |p.blocks.lines|);
    SizeIsLength(4, p.counts.defaults, |p.blocks.defaults|);
    SizeIsLength(8, p.counts.instructions, |p.blocks.instructions|);
  }

  lemma {:induction false} RegularOrNot(p: Proto)
    requires Savable(p)
    ensures Regular(p) <==> AllModerate(p)
  {
    LengthsOrNot(p);
    forall i | 0 <= i < |p.functions| ensures Regular(p.functions[i]) <==> AllModerate(p.functions[i]) {
      RegularOrNot(p.functions[i]);
    }
  }

  /**
    A stream is what saving a function as the compiler makes it writes exactly when it loads and
    all its counts are moderate.
   */
  lemma LoadsAsMade(s: seq<byte>, p: Proto, rest: seq<byte>)
    ensures GetClosure(s) == Got(p, rest) && AllModerate(p) <==> Regular(p) && Savable(p) && s == PutClosure(p, rest)
  {
    LoadsWhatWasSaved(s, p, rest);
    if Savable(p) { RegularOrNot(p); }
  }

  /**
    A function that fits its counts otherwise is loaded from its saved form too, and no function
    as the compiler makes it has that form.
   */
  lemma LoadsOtherwise(p: Proto, rest: seq<byte>, q: Proto, rest': seq<byte>)
    requires Savable(p) && !Regular(p)
    ensures GetClosure(PutClosure(p, rest)) == Got(p, rest)
    ensures Regular(q) && Savable(q) ==> PutClosure(q, rest') != PutClosure(p, rest)
  {
    LoadsWhatWasSaved(PutClosure(p, rest), p, rest);
    LoadsWhatWasSaved(PutClosure(q, rest'), q, rest');
  }

  const NO_COUNTS := Counts(0, 0, 0, 0, 0, 0, 0, 0)

  function Hollow(c: Counts): (r: Proto) {
    Proto(Null, Null, c, Lists([], [], [], []), Blocks([], [], []), [], Foot(0, 0, 0))
  }

  /** A stream that says it has -1 parameters, or 0x2000_0000 lines, and has none is such a form. */
  lemma LoadsHollow(c: Counts, rest: seq<byte>)
    requires c == NO_COUNTS.(params := 0xFFFF_FFFF) || c == NO_COUNTS.(lines := 0x2000_0000)
    ensures Savable(Hollow(c)) && !Regular(Hollow(c)) && GetClosure(PutClosure(Hollow(c), rest)) == Got(Hollow(c), rest)
  {
    assert Size(8, 0) == Size(4, 0) == 0 && Size(8, 0x2000_0000) == 0;
    var p := Hollow(c);
    assert FitsCounts(p) && Savable(p) && !Lengths(p.counts, p.lists, p.blocks, 0);
    LoadsOtherwise(p, rest, p, rest);
  }

  // ---------- Truncated streams ----------

  ghost predicate Appends<T(!new)>(put: (T, seq<byte>) -> seq<byte>) {
    forall x, r, t :: put(x, r + t) == put(x, r) + t
  }

  lemma WordAppends(n: word, r: seq<byte>, t: seq<byte>)
    ensures PutWord(n, r + t) == PutWord(n, r) + t
  {
  }

  lemma ObjAppends(o: Obj, r: seq<byte>, t: seq<byte>)
    ensures PutObj(o, r + t) == PutObj(o, r) + t
  {
    match o
    case Null => WordAppends(OT_NULL, r, t);
    case Integer(n) => WordAppends(n, r, t); WordAppends(OT_INTEGER, PutWord(n, r), t);
    case Float(n) => WordAppends(n, r, t); WordAppends(OT_FLOAT, PutWord(n, r), t);
    case Bool(n) => WordAppends(n, r, t); WordAppends(OT_BOOL, PutWord(n, r), t);
    case Str(cs) =>
      assert cs + (r + t) == cs + r + t;
      WordAppends(|cs|, cs + r, t);
      WordAppends(OT_STRING, PutWord(|cs|, cs + r), t);
    case Other(tag) => WordAppends(tag, r, t);
  }

  lemma {:induction false} ManyAppends<T(!new)>(put: (T, seq<byte>) -> seq<byte>, xs: seq<T>, r: seq<byte>,
      t: seq<byte>)
    requires Appends(put)
    ensures PutMany(put, xs, r + t) == PutMany(put, xs, r) + t
  {
    if xs == [] {
    } else {
      ManyAppends(put, xs[1..], r, t);
    }
  }

  lemma ObjsAppend(xs: seq<Obj>, r: seq<byte>, t: seq<byte>)
    ensures PutWord(PART, PutMany(PutObj, xs, r + t)) == PutWord(PART, PutMany(PutObj, xs, r)) + t
  {
    forall o, r, t ensures PutObj(o, r + t) == PutObj(o, r) + t { ObjAppends(o, r, t); }
    ManyAppends(PutObj, xs, r, t);
    WordAppends(PART, PutMany(PutObj, xs, r), t);
  }

  lemma OutersAppend(xs: seq<OuterVar>, r: seq<byte>, t: seq<byte>)
    ensures PutWord(PART, PutMany(PutOuter, xs, r + t)) == PutWord(PART, PutMany(PutOuter, xs, r)) + t
  {
    forall v, r, t ensures PutOuter(v, r + t) == PutOuter(v, r) + t {
      ObjAppends(v.name, r, t);
      ObjAppends(v.src, PutObj(v.name, r), t);
      WordAppends(v.kind, PutObj(v.src, PutObj(v.name, r)), t);
    }
    ManyAppends(PutOuter, xs, r, t);
    WordAppends(PART, PutMany(PutOuter, xs, r), t);
  }

  lemma LocalsAppend(xs: seq<LocalVar>, r: seq<byte>, t: seq<byte>)
    ensures PutWord(PART, PutMany(PutLocal, xs, r + t)) == PutWord(PART, PutMany(PutLocal, xs, r)) + t
  {
    forall v, r, t ensures PutLocal(v, r + t) == PutLocal(v, r) + t {
      var w := PutWord(v.endOp, r);
      WordAppends(v.endOp, r, t);
      WordAppends(v.startOp, w, t);
      WordAppends(v.pos, PutWord(v.startOp, w), t);
      ObjAppends(v.name, PutWord(v.pos, PutWord(v.startOp, w)), t);
    }
    ManyAppends(PutLocal, xs, r, t);
    WordAppends(PART, PutMany(PutLocal, xs, r), t);
  }

  lemma ListsAppend(l: Lists, r: seq<byte>, t: seq<byte>)
    ensures PutLists(l, r + t) == PutLists(l, r) + t
  {
    var w := PutWord(PART, PutMany(PutLocal, l.locals, r));
    var v := PutWord(PART, PutMany(PutOuter, l.outers, w));
    var u := PutWord(PART, PutMany(PutObj, l.params, v));
    LocalsAppend(l.locals, r, t);
    OutersAppend(l.outers, w, t);
    ObjsAppend(l.params, v, t);
    ObjsAppend(l.literals, u, t);
  }

  lemma CellsAppend(b: seq<byte>, r: seq<byte>, t: seq<byte>)
    ensures PutWord(PART, b + (r + t)) == PutWord(PART, b + r) + t
  {
    assert b + (r + t) == b + r + t;
    WordAppends(PART, b + r, t);
  }

  lemma BlocksAppend(b: Blocks, r: seq<byte>, t: seq<byte>)
    ensures PutBlocks(b, r + t) == PutBlocks(b, r) + t
  {
    var w := PutWord(PART, r);
    var v := PutWord(PART, b.instructions + w);
    WordAppends(PART, r, t);
    CellsAppend(b.instructions, w, t);
    CellsAppend(b.defaults, v, t);
    CellsAppend(b.lines, PutWord(PART, b.defaults + v), t);
  }

  lemma FootAppends(f: Foot, r: seq<byte>, t: seq<byte>)
    ensures PutFoot(f, r + t) == PutFoot(f, r) + t
  {
    var u := PutWord(f.varParams, r);
    WordAppends(f.varParams, r, t);
    assert [f.generator] + (u + t) == [f.generator] + u + t;
    WordAppends(f.stackSize, [f.generator] + u, t);
  }

  lemma HeadAppends(h: Head, r: seq<byte>, t: seq<byte>)
    ensures PutHead(h, r + t) == PutHead(h, r) + t
  {
    forall n: word, r, t ensures PutWord(n, r + t) == PutWord(n, r) + t { WordAppends(n, r, t); }
    var w := PutCounts(h.counts, r);
    var v := PutWord(PART, w);
    var u := PutObj(h.name, v);
    ManyAppends(PutWord, InOrder(h.counts), r, t);
    WordAppends(PART, w, t);
    ObjAppends(h.name, v, t);
    ObjAppends(h.source, u, t);
    WordAppends(PART, PutObj(h.source, u), t);
  }

  lemma {:induction false} ProtoAppends(p: Proto, r: seq<byte>, t: seq<byte>)
    ensures PutProto(p, r + t) == PutProto(p, r) + t
    decreases p, 0
  {
    var w := PutFoot(p.foot, r);
    var v := PutProtos(p.functions, w);
    var u := PutBlocks(p.blocks, v);
    FootAppends(p.foot, r, t);
    ProtosAppend(p.functions, w, t);
    BlocksAppend(p.blocks, v, t);
    ListsAppend(p.lists, u, t);
    HeadAppends(Head(p.source, p.name, p.counts), PutLists(p.lists, u), t);
  }

  lemma {:induction false} ProtosAppend(fs: seq<Proto>, r: seq<byte>, t: seq<byte>)
    ensures PutProtos(fs, r + t) == PutProtos(fs, r) + t
    decreases fs, 1
  {
    if fs == [] {
    } else {
      ProtosAppend(fs[1..], r, t);
      ProtoAppends(fs[0], PutProtos(fs[1..], r), t);
    }
  }

  lemma ClosureAppends(p: Proto, r: seq<byte>, t: seq<byte>)
    ensures PutClosure(p, r + t) == PutClosure(p, r) + t
  {
    var x := PutWord(TAIL, r);
    var w := PutProto(p, x);
    var v := PutWord(4, w);
    var u := PutWord(4, v);
    WordAppends(TAIL, r, t);
    ProtoAppends(p, x, t);
    WordAppends(4, w, t);
    WordAppends(4, v, t);
    WordAppends(1, u, t);
    WordAppends(HEAD, PutWord(1, u), t);
  }

  /** A stream that loads goes on loading, as the same function, when bytes are added. */
  lemma LoadsLonger(s: seq<byte>, t: seq<byte>)
    ensures var g := GetClosure(s);
            g.Got? ==> GetClosure(s + t) == Got(g.value, g.rest + t)
  {
    var g := GetClosure(s);
    if g.Got? {
      LoadsWhatWasSaved(s, g.value, g.rest);
      ClosureAppends(g.value, g.rest, t);
      LoadsWhatWasSaved(s + t, g.value, g.rest + t);
    }
  }

  /** No stream that was cut short loads, not even as some other function. */
  lemma CutShortIsRefused(p: Proto, k: nat)
    requires Savable(p) && k < |PutClosure(p, [])|
    ensures GetClosure(PutClosure(p, [])[..k]) == Bad
  {
    var s := PutClosure(p, []);
    var cut, lost := s[..k], s[k..];
    assert s == cut + lost && |lost| > 0;
    LoadsLonger(cut, lost);
    LoadsWhatWasSaved(s, p, []);
  }
}
