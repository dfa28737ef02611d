/**
  What storing or erasing an entry, or erasing a section, does to every lookup
  (utility/minIni.cpp), on the lines of the file before and after.
 */
module IniStore {
  import opened Common
  import opened IniText
  import opened IniLookup

  predicate NoOpens(a: seq<string>) {
    forall i :: 0 <= i < |a| ==> !Opens(a[i])
  }

  /** `head` ends with the first heading of the section, or is empty when there is no section. */
  predicate Reaches(head: seq<string>, section: string) {
    if section == [] then head == []
    else head != [] && IsHeading(head[|head| - 1], section) && NoHeading(head[..|head| - 1], section)
  }

  lemma LookupHere(head: seq<string>, tail: seq<string>, section: string, key: string)
    requires Reaches(head, section)
    ensures Lookup(head + tail, section, key) == InSection(tail, key)
  {
    if section == [] {
      assert head + tail == tail;
    } else {
      var pre, h := head[..|head| - 1], head[|head| - 1];
      assert head + tail == pre + ([h] + tail) && ([h] + tail)[1..] == tail;
      AfterSkips(pre, [h] + tail, section);
    }
  }

  lemma LookupElsewhere(head: seq<string>, x: seq<string>, y: seq<string>, section: string, other: string, key: string)
    requires Reaches(head, section) && !Same(section, other)
    requires other != [] ==> Lookup(x, other, key) == Lookup(y, other, key)
    ensures Lookup(head + x, other, key) == Lookup(head + y, other, key)
  {
    if section == [] {
      assert head + x == x && head + y == y;
    } else {
      var pre, h := head[..|head| - 1], head[|head| - 1];
      assert head + x == pre + ([h] + x) && ([h] + x)[1..] == x;
      assert head + y == pre + ([h] + y) && ([h] + y)[1..] == y;
      assert Opens(h) && !IsHeading(h, other);
      LookupAlike(pre, [h] + x, [h] + y, other, key);
    }
  }

  lemma NextHere(head: seq<string>, tail: seq<string>, section: string, key: string)
    requires Reaches(head, section)
    ensures LookupNext(head + tail, section, key) == InSectionNext(tail, key)
  {
    if section == [] {
      assert head + tail == tail;
    } else {
      var pre, h := head[..|head| - 1], head[|head| - 1];
      assert head + tail == pre + ([h] + tail) && ([h] + tail)[1..] == tail;
      AfterSkips(pre, [h] + tail, section);
    }
  }

  lemma HeadingOpens(line: string, section: string)
    ensures IsHeading(line, section) ==> Opens(line)
  {
  }

  lemma LookupPast(a: seq<string>, x: seq<string>, section: string, key: string)
    requires NoOpens(a) && section != []
    ensures Lookup(a + x, section, key) == Lookup(x, section, key)
  {
    forall i | 0 <= i < |a| ensures !IsHeading(a[i], section) { HeadingOpens(a[i], section); }
    AfterSkips(a, x, section);
  }

  /** Entries, none of which is one for `key`. */
  predicate Passes(b: seq<string>, key: string) {
    forall i :: 0 <= i < |b| ==> !Opens(b[i]) && !IsEntry(b[i], key)
  }

  lemma {:induction false} InPasses(b: seq<string>, x: seq<string>, key: string)
    requires Passes(b, key)
    ensures InSection(b + x, key) == InSection(x, key)
  {
    if b == [] {
      assert b + x == x;
    } else {
      InPasses(b[1..], x, key);
      assert (b + x)[1..] == b[1..] + x;
    }
  }

  /** Entries for `key`. */
  predicate AllName(b: seq<string>, key: string) {
    forall i :: 0 <= i < |b| ==> Names(b[i], key)
  }

  lemma NamedIsEntry(line: string, key: string)
    requires GoodKey(key) && Names(line, key)
    ensures IsEntry(line, key) && !Opens(line)
  {
    var sp := SkipLeading(line);
    var e := NameEnd(sp);
    StripShort(sp[..e]);
    var name := StripTrailing(sp[..e]);
    assert name[0] == sp[0] && Lower(name[0]) == Lower(key[0]);
  }

  lemma NamedOnce(line: string, key: string, other: string)
    requires Names(line, key) && !Same(key, other)
    ensures !Names(line, other)
  {
  }

  lemma AllPass(b: seq<string>, key: string, other: string)
    requires GoodKey(key) && AllName(b, key)
    ensures NoOpens(b)
    ensures !Same(key, other) ==> Passes(b, other)
  {
    forall i | 0 <= i < |b| ensures !Opens(b[i]) && (!Same(key, other) ==> !IsEntry(b[i], other)) {
      NamedIsEntry(b[i], key);
      if !Same(key, other) { NamedOnce(b[i], key, other); }
    }
  }

  /** In a section, entries for one key in place of others for that key change no other lookup. */
  lemma EditKeepsOthers(head: seq<string>, a: seq<string>, b: seq<string>, m: seq<string>, c: seq<string>,
      section: string, key: string, s: string, k: string)
    requires Reaches(head, section) && NoOpens(a) && GoodKey(key) && AllName(b, key) && AllName(m, key)
    requires !(Same(section, s) && Same(key, k))
    ensures Lookup(head + (a + (b + c)), s, k) == Lookup(head + (a + (m + c)), s, k)
  {
    AllPass(b, key, k);
    AllPass(m, key, k);
    if Same(section, s) {
      InPasses(b, c, k);
      InPasses(m, c, k);
      InAlike(a, b + c, m + c, k);
      LookupHere(head, a + (b + c), section, k);
      LookupHere(head, a + (m + c), section, k);
      assert Same(k, k);
      SameNames(head + (a + (b + c)), section, s, k, k);
      SameNames(head + (a + (m + c)), section, s, k, k);
    } else {
      if s != [] {
        LookupPast(a, b + c, s, k);
        LookupPast(a, m + c, s, k);
        LookupPast(b, c, s, k);
        LookupPast(m, c, s, k);
      }
      LookupElsewhere(head, a + (b + c), a + (m + c), section, s, k);
    }
  }

  lemma EditIsFound(head: seq<string>, a: seq<string>, c: seq<string>, section: string, key: string, value: string,
      term: string)
    requires Reaches(head, section) && Skips(a, key) && GoodKey(key) && Blanks(term)
    ensures var got := Lookup(head + (a + ([Entry(key, value, term)] + c)), section, key);
            got.Some? && (got.value == value <==> Survives(value))
  {
    var entry := Entry(key, value, term);
    LookupHere(head, a + ([entry] + c), section, key);
    InSkips(a, [entry] + c, key);
    EntryParses(key, value, term);
    assert Same(key, key);
  }

  // ---------- The outcomes of ini_puts ----------

  /** Every lookup other than that of the entry itself gives what it gave. */
  ghost predicate KeepsOthers(lines: seq<string>, out: seq<string>, section: string, key: string) {
    forall s, k :: !(Same(section, s) && Same(key, k)) ==> Lookup(out, s, k) == Lookup(lines, s, k)
  }

  /** The entry is found, and holds the value if and only if the value can be stored. */
  ghost predicate Holds(out: seq<string>, section: string, key: string, value: string) {
    forall s, k :: Same(section, s) && Same(key, k) ==>
      Lookup(out, s, k).Some? && (Lookup(out, s, k).value == value <==> Survives(value))
  }

  /** The lines searched up to `j` from `start`, where the section starts. */
  ghost predicate Searched(lines: seq<string>, section: string, key: string, start: nat, j: nat) {
    && start <= j <= |lines|
    && Reaches(lines[..start], section)
    && Skips(lines[start..j], key)
  }

  lemma Pieces<T>(ls: seq<T>, m: seq<T>, start: nat, j: nat, n: nat)
    requires start <= j && j + n <= |ls|
    ensures ls == ls[..start] + (ls[start..j] + (ls[j..j + n] + ls[j + n..]))
    ensures ls[..j] + m + ls[j + n..] == ls[..start] + (ls[start..j] + (m + ls[j + n..]))
  {
  }

  /** The `n` lines from `j` on, all for the key, and `m` in their place. */
  lemma Edited(lines: seq<string>, out: seq<string>, m: seq<string>, n: nat, start: nat, j: nat,
      section: string, key: string)
    requires Searched(lines, section, key, start, j) && GoodKey(key)
    requires j + n <= |lines| && AllName(lines[j..j + n], key) && AllName(m, key)
    requires out == lines[..j] + m + lines[j + n..]
    ensures KeepsOthers(lines, out, section, key)
  {
    var head, a, b, c := lines[..start], lines[start..j], lines[j..j + n], lines[j + n..];
    Pieces(lines, m, start, j, n);
    forall s, k | !(Same(section, s) && Same(key, k)) ensures Lookup(out, s, k) == Lookup(lines, s, k) {
      EditKeepsOthers(head, a, b, m, c, section, key, s, k);
    }
  }

  lemma HeldByAll(out: seq<string>, section: string, key: string, value: string)
    requires var got := Lookup(out, section, key);
             got.Some? && (got.value == value <==> Survives(value))
    ensures Holds(out, section, key, value)
  {
    forall s, k | Same(section, s) && Same(key, k) ensures Lookup(out, s, k) == Lookup(out, section, key) {
      SameNames(out, section, s, key, k);
    }
  }

  lemma PutKeeps(lines: seq<string>, out: seq<string>, n: nat, start: nat, j: nat,
      section: string, key: string, value: string, term: string)
    requires Searched(lines, section, key, start, j) && GoodKey(key) && Blanks(term)
    requires n <= 1 && j + n <= |lines| && (n == 1 ==> Names(lines[j], key))
    requires out == lines[..j] + [Entry(key, value, term)] + lines[j + n..]
    ensures KeepsOthers(lines, out, section, key)
  {
    EntryParses(key, value, term);
    assert Same(key, key);
    Edited(lines, out, [Entry(key, value, term)], n, start, j, section, key);
  }

  lemma PutHolds(lines: seq<string>, out: seq<string>, n: nat, start: nat, j: nat,
      section: string, key: string, value: string, term: string)
    requires Searched(lines, section, key, start, j) && GoodKey(key) && Blanks(term) && j + n <= |lines|
    requires out == lines[..j] + [Entry(key, value, term)] + lines[j + n..]
    ensures Holds(out, section, key, value)
  {
    var entry := Entry(key, value, term);
    var head, a, c := lines[..start], lines[start..j], lines[j + n..];
    Pieces(lines, [entry], start, j, n);
    EditIsFound(head, a, c, section, key, value, term);
    HeldByAll(out, section, key, value);
  }

  /** The entry in place of the old one, or before the line at which the search stopped. */
  lemma Put(lines: seq<string>, out: seq<string>, n: nat, start: nat, j: nat,
      section: string, key: string, value: string, term: string)
    requires Searched(lines, section, key, start, j) && GoodKey(key) && Blanks(term)
    requires n <= 1 && j + n <= |lines| && (n == 1 ==> Names(lines[j], key))
    requires out == lines[..j] + [Entry(key, value, term)] + lines[j + n..]
    ensures KeepsOthers(lines, out, section, key) && Holds(out, section, key, value)
  {
    PutKeeps(lines, out, n, start, j, section, key, value, term);
    PutHolds(lines, out, n, start, j, section, key, value, term);
  }

  lemma ErasedNext(head: seq<string>, a: seq<string>, b: seq<string>, c: seq<string>, section: string, key: string)
    requires Reaches(head, section) && Skips(a, key) && GoodKey(key)
    requires if b == [] then c == [] || Opens(c[0]) else |b| == 1 && Names(b[0], key)
    ensures Lookup(head + (a + c), section, key) == LookupNext(head + (a + (b + c)), section, key)
  {
    LookupHere(head, a + c, section, key);
    NextHere(head, a + (b + c), section, key);
    InSkips(a, c, key);
    NextSkips(a, b + c, key);
    if b == [] {
      assert b + c == c;
    } else {
      NamedIsEntry(b[0], key);
      assert (b + c)[1..] == c;
    }
  }

  /**
    The entry erased, if the line at which the search stopped is one: the next one for the
    key, if any, takes its place.
   */
  lemma Erased(lines: seq<string>, out: seq<string>, n: nat, start: nat, j: nat, section: string, key: string)
    requires Searched(lines, section, key, start, j) && GoodKey(key) && j + n <= |lines|
    requires if n == 0 then j == |lines| || Opens(lines[j]) else n == 1 && Names(lines[j], key)
    requires out == lines[..j] + lines[j + n..]
    ensures KeepsOthers(lines, out, section, key)
    ensures Lookup(out, section, key) == LookupNext(lines, section, key)
  {
    var head, a, b, c := lines[..start], lines[start..j], lines[j..j + n], lines[j + n..];
    assert lines[..j] + [] == lines[..j] && [] + c == c;
    Pieces(lines, [], start, j, n);
    Edited(lines, out, [], n, start, j, section, key);
    ErasedNext(head, a, b, c, section, key);
  }

  /** The file with its last line terminated, or with one more empty line. */
  predicate Ended(lines: seq<string>, mid: seq<string>, term: string) {
    || mid == lines
    || mid == lines + [term]
    || (lines != [] && mid == lines[..|lines| - 1] + [lines[|lines| - 1] + term])
  }

  lemma {:induction false} BlankLine(term: string, z: seq<string>, section: string, key: string)
    requires Blanks(term)
    ensures InSection([term] + z, key) == InSection(z, key)
    ensures Lookup([term] + z, section, key) == Lookup(z, section, key)
  {
    SkipBlanks([], term);
    assert [] + term == term && SkipLeading(term) == [];
    assert ([term] + z)[1..] == z;
  }

  lemma EndedAlike(lines: seq<string>, mid: seq<string>, z: seq<string>, term: string, section: string, key: string)
    requires Ended(lines, mid, term) && Blanks(term)
    ensures Lookup(mid + z, section, key) == Lookup(lines + z, section, key)
  {
    if mid == lines {
    } else if mid == lines + [term] {
      assert mid + z == lines + ([term] + z);
      BlankLine(term, z, section, key);
      LookupAlike(lines, [term] + z, z, section, key);
    } else {
      var pre, last := lines[..|lines| - 1], lines[|lines| - 1];
      assert mid + z == pre + ([last + term] + z) && lines + z == pre + ([last] + z);
      assert ([last + term] + z)[1..] == z && ([last] + z)[1..] == z;
      HeadingWithBlanks(last, term, section);
      EntryWithBlanks(last, term, key);
      LookupAlike(pre, [last + term] + z, [last] + z, section, key);
    }
  }

  lemma Appended(lines: seq<string>, mid: seq<string>, out: seq<string>, start: nat,
      section: string, key: string, value: string, term: string)
    requires Searched(lines, section, key, start, |lines|) && GoodKey(key) && Blanks(term)
    requires Ended(lines, mid, term) && out == mid + [Entry(key, value, term)]
    ensures KeepsOthers(lines, out, section, key) && Holds(out, section, key, value)
  {
    var entry := Entry(key, value, term);
    Put(lines, lines + [entry], 0, start, |lines|, section, key, value, term);
    forall s, k ensures Lookup(out, s, k) == Lookup(lines + [entry], s, k) {
      EndedAlike(lines, mid, [entry], term, s, k);
    }
  }

  lemma NewSectionKeeps(lines: seq<string>, section: string, key: string, value: string, term: string, s: string,
      k: string)
    requires section != [] && NoHeading(lines, section) && GoodKey(key) && Blanks(term)
    ensures var out := lines + [Heading(section, term), Entry(key, value, term)];
            if Same(section, s) && Same(key, k)
            then Lookup(out, s, k).Some? && (Lookup(out, s, k).value == value <==> Survives(value))
            else Lookup(out, s, k) == Lookup(lines, s, k)
  {
    var h, e := Heading(section, term), Entry(key, value, term);
    HeadingParses(section, term);
    EntryParses(key, value, term);
    assert [h, e][1..] == [e] && [e][1..] == [];
    assert lines + [] == lines;
    if Same(section, s) {
      forall i | 0 <= i < |lines| ensures !IsHeading(lines[i], s) { SameHeading(lines[i], section, s); }
      AfterSkips(lines, [h, e], s);
      AfterSkips(lines, [], s);
      assert After([], s) == None && Lookup(lines, s, k) == None;
      assert After([h, e], s) == Some([e]) && Lookup(lines + [h, e], s, k) == InSection([e], k);
      assert InSection([], k) == None;
    } else {
      assert !IsHeading(h, s) && InSection([h, e], k) == None;
      if s != [] { LookupPast([e], [], s, k); assert [e] + [] == [e]; }
      LookupAlike(lines, [h, e], [], s, k);
    }
  }

  lemma SameHeading(line: string, section: string, s: string)
    requires Same(section, s)
    ensures IsHeading(line, section) <==> IsHeading(line, s)
  {
  }

  lemma NewSection(lines: seq<string>, mid: seq<string>, out: seq<string>, section: string, key: string, value: string,
      term: string)
    requires section != [] && NoHeading(lines, section) && GoodKey(key) && Blanks(term)
    requires Ended(lines, mid, term) && out == mid + [Heading(section, term), Entry(key, value, term)]
    ensures KeepsOthers(lines, out, section, key) && Holds(out, section, key, value)
  {
    var z := [Heading(section, term), Entry(key, value, term)];
    forall s, k
      ensures Lookup(out, s, k) == Lookup(lines + z, s, k)
      ensures if Same(section, s) && Same(key, k)
              then Lookup(out, s, k).Some? && (Lookup(out, s, k).value == value <==> Survives(value))
              else Lookup(out, s, k) == Lookup(lines, s, k)
    {
      EndedAlike(lines, mid, z, term, s, k);
      NewSectionKeeps(lines, section, key, value, term, s, k);
    }
  }

  /**
    Without its first heading and the lines up to the next one, a section is looked up in
    what comes after, and every other section as before.
   */
  lemma SectionErased(head: seq<string>, a: seq<string>, c: seq<string>, section: string, s: string, k: string)
    requires section != [] && Reaches(head, section) && NoOpens(a) && (c == [] || Opens(c[0]))
    ensures var out := head[..|head| - 1] + c;
            Lookup(out, s, k) == if Same(section, s) then Lookup(c, s, k) else Lookup(head + (a + c), s, k)
  {
    var pre, h := head[..|head| - 1], head[|head| - 1];
    assert head + (a + c) == pre + ([h] + (a + c)) && ([h] + (a + c))[1..] == a + c;
    if Same(section, s) {
      forall i | 0 <= i < |pre| ensures !IsHeading(pre[i], s) { SameHeading(pre[i], section, s); }
      AfterSkips(pre, c, s);
    } else {
      assert !IsHeading(h, s);
      if s != [] { LookupPast(a, c, s, k); }
      LookupAlike(pre, c, [h] + (a + c), s, k);
    }
  }

  /**
    Erasing the entries above all sections drops the first line and all up to the next
    heading: so every section keeps its entries but one whose heading is the first line.
   */
  lemma TopErased(first: string, a: seq<string>, c: seq<string>, s: string, k: string)
    requires NoOpens(a) && (c == [] || Opens(c[0]))
    ensures s == [] ==> Lookup(c, s, k) == None
    ensures s != [] && !IsHeading(first, s) ==> Lookup(c, s, k) == Lookup([first] + (a + c), s, k)
    ensures s != [] && IsHeading(first, s) ==> Lookup([first] + (a + c), s, k) == InSection(a + c, k)
  {
    assert ([first] + (a + c))[1..] == a + c;
    if s != [] { LookupPast(a, c, s, k); }
  }

  /** So in a file that starts with a section, erasing them erases that section instead. */
  lemma TopEraseLosesSection(section: string, key: string, value: string, term: string)
    requires section != [] && GoodKey(key) && Survives(value) && Blanks(term)
    ensures Lookup([Heading(section, term), Entry(key, value, term)], section, key) == Some(value)
    ensures Lookup([], section, key) == None
  {
    var first, a := Heading(section, term), [Entry(key, value, term)];
    HeadingParses(section, term);
    EntryParses(key, value, term);
    assert Same(section, section) && Same(key, key);
    TopErased(first, a, [], section, key);
    assert [first] + (a + []) == [first, Entry(key, value, term)];
  }
}
