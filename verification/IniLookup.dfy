/**
  Looking up an entry in the lines of an INI file, and what storing one does to every lookup
  (utility/minIni.cpp). A line keeps its terminator.
 */
module IniLookup {
  import opened Common
  import opened IniText

  function Find(s: string, c: char): (i: nat)
    ensures i <= |s|
    ensures i < |s| ==> s[i] == c
    ensures forall j :: 0 <= j < i ==> s[j] != c
  {
    if s == [] || s[0] == c then 0 else 1 + Find(s[1..], c)
  }

  function FindLast(s: string, c: char): (i: int)
    ensures -1 <= i < |s|
    ensures i >= 0 ==> s[i] == c
    ensures forall j :: i < j < |s| ==> s[j] != c
  {
    if s == [] then -1 else if s[|s| - 1] == c then |s| - 1 else FindLast(s[..|s| - 1], c)
  }

  function Lower(c: char): (r: char) {
    if 'A' <= c <= 'Z' then c + 32 as char else c
  }

  /** Names are compared without regard to case. */
  predicate Same(a: string, b: string) {
    |a| == |b| && forall i :: 0 <= i < |a| ==> Lower(a[i]) == Lower(b[i])
  }

  // ---------- One line ----------

  predicate Opens(line: string) {
    At(SkipLeading(line), 0) == '['
  }

  predicate IsHeading(line: string, section: string) {
    var sp := SkipLeading(line);
    var end := FindLast(sp, ']');
    At(sp, 0) == '[' && end >= 1 && Same(sp[1..end], section)
  }

  predicate Remark(line: string) {
    var c := At(SkipLeading(line), 0);
    c == ';' || c == '#'
  }

  /** Where the name of an entry ends: at the first equal sign, or else at the first colon. */
  function NameEnd(sp: string): (e: nat)
    ensures e <= |sp|
  {
    var e := Find(sp, '=');
    if e < |sp| then e else Find(sp, ':')
  }

  predicate Names(line: string, key: string) {
    var sp := SkipLeading(line);
    var e := NameEnd(sp);
    key != [] && e < |sp| && Same(StripTrailing(sp[..e]), key)
  }

  predicate IsEntry(line: string, key: string) {
    !Remark(line) && Names(line, key)
  }

  function EntryValue(line: string): (r: string) {
    var sp := SkipLeading(line);
    var e := NameEnd(sp);
    if e < |sp| then ReadValue(sp[e + 1..]) else []
  }

  // ---------- Lookup ----------

  function InSection(lines: seq<string>, key: string): (r: Option<string>) {
    if lines == [] || Opens(lines[0]) then None
    else if IsEntry(lines[0], key) then Some(EntryValue(lines[0]))
    else InSection(lines[1..], key)
  }

  /** The lines after the heading of a section. */
  function After(lines: seq<string>, section: string): (r: Option<seq<string>>) {
    if lines == [] then None
    else if IsHeading(lines[0], section) then Some(lines[1..])
    else After(lines[1..], section)
  }

  /** The value of an entry; without a section, of one above all sections. */
  function Lookup(lines: seq<string>, section: string, key: string): (r: Option<string>) {
    if section == [] then InSection(lines, key)
    else
      match After(lines, section)
      case None => None
      case Some(rest) => InSection(rest, key)
  }

  /** The value of the next entry for the key after the first, in the same section. */
  function InSectionNext(lines: seq<string>, key: string): (r: Option<string>) {
    if lines == [] || Opens(lines[0]) then None
    else if IsEntry(lines[0], key) then InSection(lines[1..], key)
    else InSectionNext(lines[1..], key)
  }

  function LookupNext(lines: seq<string>, section: string, key: string): (r: Option<string>) {
    if section == [] then InSectionNext(lines, key)
    else
      match After(lines, section)
      case None => None
      case Some(rest) => InSectionNext(rest, key)
  }

  // ---------- Lines that were written ----------

  function Heading(section: string, term: string): (r: string) {
    ['['] + section + [']'] + term
  }

  function Entry(key: string, value: string, term: string): (r: string) {
    key + ['='] + ValueText(value) + term
  }

  /** The values that are read back as they were given. */
  predicate Survives(value: string) {
    NeedsQuotes(value) || Edged(value)
  }

  /** A name that is read from the entry it was written into. */
  predicate GoodKey(key: string) {
    && key != []
    && !Blank(key[0])
    && !Blank(key[|key| - 1])
    && key[0] != '[' && key[0] != ';' && key[0] != '#'
    && '=' !in key
  }

  lemma {:induction false} FindAt(s: string, c: char, i: nat)
    requires i < |s| && s[i] == c && forall j :: 0 <= j < i ==> s[j] != c
    ensures Find(s, c) == i
  {
  }

  lemma {:induction false} FindLastAt(s: string, c: char, i: nat)
    requires i < |s| && s[i] == c && forall j :: i < j < |s| ==> s[j] != c
    ensures FindLast(s, c) == i
  {
  }

  lemma HeadingParses(section: string, term: string)
    requires Blanks(term)
    ensures Opens(Heading(section, term))
    ensures forall s :: IsHeading(Heading(section, term), s) <==> Same(section, s)
  {
    var h := Heading(section, term);
    assert SkipLeading(h) == h;
    FindLastAt(h, ']', |section| + 1);
    assert h[1..|section| + 1] == section;
  }

  lemma EntryParses(key: string, value: string, term: string)
    requires GoodKey(key) && Blanks(term)
    ensures var line := Entry(key, value, term);
            && !Opens(line)
            && (forall k :: IsEntry(line, k) <==> k != [] && Same(key, k))
            && (EntryValue(line) == value <==> Survives(value))
  {
    var line := Entry(key, value, term);
    assert line[0] == key[0] && SkipLeading(line) == line;
    forall j | 0 <= j < |key| ensures line[j] != '=' { assert line[j] == key[j] && key[j] in key; }
    FindAt(line, '=', |key|);
    assert line[..|key|] == key && StripTrailing(key) == key;
    assert line[|key| + 1..] == ValueText(value) + term;
    ValueRoundTrip(value, term);
  }

  lemma {:induction false} SkipPart(s: string) returns (k: nat)
    ensures k <= |s| && SkipLeading(s) == s[k..] && Blanks(s[..k]) && (s != [] && Blank(s[0]) ==> k > 0)
  {
    k := 0;
    if s != [] && Blank(s[0]) {
      k := SkipPart(s[1..]);
      k := k + 1;
      assert forall i :: 1 <= i < k ==> s[..k][i] == s[1..][..k - 1][i - 1];
    }
  }

  lemma {:induction false} StripShorter(s: string)
    ensures |StripTrailing(s)| <= |s| && (s != [] && Blank(s[|s| - 1]) ==> |StripTrailing(s)| < |s|)
  {
    if s != [] && Blank(s[|s| - 1]) { StripShorter(s[..|s| - 1]); }
  }

  /** An entry is found under the name it was written with, and does not open a section, exactly for good names. */
  lemma FoundAgain(key: string, value: string, term: string)
    requires Blanks(term)
    ensures var line := Entry(key, value, term); IsEntry(line, key) && !Opens(line) <==> GoodKey(key)
  {
    var line := Entry(key, value, term);
    if GoodKey(key) {
      EntryParses(key, value, term);
    } else if key != [] {
      var k := SkipPart(line);
      assert line[|key|] == '=' && k <= |key|;
      var sp := line[k..];
      var e := NameEnd(sp);
      assert sp[|key| - k] == '=' && e <= |key| - k;
      StripShorter(sp[..e]);
      if k == 0 {
        assert sp == line && line[0] == key[0];
        if '=' in key {
          var j :| 0 <= j < |key| && key[j] == '=';
          assert line[j] == '=';
        } else if e == |key| {
          assert sp[..e] == key;
        }
      }
    }
  }

  // ---------- Trailing blanks in a line ----------

  lemma {:induction false} CommentWithBlanks(s: string, term: string, inside: bool)
    requires Blanks(term)
    ensures CommentAt(s + term, inside) == if CommentAt(s, inside) < |s| then CommentAt(s, inside) else |s + term|
  {
    var t := s + term;
    if s == [] {
      assert t == term;
      NoComment(term, inside);
    } else {
      assert t[0] == s[0] && (At(t, 1) == '"' <==> At(s, 1) == '"');
      if (s[0] == ';' || s[0] == '#') && !inside {
      } else if (s[0] == '"' || s[0] == '\\') && At(s, 1) == '"' {
        assert t[2..] == s[2..] + term;
        CommentWithBlanks(s[2..], term, inside);
      } else {
        assert t[1..] == s[1..] + term;
        CommentWithBlanks(s[1..], term, if s[0] == '"' then !inside else inside);
      }
    }
  }

  lemma ValueWithBlanks(s: string, term: string)
    requires Blanks(term)
    ensures ReadValue(s + term) == ReadValue(s)
  {
    SkipBlanks(s, term);
    SkipBlanks(s, []);
    assert s + [] == s;
    if !Blanks(s) {
      var u := SkipLeading(s);
      CommentWithBlanks(u, term, false);
      if CommentAt(u, false) == |u| {
        assert u[..|u|] == u && (u + term)[..|u + term|] == u + term;
        StripBlanks(u, term);
      } else {
        assert (u + term)[..CommentAt(u, false)] == u[..CommentAt(u, false)];
      }
    }
  }

  lemma {:induction false} FindWithBlanks(s: string, term: string, c: char)
    requires Blanks(term) && !Blank(c)
    ensures Find(s + term, c) == if Find(s, c) < |s| then Find(s, c) else |s + term|
  {
    if s == [] {
      assert s + term == term;
      assert Find(term, c) == |term|;
    } else {
      FindWithBlanks(s[1..], term, c);
      assert (s + term)[1..] == s[1..] + term;
    }
  }

  lemma FindLastWithBlanks(s: string, term: string, c: char)
    requires Blanks(term) && !Blank(c)
    ensures FindLast(s + term, c) == FindLast(s, c)
  {
    var i := FindLast(s + term, c);
    assert forall j :: |s| <= j < |s + term| ==> (s + term)[j] == term[j - |s|];
    assert i < |s|;
    assert forall j :: 0 <= j < |s| ==> (s + term)[j] == s[j];
  }

  lemma SkipWithBlanks(line: string, term: string)
    requires Blanks(term)
    ensures SkipLeading(line + term) == if SkipLeading(line) == [] then [] else SkipLeading(line) + term
  {
    SkipBlanks(line, term);
    SkipBlanks(line, []);
    assert line + [] == line && SkipLeading(line) + [] == SkipLeading(line);
    SkipShort(line);
    if !Blanks(line) && SkipLeading(line) == [] { Emptied(line); }
  }

  lemma {:induction false} Emptied(s: string)
    requires SkipLeading(s) == []
    ensures Blanks(s)
  {
    if s != [] { Emptied(s[1..]); }
  }

  lemma HeadingWithBlanks(line: string, term: string, section: string)
    requires Blanks(term)
    ensures Opens(line + term) == Opens(line)
    ensures IsHeading(line + term, section) == IsHeading(line, section)
  {
    SkipWithBlanks(line, term);
    var sp := SkipLeading(line);
    FindLastWithBlanks(sp, term, ']');
    var end := FindLast(sp, ']');
    if end >= 1 { assert (sp + term)[1..end] == sp[1..end]; }
  }

  lemma NameWithBlanks(sp: string, term: string)
    requires Blanks(term)
    ensures var e := NameEnd(sp);
            if e < |sp| then NameEnd(sp + term) == e && (sp + term)[..e] == sp[..e]
              && (sp + term)[e + 1..] == sp[e + 1..] + term
            else NameEnd(sp + term) == |sp + term|
  {
    FindWithBlanks(sp, term, '=');
    FindWithBlanks(sp, term, ':');
  }

  lemma EntryWithBlanks(line: string, term: string, key: string)
    requires Blanks(term)
    ensures IsEntry(line + term, key) == IsEntry(line, key)
    ensures EntryValue(line + term) == EntryValue(line)
  {
    SkipWithBlanks(line, term);
    var sp := SkipLeading(line);
    NameWithBlanks(sp, term);
    if NameEnd(sp) < |sp| { ValueWithBlanks(sp[NameEnd(sp) + 1..], term); }
  }

  // ---------- Two files alike ----------

  lemma {:induction false} InAlike(a: seq<string>, x: seq<string>, y: seq<string>, key: string)
    requires InSection(x, key) == InSection(y, key)
    ensures InSection(a + x, key) == InSection(a + y, key)
  {
    if a == [] {
      assert a + x == x && a + y == y;
    } else {
      InAlike(a[1..], x, y, key);
      assert (a + x)[1..] == a[1..] + x && (a + y)[1..] == a[1..] + y;
    }
  }

  /**
    Two files that start alike are looked up alike if their ends are, both as the rest of a
    section and on their own.
   */
  lemma {:induction false} LookupAlike(a: seq<string>, x: seq<string>, y: seq<string>, section: string, key: string)
    requires InSection(x, key) == InSection(y, key)
    requires Lookup(x, section, key) == Lookup(y, section, key)
    ensures Lookup(a + x, section, key) == Lookup(a + y, section, key)
  {
    if section == [] {
      InAlike(a, x, y, key);
    } else if a == [] {
      assert a + x == x && a + y == y;
    } else {
      assert (a + x)[1..] == a[1..] + x && (a + y)[1..] == a[1..] + y;
      LookupAlike(a[1..], x, y, section, key);
      InAlike(a[1..], x, y, key);
    }
  }

  /** Lines in which a search for `key` finds nothing and does not stop. */
  predicate Skips(a: seq<string>, key: string) {
    forall i :: 0 <= i < |a| ==> !Opens(a[i]) && !Names(a[i], key)
  }

  lemma {:induction false} InSkips(a: seq<string>, x: seq<string>, key: string)
    requires Skips(a, key)
    ensures InSection(a + x, key) == InSection(x, key)
  {
    if a == [] {
      assert a + x == x;
    } else {
      InSkips(a[1..], x, key);
      assert (a + x)[1..] == a[1..] + x;
    }
  }

  lemma {:induction false} NextSkips(a: seq<string>, x: seq<string>, key: string)
    requires Skips(a, key)
    ensures InSectionNext(a + x, key) == InSectionNext(x, key)
  {
    if a == [] {
      assert a + x == x;
    } else {
      NextSkips(a[1..], x, key);
      assert (a + x)[1..] == a[1..] + x;
    }
  }

  predicate NoHeading(a: seq<string>, section: string) {
    forall i :: 0 <= i < |a| ==> !IsHeading(a[i], section)
  }

  lemma {:induction false} AfterSkips(a: seq<string>, x: seq<string>, section: string)
    requires NoHeading(a, section)
    ensures After(a + x, section) == After(x, section)
  {
    if a == [] {
      assert a + x == x;
    } else {
      AfterSkips(a[1..], x, section);
      assert (a + x)[1..] == a[1..] + x;
    }
  }

  lemma {:induction false} SameNames(lines: seq<string>, s: string, t: string, k: string, l: string)
    requires Same(s, t) && Same(k, l)
    ensures Lookup(lines, s, k) == Lookup(lines, t, l)
  {
    InSame(lines, k, l);
    if s != [] && lines != [] {
      var sp := SkipLeading(lines[0]);
      InSame(lines[1..], k, l);
      SameNames(lines[1..], s, t, k, l);
    }
  }

  lemma {:induction false} InSame(lines: seq<string>, k: string, l: string)
    requires Same(k, l)
    ensures InSection(lines, k) == InSection(lines, l)
  {
    if lines != [] { InSame(lines[1..], k, l); }
  }
}
