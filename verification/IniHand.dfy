/** How INI files are read that a person has written: blanks and comments anywhere, colons, any case. */
module IniHand {
  import opened Common
  import opened IniText
  import opened IniLookup

  /** A name with blanks around it that is an entry's, and not a heading or a remark. */
  predicate Named(b1: string, key: string, b2: string) {
    && Blanks(b1) && Blanks(b2) && key != [] && !Blank(key[0]) && !Blank(key[|key| - 1])
    && key[0] != '[' && key[0] != ';' && key[0] != '#'
  }

  lemma NameStands(b1: string, key: string, b2: string, tail: string)
    requires Named(b1, key, b2)
    ensures SkipLeading(b1 + key + b2 + tail) == key + b2 + tail && StripTrailing(key + b2) == key
  {
    var line := key + b2 + tail;
    assert b1 + key + b2 + tail == b1 + line && line[0] == key[0];
    SkipFront(b1, line);
    StripBlanks(key, b2);
  }

  /** An entry with an equal sign: blanks do not matter, and what follows the sign is the text of the value. */
  lemma EqualRead(b1: string, key: string, b2: string, rest: string)
    requires Named(b1, key, b2) && '=' !in key
    ensures var line := b1 + key + b2 + (['='] + rest);
      && !Opens(line) && (forall k :: IsEntry(line, k) <==> k != [] && Same(key, k))
      && EntryValue(line) == ReadValue(rest)
  {
    var line := b1 + key + b2 + (['='] + rest);
    NameStands(b1, key, b2, ['='] + rest);
    var sp := key + b2 + (['='] + rest);
    forall j | 0 <= j < |key + b2| ensures sp[j] != '=' {
      if j < |key| { assert sp[j] == key[j] && key[j] in key; } else { assert sp[j] == b2[j - |key|]; }
    }
    FindAt(sp, '=', |key + b2|);
    assert sp[0] == key[0] && sp[..|key + b2|] == key + b2 && sp[|key + b2| + 1..] == rest;
  }

  /** The same with a colon, in a line without an equal sign. */
  lemma ColonRead(b1: string, key: string, b2: string, rest: string)
    requires Named(b1, key, b2) && ':' !in key && '=' !in key && '=' !in rest
    ensures var line := b1 + key + b2 + ([':'] + rest);
      && !Opens(line) && (forall k :: IsEntry(line, k) <==> k != [] && Same(key, k))
      && EntryValue(line) == ReadValue(rest)
  {
    var line := b1 + key + b2 + ([':'] + rest);
    NameStands(b1, key, b2, [':'] + rest);
    var sp, n := key + b2 + ([':'] + rest), |key + b2|;
    forall j | 0 <= j < |sp| ensures sp[j] != '=' && (j < n ==> sp[j] != ':') {
      if j < |key| {
        assert sp[j] == key[j] && key[j] in key;
      } else if j < n {
        assert sp[j] == b2[j - |key|];
      } else if j > n {
        assert sp[j] == rest[j - n - 1] && rest[j - n - 1] in rest;
      }
    }
    FindAt(sp, ':', n);
    assert Find(sp, '=') == |sp|;
    assert sp[0] == key[0] && sp[..n] == key + b2 && sp[n + 1..] == rest;
  }

  /** A line that begins with a semicolon or a hash is no entry and no heading. */
  lemma RemarkRead(b: string, c: char, rest: string, key: string)
    requires Blanks(b) && (c == ';' || c == '#')
    ensures !IsEntry(b + ([c] + rest), key) && !Opens(b + ([c] + rest))
  {
    SkipFront(b, [c] + rest);
  }

  /** Nor is a line without an equal sign and a colon an entry. */
  lemma SignRead(line: string, key: string)
    requires '=' !in line && ':' !in line
    ensures !IsEntry(line, key)
  {
    SkipShort(line);
    var sp := SkipLeading(line);
    assert '=' !in sp && ':' !in sp;
  }

  /** A heading: its name ends at the last bracket of the line. */
  lemma HeadingRead(b: string, name: string, rest: string)
    requires Blanks(b) && ']' !in rest
    ensures var line := b + (['['] + name + [']'] + rest);
      Opens(line) && forall s :: IsHeading(line, s) <==> Same(name, s)
  {
    var sp := ['['] + name + [']'] + rest;
    SkipFront(b, sp);
    assert sp[0] == '[';
    forall j | |name| + 1 < j < |sp| ensures sp[j] != ']' { assert sp[j] == rest[j - |name| - 2]; }
    FindLastAt(sp, ']', |name| + 1);
    assert sp[1..|name| + 1] == name;
  }

  /** Which names are the same: letters from A to Z count as those from a to z. */
  lemma SameLetters(c: char, d: char, a: string, b: string)
    ensures Same([c], [d]) <==>
      c == d || ('A' <= c <= 'Z' && d as int == c as int + 32) || ('A' <= d <= 'Z' && c as int == d as int + 32)
    ensures Same([c] + a, [d] + b) <==> Same([c], [d]) && Same(a, b)
  {
    var x, y := [c] + a, [d] + b;
    if Same([c], [d]) { assert Lower([c][0]) == Lower([d][0]); }
    assert forall i :: 0 <= i < |a| ==> x[i + 1] == a[i];
    assert forall i :: 0 <= i < |b| ==> y[i + 1] == b[i];
    if Same(x, y) {
      assert Lower(x[0]) == Lower(y[0]);
      forall i | 0 <= i < |a| ensures Lower(a[i]) == Lower(b[i]) { assert Lower(x[i + 1]) == Lower(y[i + 1]); }
    }
  }

  // ---------- Which line is found ----------

  /** The first heading of the section is line `h`; without a section one starts at the top. */
  predicate Begins(lines: seq<string>, section: string, h: int) {
    if section == [] then h == -1
    else 0 <= h < |lines| && IsHeading(lines[h], section) && forall j :: 0 <= j < h ==> !IsHeading(lines[j], section)
  }

  /** From there to before line `i` no section opens and no entry is for the key. */
  predicate Between(lines: seq<string>, key: string, h: int, i: int) {
    -1 <= h < i <= |lines| && forall j :: h < j < i ==> !Opens(lines[j]) && !IsEntry(lines[j], key)
  }

  lemma {:induction false} AfterIs(lines: seq<string>, section: string, h: nat)
    requires section != [] && Begins(lines, section, h)
    ensures After(lines, section) == Some(lines[h + 1..])
    decreases h
  {
    if h > 0 {
      assert !IsHeading(lines[0], section);
      AfterIs(lines[1..], section, h - 1);
      assert lines[1..][h..] == lines[h + 1..];
    }
  }

  lemma {:induction false} InSectionIs(lines: seq<string>, key: string, i: nat)
    requires Between(lines, key, -1, i) && (i < |lines| ==> Opens(lines[i]) || IsEntry(lines[i], key))
    ensures InSection(lines, key) == if i < |lines| && !Opens(lines[i]) then Some(EntryValue(lines[i])) else None
    decreases i
  {
    if i > 0 {
      assert !Opens(lines[0]) && !IsEntry(lines[0], key);
      forall j | -1 < j < i - 1 ensures !Opens(lines[1..][j]) && !IsEntry(lines[1..][j], key) {
        assert lines[1..][j] == lines[j + 1];
      }
      InSectionIs(lines[1..], key, i - 1);
    }
  }

  lemma Shifted(lines: seq<string>, key: string, h: nat, i: nat)
    requires Between(lines, key, h, i)
    ensures Between(lines[h + 1..], key, -1, i - h - 1)
  {
    var rest := lines[h + 1..];
    forall j | -1 < j < i - h - 1 ensures !Opens(rest[j])
      && !IsEntry(rest[j], key) { assert rest[j] == lines[h + 1 + j]; }
  }

  /**
    The entry that is looked up is the first for the key behind the first heading of the section, if it
    comes before the next heading.
   */
  lemma LookupFinds(lines: seq<string>, section: string, key: string, h: int, i: nat)
    requires Begins(lines, section, h) && Between(lines, key, h, i)
    requires i < |lines| ==> Opens(lines[i]) || IsEntry(lines[i], key)
    ensures Lookup(lines, section, key) == if i < |lines| && !Opens(lines[i]) then Some(EntryValue(lines[i])) else None
  {
    if section == [] {
      InSectionIs(lines, key, i);
    } else {
      AfterIs(lines, section, h);
      Shifted(lines, key, h, i);
      InSectionIs(lines[h + 1..], key, i - h - 1);
    }
  }

  lemma {:induction false} InSectionNextIs(lines: seq<string>, key: string, i: nat)
    requires Between(lines, key, -1, i) && i < |lines| && !Opens(lines[i]) && IsEntry(lines[i], key)
    ensures InSectionNext(lines, key) == InSection(lines[i + 1..], key)
    decreases i
  {
    if i > 0 {
      assert !Opens(lines[0]) && !IsEntry(lines[0], key);
      forall j | -1 < j < i - 1 ensures !Opens(lines[1..][j]) && !IsEntry(lines[1..][j], key) {
        assert lines[1..][j] == lines[j + 1];
      }
      InSectionNextIs(lines[1..], key, i - 1);
      assert lines[1..][i..] == lines[i + 1..];
    }
  }

  /** The next entry, which a deleted one lets be seen: the first for the key between it and the next heading. */
  lemma NextFinds(lines: seq<string>, section: string, key: string, h: int, i: nat, k: nat)
    requires Begins(lines, section, h) && Between(lines, key, h, i)
    requires i < |lines| && !Opens(lines[i]) && IsEntry(lines[i], key)
    requires Between(lines, key, i, k) && (k < |lines| ==> Opens(lines[k]) || IsEntry(lines[k], key))
    ensures LookupNext(lines, section, key)
         == if k < |lines| && !Opens(lines[k]) then Some(EntryValue(lines[k])) else None
  {
    Shifted(lines, key, i, k);
    InSectionIs(lines[i + 1..], key, k - i - 1);
    if section == [] {
      InSectionNextIs(lines, key, i);
    } else {
      AfterIs(lines, section, h);
      Shifted(lines, key, h, i);
      InSectionNextIs(lines[h + 1..], key, i - h - 1);
      assert lines[h + 1..][i - h..] == lines[i + 1..];
    }
  }

  /** Without a heading for it nothing is found in a section. */
  lemma {:induction false} LookupMisses(lines: seq<string>, section: string, key: string)
    requires section != [] && NoHeading(lines, section)
    ensures Lookup(lines, section, key) == None
  {
    AfterSkips(lines, [], section);
    assert lines + [] == lines;
  }

  /** A line such as ` Port = 8080 ; for tests`, under `[net]`: whatever the blanks and the case, the value is 8080. */
  lemma CommentedEntry(b1: string, key: string, b2: string, v: string, c: char, note: string, k: string)
    requires Named(b1, key, b2) && '=' !in key && k != [] && Same(key, k)
    requires '"' !in v && ';' !in v && '#' !in v && (c == ';' || c == '#')
    ensures Lookup([b1 + key + b2 + (['='] + (v + [c] + note))], [], k) == Some(Trim(v))
  {
    var line := b1 + key + b2 + (['='] + (v + [c] + note));
    EqualRead(b1, key, b2, v + [c] + note);
    CommentIsCut(v, c, note);
    InSectionIs([line], k, 0);
  }
}
