/**
  Reading and rewriting an INI file (utility/minIni.cpp): ini_gets and ini_puts, the latter
  with its bounded cache of lines that are copied by reading them again.
 */
module IniFile {
  import opened Common
  import opened IniText
  import opened IniLookup
  import opened IniStore
  import opened IniLines

  const INI_BUFFERSIZE: nat := 512

  /** Every line can be read at once, also after a terminator has been added to the last. */
  predicate Fits(lines: seq<string>) {
    forall i :: 0 <= i < |lines| ==> FitsLine(lines[i])
  }

  predicate FitsLine(line: string) {
    0 < |line| < INI_BUFFERSIZE && ('\n' !in line ==> |line| + 2 < INI_BUFFERSIZE)
  }

  // ---------- Reading ----------

  /** The first loop of getkeystring: reads past the heading of the section. */
  method FindSection(lines: seq<string>, section: string) returns (found: bool, pos: nat)
    requires section != []
    ensures found <==> After(lines, section).Some?
    ensures found ==> pos <= |lines| && Reaches(lines[..pos], section) && After(lines, section) == Some(lines[pos..])
  {
    found, pos := false, 0;
    while !found
      invariant pos <= |lines|
      invariant !found ==> NoHeading(lines[..pos], section) && After(lines, section) == After(lines[pos..], section)
      invariant found ==> Reaches(lines[..pos], section) && After(lines, section) == Some(lines[pos..])
      decreases |lines| - pos, !found
    {
      if pos == |lines| { return; }
      assert lines[pos..][1..] == lines[pos + 1..] && lines[..pos + 1][..pos] == lines[..pos];
      found := IsHeading(lines[pos], section);
      pos := pos + 1;
    }
  }

  /** The second loop: reads up to the entry, unless the section ends before. */
  method FindEntry(lines: seq<string>, key: string, start: nat) returns (found: bool, at: nat)
    requires start <= |lines|
    ensures found <==> InSection(lines[start..], key).Some?
    ensures found ==>
      && start <= at < |lines| && Passes(lines[start..at], key) && IsEntry(lines[at], key)
      && InSection(lines[start..], key) == Some(EntryValue(lines[at]))
  {
    found, at := false, start;
    while at < |lines| && !Opens(lines[at])
      invariant start <= at <= |lines| && Passes(lines[start..at], key)
      invariant InSection(lines[start..], key) == InSection(lines[at..], key)
    {
      if IsEntry(lines[at], key) { return true, at; }
      assert lines[at..][1..] == lines[at + 1..];
      assert lines[start..at + 1] == lines[start..at] + [lines[at]];
      at := at + 1;
    }
  }

  /** getkeystring; also where the entry is and where its section starts. */
  method GetKeyString(lines: seq<string>, section: string, key: string, size: nat)
    returns (found: bool, value: string, at: nat, ghost start: nat)
    requires size > 0
    ensures found <==> Lookup(lines, section, key).Some?
    ensures found ==>
      && value == Cut(Lookup(lines, section, key).value, size - 1)
      && start <= at < |lines|
      && Lookup(lines, section, key) == Some(EntryValue(lines[at]))
      && Reaches(lines[..start], section)
      && Passes(lines[start..at], key)
      && IsEntry(lines[at], key)
  {
    var pos: nat := 0;
    found, value, at, start := false, [], 0, 0;
    if section != [] {
      found, pos := FindSection(lines, section);
      if !found { return; }
    } else {
      assert lines[pos..] == lines && lines[..pos] == [];
    }
    start := pos;
    found, at := FindEntry(lines, key, pos);
    if found {
      var sp := SkipLeading(lines[at]);
      var text, quoted := CleanString(SkipLeading(sp[NameEnd(sp) + 1..]));
      value := IniStrncpy(text, size, if quoted then Dequote else NoQuotes);
    }
  }

  /** ini_gets */
  method IniGets(file: Option<string>, section: string, key: string, default: string, size: nat) returns (value: string)
    requires size > 0
    requires file.Some? ==> Fits(Lines(file.value))
    ensures var got := if file.None? then None else Lookup(Lines(file.value), section, key);
            value == Cut(if got.Some? then got.value else default, size - 1)
  {
    var ok := false;
    if file.Some? {
      var at;
      ghost var start;
      ok, value, at, start := GetKeyString(Lines(file.value), section, key, size);
    }
    if !ok { value := IniStrncpy(default, size, NoQuotes); }
  }

  // ---------- Writing a line ----------

  method WriteSection(section: string, term: string) returns (line: string)
    ensures section == [] ==> line == []
    ensures section != [] && |section| <= INI_BUFFERSIZE - 5 ==> line == Heading(section, term)
  {
    line := [];
    if section != [] {
      var name := IniStrncpy(section, INI_BUFFERSIZE - 4, NoQuotes);
      line := ['['] + name + [']'] + term;
    }
  }

  predicate RoomFor(key: string, value: string) {
    |key| + |ValueText(value)| <= INI_BUFFERSIZE - 4
  }

  method WriteKey(key: string, value: string, term: string) returns (line: string)
    ensures RoomFor(key, value) ==> line == Entry(key, value, term)
  {
    var quotes := CheckEnquote(value);
    var name := IniStrncpy(key, INI_BUFFERSIZE - 3, NoQuotes);
    var option := if quotes then Enquote else NoQuotes;
    var room: nat := INI_BUFFERSIZE - (|name| + 1) - 2;
    var text := IniStrncpy(value, room, option);
    if RoomFor(key, value) {
      FittedWhole(value, room, option, text);
    }
    line := name + ['='] + text + term;
  }

  // ---------- Copying through the cache ----------

  /**
    A file being read by lines and the one it is copied to. Lines `mark` to `upto` have been
    read, not yet copied; only their total size is kept.
   */
  class Copier {
    const lines: seq<string>
    var pos: nat
    var mark: nat
    var size: nat
    var out: string
    ghost var upto: nat

    ghost predicate Valid()
      reads this
    {
      && mark <= upto <= |lines|
      && pos <= |lines|
      && size == |Flat(lines[mark..upto])| < INI_BUFFERSIZE
      && Fits(lines)
    }

    /** What has been or will be copied. */
    ghost function Copied(): (r: string)
      requires Valid()
      reads this
    {
      out + Flat(lines[mark..upto])
    }

    constructor (lines: seq<string>)
      requires Fits(lines)
      ensures Valid() && this.lines == lines && pos == upto == 0 && Copied() == []
    {
      this.lines := lines;
      pos, mark, size, out, upto := 0, 0, 0, [], 0;
      new;
      assert lines[0..0] == [];
    }

    /** cache_accum, for the line just read */
    method Accum(line: string) returns (ok: bool)
      requires Valid() && upto < |lines| && pos == upto + 1 && line == lines[upto]
      modifies this`size, this`upto
      ensures Valid()
      ensures ok <==> old(size) + |line| < INI_BUFFERSIZE
      ensures ok ==> upto == pos && Copied() == old(Copied()) + line
      ensures !ok ==> upto == old(upto) && size == old(size)
    {
      ok := size + |line| < INI_BUFFERSIZE;
      if ok {
        FlatNext(lines, mark, upto);
        size := size + |line|;
        upto := upto + 1;
      }
    }

    /** cache_flush; whether the text it copied ended with a terminator */
    method Flush(term: string) returns (ended: bool)
      requires Valid()
      modifies this
      ensures Valid() && size == 0 && mark == pos == upto == old(upto)
      ensures out == old(Copied())
      ensures ended ==> |term| < |out| && term == out[|out| - |term|..]
    {
      pos := mark;
      var buffer := [];
      assert lines[mark..mark] == [];
      while |buffer| < size
        invariant mark == old(mark) && upto == old(upto) && size == old(size) && out == old(out)
        invariant mark <= pos <= upto && buffer == Flat(lines[mark..pos])
        decreases upto - pos
      {
        FlatNext(lines, mark, pos);
        buffer := buffer + lines[pos];
        pos := pos + 1;
      }
      if pos < upto { FlatLess(lines, mark, pos, upto); }
      out := out + buffer;
      mark, size := pos, 0;
      assert lines[mark..mark] == [];
      ended := |buffer| > |term| && buffer[|buffer| - |term|..] == term;
    }

    /** Copies the line just read, making room in the cache if need be. */
    method CopyLine(line: string, term: string)
      requires Valid() && upto < |lines| && pos == upto + 1 && line == lines[upto]
      modifies this
      ensures Valid() && pos == upto == old(pos) && Copied() == old(Copied()) + line
    {
      var ok := Accum(line);
      if !ok {
        var ended := Flush(term);
        pos := pos + 1;
        assert lines[mark..upto] == [];
        ok := Accum(line);
      }
    }

    /** Copies up to the heading of the section, which has then been read and not copied. */
    method CopyBeforeHeading(section: string, term: string) returns (found: bool)
      requires Valid() && pos == upto == 0 && Copied() == []
      modifies this
      ensures Valid() && Copied() == Flat(lines[..upto]) && NoHeading(lines[..upto], section)
      ensures found ==> upto < |lines| && pos == upto + 1 && IsHeading(lines[upto], section)
      ensures !found ==> pos == upto == |lines|
    {
      found := false;
      assert lines[..0] == [];
      while pos < |lines|
        invariant Valid() && pos == upto && Copied() == Flat(lines[..pos]) && NoHeading(lines[..pos], section)
        decreases |lines| - pos
      {
        var line := lines[pos];
        pos := pos + 1;
        if IsHeading(line, section) { return true; }
        FlatNext(lines, 0, upto);
        assert lines[..upto] == lines[0..upto] && lines[..upto + 1] == lines[0..upto + 1];
        CopyLine(line, term);
      }
    }

    /** Copies up to and including the heading of the section. */
    method CopyToHeading(section: string, term: string) returns (found: bool)
      requires Valid() && section != [] && pos == upto == 0 && Copied() == []
      modifies this
      ensures Valid() && pos == upto && Copied() == Flat(lines[..pos])
      ensures found ==> Reaches(lines[..pos], section)
      ensures !found ==> pos == |lines| && NoHeading(lines, section)
    {
      found := CopyBeforeHeading(section, term);
      if found {
        FlatNext(lines, 0, upto);
        assert lines[..upto] == lines[0..upto] && lines[..upto + 1] == lines[0..upto + 1];
        assert lines[..upto + 1][..upto] == lines[..upto];
        CopyLine(lines[pos - 1], term);
      } else {
        assert lines[..pos] == lines;
      }
    }

    /** Leaves out what has been read up to here. */
    method Drop()
      requires Valid() && size == 0 && upto <= pos
      modifies this`mark, this`upto
      ensures Valid() && mark == upto == pos && Copied() == old(Copied())
    {
      assert size == 0 ==> lines[mark..upto] == [] by {
        if mark < upto { FlatLess(lines, mark, mark, upto); }
      }
      mark, upto := pos, pos;
      assert lines[mark..upto] == [];
    }

    /**
      Copies up to the entry, or to the end of its section; the line it stopped at has been
      read, and not copied.
     */
    method CopyToKey(key: string, term: string) returns (stopped: bool)
      requires Valid() && pos == upto && Copied() == Flat(lines[..pos])
      modifies this
      ensures Valid() && old(pos) <= upto && Copied() == Flat(lines[..upto]) && Skips(lines[old(pos)..upto], key)
      ensures stopped ==> upto < |lines| && pos == upto + 1 && (Names(lines[upto], key) || Opens(lines[upto]))
      ensures !stopped ==> pos == upto == |lines|
    {
      ghost var start := pos;
      stopped := false;
      while pos < |lines|
        invariant Valid() && start <= pos == upto && Copied() == Flat(lines[..pos])
        invariant Skips(lines[start..pos], key)
        decreases |lines| - pos
      {
        var line := lines[pos];
        if Names(line, key) || Opens(line) {
          stopped, pos := true, pos + 1;
          return;
        }
        FlatNext(lines, 0, pos);
        assert lines[..pos] == lines[0..pos] && lines[..pos + 1] == lines[0..pos + 1];
        assert lines[start..pos + 1] == lines[start..pos] + [line];
        pos := pos + 1;
        CopyLine(line, term);
      }
    }

    /** Copies all that is left. */
    method CopyRest(term: string)
      requires Valid() && pos == upto
      modifies this
      ensures out == old(Copied()) + Flat(lines[old(pos)..])
    {
      ghost var start, before := pos, Copied();
      assert lines[start..start] == [];
      while pos < |lines|
        invariant Valid() && start <= pos == upto && Copied() == before + Flat(lines[start..pos])
        decreases |lines| - pos
      {
        var line := lines[pos];
        FlatNext(lines, start, pos);
        pos := pos + 1;
        CopyLine(line, term);
      }
      assert lines[start..pos] == lines[start..];
      var ended := Flush(term);
    }

    /** The end of the file: closes the last line and adds some more. */
    method AddAtEnd(more: string, term: string) returns (ghost mid: seq<string>)
      requires Valid() && pos == upto == |lines| && Copied() == Flat(lines) && Proper(lines) && Terminator(term)
      modifies this
      ensures Ended(lines, mid, term) && AllComplete(mid) && Fits(mid)
      ensures out == Flat(mid) + more
    {
      var ended := Flush(term);
      mid := Closed(lines, ended, term);
      if !ended { out := out + term; }
      out := out + more;
    }
  }

  predicate Terminator(term: string) {
    term == "\n" || term == "\r\n"
  }

  lemma FlatLast(ls: seq<string>, last: string)
    ensures Flat(ls + [last]) == Flat(ls) + last
  {
    FlatPlus(ls, [last]);
    FlatOne(last);
  }

  lemma Closing(line: string, term: string)
    requires Partial(line) && FitsLine(line) && Terminator(term)
    ensures Complete(line + term) && FitsLine(line + term)
  {
    var l := line + term;
    assert l[|l| - 1] == '\n';
    assert forall i :: 0 <= i < |line| ==> l[i] == line[i] && line[i] in line;
  }

  lemma EndsInNewline(a: string, b: string, term: string)
    requires Terminator(term) && |term| < |a + b| && term == (a + b)[|a + b| - |term|..] && b != []
    ensures b[|b| - 1] == '\n'
  {
    assert (a + b)[|a + b| - 1] == b[|b| - 1];
    assert (a + b)[|a + b| - |term|..][|term| - 1] == (a + b)[|a + b| - 1];
  }

  /** The lines of a file whose text has had the terminator added, unless it was there. */
  lemma Closed(lines: seq<string>, ended: bool, term: string) returns (mid: seq<string>)
    requires Proper(lines) && Fits(lines) && Terminator(term)
    requires ended ==> |term| < |Flat(lines)| && term == Flat(lines)[|Flat(lines)| - |term|..]
    ensures Ended(lines, mid, term) && AllComplete(mid) && Fits(mid)
    ensures Flat(mid) == Flat(lines) + if ended then [] else term
  {
    if lines == [] || Complete(lines[|lines| - 1]) {
      mid := if ended then lines else lines + [term];
      FlatLast(lines, term);
      LastComplete(lines);
    } else {
      mid := ClosedPartial(lines, ended, term);
    }
  }

  lemma LastComplete(lines: seq<string>)
    requires Proper(lines) && (lines != [] ==> Complete(lines[|lines| - 1]))
    ensures AllComplete(lines)
  {
    if lines != [] { ProperParts(lines, |lines| - 1); }
  }

  lemma ClosedPartial(lines: seq<string>, ended: bool, term: string) returns (mid: seq<string>)
    requires Proper(lines) && Fits(lines) && Terminator(term) && lines != [] && !Complete(lines[|lines| - 1])
    requires ended ==> |term| < |Flat(lines)| && term == Flat(lines)[|Flat(lines)| - |term|..]
    ensures !ended && Ended(lines, mid, term) && AllComplete(mid) && Fits(mid) && Flat(mid) == Flat(lines) + term
  {
    var pre, last := lines[..|lines| - 1], lines[|lines| - 1];
    ProperParts(lines, |lines| - 1);
    assert lines == pre + [last];
    FlatLast(pre, last);
    if ended { EndsInNewline(Flat(pre), last, term); }
    Closing(last, term);
    FlatLast(pre, last + term);
    mid := pre + [last + term];
  }

  // ---------- Ini_puts ----------

  lemma {:induction false} EscapedNewline(v: string)
    requires '\n' !in v
    ensures '\n' !in EscapeQuotes(v)
  {
    if v != [] { EscapedNewline(v[1..]); }
  }

  lemma EntryComplete(key: string, value: string, term: string)
    requires '\n' !in key && '\n' !in value && Terminator(term) && RoomFor(key, value)
    ensures Complete(Entry(key, value, term)) && FitsLine(Entry(key, value, term))
  {
    EscapedNewline(value);
    var text := key + ['='] + ValueText(value);
    assert '\n' !in text;
    Closing(text, term);
  }

  lemma HeadingComplete(section: string, term: string)
    requires '\n' !in section && Terminator(term) && |section| <= INI_BUFFERSIZE - 5
    ensures Complete(Heading(section, term)) && FitsLine(Heading(section, term))
  {
    var text := ['['] + section + [']'];
    assert '\n' !in text;
    Closing(text, term);
  }

  lemma Spliced(lines: seq<string>, m: seq<string>, n: nat, j: nat)
    requires Proper(lines) && Fits(lines) && j < |lines| && j + n <= |lines| && AllComplete(m) && Fits(m)
    ensures var out := lines[..j] + m + lines[j + n..];
            Proper(out) && Fits(out) && Flat(out) == Flat(lines[..j]) + Flat(m) + Flat(lines[j + n..])
  {
    ProperParts(lines, j);
    ProperParts(lines, j + n);
    ProperPlus(lines[..j] + m, lines[j + n..]);
    FlatPlus(lines[..j] + m, lines[j + n..]);
    FlatPlus(lines[..j], m);
  }

  lemma AddedLines(mid: seq<string>, z: seq<string>)
    requires AllComplete(mid) && Fits(mid) && AllComplete(z) && Fits(z)
    ensures Proper(mid + z) && Fits(mid + z) && Flat(mid + z) == Flat(mid) + Flat(z)
  {
    ProperPlus(mid + z, []);
    assert mid + z + [] == mid + z;
    FlatPlus(mid, z);
  }

  /** What ini_puts leaves in the file, given the lines before and after. */
  ghost predicate Done(lines: seq<string>, out: seq<string>, section: string, key: string, value: Option<string>) {
    && Proper(out) && Fits(out)
    && KeepsOthers(lines, out, section, key)
    && (value.Some? ==> Holds(out, section, key, value.value))
    && (value.None? ==> Lookup(out, section, key) == LookupNext(lines, section, key))
  }

  /** The names and the value can be put on one line each. */
  predicate OneLine(section: string, key: string, value: Option<string>) {
    && '\n' !in section && |section| <= INI_BUFFERSIZE - 5
    && '\n' !in key && GoodKey(key)
    && (value.Some? ==> '\n' !in value.value && RoomFor(key, value.value))
  }

  /** The section was not found. */
  method AtEndWithSection(c: Copier, section: string, key: string, value: Option<string>, term: string)
      returns (ghost out: seq<string>)
    requires c.Valid() && c.pos == c.upto == |c.lines| && c.Copied() == Flat(c.lines) && Proper(c.lines)
      && Terminator(term)
    requires OneLine(section, key, value) && section != [] && NoHeading(c.lines, section)
    modifies c
    ensures c.out == Flat(out) && Done(c.lines, out, section, key, value)
  {
    if value.None? {
      var ended := c.Flush(term);
      AfterSkips(c.lines, [], section);
      assert c.lines + [] == c.lines;
      out := c.lines;
    } else {
      out := AddSection(c, section, key, value.value, term);
    }
  }

  /** Adds a section with one entry. */
  method AddSection(c: Copier, section: string, key: string, value: string, term: string)
      returns (ghost out: seq<string>)
    requires c.Valid() && c.pos == c.upto == |c.lines| && c.Copied() == Flat(c.lines) && Proper(c.lines)
      && Terminator(term)
    requires OneLine(section, key, Some(value)) && section != [] && NoHeading(c.lines, section)
    modifies c
    ensures c.out == Flat(out) && Done(c.lines, out, section, key, Some(value))
  {
    var heading := WriteSection(section, term);
    var entry := WriteKey(key, value, term);
    ghost var mid := c.AddAtEnd(heading + entry, term);
    ghost var z := [heading, entry];
    SectionLines(section, key, value, term);
    AddedLines(mid, z);
    out := mid + z;
    NewSection(c.lines, mid, out, section, key, value, term);
  }

  lemma SectionLines(section: string, key: string, value: string, term: string)
    requires OneLine(section, key, Some(value)) && Terminator(term)
    ensures var z := [Heading(section, term), Entry(key, value, term)];
      AllComplete(z) && Fits(z) && Flat(z) == Heading(section, term) + Entry(key, value, term)
  {
    var heading, entry := Heading(section, term), Entry(key, value, term);
    HeadingComplete(section, term);
    EntryComplete(key, value, term);
    FlatLast([heading], entry);
    FlatOne(heading);
    assert [heading] + [entry] == [heading, entry];
  }

  /** The entry was not found, and its section is the last. */
  method AtEnd(c: Copier, section: string, key: string, value: Option<string>, term: string, ghost start: nat)
      returns (ghost out: seq<string>)
    requires c.Valid() && c.pos == c.upto == |c.lines| && c.Copied() == Flat(c.lines) && Proper(c.lines)
      && Terminator(term)
    requires OneLine(section, key, value) && Searched(c.lines, section, key, start, |c.lines|)
    modifies c
    ensures c.out == Flat(out) && Done(c.lines, out, section, key, value)
  {
    if value.None? {
      var ended := c.Flush(term);
      out := c.lines;
      ErasedNothing(c.lines, section, key, start);
    } else {
      out := AddEntry(c, section, key, value.value, term, start);
    }
  }

  lemma ErasedNothing(lines: seq<string>, section: string, key: string, start: nat)
    requires Proper(lines) && Fits(lines) && OneLine(section, key, None)
    requires Searched(lines, section, key, start, |lines|)
    ensures Done(lines, lines, section, key, None)
  {
    assert lines[..|lines|] + lines[|lines|..] == lines;
    Erased(lines, lines, 0, start, |lines|, section, key);
  }

  /** Adds an entry to the last section. */
  method AddEntry(c: Copier, section: string, key: string, value: string, term: string, ghost start: nat)
      returns (ghost out: seq<string>)
    requires c.Valid() && c.pos == c.upto == |c.lines| && c.Copied() == Flat(c.lines) && Proper(c.lines)
      && Terminator(term)
    requires OneLine(section, key, Some(value)) && Searched(c.lines, section, key, start, |c.lines|)
    modifies c
    ensures c.out == Flat(out) && Done(c.lines, out, section, key, Some(value))
  {
    var entry := WriteKey(key, value, term);
    ghost var mid := c.AddAtEnd(entry, term);
    EntryComplete(key, value, term);
    AddedLines(mid, [entry]);
    FlatOne(entry);
    out := mid + [entry];
    Appended(c.lines, mid, out, start, section, key, value, term);
  }

  /** Reads the line that stopped the search again, copies it or not, and copies the rest. */
  method Resume(c: Copier, keep: bool, term: string)
    requires c.Valid() && c.size == 0 && c.mark == c.pos == c.upto < |c.lines|
    modifies c
    ensures c.out == old(c.out) + Flat(c.lines[old(c.pos) + (if keep then 0 else 1)..])
  {
    ghost var j := c.pos;
    assert c.lines[j..j] == [];
    var line := c.lines[c.pos];
    c.pos := c.pos + 1;
    if keep {
      var ok := c.Accum(line);
      FlatNext(c.lines, j, j);
      FlatJoin(c.lines, j, j + 1, |c.lines|);
      assert c.lines[j + 1..|c.lines|] == c.lines[j + 1..] && c.lines[j..|c.lines|] == c.lines[j..];
    } else {
      c.mark, c.upto := c.pos, c.pos;
      assert c.lines[c.pos..c.pos] == [];
    }
    c.CopyRest(term);
  }

  function NewLines(key: string, value: Option<string>, term: string): (r: seq<string>) {
    if value.Some? then [Entry(key, value.value, term)] else []
  }

  /** Writes the new entry, if there is one. */
  method WriteEntry(c: Copier, key: string, value: Option<string>, term: string)
    requires value.Some? ==> RoomFor(key, value.value)
    modifies c`out
    ensures c.out == old(c.out) + Flat(NewLines(key, value, term))
  {
    if value.Some? {
      var entry := WriteKey(key, value.value, term);
      FlatOne(entry);
      c.out := c.out + entry;
    }
  }

  /**
    The lines that result when the line at which the search stopped is the entry or opens the
    next section.
   */
  lemma Placed(lines: seq<string>, keep: bool, start: nat, j: nat,
      section: string, key: string, value: Option<string>, term: string) returns (out: seq<string>)
    requires Searched(lines, section, key, start, j) && j < |lines| && Proper(lines) && Fits(lines)
    requires Terminator(term) && OneLine(section, key, value)
    requires keep == Opens(lines[j]) && (!keep ==> Names(lines[j], key))
    ensures Done(lines, out, section, key, value)
    ensures Flat(out)
         == Flat(lines[..j]) + Flat(NewLines(key, value, term)) + Flat(lines[j + (if keep then 0 else 1)..])
  {
    var m, n := NewLines(key, value, term), if keep then 0 else 1;
    if value.Some? { EntryComplete(key, value.value, term); }
    out := lines[..j] + m + lines[j + n..];
    Spliced(lines, m, n, j);
    if value.Some? {
      Put(lines, out, n, start, j, section, key, value.value, term);
    } else {
      assert out == lines[..j] + lines[j + n..];
      Erased(lines, out, n, start, j, section, key);
    }
  }

  /** Writes what was kept back, and the new entry. */
  method FlushAndWrite(c: Copier, key: string, value: Option<string>, term: string)
    requires c.Valid() && (value.Some? ==> RoomFor(key, value.value))
    modifies c
    ensures c.Valid() && c.size == 0 && c.mark == c.pos == c.upto == old(c.upto)
    ensures c.out == old(c.Copied()) + Flat(NewLines(key, value, term))
  {
    var ended := c.Flush(term);
    WriteEntry(c, key, value, term);
  }

  method InMiddle(c: Copier, section: string, key: string, value: Option<string>, term: string, ghost start: nat)
    returns (ghost out: seq<string>)
    requires c.Valid() && c.upto < |c.lines| && c.pos == c.upto + 1 && c.Copied() == Flat(c.lines[..c.upto])
      && Proper(c.lines)
    requires Terminator(term) && OneLine(section, key, value) && Searched(c.lines, section, key, start, c.upto)
    requires Names(c.lines[c.upto], key) || Opens(c.lines[c.upto])
    modifies c
    ensures c.out == Flat(out) && Done(c.lines, out, section, key, value)
  {
    var opens := Opens(c.lines[c.pos - 1]);
    out := Placed(c.lines, opens, start, c.upto, section, key, value, term);
    FlushAndWrite(c, key, value, term);
    Resume(c, opens, term);
  }

  /** The rewrite of the whole file. */
  method Rewrite(lines: seq<string>, section: string, key: string, value: Option<string>, term: string)
    returns (text: string, ghost out: seq<string>)
    requires Proper(lines) && Fits(lines) && Terminator(term) && OneLine(section, key, value)
    ensures text == Flat(out) && Done(lines, out, section, key, value)
  {
    var c := new Copier(lines);
    assert lines[..0] == [] && lines[..|lines|] == lines;
    if section != [] {
      var found := c.CopyToHeading(section, term);
      if !found {
        out := AtEndWithSection(c, section, key, value, term);
        return c.out, out;
      }
    }
    var ended := c.Flush(term);
    ghost var start := c.pos;
    assert lines[start..start] == [];
    var stopped := c.CopyToKey(key, term);
    if stopped {
      out := InMiddle(c, section, key, value, term, start);
    } else {
      out := AtEnd(c, section, key, value, term, start);
    }
    text := c.out;
  }

  lemma {:induction false} DequotedShort(s: string)
    ensures |Dequoted(s)| <= |s|
  {
    if s != [] {
      DequotedShort(s[1..]);
      if |s| > 1 { DequotedShort(s[2..]); }
    }
  }

  lemma EntryValueShort(line: string)
    ensures |EntryValue(line)| <= |line|
  {
    SkipShort(line);
    var sp := SkipLeading(line);
    if NameEnd(sp) < |sp| {
      var s := SkipLeading(sp[NameEnd(sp) + 1..]);
      SkipShort(sp[NameEnd(sp) + 1..]);
      StripShort(s[..CommentAt(s, false)]);
      if Quoted(Clean(s)) { DequotedShort(Inner(Clean(s))); }
    }
  }

  lemma SearchedTo(lines: seq<string>, section: string, key: string, start: nat, at: nat)
    requires start <= at <= |lines| && Reaches(lines[..start], section) && Passes(lines[start..at], key) && GoodKey(key)
    ensures Searched(lines, section, key, start, at)
  {
    forall i | 0 <= i < at - start ensures !Names(lines[start..at][i], key) {
      if Names(lines[start..at][i], key) { NamedIsEntry(lines[start..at][i], key); }
    }
  }

  lemma Parted(lines: seq<string>, at: nat)
    requires at < |lines|
    ensures Flat(lines) == Flat(lines[..at]) + lines[at] + Flat(lines[at + 1..])
  {
    FlatJoin(lines, 0, at + 1, |lines|);
    FlatNext(lines, 0, at);
    Whole(lines, at);
    Whole(lines, at + 1);
  }

  lemma Whole(lines: seq<string>, i: nat)
    requires i <= |lines|
    ensures lines[0..|lines|] == lines && lines[0..i] == lines[..i] && lines[i..|lines|] == lines[i..]
  {
  }

  lemma Overwritten(a: string, l: string, b: string, entry: string)
    requires |l| == |entry|
    ensures (a + l + b)[..|a|] + entry + (a + l + b)[|a| + |entry|..] == a + entry + b
  {
    assert (a + l + b)[..|a|] == a && (a + l + b)[|a| + |entry|..] == b;
  }

  /** The entry's line is as long as the new one, which is written over it. */
  method InPlace(lines: seq<string>, at: nat, entry: string, section: string, key: string, value: string, term: string,
      ghost start: nat)
    returns (text: string, ghost out: seq<string>)
    requires Proper(lines) && Fits(lines) && Terminator(term) && OneLine(section, key, Some(value))
    requires Searched(lines, section, key, start, at) && at < |lines| && Names(lines[at], key)
    requires entry == Entry(key, value, term) && |entry| == |lines[at]|
    ensures text == Flat(out) && Done(lines, out, section, key, Some(value))
  {
    var file, offset := Flat(lines), |Flat(lines[..at])|;
    NamedIsEntry(lines[at], key);
    out := Placed(lines, false, start, at, section, key, Some(value), term);
    FlatOne(entry);
    Parted(lines, at);
    Overwritten(Flat(lines[..at]), lines[at], Flat(lines[at + 1..]), entry);
    text := file[..offset] + entry + file[offset + |entry|..];
  }

  /**
    ini_puts, with a key: stores the value or, without one, erases the entry. The file is
    missing at first if `file` is.
   */
  method IniPuts(file: Option<string>, section: string, key: string, value: Option<string>, term: string)
      returns (r: Option<string>)
    requires file.Some? ==> Fits(Lines(file.value))
    requires Terminator(term) && OneLine(section, key, value)
    ensures r.None? <==> file.None? && value.None?
    ensures r.Some? ==>
      var before := if file.Some? then Lines(file.value) else [];
      if value.Some? && Lookup(before, section, key) == value then r == file
      else Done(before, Lines(r.value), section, key, value)
  {
    if file.None? {
      if value.None? { return None; }
      var heading := WriteSection(section, term);
      var entry := WriteKey(key, value.value, term);
      NewFile(section, key, value.value, term);
      return Some(heading + entry);
    }
    var lines := Lines(file.value);
    LinesProper(file.value);
    if value.Some? {
      var found, current, at;
      ghost var start;
      found, current, at, start := GetKeyString(lines, section, key, INI_BUFFERSIZE);
      if found {
        EntryValueShort(lines[at]);
        if current == value.value { return file; }
        var entry := WriteKey(key, value.value, term);
        if |entry| == |lines[at]| {
          SearchedTo(lines, section, key, start, at);
          var text;
          ghost var out;
          text, out := InPlace(lines, at, entry, section, key, value.value, term, start);
          LinesOfFlat(out);
          return Some(text);
        }
      }
    }
    var text;
    ghost var out;
    text, out := Rewrite(lines, section, key, value, term);
    LinesOfFlat(out);
    r := Some(text);
  }

  lemma NewFile(section: string, key: string, value: string, term: string)
    requires Terminator(term) && OneLine(section, key, Some(value))
    ensures var heading := if section == [] then [] else Heading(section, term);
            Done([], Lines(heading + Entry(key, value, term)), section, key, Some(value))
    ensures Lookup([], section, key) == None
  {
    if section == [] {
      NewPlainFile(key, value, term);
    } else {
      NewSectionFile(section, key, value, term);
    }
  }

  lemma NewPlainFile(key: string, value: string, term: string)
    requires Terminator(term) && OneLine([], key, Some(value))
    ensures Done([], Lines([] + Entry(key, value, term)), [], key, Some(value))
  {
    var entry := Entry(key, value, term);
    EntryComplete(key, value, term);
    TextOf([], entry);
    Appended([], [], [] + [entry], 0, [], key, value, term);
  }

  lemma NewSectionFile(section: string, key: string, value: string, term: string)
    requires Terminator(term) && OneLine(section, key, Some(value)) && section != []
    ensures Done([], Lines(Heading(section, term) + Entry(key, value, term)), section, key, Some(value))
  {
    var heading, entry := Heading(section, term), Entry(key, value, term);
    HeadingComplete(section, term);
    EntryComplete(key, value, term);
    TwoLines(heading, entry);
    NewSection([], [], [heading, entry], section, key, value, term);
  }

  lemma TwoLines(a: string, b: string)
    requires Complete(a) && FitsLine(a) && Complete(b) && FitsLine(b)
    ensures Lines(a + b) == [a, b] && Proper([a, b]) && Fits([a, b])
  {
    TextOf([a], b);
    FlatOne(a);
    assert [a] + [b] == [a, b];
  }

  lemma TextOf(ls: seq<string>, last: string)
    requires AllComplete(ls) && Fits(ls) && Complete(last) && FitsLine(last)
    ensures Lines(Flat(ls) + last) == ls + [last] && Proper(ls + [last]) && Fits(ls + [last])
  {
    AddedLines(ls, [last]);
    FlatLast(ls, last);
    LinesOfFlat(ls + [last]);
  }

  // ---------- Erasing a section ----------

  /** Leaves out the next line and the ones after it up to the next heading, and copies the rest. */
  method EraseFrom(c: Copier, term: string) returns (ghost to: nat)
    requires c.Valid() && c.size == 0 && c.mark == c.upto == c.pos < |c.lines|
    modifies c
    ensures old(c.pos) < to <= |c.lines|
    ensures NoOpens(c.lines[old(c.pos) + 1..to]) && (to == |c.lines| || Opens(c.lines[to]))
    ensures c.out == old(c.out) + Flat(c.lines[to..])
  {
    SkipSection(c);
    to := c.pos;
    if c.pos == |c.lines| {
      assert c.lines[to..] == [] && c.lines[to..to] == [];
      var ended := c.Flush(term);
    } else {
      Resume(c, true, term);
    }
  }

  /** Reads past the heading and the lines up to the next one without copying them. */
  method SkipSection(c: Copier)
    requires c.Valid() && c.size == 0 && c.mark == c.upto == c.pos < |c.lines|
    modifies c
    ensures c.Valid() && c.size == 0 && c.mark == c.upto == c.pos && c.out == old(c.out)
    ensures old(c.pos) < c.pos && NoOpens(c.lines[old(c.pos) + 1..c.pos])
    ensures c.pos == |c.lines| || Opens(c.lines[c.pos])
  {
    ghost var from, lines := c.pos, c.lines;
    c.pos := c.pos + 1;
    c.Drop();
    while c.pos < |c.lines| && !Opens(c.lines[c.pos])
      invariant c.Valid() && c.size == 0 && c.mark == c.upto == c.pos && c.out == old(c.out)
      invariant from < c.pos && NoOpens(lines[from + 1..c.pos])
      decreases |c.lines| - c.pos
    {
      assert lines[from + 1..c.pos + 1] == lines[from + 1..c.pos] + [lines[c.pos]];
      c.pos := c.pos + 1;
      c.Drop();
    }
  }

  /**
    ini_puts without a key: leaves out the heading, or without a section the first line, and
    the lines from there to the next heading. The lines left out are those from `from` to `to`.
   */
  method EraseSection(lines: seq<string>, section: string, term: string)
      returns (text: string, ghost from: nat, ghost to: nat)
    requires Proper(lines) && Fits(lines)
    ensures from <= to <= |lines| && Lines(text) == lines[..from] + lines[to..]
    ensures NoHeading(lines[..from], section) || section == []
    ensures from < to <==> lines != [] && (section == [] || !NoHeading(lines, section))
    ensures from < to ==>
      && (if section == [] then from == 0 else IsHeading(lines[from], section))
      && NoOpens(lines[from + 1..to])
      && (to == |lines| || Opens(lines[to]))
    ensures from < to ==> forall s, k :: Lookup(Lines(text), s, k) == Left(lines, section, to, s, k)
  {
    var c := new Copier(lines);
    assert lines[..0] == [] && lines[..|lines|] == lines;
    if section != [] {
      var found := c.CopyBeforeHeading(section, term);
    }
    var ended := c.Flush(term);
    from, to := c.pos, c.pos;
    if c.pos < |lines| {
      to := EraseFrom(c, term);
    } else {
      assert lines[to..] == [] && c.out + [] == c.out;
    }
    LeftOut(lines, from, to);
    text := c.out;
    if from < to { ErasedAll(lines, section, from, to); }
  }

  /**
    What is looked up once a section is erased: of that section only what comes after `to`; without
    a section nothing above the first heading, and a section whose heading was the first line is lost
    up to `to`. Every other section is as before.
   */
  ghost function Left(lines: seq<string>, section: string, to: nat, s: string, k: string): (r: Option<string>)
    requires lines != [] && to <= |lines|
  {
    if section == [] then
      if s == [] then None else if IsHeading(lines[0], s) then Lookup(lines[to..], s, k) else Lookup(lines, s, k)
    else if Same(section, s) then Lookup(lines[to..], s, k) else Lookup(lines, s, k)
  }

  lemma OneSection(section: string, key: string, value: string, term: string)
    requires section != [] && OneLine(section, key, Some(value)) && Survives(value) && Terminator(term)
    ensures var lines := [Heading(section, term), Entry(key, value, term)];
      Proper(lines) && Fits(lines) && IsHeading(lines[0], section) && !Opens(lines[1])
        && Lookup(lines, section, key) == Some(value)
    ensures Lookup([], section, key) == None
  {
    var lines := [Heading(section, term), Entry(key, value, term)];
    SectionLines(section, key, value, term);
    AddedLines(lines, []);
    assert lines + [] == lines;
    TopEraseLosesSection(section, key, value, term);
    HeadingParses(section, term);
    FoundAgain(key, value, term);
  }

  /**
    Erasing what has no section, in a file that starts with a section: an entry of that section that
    was there before is gone.
   */
  method EraseTop(section: string, key: string, value: string, term: string) returns (text: string)
    requires section != [] && OneLine(section, key, Some(value)) && Survives(value) && Terminator(term)
    ensures var lines := [Heading(section, term), Entry(key, value, term)];
      Proper(lines) && Fits(lines) && Lookup(lines, section, key) == Some(value)
    ensures Lookup(Lines(text), section, key) == None
  {
    var lines := [Heading(section, term), Entry(key, value, term)];
    ghost var from, to;
    OneSection(section, key, value, term);
    text, from, to := EraseSection(lines, [], term);
    assert lines[to..] == [];
  }

  lemma ErasedAll(lines: seq<string>, section: string, from: nat, to: nat)
    requires from < to <= |lines| && (NoHeading(lines[..from], section) || section == [])
    requires if section == [] then from == 0 else IsHeading(lines[from], section)
    requires NoOpens(lines[from + 1..to]) && (to == |lines| || Opens(lines[to]))
    ensures forall s, k :: Lookup(lines[..from] + lines[to..], s, k) == Left(lines, section, to, s, k)
  {
    forall s, k
      ensures Lookup(lines[..from] + lines[to..], s, k) == Left(lines, section, to, s, k)
    {
      ErasedOne(lines, section, from, to, s, k);
    }
  }

  lemma ErasedOne(lines: seq<string>, section: string, from: nat, to: nat, s: string, k: string)
    requires from < to <= |lines| && (NoHeading(lines[..from], section) || section == [])
    requires if section == [] then from == 0 else IsHeading(lines[from], section)
    requires NoOpens(lines[from + 1..to]) && (to == |lines| || Opens(lines[to]))
    ensures Lookup(lines[..from] + lines[to..], s, k) == Left(lines, section, to, s, k)
  {
    var head, a, c := lines[..from + 1], lines[from + 1..to], lines[to..];
    assert lines == head + (a + c) && head[..|head| - 1] == lines[..from];
    if section == [] {
      assert lines[..from] + c == c && head == [lines[0]];
      TopErased(lines[0], a, c, s, k);
    } else {
      SectionErased(head, a, c, section, s, k);
    }
  }

  lemma LeftOut(lines: seq<string>, from: nat, to: nat)
    requires Proper(lines) && Fits(lines) && from <= to <= |lines|
    ensures Lines(Flat(lines[..from]) + Flat(lines[to..])) == lines[..from] + lines[to..]
  {
    FlatPlus(lines[..from], lines[to..]);
    if from == |lines| {
      assert lines[..from] + lines[to..] == lines;
      LinesOfFlat(lines);
    } else {
      ProperParts(lines, from);
      ProperParts(lines, to);
      ProperPlus(lines[..from], lines[to..]);
      LinesOfFlat(lines[..from] + lines[to..]);
    }
  }
}
