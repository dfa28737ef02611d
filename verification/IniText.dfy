/**
  How minIni writes the value of an entry and reads it back (utility/minIni.cpp). Strings are
  the characters before the terminating zero; looking past the end gives that zero.
 */
module IniText {
  predicate Blank(c: char) {
    '\0' < c <= ' '
  }

  predicate Blanks(s: string) {
    forall i :: 0 <= i < |s| ==> Blank(s[i])
  }

  function At(s: string, i: nat): (r: char) {
    if i < |s| then s[i] else '\0'
  }

  function SkipLeading(s: string): (r: string) {
    if s != [] && Blank(s[0]) then SkipLeading(s[1..]) else s
  }

  function StripTrailing(s: string): (r: string) {
    if s != [] && Blank(s[|s| - 1]) then StripTrailing(s[..|s| - 1]) else s
  }

  // ---------- Quoting ----------

  predicate NeedsQuotes(v: string) {
    '"' in v || ';' in v || '#' in v || (v != [] && v[|v| - 1] == ' ')
  }

  function EscapeQuotes(v: string): (r: string) {
    if v == [] then []
    else (if v[0] == '"' then ['\\', '"'] else [v[0]]) + EscapeQuotes(v[1..])
  }

  function Dequoted(s: string): (r: string) {
    if s == [] then []
    else if (s[0] == '"' || s[0] == '\\') && At(s, 1) == '"' then ['"'] + Dequoted(s[2..])
    else [s[0]] + Dequoted(s[1..])
  }

  function Enquoted(v: string): (r: string) {
    ['"'] + EscapeQuotes(v) + ['"']
  }

  /** The text written for a value. */
  function ValueText(v: string): (r: string) {
    if NeedsQuotes(v) then Enquoted(v) else v
  }

  /** Where a comment starts, or the length; `inside` a quoted part none does. */
  function CommentAt(s: string, inside: bool): (n: nat)
    ensures n <= |s|
  {
    if s == [] || ((s[0] == ';' || s[0] == '#') && !inside) then 0
    else if s[0] == '"' then
      if At(s, 1) == '"' then 2 + CommentAt(s[2..], inside) else 1 + CommentAt(s[1..], !inside)
    else if s[0] == '\\' && At(s, 1) == '"' then 2 + CommentAt(s[2..], inside)
    else 1 + CommentAt(s[1..], inside)
  }

  predicate Quoted(s: string) {
    s != [] && s[0] == '"' && s[|s| - 1] == '"'
  }

  /** The text between the first and the last quote; one quote alone is both. */
  function Inner(s: string): (r: string)
    requires Quoted(s)
  {
    if |s| == 1 then [] else s[1..|s| - 1]
  }

  function Clean(s: string): (r: string) {
    StripTrailing(s[..CommentAt(s, false)])
  }

  /** The value in the text after the equal sign. */
  function ReadValue(s: string): (r: string) {
    var c := Clean(SkipLeading(s));
    if Quoted(c) then Dequoted(Inner(c)) else c
  }

  // ---------- What survives ----------

  lemma EscapedStart(v: string)
    ensures v != [] ==> EscapeQuotes(v) != [] && EscapeQuotes(v)[0] != '"'
  {
  }

  lemma {:induction false} DequoteEscaped(v: string)
    ensures Dequoted(EscapeQuotes(v)) == v
  {
    if v == [] {
    } else {
      var e := EscapeQuotes(v[1..]);
      DequoteEscaped(v[1..]);
      EscapedStart(v[1..]);
      if v[0] == '"' {
        assert (['\\', '"'] + e)[2..] == e;
      } else {
        assert ([v[0]] + e)[1..] == e;
        assert At([v[0]] + e, 1) == At(e, 0);
      }
      assert [v[0]] + v[1..] == v;
    }
  }

  lemma {:induction false} NoComment(s: string, inside: bool)
    requires '"' !in s && (inside || (';' !in s && '#' !in s))
    ensures CommentAt(s, inside) == |s|
  {
    if s == [] {
    } else {
      assert s[0] in s && At(s, 1) != '"';
      NoComment(s[1..], inside);
    }
  }

  /** An escaped value, character by character. */
  lemma EscapedParts(v: string, tail: string)
    requires v != []
    ensures var t := EscapeQuotes(v[1..]) + ['"'] + tail;
      EscapeQuotes(v) + ['"'] + tail == if v[0] == '"' then ['\\', '"'] + t else [v[0]] + t
  {
  }

  lemma CommentUnits(x: char, t: string, inside: bool)
    ensures CommentAt(['\\', '"'] + t, inside) == 2 + CommentAt(t, inside)
    ensures At(t, 0) != '"' ==> CommentAt(['"'] + t, inside) == 1 + CommentAt(t, !inside)
    ensures x != '"' && (x != '\\' || At(t, 0) != '"') ==> CommentAt([x] + t, true) == 1 + CommentAt(t, true)
  {
    assert (['\\', '"'] + t)[2..] == t && (['"'] + t)[1..] == t && ([x] + t)[1..] == t;
    assert At(['"'] + t, 1) == At(t, 0) && At([x] + t, 1) == At(t, 0);
  }

  /** Behind the closing quote of a value one is outside again, unless the value ends in a backslash. */
  lemma {:induction false} CommentBehind(v: string, tail: string)
    requires At(tail, 0) != '"'
    ensures CommentAt(EscapeQuotes(v) + ['"'] + tail, true)
         == |EscapeQuotes(v)| + 1 + CommentAt(tail, v != [] && v[|v| - 1] == '\\')
  {
    if v == [] {
      assert EscapeQuotes(v) + ['"'] + tail == ['"'] + tail;
      CommentUnits('"', tail, true);
    } else {
      var t := EscapeQuotes(v[1..]) + ['"'] + tail;
      EscapedParts(v, tail);
      EscapedStart(v[1..]);
      if v == ['\\'] {
        assert v[1..] == [] && t == ['"'] + tail && ['\\'] + t == ['\\', '"'] + tail;
        CommentUnits('"', tail, true);
      } else {
        CommentBehind(v[1..], tail);
        CommentUnits(v[0], t, true);
      }
    }
  }

  /** Nothing in an escaped value ends the quoted part, so no comment starts in it. */
  lemma NoCommentInside(v: string, term: string)
    requires Blanks(term)
    ensures var s := EscapeQuotes(v) + ['"'] + term; CommentAt(s, true) == |s|
  {
    NoComment(term, true);
    NoComment(term, false);
    CommentBehind(v, term);
  }

  lemma {:induction false} StripBlanks(s: string, term: string)
    requires Blanks(term)
    ensures StripTrailing(s + term) == StripTrailing(s)
  {
    if term == [] {
      assert s + term == s;
    } else {
      var t := term[..|term| - 1];
      assert (s + term)[..|s + term| - 1] == s + t;
      StripBlanks(s, t);
    }
  }

  lemma {:induction false} SkipBlanks(s: string, term: string)
    requires Blanks(term)
    ensures SkipLeading(s + term) == if Blanks(s) then [] else SkipLeading(s) + term
  {
    if s == [] {
      assert s + term == term;
      if term != [] {
        SkipBlanks([], term[1..]);
        assert [] + term[1..] == term[1..];
      }
    } else if Blank(s[0]) {
      SkipBlanks(s[1..], term);
      assert (s + term)[1..] == s[1..] + term;
      assert Blanks(s) <==> Blanks(s[1..]);
    }
  }

  function Trim(s: string): (r: string) {
    StripTrailing(SkipLeading(s))
  }

  lemma {:induction false} SkipShort(s: string)
    ensures |SkipLeading(s)| <= |s|
    ensures SkipLeading(s) != [] ==> !Blank(SkipLeading(s)[0])
    ensures |SkipLeading(s)| == |s| ==> SkipLeading(s) == s
    ensures forall c :: c in SkipLeading(s) ==> c in s
  {
    if s != [] && Blank(s[0]) { SkipShort(s[1..]); }
  }

  lemma {:induction false} StripShort(s: string)
    ensures |StripTrailing(s)| <= |s|
    ensures StripTrailing(s) != [] ==> !Blank(StripTrailing(s)[|StripTrailing(s)| - 1])
    ensures StripTrailing(s) <= s
  {
    if s != [] && Blank(s[|s| - 1]) { StripShort(s[..|s| - 1]); }
  }

  /** The values that lose nothing at their ends when they are written without quotes. */
  predicate Edged(v: string) {
    v == [] || (!Blank(v[0]) && !Blank(v[|v| - 1]))
  }

  lemma TrimWhen(v: string, term: string)
    requires Blanks(term)
    ensures Trim(v + term) == v <==> Edged(v)
  {
    SkipBlanks(v, term);
    if Blanks(v) {
      assert v != [] ==> Blank(v[0]);
    } else {
      StripBlanks(SkipLeading(v), term);
      SkipShort(v);
      StripShort(SkipLeading(v));
    }
  }

  lemma PlainValue(v: string, term: string)
    requires Blanks(term) && !NeedsQuotes(v)
    ensures ReadValue(v + term) == Trim(v + term)
  {
    var s := SkipLeading(v + term);
    SkipShort(v + term);
    NoComment(s, false);
    assert s[..|s|] == s;
    StripShort(s);
  }

  lemma QuotedValue(v: string, term: string)
    requires Blanks(term) && NeedsQuotes(v)
    ensures ReadValue(ValueText(v) + term) == v
  {
    var e := EscapeQuotes(v);
    var q := ['"'] + e + ['"'];
    var s := q + term;
    assert s[0] == '"' && SkipLeading(s) == s;
    assert s[1..] == e + ['"'] + term;
    EscapedStart(v);
    assert At(s, 1) == e[0];
    NoCommentInside(v, term);
    assert CommentAt(s, false) == |s| && s[..|s|] == s;
    StripBlanks(q, term);
    assert StripTrailing(q) == q && Inner(q) == e;
    DequoteEscaped(v);
  }

  /**
    A value is read back as it was given exactly when it is written in quotes or neither
    starts nor ends with a blank.
   */
  lemma ValueRoundTrip(v: string, term: string)
    requires Blanks(term)
    ensures ReadValue(ValueText(v) + term) == v <==> NeedsQuotes(v) || Edged(v)
  {
    if NeedsQuotes(v) {
      QuotedValue(v, term);
    } else {
      PlainValue(v, term);
      TrimWhen(v, term);
    }
  }

  // ---------- Quotes and comments ----------

  /** In a value in quotes two quotes, or a backslash and a quote, stand for a quote; all else for itself. */
  lemma QuotesRead(c: char, s: string)
    ensures Dequoted(['"', '"'] + s) == Dequoted(['\\', '"'] + s) == ['"'] + Dequoted(s)
    ensures (c != '"' && c != '\\') || At(s, 0) != '"' ==> Dequoted([c] + s) == [c] + Dequoted(s)
  {
    assert (['"', '"'] + s)[2..] == s && (['\\', '"'] + s)[2..] == s && ([c] + s)[1..] == s;
    assert At([c] + s, 1) == At(s, 0);
  }

  lemma {:induction false} SkipKeeps(s: string, t: string)
    requires t != [] && !Blank(t[0])
    ensures SkipLeading(s + t) == SkipLeading(s) + t
  {
    if s == [] {
      assert s + t == t;
    } else if Blank(s[0]) {
      SkipKeeps(s[1..], t);
      assert (s + t)[1..] == s[1..] + t;
    }
  }

  lemma {:induction false} CommentAfter(v: string, c: char, note: string)
    requires '"' !in v && ';' !in v && '#' !in v && (c == ';' || c == '#')
    ensures CommentAt(v + [c] + note, false) == |v|
  {
    var s := v + [c] + note;
    if v == [] {
      assert s[0] == c;
    } else {
      assert s[0] == v[0] && v[0] in v && s[1..] == v[1..] + [c] + note;
      assert At(s, 1) != '"' by { if |v| > 1 { assert s[1] == v[1] && v[1] in v; } else { assert s[1] == c; } }
      CommentAfter(v[1..], c, note);
    }
  }

  /** A value that is not in quotes ends at the first semicolon or hash, and loses the blanks around it. */
  lemma CommentIsCut(v: string, c: char, note: string)
    requires '"' !in v && ';' !in v && '#' !in v && (c == ';' || c == '#')
    ensures ReadValue(v + [c] + note) == Trim(v)
  {
    var s := SkipLeading(v);
    assert v + [c] + note == v + ([c] + note) && s + [c] + note == s + ([c] + note);
    SkipKeeps(v, [c] + note);
    SkipShort(v);
    CommentAfter(s, c, note);
    assert (s + [c] + note)[..|s|] == s;
    StripShort(s);
  }

  /** The text of a value in quotes with more behind it. */
  lemma CommentBehindQuoted(v: string, tail: string)
    requires At(tail, 0) != '"' && v != []
    ensures CommentAt(Enquoted(v) + tail, false) == |Enquoted(v)| + CommentAt(tail, v[|v| - 1] == '\\')
  {
    var e := EscapeQuotes(v) + ['"'] + tail;
    assert Enquoted(v) + tail == ['"'] + e;
    EscapedStart(v);
    assert At(e, 0) == EscapeQuotes(v)[0];
    CommentUnits('"', e, false);
    CommentBehind(v, tail);
  }

  lemma {:induction false} CommentAfterBlanks(blanks: string, c: char, note: string)
    requires Blanks(blanks) && (c == ';' || c == '#')
    ensures CommentAt(blanks + [c] + note, false) == |blanks|
  {
    CommentAfter(blanks, c, note);
  }

  lemma {:induction false} StripKeeps(q: string, x: string)
    requires q != [] && !Blank(q[|q| - 1])
    ensures StripTrailing(q + x) == q + StripTrailing(x)
  {
    if x == [] {
      assert q + x == q;
    } else if Blank(x[|x| - 1]) {
      StripKeeps(q, x[..|x| - 1]);
      assert (q + x)[..|q + x| - 1] == q + x[..|x| - 1];
    }
  }

  lemma {:induction false} StripBehind(x: string, i: nat)
    requires i < |x| && !Blank(x[i])
    ensures |StripTrailing(x)| > i
  {
    if Blank(x[|x| - 1]) { StripBehind(x[..|x| - 1], i); }
  }

  /** A backslash at the end takes the closing quote with it. */
  lemma {:induction false} SlashTakesQuote(v: string, z: string)
    requires v != [] && v[|v| - 1] == '\\'
    ensures var r := Dequoted(EscapeQuotes(v) + ['"'] + z); |r| >= |v| && r[|v| - 1] == '"'
  {
    var t := EscapeQuotes(v[1..]) + ['"'] + z;
    EscapedParts(v, z);
    if v == ['\\'] {
      assert v[1..] == [] && t == ['"'] + z && ['\\'] + t == ['\\', '"'] + z;
      QuotesRead('"', z);
    } else {
      SlashTakesQuote(v[1..], z);
      EscapedStart(v[1..]);
      assert At(t, 0) == EscapeQuotes(v[1..])[0];
      QuotesRead(v[0], t);
    }
  }

  lemma {:induction false} InsideReadsOn(blanks: string, c: char, note: string)
    requires Blanks(blanks) && (c == ';' || c == '#')
    ensures CommentAt(blanks + [c] + note, true) > |blanks|
  {
    var s := blanks + [c] + note;
    if blanks == [] {
      assert s[0] == c;
    } else {
      assert s[0] == blanks[0] && s[1..] == blanks[1..] + [c] + note;
      InsideReadsOn(blanks[1..], c, note);
    }
  }

  lemma CleanKeeps(q: string, tail: string, m: nat)
    requires q != [] && q[0] == '"' && q[|q| - 1] == '"' && m <= |tail| && CommentAt(q + tail, false) == |q| + m
    ensures SkipLeading(q + tail) == q + tail && Clean(q + tail) == q + StripTrailing(tail[..m])
  {
    assert (q + tail)[0] == '"' && (q + tail)[..|q| + m] == q + tail[..m];
    StripKeeps(q, tail[..m]);
  }

  /** More text behind the value makes it another one. */
  lemma SlashReadsMore(v: string, y: string)
    requires v != [] && v[|v| - 1] == '\\' && y != []
    ensures var c := Enquoted(v) + y; (if Quoted(c) then Dequoted(Inner(c)) else c) != v
  {
    var q := Enquoted(v);
    LongerThan(v);
    if Quoted(q + y) {
      InnerParts(EscapeQuotes(v), y);
      SlashTakesQuote(v, y[..|y| - 1]);
    }
  }

  lemma InnerParts(e: string, y: string)
    requires y != [] && y[|y| - 1] == '"'
    ensures Inner(['"'] + e + ['"'] + y) == e + ['"'] + y[..|y| - 1]
  {
  }

  lemma SlashReadsOn(v: string, blanks: string, c: char, note: string)
    requires v != [] && v[|v| - 1] == '\\' && Blanks(blanks) && (c == ';' || c == '#')
    requires CommentAt(Enquoted(v) + (blanks + [c] + note), false) == |Enquoted(v)| + CommentAt(blanks + [c] + note,
        true)
    ensures ReadValue(Enquoted(v) + (blanks + [c] + note)) != v
  {
    var tail := blanks + [c] + note;
    var m := CommentAt(tail, true);
    InsideReadsOn(blanks, c, note);
    assert tail[..m][|blanks|] == c;
    StripBehind(tail[..m], |blanks|);
    CleanKeeps(Enquoted(v), tail, m);
    SlashReadsMore(v, StripTrailing(tail[..m]));
  }

  lemma {:induction false} LongerThan(v: string)
    ensures |EscapeQuotes(v)| >= |v|
  {
    if v != [] { LongerThan(v[1..]); }
  }

  /**
    A comment behind a value in quotes is cut off and the value is read as it was written, exactly if the
    value does not end in a backslash.
   */
  lemma QuotedCommentIsCut(v: string, blanks: string, c: char, note: string)
    requires NeedsQuotes(v) && Blanks(blanks) && (c == ';' || c == '#')
    ensures ReadValue(ValueText(v) + (blanks + [c] + note)) == v <==> v[|v| - 1] != '\\'
  {
    var q, tail := Enquoted(v), blanks + [c] + note;
    var s := q + tail;
    assert s[0] == '"' && SkipLeading(s) == s;
    assert At(tail, 0) != '"';
    CommentBehindQuoted(v, tail);
    if v[|v| - 1] != '\\' {
      CommentAfterBlanks(blanks, c, note);
      assert s[..|q| + |blanks|] == q + blanks;
      StripBlanks(q, blanks);
      assert StripTrailing(q) == q && Inner(q) == EscapeQuotes(v);
      DequoteEscaped(v);
    } else {
      SlashReadsOn(v, blanks, c, note);
    }
  }

  // ---------- Blanks ----------

  /** What blanks are: tabs, line ends and all control characters but zero, and the space; trimming takes just these. */
  lemma BlanksAreTrimmed(b1: string, v: string, b2: string)
    requires forall i :: 0 <= i < |b1| ==> 1 <= b1[i] as int <= 32
    requires forall i :: 0 <= i < |b2| ==> 1 <= b2[i] as int <= 32
    requires v != [] ==> v[0] as int > 32 && v[|v| - 1] as int > 32
    ensures Trim(b1 + v + b2) == v
  {
    TrimWhen(v, b2);
    SkipFront(b1, v + b2);
    assert b1 + v + b2 == b1 + (v + b2);
  }

  lemma {:induction false} SkipFront(b: string, t: string)
    requires Blanks(b)
    ensures SkipLeading(b + t) == SkipLeading(t)
  {
    if b == [] {
      assert b + t == t;
    } else {
      SkipFront(b[1..], t);
      assert (b + t)[1..] == b[1..] + t;
    }
  }

  /** A value is written as it is exactly if it has no quote, semicolon or hash and does not end with a space. */
  lemma WrittenPlain(v: string)
    ensures ValueText(v) == v <==>
      (forall i :: 0 <= i < |v| ==> v[i] != '"' && v[i] != ';' && v[i] != '#') && (v == [] || v[|v| - 1] != ' ')
  {
    if NeedsQuotes(v) { LongerThan(v); }
  }

  // ---------- The methods ----------

  /** check_enquote */
  method CheckEnquote(v: string) returns (quotes: bool)
    ensures quotes <==> NeedsQuotes(v)
  {
    var p := 0;
    while p < |v| && v[p] != '"' && v[p] != ';' && v[p] != '#'
      invariant p <= |v| && forall i :: 0 <= i < p ==> v[i] != '"' && v[i] != ';' && v[i] != '#'
    {
      p := p + 1;
    }
    quotes := p < |v| || (p > 0 && v[p - 1] == ' ');
  }

  datatype QuoteOption = NoQuotes | Enquote | Dequote

  function Cut(s: string, n: nat): (r: string) {
    if |s| <= n then s else s[..n]
  }

  /**
    What fits in a buffer of `maxlen` characters: quotes are put around as much of the source
    as leaves room for the closing one.
   */
  ghost predicate Fitted(source: string, maxlen: nat, option: QuoteOption, dest: string)
    requires maxlen > 0
  {
    match option
    case NoQuotes => dest == Cut(source, maxlen - 1)
    case Dequote => dest == Cut(Dequoted(source), maxlen - 1)
    case Enquote =>
      if maxlen < 3 then dest == Cut(source, maxlen - 1)
      else exists k :: 0 <= k <= |source| && FittedTo(source, maxlen, k, dest)
  }

  ghost predicate FittedTo(source: string, maxlen: nat, k: nat, dest: string)
    requires k <= |source|
  {
    && dest == Enquoted(source[..k])
    && |dest| < maxlen
    && (k < |source| ==> |Enquoted(source[..k + 1])| >= maxlen)
  }

  lemma {:induction false} EscapeMore(v: string, k: nat)
    requires k < |v|
    ensures EscapeQuotes(v[..k + 1]) == EscapeQuotes(v[..k]) + (if v[k] == '"' then ['\\', '"'] else [v[k]])
  {
    if k == 0 {
      assert v[..1][1..] == [];
    } else {
      EscapeMore(v[1..], k - 1);
      assert v[..k + 1][1..] == v[1..][..k] && v[..k][1..] == v[1..][..k - 1];
    }
  }

  method CopyPlain(source: string, maxlen: nat) returns (dest: string)
    requires maxlen > 0
    ensures dest == Cut(source, maxlen - 1)
  {
    dest := [];
    while |dest| < maxlen - 1 && |dest| < |source|
      invariant |dest| <= maxlen - 1 && dest <= source
    {
      dest := dest + [source[|dest|]];
    }
  }

  method CopyEnquoted(source: string, maxlen: nat) returns (dest: string)
    requires maxlen >= 3
    ensures Fitted(source, maxlen, Enquote, dest)
  {
    dest := ['"'];
    var s := 0;
    while s < |source| && |dest| < maxlen - 2
      invariant s <= |source| && |dest| <= maxlen - 2
      invariant dest == ['"'] + EscapeQuotes(source[..s])
    {
      EscapeMore(source, s);
      if source[s] == '"' {
        if |dest| >= maxlen - 3 { break; }
        dest := dest + ['\\'];
      }
      dest := dest + [source[s]];
      s := s + 1;
    }
    if s < |source| { EscapeMore(source, s); }
    dest := dest + ['"'];
    assert FittedTo(source, maxlen, s, dest);
  }

  /** How far a step of the copy goes in the source, and what it copies. */
  function Skipped(source: string, s: nat): (t: nat)
    requires s < |source|
    ensures s <= t < |source|
  {
    if (source[s] == '"' || source[s] == '\\') && At(source, s + 1) == '"' then s + 1 else s
  }

  lemma DequoteStep(source: string, s: nat, dest: string)
    requires s < |source|
    ensures var t := Skipped(source, s);
            dest + Dequoted(source[s..]) == dest + [source[t]] + Dequoted(source[t + 1..])
  {
    var rest, t := source[s..], Skipped(source, s);
    assert rest[t + 1 - s..] == source[t + 1..];
    assert Dequoted(rest) == [source[t]] + Dequoted(source[t + 1..]);
  }

  method CopyDequoted(source: string, maxlen: nat) returns (dest: string)
    requires maxlen > 0
    ensures dest == Cut(Dequoted(source), maxlen - 1)
  {
    dest := [];
    var s := 0;
    while s < |source| && |dest| < maxlen - 1
      invariant s <= |source| && |dest| <= maxlen - 1
      invariant Dequoted(source) == dest + Dequoted(source[s..])
    {
      DequoteStep(source, s, dest);
      if (source[s] == '"' || source[s] == '\\') && At(source, s + 1) == '"' {
        s := s + 1;
      }
      dest := dest + [source[s]];
      s := s + 1;
    }
    assert s == |source| ==> source[s..] == [];
  }

  /** ini_strncpy */
  method IniStrncpy(source: string, maxlen: nat, option: QuoteOption) returns (dest: string)
    requires maxlen > 0
    ensures Fitted(source, maxlen, option, dest)
  {
    if option == Dequote {
      dest := CopyDequoted(source, maxlen);
    } else if option == Enquote && maxlen >= 3 {
      dest := CopyEnquoted(source, maxlen);
    } else {
      dest := CopyPlain(source, maxlen);
    }
  }

  /**
    What is copied is cut to one character less than the buffer has; in quotes it is as much as both
    quotes leave room for.
   */
  lemma FittedIs(source: string, maxlen: nat, option: QuoteOption, dest: string)
    requires maxlen > 0 && Fitted(source, maxlen, option, dest)
    ensures |dest| < maxlen
    ensures option == NoQuotes || (option == Enquote && maxlen < 3) ==>
      dest <= source && (dest == source || |dest| == maxlen - 1)
    ensures option == Dequote ==> dest <= Dequoted(source) && (dest == Dequoted(source) || |dest| == maxlen - 1)
    ensures option == Enquote && maxlen >= 3 ==> exists k: nat ::
      Most(source, maxlen, k) && dest == Enquoted(source[..k])
  {
    if option == Enquote && maxlen >= 3 {
      var k :| 0 <= k <= |source| && FittedTo(source, maxlen, k, dest);
      forall j | k < j <= |source| ensures |Enquoted(source[..j])| >= maxlen {
        assert source[..j][..k + 1] == source[..k + 1];
        EscapeLonger(source[..j], k + 1);
      }
      assert Most(source, maxlen, k);
    }
  }

  /** With quotes, `k` characters of the source fit in the buffer, and no more. */
  ghost predicate Most(source: string, maxlen: nat, k: nat) {
    && k <= |source| && |Enquoted(source[..k])| < maxlen
    && forall j :: k < j <= |source| ==> |Enquoted(source[..j])| >= maxlen
  }

  lemma FittedWhole(source: string, maxlen: nat, option: QuoteOption, dest: string)
    requires maxlen > 0 && Fitted(source, maxlen, option, dest)
    ensures option == NoQuotes && |source| < maxlen ==> dest == source
    ensures option == Dequote && |Dequoted(source)| < maxlen ==> dest == Dequoted(source)
    ensures option == Enquote && |Enquoted(source)| < maxlen && maxlen >= 3 ==> dest == Enquoted(source)
  {
    if option == Enquote && maxlen >= 3 && |Enquoted(source)| < maxlen {
      var k :| 0 <= k <= |source| && FittedTo(source, maxlen, k, dest);
      if k < |source| { EscapeLonger(source, k + 1); }
      assert source[..|source|] == source;
    }
  }

  lemma {:induction false} EscapeLonger(v: string, k: nat)
    requires k <= |v|
    ensures |EscapeQuotes(v[..k])| <= |EscapeQuotes(v)|
    decreases |v| - k
  {
    if k == |v| {
      assert v[..k] == v;
    } else {
      EscapeMore(v, k);
      EscapeLonger(v, k + 1);
    }
  }

  method CommentStart(s: string) returns (ep: nat)
    ensures ep == CommentAt(s, false)
  {
    var inside := false;
    ep := 0;
    while ep < |s| && ((s[ep] != ';' && s[ep] != '#') || inside)
      invariant ep <= |s|
      invariant CommentAt(s, false) == ep + CommentAt(s[ep..], inside)
    {
      ghost var rest := s[ep..];
      assert rest[1..] == s[ep + 1..];
      if ep + 2 <= |s| { assert rest[2..] == s[ep + 2..]; }
      if s[ep] == '"' {
        if At(s, ep + 1) == '"' { ep := ep + 1; } else { inside := !inside; }
      } else if s[ep] == '\\' && At(s, ep + 1) == '"' {
        ep := ep + 1;
      }
      ep := ep + 1;
    }
  }

  /** striptrailing */
  method Stripped(s: string) returns (t: string)
    ensures t == StripTrailing(s)
  {
    t := s;
    while t != [] && Blank(t[|t| - 1])
      invariant StripTrailing(s) == StripTrailing(t)
      decreases |t|
    {
      t := t[..|t| - 1];
    }
  }

  /** cleanstring */
  method CleanString(s: string) returns (t: string, quoted: bool)
    ensures quoted <==> Quoted(Clean(s))
    ensures t == if quoted then Inner(Clean(s)) else Clean(s)
  {
    var ep := CommentStart(s);
    t := Stripped(s[..ep]);
    quoted := t != [] && t[0] == '"' && t[|t| - 1] == '"';
    if quoted { t := Inner(t); }
  }
}
