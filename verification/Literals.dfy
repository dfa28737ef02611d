/**
  String literals: how the lexer reads them (utility/sqlexer.cpp) and how a string is
  escaped to be written as one (utility/sqstdstring.cpp), on bytes, in the "C" locale and
  with an unsigned SQChar.
 */
module Literals {
  import opened Common

  const BELL: byte := 7
  const BACKSPACE: byte := 8
  const TAB: byte := 9
  const NEWLINE: byte := 10
  const VTAB: byte := 11
  const FEED: byte := 12
  const RETURN: byte := 13
  const DOUBLE: byte := 34
  const SINGLE: byte := 39
  const SLASH: byte := 92

  // ---------- Escaping ----------

  predicate Printable(c: byte) {
    0x20 <= c < 0x7F
  }

  /** The letter after the backslash, or zero if `c` stands for itself. */
  function EscapeLetter(c: byte): (r: byte) {
    if c == BELL then 97
    else if c == BACKSPACE then 98
    else if c == TAB then 116
    else if c == NEWLINE then 110
    else if c == VTAB then 118
    else if c == FEED then 102
    else if c == RETURN then 114
    else if c == SLASH || c == DOUBLE || c == SINGLE then c
    else if c == 0 then 48
    else 0
  }

  function HexDigit(n: int): (r: byte)
    requires 0 <= n < 16
  {
    if n < 10 then 48 + n else 87 + n
  }

  function EscapeChar(c: byte): (r: seq<byte>) {
    if Printable(c) || c == 0 then
      if EscapeLetter(c) != 0 then [SLASH, EscapeLetter(c)] else [c]
    else
      [SLASH, 120, HexDigit(c / 16), HexDigit(c % 16)]
  }

  function Escape(s: seq<byte>): (r: seq<byte>) {
    if s == [] then [] else EscapeChar(s[0]) + Escape(s[1..])
  }

  // ---------- Reading ----------

  datatype Error = NoString | Unfinished | NewlineInConstant | NoHexDigit | BadEscape

  datatype Lexed = Lexed(chars: seq<byte>, rest: seq<byte>) | Fault(error: Error)

  function Prepend(cs: seq<byte>, l: Lexed): (r: Lexed) {
    if l.Fault? then l else Lexed(cs + l.chars, l.rest)
  }

  /** The character the lexer looks at: zero at the end of the input. */
  function Cur(s: seq<byte>): (r: byte) {
    if s == [] then 0 else s[0]
  }

  function Next(s: seq<byte>): (r: seq<byte>) {
    if s == [] then [] else s[1..]
  }

  /** The value of a hexadecimal digit, or 16. */
  function HexValue(c: byte): (v: int)
    ensures 0 <= v <= 16
  {
    if 48 <= c < 58 then c - 48
    else if 97 <= c < 103 then c - 87
    else if 65 <= c < 71 then c - 55
    else 16
  }

  /** How many of the first `max` characters are hexadecimal digits without a gap, and their value. */
  function HexCount(s: seq<byte>, max: nat): (n: nat)
    ensures n <= |s| && n <= max
  {
    if max == 0 || HexValue(Cur(s)) == 16 then 0 else 1 + HexCount(s[1..], max - 1)
  }

  function HexNumber(s: seq<byte>, n: nat, acc: nat): (r: nat)
    requires n <= |s|
  {
    if n == 0 then acc else HexNumber(s[1..], n - 1, 16 * acc + HexValue(s[0]))
  }

  /** The code point `ch` as UTF-8; nothing beyond the last one. */
  function UTF8(ch: nat): (r: seq<byte>) {
    if ch < 0x80 then [ch]
    else if ch < 0x800 then [0xC0 + ch / 0x40, 0x80 + ch % 0x40]
    else if ch < 0x10000 then [0xE0 + ch / 0x1000, 0x80 + ch / 0x40 % 0x40, 0x80 + ch % 0x40]
    else if ch < 0x110000 then
      [0xF0 + ch / 0x40000, 0x80 + ch / 0x1000 % 0x40, 0x80 + ch / 0x40 % 0x40, 0x80 + ch % 0x40]
    else []
  }

  /** What one of the single letters stands for. */
  function LetterMeans(c: byte): (r: int) {
    if c == 116 then TAB
    else if c == 97 then BELL
    else if c == 98 then BACKSPACE
    else if c == 110 then NEWLINE
    else if c == 114 then RETURN
    else if c == 118 then VTAB
    else if c == 102 then FEED
    else if c == 48 then 0
    else if c == SLASH || c == DOUBLE || c == SINGLE then c
    else -1
  }

  /**
    The text of a literal from the character after its opening delimiter on, and the input
    after its closing one.
   */
  function Body(delim: byte, verbatim: bool, s: seq<byte>): (r: Lexed)
    requires delim != 0
    decreases |s|
  {
    if Cur(s) == 0 then Fault(Unfinished)
    else if s[0] == delim then
      if verbatim && Cur(s[1..]) == DOUBLE then Prepend([DOUBLE], Body(delim, verbatim, s[2..]))
      else Lexed([], s[1..])
    else if s[0] == NEWLINE && !verbatim then Fault(NewlineInConstant)
    else if s[0] == SLASH && !verbatim then Escaped(delim, s[1..])
    else Prepend([s[0]], Body(delim, verbatim, s[1..]))
  }

  /** The same, from the character after a backslash on. */
  function Escaped(delim: byte, s: seq<byte>): (r: Lexed)
    requires delim != 0
    decreases |s|
  {
    var c := Cur(s);
    if c == 120 || c == 117 || c == 85 then
      var n := HexCount(s[1..], if c == 120 then 2 else if c == 117 then 4 else 8);
      if n == 0 then Fault(NoHexDigit)
      else
        var v := HexNumber(s[1..], n, 0);
        Prepend(if c == 120 then [v % 0x100] else UTF8(v), Body(delim, false, s[1 + n..]))
    else if LetterMeans(c) >= 0 then Prepend([LetterMeans(c)], Body(delim, false, s[1..]))
    else Fault(BadEscape)
  }

  // ---------- What each escape is read as ----------

  /** The escapes of one letter, with the character each is read as. */
  const LETTERS: map<byte, byte> :=
    map[97 := 7, 98 := 8, 116 := 9, 110 := 10, 118 := 11, 102 := 12, 114 := 13, 48 := 0, 34 := 34, 39 := 39, 92 := 92]

  lemma EscapedAt(delim: byte, c: byte, s: seq<byte>)
    requires delim == DOUBLE || delim == SINGLE
    ensures Body(delim, false, [SLASH, c] + s) == Escaped(delim, [c] + s) && ([c] + s)[1..] == s
  {
    assert ([SLASH, c] + s)[1..] == [c] + s;
  }

  /** A backslash and a letter are read as its character; anything but those letters and x, u and U is an error. */
  lemma LettersRead(delim: byte, c: byte, s: seq<byte>)
    requires (delim == DOUBLE || delim == SINGLE) && c !in {120, 117, 85}
    ensures Body(delim, false, [SLASH, c] + s)
         == if c in LETTERS then Prepend([LETTERS[c]], Body(delim, false, s)) else Fault(BadEscape)
  {
    EscapedAt(delim, c, s);
  }

  /** A backslash at the end of the input is an error too. */
  lemma SlashAtEnd(delim: byte)
    requires delim == DOUBLE || delim == SINGLE
    ensures Body(delim, false, [SLASH]) == Fault(BadEscape)
  {
    assert [SLASH][1..] == [];
  }

  /** Hexadecimal digits are 0 to 9, a to f and A to F. */
  lemma HexDigitsAre(n: nat, c: byte)
    ensures n < 10 ==> HexValue(48 + n) == n
    ensures 10 <= n < 16 ==> HexValue(97 + n - 10) == HexValue(65 + n - 10) == n
    ensures HexValue(c) < 16 <==> (48 <= c <= 57 || 97 <= c <= 102 || 65 <= c <= 70)
  {
  }

  predicate AllHex(ds: seq<byte>) {
    forall i :: 0 <= i < |ds| ==> HexValue(ds[i]) < 16
  }

  /** The number written with some digits: the last counts once, each other sixteen times the one behind it. */
  function Sixteens(ds: seq<byte>): (n: nat)
    ensures AllHex(ds) ==> (ds == [] ==> n == 0) && (|ds| <= 1 ==> n < 0x10) && (|ds| <= 2 ==> n < 0x100)
  {
    if ds == [] then 0 else 16 * Sixteens(ds[..|ds| - 1]) + HexValue(ds[|ds| - 1])
  }

  lemma {:induction false} DigitsCount(ds: seq<byte>, s: seq<byte>, max: nat)
    requires AllHex(ds) && |ds| <= max && (|ds| == max || HexValue(Cur(s)) == 16)
    ensures HexCount(ds + s, max) == |ds|
    decreases |ds|
  {
    if ds == [] {
      assert ds + s == s;
    } else {
      assert (ds + s)[1..] == ds[1..] + s;
      DigitsCount(ds[1..], s, max - 1);
    }
  }

  lemma {:induction false} HexGrows(s: seq<byte>, n: nat, acc: nat)
    requires n < |s|
    ensures HexNumber(s, n + 1, acc) == 16 * HexNumber(s, n, acc) + HexValue(s[n])
  {
    if n > 0 { HexGrows(s[1..], n - 1, 16 * acc + HexValue(s[0])); }
  }

  lemma {:induction false} DigitsValue(t: seq<byte>, n: nat)
    requires n <= |t|
    ensures HexNumber(t, n, 0) == Sixteens(t[..n])
    decreases n
  {
    if n > 0 {
      HexGrows(t, n - 1, 0);
      DigitsValue(t, n - 1);
      assert t[..n][..n - 1] == t[..n - 1];
    }
  }

  /**
    `\x`, `\u` and `\U` take as many hexadecimal digits as there are, up to 2, 4 and 8, and are read
    as that byte or that code point; without a digit they are an error.
   */
  lemma HexRead(delim: byte, c: byte, max: nat, ds: seq<byte>, s: seq<byte>)
    requires (delim == DOUBLE || delim == SINGLE)
      && ((c == 120 && max == 2) || (c == 117 && max == 4) || (c == 85 && max == 8))
    requires AllHex(ds) && |ds| <= max && (|ds| == max || HexValue(Cur(s)) == 16)
    ensures Body(delim, false, [SLASH, c] + (ds + s))
         == if ds == [] then Fault(NoHexDigit)
            else Prepend(if c == 120 then [Sixteens(ds)] else UTF8(Sixteens(ds)), Body(delim, false, s))
  {
    EscapedAt(delim, c, ds + s);
    DigitsCount(ds, s, max);
    DigitsValue(ds + s, |ds|);
    DigitsParts(c, ds, s);
    HexEscaped(delim, c, max, ds + s, |ds|, Sixteens(ds), s);
  }

  lemma HexEscaped(delim: byte, c: byte, max: nat, t: seq<byte>, n: nat, v: nat, s: seq<byte>)
    requires delim != 0 && ((c == 120 && max == 2 && v < 0x100) || (c == 117 && max == 4) || (c == 85 && max == 8))
    requires n == HexCount(t, max) && v == HexNumber(t, n, 0) && ([c] + t)[1 + n..] == s
    ensures Escaped(delim, [c] + t)
         == if n == 0 then Fault(NoHexDigit) else Prepend(if c == 120 then [v] else UTF8(v), Body(delim, false, s))
  {
    assert ([c] + t)[1..] == t;
  }

  lemma DigitsParts(c: byte, ds: seq<byte>, s: seq<byte>)
    ensures (ds + s)[..|ds|] == ds && ([c] + (ds + s))[1 + |ds|..] == s
  {
  }

  /** Without a backslash: the delimiter ends a literal, a newline or the end of the input is an error. */
  lemma PlainRead(delim: byte, c: byte, s: seq<byte>)
    requires (delim == DOUBLE || delim == SINGLE) && c != SLASH
    ensures Body(delim, false, [c] + s)
         == if c == delim then Lexed([], s)
            else if c == NEWLINE then Fault(NewlineInConstant)
            else if c == 0 then Fault(Unfinished)
            else Prepend([c], Body(delim, false, s))
    ensures Body(delim, false, []) == Fault(Unfinished)
  {
    assert ([c] + s)[1..] == s;
  }

  // ---------- The round trip ----------

  lemma HexBack(c: byte, s: seq<byte>)
    ensures HexCount([HexDigit(c / 16), HexDigit(c % 16)] + s, 2) == 2
    ensures HexNumber([HexDigit(c / 16), HexDigit(c % 16)] + s, 2, 0) == c
  {
    var t := [HexDigit(c / 16), HexDigit(c % 16)] + s;
    assert t[1..] == [HexDigit(c % 16)] + s && t[1..][1..] == s;
    assert HexNumber(t, 2, 0) == HexNumber(t[1..], 1, c / 16) == HexNumber(s, 0, c);
  }

  lemma HexPieces(a: byte, b: byte, c: byte, d: byte, s: seq<byte>)
    ensures var t := ([a, b, c, d] + s)[1..]; t[0] == b && t[1..] == [c, d] + s && t[3..] == s
  {
  }

  lemma HexCharBack(delim: byte, c: byte, s: seq<byte>)
    requires (delim == DOUBLE || delim == SINGLE) && !Printable(c) && c != 0
    ensures Body(delim, false, EscapeChar(c) + s) == Prepend([c], Body(delim, false, s))
  {
    var t := (EscapeChar(c) + s)[1..];
    HexPieces(SLASH, 120, HexDigit(c / 16), HexDigit(c % 16), s);
    HexBack(c, s);
    assert Escaped(delim, t) == Prepend([c], Body(delim, false, s));
  }

  lemma LetterCharBack(delim: byte, c: byte, s: seq<byte>)
    requires (delim == DOUBLE || delim == SINGLE) && (Printable(c) || c == 0) && EscapeLetter(c) != 0
    ensures Body(delim, false, EscapeChar(c) + s) == Prepend([c], Body(delim, false, s))
  {
    var t := (EscapeChar(c) + s)[1..];
    assert t[0] == EscapeLetter(c) && t[1..] == s && LetterMeans(t[0]) == c;
    assert Escaped(delim, t) == Prepend([c], Body(delim, false, s));
  }

  lemma EscapeCharBack(delim: byte, c: byte, s: seq<byte>)
    requires delim == DOUBLE || delim == SINGLE
    ensures Body(delim, false, EscapeChar(c) + s) == Prepend([c], Body(delim, false, s))
  {
    if !Printable(c) && c != 0 {
      HexCharBack(delim, c, s);
    } else if EscapeLetter(c) != 0 {
      LetterCharBack(delim, c, s);
    } else {
      assert (EscapeChar(c) + s)[1..] == s;
    }
  }

  lemma Shift(a: seq<byte>, b: seq<byte>, delim: byte, rest: seq<byte>)
    ensures a + b + [delim] + rest == a + (b + [delim] + rest)
  {
  }

  lemma Rejoin(s: seq<byte>, rest: seq<byte>)
    requires s != []
    ensures Prepend([s[0]], Lexed(s[1..], rest)) == Lexed(s, rest)
  {
    assert [s[0]] + s[1..] == s;
  }

  lemma Closed(delim: byte, verbatim: bool, rest: seq<byte>)
    requires delim != 0 && !(verbatim && Cur(rest) == DOUBLE)
    ensures Body(delim, verbatim, [] + [delim] + rest) == Lexed([], rest)
  {
    assert [] + [delim] + rest == [delim] + rest && ([delim] + rest)[1..] == rest;
  }

  /**
    The escape of any string, put between double or between single quotes, is read back as
    that string, and what follows the closing quote is left alone.
   */
  lemma {:induction false} EscapeRoundTrip(delim: byte, s: seq<byte>, rest: seq<byte>)
    requires delim == DOUBLE || delim == SINGLE
    ensures Body(delim, false, Escape(s) + [delim] + rest) == Lexed(s, rest)
  {
    if s == [] {
      Closed(delim, false, rest);
    } else {
      Shift(EscapeChar(s[0]), Escape(s[1..]), delim, rest);
      EscapeCharBack(delim, s[0], Escape(s[1..]) + [delim] + rest);
      EscapeRoundTrip(delim, s[1..], rest);
      Rejoin(s, rest);
    }
  }

  /**
    How each byte is escaped: most printable ones as they are, quotes and backslashes behind a
    backslash, the rest in hexadecimal.
   */
  lemma EscapeForms(c: byte)
    ensures Escape([c])
         == if c == 0 then [92, 48]
            else if c == 34 || c == 39 || c == 92 then [92, c]
            else if 32 <= c <= 126 then [c]
            else [92, 120] + [HexDigit(c / 16), HexDigit(c % 16)]
    ensures HexDigit(c % 16) == if c % 16 < 10 then 48 + c % 16 else 97 + (c % 16 - 10)
  {
    assert [c][1..] == [] && Escape([]) == [];
  }

  lemma Joined(a: seq<byte>, b: seq<byte>, c: seq<byte>)
    ensures a + (b + c) == a + b + c
  {
  }

  /** Escaping is done byte by byte. */
  lemma {:induction false} EscapePlus(a: seq<byte>, b: seq<byte>)
    ensures Escape(a + b) == Escape(a) + Escape(b)
  {
    if a == [] {
      assert a + b == b;
    } else {
      EscapePlus(a[1..], b);
      assert (a + b)[1..] == a[1..] + b;
      Joined(EscapeChar(a[0]), Escape(a[1..]), Escape(b));
    }
  }

  /** Doubling the quotes, for a verbatim literal. */
  function DoubledChar(c: byte): (r: seq<byte>) {
    if c == DOUBLE then [DOUBLE, DOUBLE] else [c]
  }

  function Doubled(s: seq<byte>): (r: seq<byte>) {
    if s == [] then [] else DoubledChar(s[0]) + Doubled(s[1..])
  }

  lemma DoubledCharBack(c: byte, s: seq<byte>)
    ensures c != 0 ==> Body(DOUBLE, true, DoubledChar(c) + s) == Prepend([c], Body(DOUBLE, true, s))
    ensures c == 0 ==> Body(DOUBLE, true, DoubledChar(c) + s) == Fault(Unfinished)
  {
    var e := DoubledChar(c) + s;
    if c == DOUBLE {
      assert e[2..] == s;
    } else {
      assert e[1..] == s;
    }
  }

  /** A verbatim literal gives back any string that has no zero byte in it, and no other. */
  lemma {:induction false} VerbatimRoundTrip(s: seq<byte>, rest: seq<byte>)
    requires Cur(rest) != DOUBLE
    ensures Body(DOUBLE, true, Doubled(s) + [DOUBLE] + rest) == if 0 in s then Fault(Unfinished) else Lexed(s, rest)
  {
    if s == [] {
      Closed(DOUBLE, true, rest);
    } else {
      Shift(DoubledChar(s[0]), Doubled(s[1..]), DOUBLE, rest);
      DoubledCharBack(s[0], Doubled(s[1..]) + [DOUBLE] + rest);
      VerbatimRoundTrip(s[1..], rest);
      Rejoin(s, rest);
      assert 0 in s <==> s[0] == 0 || 0 in s[1..];
    }
  }

  // ---------- UTF-8 ----------

  /** The low six bits of a continuation byte. */
  function Low(c: byte): (r: int) {
    c - 0x80
  }

  /** The code point at the start of `s`, read by its lead byte. */
  function CodePoint(s: seq<byte>): (r: int) {
    var lead: int := Cur(s);
    if |s| >= 1 && lead < 0x80 then lead
    else if |s| >= 2 && 0xC0 <= lead < 0xE0 then (lead - 0xC0) * 0x40 + Low(s[1])
    else if |s| >= 3 && 0xE0 <= lead < 0xF0 then (lead - 0xE0) * 0x1000 + Low(s[1]) * 0x40 + Low(s[2])
    else if |s| >= 4 && 0xF0 <= lead then
      (lead - 0xF0) * 0x40000 + Low(s[1]) * 0x1000 + Low(s[2]) * 0x40 + Low(s[3])
    else -1
  }

  /**
    Every code point has one encoding, told from the others by its lead byte and followed by
    continuation bytes only.
   */
  lemma UTF8Back(ch: nat, t: seq<byte>)
    requires ch < 0x110000
    ensures CodePoint(UTF8(ch) + t) == ch
    ensures forall i :: 1 <= i < |UTF8(ch)| ==> 0x80 <= UTF8(ch)[i] < 0xC0
  {
    var a, b := ch / 0x40, ch / 0x1000;
    assert a / 0x40 == b && b / 0x40 == ch / 0x40000;
  }

  /** It is as short as it can be: 7, 11, 16 or 21 bits; beyond the last code point nothing is written. */
  lemma UTF8Short(ch: nat)
    ensures |UTF8(ch)| == if ch < 0x80 then 1 else if ch < 0x800 then 2 else if ch < 0x10000 then 3
                          else if ch < 0x110000 then 4 else 0
  {
  }

  // ---------- The methods ----------

  /** One round of the loop of _string_escape. */
  method EscapeOne(c: byte) returns (e: seq<byte>, escaped: nat)
    ensures e == EscapeChar(c)
    ensures escaped == 0 ==> e == [c]
  {
    escaped := 0;
    if Printable(c) || c == 0 {
      var letter := EscapeLetter(c);
      if letter != 0 {
        e := [SLASH, letter];
        escaped := 1;
      } else {
        e := [c];
      }
    } else {
      e := [SLASH, 120, HexDigit(c / 16), HexDigit(c % 16)];
      escaped := 1;
    }
  }

  lemma EscapeNext(str: seq<byte>, n: nat, dest: seq<byte>)
    requires n < |str|
    ensures dest + Escape(str[n..]) == dest + EscapeChar(str[n]) + Escape(str[n + 1..])
  {
    assert str[n..][1..] == str[n + 1..];
  }

  /** _string_escape */
  method EscapeString(str: seq<byte>) returns (r: seq<byte>)
    ensures r == Escape(str)
  {
    var dest: seq<byte> := [];
    var escaped, n := 0, 0;
    while n < |str|
      invariant 0 <= n <= |str|
      invariant dest + Escape(str[n..]) == Escape(str)
      invariant escaped == 0 ==> dest == str[..n]
    {
      EscapeNext(str, n, dest);
      var e, more := EscapeOne(str[n]);
      dest, escaped, n := dest + e, escaped + more, n + 1;
    }
    assert str[n..] == [] && str[..n] == str;
    r := if escaped != 0 then dest else str;
  }

  datatype Token =
    | StringLiteral(chars: seq<byte>)
    | Integer(value: byte)
    | EmptyConstant
    | TooLong
    | Failed(error: Error)

  function TokenOf(delim: byte, chars: seq<byte>): (r: Token) {
    if delim != SINGLE then StringLiteral(chars)
    else if chars == [] then EmptyConstant
    else if |chars| > 1 then TooLong
    else Integer(chars[0])
  }

  /** The token at the start of `s`, which begins with the opening delimiter. */
  function Literal(delim: byte, verbatim: bool, s: seq<byte>): (r: Lexed)
    requires delim != 0
  {
    if Cur(Next(s)) == 0 then Fault(NoString) else Body(delim, verbatim, Next(s))
  }

  /**
    What the whole literal is read as: between double quotes the string, between single quotes the one
    character there must be.
   */
  lemma TokenRead(delim: byte, s: seq<byte>, rest: seq<byte>)
    requires delim == DOUBLE || delim == SINGLE
    ensures Literal(delim, false, [delim] + (Escape(s) + [delim] + rest)) == Lexed(s, rest)
    ensures TokenOf(delim, s)
         == if delim == DOUBLE then StringLiteral(s)
            else if |s| == 0 then EmptyConstant
            else if |s| == 1 then Integer(s[0])
            else TooLong
  {
    var t := Escape(s) + [delim] + rest;
    assert ([delim] + t)[1..] == t;
    EscapeRoundTrip(delim, s, rest);
  }

  /** Without anything behind the opening quote there is no string. */
  lemma NothingRead(delim: byte, verbatim: bool)
    requires delim != 0
    ensures Literal(delim, verbatim, [delim]) == Fault(NoString)
  {
    assert [delim][1..] == [];
  }

  lemma Further(a: seq<byte>, b: seq<byte>, l: Lexed)
    ensures Prepend(a, Prepend(b, l)) == Prepend(a + b, l)
  {
    if l.Lexed? { assert a + (b + l.chars) == a + b + l.chars; }
  }

  class SQLexer {
    /** What has not been read yet, from the current character on. */
    var ahead: seq<byte>
    var longstr: seq<byte>

    /** Reads the digits after the current character. */
    method ProcessStringHexEscape(maxdigits: nat) returns (n: nat, value: nat)
      requires ahead != []
      modifies this`ahead
      ensures n == HexCount(old(ahead)[1..], maxdigits)
      ensures ahead == old(ahead)[1 + n..]
      ensures value == HexNumber(old(ahead)[1..], n, 0)
    {
      ahead := Next(ahead);
      ghost var s := ahead;
      n, value := 0, 0;
      while n < maxdigits && HexValue(Cur(ahead)) != 16
        invariant n <= maxdigits && n <= |s| && ahead == s[n..]
        invariant HexCount(s, maxdigits) == n + HexCount(ahead, maxdigits - n)
        invariant value == HexNumber(s, n, 0)
      {
        HexGrows(s, n, 0);
        value := 16 * value + HexValue(Cur(ahead));
        n, ahead := n + 1, Next(ahead);
      }
    }

    /** One escape, from the character after the backslash on. */
    method ReadEscape(delim: byte, ghost whole: Lexed) returns (bad: bool, error: Error)
      requires delim != 0 && whole == Prepend(longstr, Escaped(delim, ahead))
      modifies this
      ensures if bad then whole == Fault(error)
              else |ahead| < |old(ahead)| && whole == Prepend(longstr, Body(delim, false, ahead))
    {
      bad, error := false, BadEscape;
      var c := Cur(ahead);
      var means: seq<byte>;
      if c == 120 || c == 117 || c == 85 {
        var n, value := ProcessStringHexEscape(if c == 120 then 2 else if c == 117 then 4 else 8);
        if n == 0 { return true, NoHexDigit; }
        means := if c == 120 then [value % 0x100] else UTF8(value);
      } else if LetterMeans(c) >= 0 {
        means := [LetterMeans(c)];
        ahead := Next(ahead);
      } else {
        return true, BadEscape;
      }
      Further(longstr, means, Body(delim, false, ahead));
      longstr := longstr + means;
    }

    /** The character of a literal the lexer looks at, which is not its delimiter. */
    method ReadOne(delim: byte, verbatim: bool, ghost whole: Lexed) returns (bad: bool, error: Error)
      requires delim != 0 && Cur(ahead) != delim && whole == Prepend(longstr, Body(delim, verbatim, ahead))
      modifies this
      ensures if bad then whole == Fault(error)
              else |ahead| < |old(ahead)| && whole == Prepend(longstr, Body(delim, verbatim, ahead))
    {
      bad, error := false, Unfinished;
      var x := Cur(ahead);
      if x == 0 {
        bad := true;
      } else if x == NEWLINE && !verbatim {
        bad, error := true, NewlineInConstant;
      } else if x == SLASH && !verbatim {
        ahead := Next(ahead);
        bad, error := ReadEscape(delim, whole);
      } else {
        Further(longstr, [x], Body(delim, verbatim, Next(ahead)));
        longstr, ahead := longstr + [x], Next(ahead);
      }
    }

    /** Up to the next delimiter. */
    method ReadPart(delim: byte, verbatim: bool, ghost whole: Lexed) returns (bad: bool, error: Error)
      requires delim != 0 && whole == Prepend(longstr, Body(delim, verbatim, ahead))
      modifies this
      ensures if bad then whole == Fault(error)
              else (&& |ahead| <= |old(ahead)| && Cur(ahead) == delim
                    && whole == Prepend(longstr, Body(delim, verbatim, ahead)))
    {
      bad, error := false, Unfinished;
      while Cur(ahead) != delim
        invariant !bad && |ahead| <= |old(ahead)| && whole == Prepend(longstr, Body(delim, verbatim, ahead))
        decreases |ahead|
      {
        bad, error := ReadOne(delim, verbatim, whole);
        if bad { return; }
      }
    }

    method ReadString(delim: byte, verbatim: bool) returns (t: Token)
      requires delim != 0
      modifies this
      ensures match Literal(delim, verbatim, old(ahead))
              case Fault(error) => t == Failed(error)
              case Lexed(chars, rest) => t == TokenOf(delim, chars) && ahead == rest
    {
      longstr := [];
      ahead := Next(ahead);
      if Cur(ahead) == 0 { return Failed(NoString); }
      ghost var whole := Body(delim, verbatim, ahead);
      var done := false;
      while !done
        invariant whole == Prepend(longstr, if done then Lexed([], ahead) else Body(delim, verbatim, ahead))
        decreases |ahead|, !done
      {
        var bad, error := ReadPart(delim, verbatim, whole);
        if bad { return Failed(error); }
        ahead := Next(ahead);
        if verbatim && Cur(ahead) == DOUBLE {
          Further(longstr, [DOUBLE], Body(delim, verbatim, Next(ahead)));
          longstr, ahead := longstr + [DOUBLE], Next(ahead);
        } else {
          done := true;
        }
      }
      t := TokenOf(delim, longstr);
    }
  }
}
