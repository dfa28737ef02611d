/** The text of a file as lines, the way they are read one after the other. */
module IniLines {
  import opened Common
  import opened IniLookup

  function Flat(ls: seq<string>): (r: string) {
    if ls == [] then [] else ls[0] + Flat(ls[1..])
  }

  function Lines(text: string): (r: seq<string>)
    decreases |text|
  {
    var i := Find(text, '\n');
    if text == [] then []
    else if i == |text| then [text]
    else [text[..i + 1]] + Lines(text[i + 1..])
  }

  /** A newline ends a line and is nowhere else in it. */
  predicate Complete(line: string) {
    line != [] && line[|line| - 1] == '\n' && forall i :: 0 <= i < |line| - 1 ==> line[i] != '\n'
  }

  predicate AllComplete(ls: seq<string>) {
    forall i :: 0 <= i < |ls| ==> Complete(ls[i])
  }

  predicate Partial(line: string) {
    line != [] && '\n' !in line
  }

  /** Only the last line may lack its newline. */
  predicate Proper(ls: seq<string>) {
    || ls == []
    || (|ls| == 1 && Partial(ls[0]))
    || (Complete(ls[0]) && Proper(ls[1..]))
  }

  lemma Cons(l: string, t: seq<string>)
    ensures ([l] + t)[0] == l && ([l] + t)[1..] == t
  {
  }

  lemma {:induction false} LinesProper(text: string)
    ensures Proper(Lines(text)) && Flat(Lines(text)) == text
    decreases |text|
  {
    var i := Find(text, '\n');
    if text == [] {
    } else if i == |text| {
      FlatOne(text);
    } else {
      var l, t := text[..i + 1], Lines(text[i + 1..]);
      LinesProper(text[i + 1..]);
      Cons(l, t);
      assert text == l + text[i + 1..];
    }
  }

  lemma {:induction false} ProperPlus(a: seq<string>, b: seq<string>)
    requires AllComplete(a) && Proper(b)
    ensures Proper(a + b)
  {
    if a == [] {
      assert a + b == b;
    } else {
      ProperPlus(a[1..], b);
      assert (a + b)[1..] == a[1..] + b;
    }
  }

  lemma {:induction false} ProperParts(ls: seq<string>, j: nat)
    requires Proper(ls) && j <= |ls|
    ensures Proper(ls[j..])
    ensures j < |ls| ==> AllComplete(ls[..j])
    ensures ls != [] ==> Complete(ls[|ls| - 1]) || Partial(ls[|ls| - 1])
    ensures ls != [] && Complete(ls[|ls| - 1]) ==> AllComplete(ls)
  {
    if |ls| <= 1 {
      assert j == 0 ==> ls[j..] == ls;
      assert j == 1 ==> ls[j..] == [];
    } else {
      ProperParts(ls[1..], if j == 0 then 0 else j - 1);
      if j == 0 {
        assert ls[j..] == ls;
      } else {
        assert ls[1..][j - 1..] == ls[j..];
        if j < |ls| { assert ls[..j] == [ls[0]] + ls[1..][..j - 1]; }
      }
    }
  }

  lemma FindEnd(line: string, t: string)
    requires Complete(line)
    ensures Find(line + t, '\n') == |line| - 1
  {
    FindAt(line + t, '\n', |line| - 1);
  }

  lemma LastLine(l: string)
    requires Partial(l)
    ensures Lines(l) == [l]
  {
    assert Find(l, '\n') == |l|;
  }

  lemma {:induction false} LinesOfFlat(ls: seq<string>)
    requires Proper(ls)
    ensures Lines(Flat(ls)) == ls
  {
    if ls == [] {
    } else {
      HeadTail(ls);
      if Complete(ls[0]) {
        LinesOfFlat(ls[1..]);
        FirstLine(ls[0], Flat(ls[1..]));
      } else {
        FlatOne(ls[0]);
        LastLine(ls[0]);
      }
    }
  }

  lemma FirstLine(l: string, t: string)
    requires Complete(l)
    ensures Lines(l + t) == [l] + Lines(t)
  {
    FindEnd(l, t);
    assert (l + t)[..|l|] == l && (l + t)[|l|..] == t;
  }

  lemma {:induction false} FlatPlus(a: seq<string>, b: seq<string>)
    ensures Flat(a + b) == Flat(a) + Flat(b)
  {
    if a == [] {
      assert a + b == b;
    } else {
      FlatPlus(a[1..], b);
      assert (a + b)[0] == a[0] && (a + b)[1..] == a[1..] + b;
      assert a[0] + (Flat(a[1..]) + Flat(b)) == a[0] + Flat(a[1..]) + Flat(b);
    }
  }

  lemma FlatOne(line: string)
    ensures Flat([line]) == line
  {
    assert [line][1..] == [] && line + [] == line;
  }

  /** One more line of a stretch. */
  lemma FlatNext(ls: seq<string>, i: nat, j: nat)
    requires i <= j < |ls|
    ensures Flat(ls[i..j + 1]) == Flat(ls[i..j]) + ls[j]
  {
    assert ls[i..j + 1] == ls[i..j] + [ls[j]];
    FlatPlus(ls[i..j], [ls[j]]);
    FlatOne(ls[j]);
  }

  lemma FlatJoin(ls: seq<string>, i: nat, j: nat, k: nat)
    requires i <= j <= k <= |ls|
    ensures Flat(ls[i..k]) == Flat(ls[i..j]) + Flat(ls[j..k])
  {
    assert ls[i..k] == ls[i..j] + ls[j..k];
    FlatPlus(ls[i..j], ls[j..k]);
  }

  /** A shorter stretch of lines, none of them empty, has less text. */
  lemma FlatLess(ls: seq<string>, i: nat, j: nat, k: nat)
    requires i <= j < k <= |ls| && forall n :: 0 <= n < |ls| ==> ls[n] != []
    ensures |Flat(ls[i..j])| < |Flat(ls[i..k])|
  {
    FlatJoin(ls, i, j, k);
    FlatJoin(ls, j, j + 1, k);
    FlatNext(ls, j, j);
    assert ls[j..j] == [];
  }
}
