/**
 * A text file as Python's `readlines()` sees it and as `writelines()` writes it.
 * `ReadLines` cuts the text after every '\n' and keeps the '\n'; the last line
 * may lack one. `WriteLines` concatenates. Reading back what was written gives
 * the same lines exactly when every line but the last is terminated.
 */
module Lines {

  /** A line as `readlines()` returns it: non-empty, '\n' at most as its last character. */
  predicate LineShape(l: string) {
    |l| > 0 && forall j :: 0 <= j < |l| - 1 ==> l[j] != '\n'
  }

  predicate Terminated(l: string) {
    |l| > 0 && l[|l| - 1] == '\n'
  }

  /** A line that ends in its only '\n'. */
  predicate ProperLine(l: string) {
    LineShape(l) && Terminated(l)
  }

  /** Lines that `readlines()` could have returned: all shaped, all but the last terminated. */
  predicate WellFormed(ls: seq<string>) {
    && (forall i :: 0 <= i < |ls| ==> LineShape(ls[i]))
    && (forall i :: 0 <= i < |ls| - 1 ==> Terminated(ls[i]))
  }

  /** Text without a '\n', closed by one, is a complete line. */
  lemma BreakFreeLine(text: string)
    requires '\n' !in text
    ensures ProperLine(text + "\n")
  {
    var l := text + "\n";
    forall j | 0 <= j < |l| - 1
      ensures l[j] != '\n'
    {
      assert l[j] == text[j];
    }
  }

  /** `f.writelines(ls)`. */
  function WriteLines(ls: seq<string>): string
    decreases |ls|
  {
    if |ls| == 0 then "" else ls[0] + WriteLines(ls[1..])
  }

  /** Length of the first line of `t`: up to and including the first '\n', or all of `t`. */
  function LineLength(t: string): (k: nat)
    requires |t| > 0
    ensures 0 < k <= |t|
    ensures forall j :: 0 <= j < k - 1 ==> t[j] != '\n'
    ensures k == |t| || t[k - 1] == '\n'
    decreases |t|
  {
    if t[0] == '\n' || |t| == 1 then 1 else 1 + LineLength(t[1..])
  }

  /** `f.readlines()` on a file holding `t`. */
  function ReadLines(t: string): (ls: seq<string>)
    ensures WellFormed(ls)
    ensures WriteLines(ls) == t
    decreases |t|
  {
    if |t| == 0 then []
    else
      var k := LineLength(t);
      assert t == t[..k] + t[k..];
      [t[..k]] + ReadLines(t[k..])
  }

  lemma {:induction false} WriteLinesAppend(a: seq<string>, b: seq<string>)
    ensures WriteLines(a + b) == WriteLines(a) + WriteLines(b)
    decreases |a|
  {
    if |a| > 0 {
      assert (a + b)[1..] == a[1..] + b;
      WriteLinesAppend(a[1..], b);
      assert a[0] + (WriteLines(a[1..]) + WriteLines(b)) == (a[0] + WriteLines(a[1..])) + WriteLines(b);
    } else {
      assert a + b == b;
    }
  }

  lemma {:induction false} LineLengthOfLine(l: string, rest: string)
    requires LineShape(l)
    requires Terminated(l) || |rest| == 0
    ensures LineLength(l + rest) == |l|
    decreases |l|
  {
    if |l| > 1 {
      assert (l + rest)[1..] == l[1..] + rest;
      LineLengthOfLine(l[1..], rest);
    }
  }

  /** Reading back written lines gives them again exactly when they are well formed. */
  lemma {:induction false} ReadWriteLines(ls: seq<string>)
    ensures ReadLines(WriteLines(ls)) == ls <==> WellFormed(ls)
    decreases |ls|
  {
    if WellFormed(ls) && |ls| > 0 {
      var rest := WriteLines(ls[1..]);
      assert Terminated(ls[0]) || |ls| == 1;
      assert |ls| == 1 ==> rest == "";
      LineLengthOfLine(ls[0], rest);
      assert (ls[0] + rest)[..|ls[0]|] == ls[0];
      assert (ls[0] + rest)[|ls[0]|..] == rest;
      assert WellFormed(ls[1..]);
      ReadWriteLines(ls[1..]);
      assert ls == [ls[0]] + ls[1..];
    }
  }

  /** Well-formed lines followed by one more well-formed run stay well formed when the first run is terminated. */
  lemma WellFormedAppend(a: seq<string>, b: seq<string>)
    requires WellFormed(a) && WellFormed(b)
    requires |a| == 0 || |b| == 0 || Terminated(a[|a| - 1])
    ensures WellFormed(a + b)
  {
    var ab := a + b;
    forall i | 0 <= i < |ab| - 1
      ensures Terminated(ab[i])
    {
      if i >= |a| {
        assert ab[i] == b[i - |a|];
      }
    }
  }

  /** Every suffix of well-formed lines is well formed. */
  lemma WellFormedSuffix(ls: seq<string>, n: nat)
    requires WellFormed(ls) && n <= |ls|
    ensures WellFormed(ls[n..])
  {
    var s := ls[n..];
    assert forall i :: 0 <= i < |s| ==> s[i] == ls[n + i];
  }

  lemma PrependRest<T>(a: seq<T>, r: seq<T>)
    requires |a| > 0
    ensures [a[0]] + (a[1..] + r) == a + r
  {
    assert a == [a[0]] + a[1..];
  }

  /** A complete line at the front of a text is the first line read from it. */
  lemma ReadLinesCons(l: string, tail: string)
    requires ProperLine(l)
    ensures ReadLines(l + tail) == [l] + ReadLines(tail)
  {
    var t := l + tail;
    LineLengthOfLine(l, tail);
    assert t[..|l|] == l;
    assert t[|l|..] == tail;
  }

  /** Complete lines written before any text are read back as themselves, whatever follows them. */
  lemma {:induction false} ReadLinesAfterProper(a: seq<string>, rest: string)
    requires forall i :: 0 <= i < |a| ==> ProperLine(a[i])
    ensures ReadLines(WriteLines(a) + rest) == a + ReadLines(rest)
    decreases |a|
  {
    if |a| > 0 {
      var tail := WriteLines(a[1..]) + rest;
      assert ReadLines(WriteLines(a) + rest) == [a[0]] + ReadLines(tail) by {
        assert WriteLines(a) + rest == a[0] + tail;
        ReadLinesCons(a[0], tail);
      }
      assert ReadLines(tail) == a[1..] + ReadLines(rest) by {
        ReadLinesAfterProper(a[1..], rest);
      }
      PrependRest(a, ReadLines(rest));
    } else {
      assert WriteLines(a) + rest == rest;
      assert a + ReadLines(rest) == ReadLines(rest);
    }
  }

  /** Complete lines, written and read back, are the same lines. */
  lemma ProperLinesRead(ls: seq<string>)
    requires forall i :: 0 <= i < |ls| ==> ProperLine(ls[i])
    ensures ReadLines(WriteLines(ls)) == ls
  {
    ReadWriteLines(ls);
  }

  lemma ProperLinesAppend(a: seq<string>, b: seq<string>)
    requires forall i :: 0 <= i < |a| ==> ProperLine(a[i])
    requires forall i :: 0 <= i < |b| ==> ProperLine(b[i])
    ensures forall i :: 0 <= i < |a + b| ==> ProperLine((a + b)[i])
  {
  }
}
