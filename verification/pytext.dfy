/**
 * The Python text built-ins the cache code leans on, as pure functions:
 * `str.split()` with no argument, `int()` on one whitespace-free field,
 * `str(n)` for a non-negative integer, `str.isdigit()`, and slicing `s[lo:hi]`.
 */
module PyText {
  import opened Common

  // ---------------------------------------------------------------------------
  // Characters

  /** The characters for which Python's `str.isspace()` holds. */
  predicate IsSpace(c: char) {
    || c == ' '
    || '\t' <= c <= '\r'
    || '\U{1c}' <= c <= '\U{1f}'
    || c == '\U{85}' || c == '\U{a0}' || c == '\U{1680}'
    || '\U{2000}' <= c <= '\U{200a}'
    || c == '\U{2028}' || c == '\U{2029}' || c == '\U{202f}' || c == '\U{205f}' || c == '\U{3000}'
  }

  predicate IsDigit(c: char) {
    '0' <= c <= '9'
  }

  function DigitValue(c: char): nat
    requires IsDigit(c)
  {
    c as int - '0' as int
  }

  function DigitChar(d: nat): (c: char)
    requires d < 10
    ensures IsDigit(c) && DigitValue(c) == d
  {
    ('0' as int + d) as char
  }

  // ---------------------------------------------------------------------------
  // str.split()

  /** A field `str.split()` can return: non-empty, no whitespace. */
  predicate IsToken(t: string) {
    |t| > 0 && forall i :: 0 <= i < |t| ==> !IsSpace(t[i])
  }

  /** Length of the run of non-whitespace characters that starts `s`. */
  function TokenLength(s: string): (k: nat)
    requires |s| > 0 && !IsSpace(s[0])
    ensures 0 < k <= |s|
    ensures forall i :: 0 <= i < k ==> !IsSpace(s[i])
    ensures k < |s| ==> IsSpace(s[k])
    decreases |s|
  {
    if |s| == 1 || IsSpace(s[1]) then 1 else 1 + TokenLength(s[1..])
  }

  /** `s.split()`: the maximal whitespace-free runs of `s`, in order. */
  function Split(s: string): (fields: seq<string>)
    ensures forall i :: 0 <= i < |fields| ==> IsToken(fields[i])
    decreases |s|
  {
    if |s| == 0 then []
    else if IsSpace(s[0]) then Split(s[1..])
    else
      var k := TokenLength(s);
      [s[..k]] + Split(s[k..])
  }

  /** `' '.join(words)`. */
  function Words(ws: seq<string>): string
    decreases |ws|
  {
    if |ws| == 0 then ""
    else if |ws| == 1 then ws[0]
    else ws[0] + " " + Words(ws[1..])
  }

  /** `' '.join` of five words. */
  lemma WordsOfFive(a: string, b: string, c: string, d: string, e: string)
    ensures Words([a, b, c, d, e]) == a + " " + b + " " + c + " " + d + " " + e
  {
    var f := [a, b, c, d, e];
    assert Words(f[4..]) == e;
    assert Words(f[3..]) == d + " " + e by { assert f[3..][1..] == f[4..]; }
    assert Words(f[2..]) == c + " " + Words(f[3..]) by { assert f[2..][1..] == f[3..]; }
    assert Words(f[1..]) == b + " " + Words(f[2..]) by { assert f[1..][1..] == f[2..]; }
  }

  lemma {:induction false} TokenLengthOfToken(t: string, rest: string)
    requires IsToken(t)
    requires |rest| == 0 || IsSpace(rest[0])
    ensures TokenLength(t + rest) == |t|
    decreases |t|
  {
    if |t| > 1 {
      assert (t + rest)[1..] == t[1..] + rest;
      TokenLengthOfToken(t[1..], rest);
    }
  }

  /** A token followed by whitespace (or nothing) splits off as the first field. */
  lemma SplitAfterToken(t: string, rest: string)
    requires IsToken(t)
    requires |rest| == 0 || IsSpace(rest[0])
    ensures Split(t + rest) == [t] + Split(rest)
  {
    TokenLengthOfToken(t, rest);
    assert (t + rest)[..|t|] == t;
    assert (t + rest)[|t|..] == rest;
  }

  /** Joining fields with single spaces and ending the line gives those fields back. */
  lemma {:induction false} SplitWordsLine(ws: seq<string>)
    requires forall i :: 0 <= i < |ws| ==> IsToken(ws[i])
    ensures Split(Words(ws) + "\n") == ws
    decreases |ws|
  {
    if |ws| == 0 {
      assert Words(ws) + "\n" == "\n";
      assert Split("\n") == Split("");
    } else if |ws| == 1 {
      assert Words(ws) + "\n" == ws[0] + "\n";
      SplitAfterToken(ws[0], "\n");
      assert Split("\n") == Split("");
    } else {
      var rest := Words(ws[1..]) + "\n";
      assert Words(ws) + "\n" == ws[0] + (" " + rest);
      SplitAfterToken(ws[0], " " + rest);
      assert (" " + rest)[1..] == rest;
      SplitWordsLine(ws[1..]);
      assert ws == [ws[0]] + ws[1..];
    }
  }

  // ---------------------------------------------------------------------------
  // str(n) and int(field)

  /** `str(n)` for a non-negative integer: decimal digits, no leading zeros. */
  function NatStr(n: nat): (s: string)
    ensures |s| > 0
    ensures forall i :: 0 <= i < |s| ==> IsDigit(s[i])
    decreases n
  {
    if n < 10 then [DigitChar(n)] else NatStr(n / 10) + [DigitChar(n % 10)]
  }

  /** The value of a string of digits and underscores, the underscores ignored. */
  function NumeralValue(s: string): nat
    decreases |s|
  {
    if |s| == 0 then 0
    else
      var c := s[|s| - 1];
      if IsDigit(c) then NumeralValue(s[..|s| - 1]) * 10 + DigitValue(c)
      else NumeralValue(s[..|s| - 1])
  }

  /** The digit strings `int()` accepts in base 10: single underscores may separate digits. */
  predicate IsNumeral(s: string) {
    && |s| > 0
    && IsDigit(s[0])
    && IsDigit(s[|s| - 1])
    && (forall i :: 0 <= i < |s| ==> IsDigit(s[i]) || s[i] == '_')
    && (forall i :: 0 <= i < |s| - 1 ==> s[i] == '_' ==> IsDigit(s[i + 1]))
  }

  /**
   * `int(t)` for a string without whitespace (every field `split()` returns is one):
   * an optional sign and a numeral, or None where Python raises ValueError.
   */
  function ParseInt(t: string): (r: Option<int>)
    ensures r.Some? ==> |t| > 0
  {
    if |t| > 0 && (t[0] == '+' || t[0] == '-') then
      if IsNumeral(t[1..]) then
        Some(if t[0] == '-' then -(NumeralValue(t[1..]) as int) else NumeralValue(t[1..]))
      else None
    else if IsNumeral(t) then Some(NumeralValue(t))
    else None
  }

  /** `t.isdigit()`, for ASCII digits. */
  predicate IsDigits(t: string) {
    |t| > 0 && forall i :: 0 <= i < |t| ==> IsDigit(t[i])
  }

  lemma {:induction false} NatStrValue(n: nat)
    ensures NumeralValue(NatStr(n)) == n
    decreases n
  {
    if n >= 10 {
      var s := NatStr(n);
      assert s[..|s| - 1] == NatStr(n / 10);
      NatStrValue(n / 10);
    }
  }

  /** `int(str(n)) == n`: the written count reads back as the same number. */
  lemma ParseNatStr(n: nat)
    ensures ParseInt(NatStr(n)) == Some(n)
  {
    NatStrValue(n);
  }

  /** `str(n)` for any integer: a minus sign before the digits of a negative number. */
  function IntStr(n: int): (s: string)
    ensures IsToken(s)
  {
    if n < 0 then "-" + NatStr(-n) else NatStr(n)
  }

  /** `int(str(n)) == n`, negative numbers included. */
  lemma ParseIntStr(n: int)
    ensures ParseInt(IntStr(n)) == Some(n)
  {
    if n < 0 {
      NatStrValue(-n);
      assert IntStr(n)[1..] == NatStr(-n);
    } else {
      ParseNatStr(n);
    }
  }

  // ---------------------------------------------------------------------------
  // Slicing

  /** Python's normalisation of a slice bound `i` against a length `n` (step 1). */
  function SliceBound(i: int, n: nat): (k: nat)
    ensures k <= n
    ensures 0 <= i <= n ==> k == i
    ensures i > n ==> k == n
    ensures -(n as int) <= i < 0 ==> k == n + i
    ensures i < -(n as int) ==> k == 0
  {
    if i < 0 then (if i + n < 0 then 0 else i + n)
    else if i > n then n
    else i
  }

  /** `s[lo:hi]`. */
  function Slice<T>(s: seq<T>, lo: int, hi: int): (r: seq<T>)
    ensures |r| == Max(0, SliceBound(hi, |s|) - SliceBound(lo, |s|))
  {
    var a := SliceBound(lo, |s|);
    var b := SliceBound(hi, |s|);
    if a <= b then s[a..b] else []
  }

  /** `s[:n]` and `s[n:]` split `s` and put it back together. */
  lemma SliceSplit<T>(s: seq<T>, n: nat)
    ensures Slice(s, 0, n) + Slice(s, n, |s|) == s
    ensures Slice(s, 0, n) == s[..Min(n, |s|)]
    ensures Slice(s, n, |s|) == s[Min(n, |s|)..]
  {
  }

  /** `s[:n]` and `s[n:]` of a sequence built as `a + b` with `|a| == n`. */
  lemma SliceAtSeam<T>(a: seq<T>, b: seq<T>)
    ensures Slice(a + b, 0, |a|) == a
    ensures Slice(a + b, |a|, |a + b|) == b
  {
    SliceSplit(a + b, |a|);
    SplitAtSeam(a, b);
  }
}
