/**
 * One record line of the LOC cache file:
 * `<hash> <commitCountAtSync> <myCommits> <added> <deleted>\n`,
 * written by joining the fields with single spaces and read back with
 * `split()` and `int()`.
 */
module CacheLine {
  import opened Common
  import opened PyText
  import opened Lines

  /** `hashlib.sha256(...).hexdigest()`: 64 lower-case hexadecimal digits. */
  predicate IsHexDigest(s: string) {
    |s| == 64 && forall i :: 0 <= i < |s| ==> IsDigit(s[i]) || 'a' <= s[i] <= 'f'
  }

  type Digest = s: string | IsHexDigest(s)
    witness seq(64, _ => '0')

  /** The five fields of a cache record; the hash field identifies the repository by `nameWithOwner`. */
  datatype Record = Record(hash: string, syncedCount: int, myCommits: int, added: int, deleted: int)

  /** The record's fields as text, in file order. */
  function Fields(r: Record): seq<string> {
    [r.hash, IntStr(r.syncedCount), IntStr(r.myCommits), IntStr(r.added), IntStr(r.deleted)]
  }

  /** The line written for a refreshed repository: its fields joined by single spaces, then '\n'. */
  function FormatRecord(r: Record): string {
    Words(Fields(r)) + "\n"
  }

  /** The literal line written for a fresh or branchless repository. */
  function ZeroLine(hash: string): string {
    hash + " 0 0 0 0\n"
  }

  lemma DigestIsToken(d: Digest)
    ensures IsToken(d)
  {
  }

  /** The written line is the concatenation the code builds, field by field. */
  lemma FormatIsConcatenation(r: Record)
    ensures FormatRecord(r) == r.hash + " " + IntStr(r.syncedCount) + " " + IntStr(r.myCommits) + " "
                                + IntStr(r.added) + " " + IntStr(r.deleted) + "\n"
  {
    WordsOfFive(r.hash, IntStr(r.syncedCount), IntStr(r.myCommits), IntStr(r.added), IntStr(r.deleted));
  }

  lemma ZeroLineIsZeroRecord(hash: string)
    ensures ZeroLine(hash) == FormatRecord(Record(hash, 0, 0, 0, 0))
  {
    assert IntStr(0) == "0";
    FormatIsConcatenation(Record(hash, 0, 0, 0, 0));
  }

  /** Splitting a written record gives its five fields back, in order. */
  lemma SplitRecord(r: Record)
    requires IsToken(r.hash)
    ensures Split(FormatRecord(r)) == Fields(r)
  {
    SplitWordsLine(Fields(r));
  }

  /**
   * The serialise/parse round trip: `line.split()` on a written record yields five
   * fields, the first is the hash and `int()` of each other field is the number written.
   */
  lemma RecordRoundTrip(r: Record)
    requires IsToken(r.hash)
    ensures var f := Split(FormatRecord(r));
      && |f| == 5
      && f[0] == r.hash
      && ParseInt(f[1]) == Some(r.syncedCount)
      && ParseInt(f[2]) == Some(r.myCommits)
      && ParseInt(f[3]) == Some(r.added)
      && ParseInt(f[4]) == Some(r.deleted)
  {
    SplitRecord(r);
    ParseIntStr(r.syncedCount);
    ParseIntStr(r.myCommits);
    ParseIntStr(r.added);
    ParseIntStr(r.deleted);
  }

  /** A written record is one complete line: its only '\n' is the last character. */
  lemma RecordIsProperLine(r: Record)
    requires IsToken(r.hash)
    ensures ProperLine(FormatRecord(r))
  {
    var line := FormatRecord(r);
    forall j | 0 <= j < |line| - 1
      ensures line[j] != '\n'
    {
      WordsHaveNoBreak(Fields(r));
      assert line[j] == Words(Fields(r))[j];
    }
  }

  lemma {:induction false} WordsHaveNoBreak(ws: seq<string>)
    requires forall i :: 0 <= i < |ws| ==> IsToken(ws[i])
    ensures forall j :: 0 <= j < |Words(ws)| ==> Words(ws)[j] != '\n'
    decreases |ws|
  {
    if |ws| > 1 {
      WordsHaveNoBreak(ws[1..]);
      var w := Words(ws);
      assert w == ws[0] + " " + Words(ws[1..]);
      forall j | 0 <= j < |w|
        ensures w[j] != '\n'
      {
        if j < |ws[0]| {
          assert w[j] == ws[0][j];
        } else if j > |ws[0]| {
          assert w[j] == Words(ws[1..])[j - |ws[0]| - 1];
        }
      }
    }
  }

  // ---------------------------------------------------------------------------
  // Summing one column of the record lines

  /** `int(line.split()[k])`; None where Python raises IndexError or ValueError. */
  function Field(line: string, k: nat): Option<int> {
    var f := Split(line);
    if k < |f| then ParseInt(f[k]) else None
  }

  /** `int(line.split()[k])` as a function of the line. */
  function FieldAt(k: nat): string -> Option<int> {
    line => Field(line, k)
  }

  /**
   * `for line in lines: total += value(line)` from zero: the sum, or the exception
   * of the first line that has no value.
   */
  function SumBy(ls: seq<string>, value: string -> Option<int>): Result<int>
    decreases |ls|
  {
    if |ls| == 0 then Ok(0)
    else
      var last := ls[|ls| - 1];
      match SumBy(ls[..|ls| - 1], value)
      case Err(fault) => Err(fault)
      case Ok(s) =>
        match value(last)
        case None => Err(UnreadableLine(last))
        case Some(x) => Ok(s + x)
  }

  /**
   * `for line in lines: total += int(line.split()[k])` from zero: the sum, or the
   * exception of the first line whose field `k` is missing or not an integer.
   */
  function ColumnSum(ls: seq<string>, k: nat): Result<int> {
    SumBy(ls, FieldAt(k))
  }

  /**
   * Two sums taken in one loop, `a += first(line); b += second(line)`: both sums, or
   * the exception of the first line that lacks either value.
   */
  function SumPair(ls: seq<string>, first: string -> Option<int>, second: string -> Option<int>): Result<(int, int)>
    decreases |ls|
  {
    if |ls| == 0 then Ok((0, 0))
    else
      var last := ls[|ls| - 1];
      match SumPair(ls[..|ls| - 1], first, second)
      case Err(fault) => Err(fault)
      case Ok(s) =>
        match (first(last), second(last))
        case (Some(a), Some(b)) => Ok((s.0 + a, s.1 + b))
        case _ => Err(UnreadableLine(last))
  }

  /** The joint loop computes both sums, and fails exactly when either separate loop does. */
  lemma {:induction false} SumPairBySumBy(ls: seq<string>, first: string -> Option<int>, second: string -> Option<int>)
    ensures SumPair(ls, first, second).Ok? <==> SumBy(ls, first).Ok? && SumBy(ls, second).Ok?
    ensures SumPair(ls, first, second).Ok? ==>
      SumPair(ls, first, second).value == (SumBy(ls, first).value, SumBy(ls, second).value)
    decreases |ls|
  {
    if |ls| > 0 {
      SumPairBySumBy(ls[..|ls| - 1], first, second);
    }
  }

  /** Field `k` of a record: 1 the synced count, 2 own commits, 3 added, 4 deleted lines. */
  function Column(r: Record, k: nat): int
    requires 1 <= k <= 4
  {
    if k == 1 then r.syncedCount else if k == 2 then r.myCommits else if k == 3 then r.added else r.deleted
  }

  function Total(recs: seq<Record>, k: nat): int
    requires 1 <= k <= 4
    decreases |recs|
  {
    if |recs| == 0 then 0 else Total(recs[..|recs| - 1], k) + Column(recs[|recs| - 1], k)
  }

  /** The lines written for a list of records. */
  function Render(recs: seq<Record>): (ls: seq<string>)
    ensures |ls| == |recs|
    ensures forall i :: 0 <= i < |recs| ==> ls[i] == FormatRecord(recs[i])
    decreases |recs|
  {
    if |recs| == 0 then [] else Render(recs[..|recs| - 1]) + [FormatRecord(recs[|recs| - 1])]
  }

  /** Every written record is one complete line. */
  lemma RenderProper(recs: seq<Record>)
    requires forall i :: 0 <= i < |recs| ==> IsToken(recs[i].hash)
    ensures forall i :: 0 <= i < |recs| ==> ProperLine(Render(recs)[i])
  {
    forall i | 0 <= i < |recs|
      ensures ProperLine(Render(recs)[i])
    {
      RecordIsProperLine(recs[i]);
    }
  }

  /** Summing a column of written records gives the sum of that record field. */
  lemma ColumnSumRender(recs: seq<Record>, k: nat)
    requires 1 <= k <= 4
    requires forall i :: 0 <= i < |recs| ==> IsToken(recs[i].hash)
    ensures ColumnSum(Render(recs), k) == Ok(Total(recs, k))
  {
    var ls := Render(recs);
    forall i | 0 <= i < |ls|
      ensures Field(ls[i], k) == Some(Column(recs[i], k))
    {
      FieldOfRecord(recs[i], k);
    }
    ColumnSumTotal(ls, recs, k);
  }

  /** Lines whose field `k` holds the records' field `k` sum to the records' total. */
  lemma {:induction false} ColumnSumTotal(ls: seq<string>, recs: seq<Record>, k: nat)
    requires 1 <= k <= 4
    requires |ls| == |recs|
    requires forall i :: 0 <= i < |ls| ==> Field(ls[i], k) == Some(Column(recs[i], k))
    ensures ColumnSum(ls, k) == Ok(Total(recs, k))
    decreases |ls|
  {
    if |ls| > 0 {
      var n := |ls| - 1;
      ColumnSumTotal(ls[..n], recs[..n], k);
    }
  }

  lemma FieldOfRecord(r: Record, k: nat)
    requires 1 <= k <= 4
    requires IsToken(r.hash)
    ensures Field(FormatRecord(r), k) == Some(Column(r, k))
  {
    RecordRoundTrip(r);
  }
}
