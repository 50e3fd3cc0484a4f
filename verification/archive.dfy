/**
 * `add_archive` and the merge in the script's main block: the archive file lists
 * repositories that no longer appear in the listing, one line per repository in the
 * shape of a cache record, between a 7-line header and a 3-line footer. Its added
 * and deleted lines, its own-commit counts and its repository count are added to the
 * live totals, for the account the archive belongs to only.
 */
module Archive {
  import opened Common
  import opened PyText
  import opened Lines
  import opened CacheLine
  import opened CacheBuilder

  /** The list `[added_loc, deleted_loc, added_loc - deleted_loc, added_commits, contributed_repos]`. */
  datatype ArchiveTotals = ArchiveTotals(added: int, deleted: int, net: int, commits: int, repos: nat)

  /** The number of lines before the data lines, and after them. */
  const HeaderLines := 7
  const FooterLines := 3

  /** The user id the archive belongs to; the merge runs only for this account. */
  const ArchiveOwner := "MDQ6VXNlcjU3MzMxMTM0"

  /** `data[7:len(data)-3]`: the data lines between header and footer. */
  function ArchiveData(lines: seq<string>): seq<string> {
    Slice(lines, HeaderLines, |lines| - FooterLines)
  }

  /**
   * The data lines are those between the first 7 and the last 3; a file of fewer than
   * 10 lines has none.
   */
  lemma ArchiveWindow(lines: seq<string>)
    ensures |lines| >= 10 ==> ArchiveData(lines) == lines[7..|lines| - 3]
    ensures |lines| < 10 ==> ArchiveData(lines) == []
  {
  }

  /** What `if (my_commits.isdigit()): added_commits += int(my_commits)` adds for one line. */
  function DigitsValue(line: string): int {
    var f := Split(line);
    if |f| >= 3 && IsDigits(f[2]) then NumeralValue(f[2]) else 0
  }

  /**
   * The archive loop with its three per-line values: the sums of the two that can
   * raise and of the one that cannot, or the exception of the first line that lacks
   * either of the first two.
   */
  function ArchiveFold(ls: seq<string>, added: string -> Option<int>, deleted: string -> Option<int>,
                       own: string -> int): Result<(int, int, int)>
    decreases |ls|
  {
    if |ls| == 0 then Ok((0, 0, 0))
    else
      var last := ls[|ls| - 1];
      match ArchiveFold(ls[..|ls| - 1], added, deleted, own)
      case Err(fault) => Err(fault)
      case Ok(s) =>
        match (added(last), deleted(last))
        case (Some(a), Some(d)) => Ok((s.0 + a, s.1 + d, s.2 + own(last)))
        case _ => Err(UnreadableLine(last))
  }

  /** The sum of a per-line value that never raises. */
  function SumAll(ls: seq<string>, value: string -> int): int
    decreases |ls|
  {
    if |ls| == 0 then 0 else SumAll(ls[..|ls| - 1], value) + value(ls[|ls| - 1])
  }

  /**
   * The loop over the data lines: the sums of fields 3 and 4 and of the own-commit
   * fields that are digit strings, or the exception of the first line with fewer than
   * five fields or a non-integer field 3 or 4.
   */
  function ArchiveSum(ls: seq<string>): Result<(int, int, int)> {
    ArchiveFold(ls, FieldAt(3), FieldAt(4), DigitsValue)
  }

  /** The three-value loop is the two-value loop with the third sum carried alongside. */
  lemma {:induction false} ArchiveFoldByParts(ls: seq<string>, added: string -> Option<int>,
                                              deleted: string -> Option<int>, own: string -> int)
    ensures ArchiveFold(ls, added, deleted, own).Ok? <==> SumPair(ls, added, deleted).Ok?
    ensures ArchiveFold(ls, added, deleted, own).Ok? ==>
      var p := SumPair(ls, added, deleted).value;
      ArchiveFold(ls, added, deleted, own).value == (p.0, p.1, SumAll(ls, own))
    decreases |ls|
  {
    if |ls| > 0 {
      ArchiveFoldByParts(ls[..|ls| - 1], added, deleted, own);
    }
  }

  /**
   * The archive loop is the column sums of the record lines: it completes exactly when
   * fields 3 and 4 can be summed, and its three totals are those sums and the own
   * commits that pass the digit check.
   */
  lemma ArchiveSumByColumns(ls: seq<string>)
    ensures ArchiveSum(ls).Ok? <==> ColumnSum(ls, 3).Ok? && ColumnSum(ls, 4).Ok?
    ensures ArchiveSum(ls).Ok? ==>
      ArchiveSum(ls).value == (ColumnSum(ls, 3).value, ColumnSum(ls, 4).value, SumAll(ls, DigitsValue))
  {
    ArchiveFoldByParts(ls, FieldAt(3), FieldAt(4), DigitsValue);
    SumPairBySumBy(ls, FieldAt(3), FieldAt(4));
  }

  /**
   * The digit check on written records: a record's own-commit count is counted when it
   * is not negative and ignored when it is (its field then starts with '-').
   */
  lemma DigitsValueOfRecord(r: Record)
    requires IsToken(r.hash)
    ensures DigitsValue(FormatRecord(r)) == if r.myCommits >= 0 then r.myCommits else 0
  {
    SplitRecord(r);
    var f := Fields(r);
    if r.myCommits >= 0 {
      NatStrValue(r.myCommits);
    } else {
      assert f[2][0] == '-';
    }
  }

  /** The own commits `isdigit()` lets through for one written record: a negative count is skipped. */
  function CountedCommits(r: Record): nat {
    if r.myCommits >= 0 then r.myCommits else 0
  }

  /** The own-commit total the archive loop adds up over a list of records. */
  function OwnCommitTotal(recs: seq<Record>): int
    decreases |recs|
  {
    if |recs| == 0 then 0 else OwnCommitTotal(recs[..|recs| - 1]) + CountedCommits(recs[|recs| - 1])
  }

  /** With no negative own-commit count, nothing is skipped: the total is the field's total. */
  lemma {:induction false} OwnCommitTotalOfNonNegative(recs: seq<Record>)
    requires forall i :: 0 <= i < |recs| ==> recs[i].myCommits >= 0
    ensures OwnCommitTotal(recs) == Total(recs, 2)
    decreases |recs|
  {
    if |recs| > 0 {
      OwnCommitTotalOfNonNegative(recs[..|recs| - 1]);
    }
  }

  /** Lines whose value is the counted own commits of the records sum to their own-commit total. */
  lemma {:induction false} SumAllOwnCommits(ls: seq<string>, value: string -> int, recs: seq<Record>)
    requires |ls| == |recs|
    requires forall i :: 0 <= i < |ls| ==> value(ls[i]) == CountedCommits(recs[i])
    ensures SumAll(ls, value) == OwnCommitTotal(recs)
    decreases |ls|
  {
    if |ls| > 0 {
      var n := |ls| - 1;
      SumAllOwnCommits(ls[..n], value, recs[..n]);
    }
  }

  /**
   * The digit-checked own commits of written records add up to their own-commit total,
   * which is the field's total when no count is negative.
   */
  lemma DigitsTotalOfRecords(recs: seq<Record>)
    requires forall i :: 0 <= i < |recs| ==> IsToken(recs[i].hash)
    ensures SumAll(Render(recs), DigitsValue) == OwnCommitTotal(recs)
    ensures (forall i :: 0 <= i < |recs| ==> recs[i].myCommits >= 0) ==> OwnCommitTotal(recs) == Total(recs, 2)
  {
    var ls := Render(recs);
    forall i | 0 <= i < |ls|
      ensures DigitsValue(ls[i]) == CountedCommits(recs[i])
    {
      DigitsValueOfRecord(recs[i]);
    }
    SumAllOwnCommits(ls, DigitsValue, recs);
    if forall i :: 0 <= i < |recs| ==> recs[i].myCommits >= 0 {
      OwnCommitTotalOfNonNegative(recs);
    }
  }

  /** `int(old_data[-1].split()[4][:-1])`: field 4 of the last line without its last character. */
  function FooterCommits(lines: seq<string>): (r: Result<int>)
    ensures |lines| == 0 ==> r == Err(EmptyArchive)
  {
    if |lines| == 0 then Err(EmptyArchive)
    else
      var last := lines[|lines| - 1];
      var f := Split(last);
      if |f| < 5 then Err(UnreadableLine(last))
      else match ParseInt(Slice(f[4], 0, -1))
        case None => Err(UnreadableLine(last))
        case Some(n) => Ok(n)
  }

  /** `add_archive()` on the archive file's text. */
  function AddArchive(text: string): (r: Result<ArchiveTotals>)
    ensures r.Ok? ==> r.value.net == r.value.added - r.value.deleted
    ensures r.Ok? ==> r.value.repos == |ArchiveData(ReadLines(text))|
    ensures |text| == 0 ==> r == Err(EmptyArchive)
  {
    var lines := ReadLines(text);
    var data := ArchiveData(lines);
    match ArchiveSum(data)
    case Err(fault) => Err(fault)
    case Ok(s) =>
      match FooterCommits(lines)
      case Err(fault) => Err(fault)
      case Ok(extra) => Ok(ArchiveTotals(s.0, s.1, s.0 - s.1, s.2 + extra, |data|))
  }

  /**
   * The archive as a whole: a file whose lines are a 7-line header, written records and
   * a 3-line footer whose last line carries the commit correction gives the sums of the
   * records' added and deleted lines, their own commits plus the correction, and the
   * number of records.
   */
  lemma AddArchiveOfRecords(text: string, header: seq<string>, recs: seq<Record>, footer: seq<string>, extra: int)
    requires |header| == 7 && |footer| == 3
    requires ReadLines(text) == header + Render(recs) + footer
    requires forall i :: 0 <= i < |recs| ==> IsToken(recs[i].hash)
    requires FooterCommits(footer) == Ok(extra)
    ensures AddArchive(text).Ok?
    ensures AddArchive(text).value.added == Total(recs, 3)
    ensures AddArchive(text).value.deleted == Total(recs, 4)
    ensures AddArchive(text).value.net == Total(recs, 3) - Total(recs, 4)
    ensures AddArchive(text).value.commits == OwnCommitTotal(recs) + extra
    ensures AddArchive(text).value.repos == |recs|
  {
    ArchiveSumOfRecords(recs);
    AddArchiveOfBody(text, header, Render(recs), footer, Total(recs, 3), Total(recs, 4), OwnCommitTotal(recs), extra);
  }

  /** `add_archive` on a file whose data lines have known sums. */
  lemma AddArchiveOfBody(text: string, header: seq<string>, body: seq<string>, footer: seq<string>,
                         added: int, deleted: int, commits: int, extra: int)
    requires |header| == 7 && |footer| == 3
    requires ReadLines(text) == header + body + footer
    requires ArchiveSum(body) == Ok((added, deleted, commits))
    requires FooterCommits(footer) == Ok(extra)
    ensures AddArchive(text) == Ok(ArchiveTotals(added, deleted, added - deleted, commits + extra, |body|))
  {
    ArchiveBody(header, body, footer);
    FooterOfLines(header + body, footer);
    AddArchiveOfParts(text, added, deleted, commits, extra);
  }

  /** `add_archive` from the results of its data loop and its footer read. */
  lemma AddArchiveOfParts(text: string, added: int, deleted: int, commits: int, extra: int)
    requires ArchiveSum(ArchiveData(ReadLines(text))) == Ok((added, deleted, commits))
    requires FooterCommits(ReadLines(text)) == Ok(extra)
    ensures AddArchive(text) ==
      Ok(ArchiveTotals(added, deleted, added - deleted, commits + extra, |ArchiveData(ReadLines(text))|))
  {
  }

  /** The footer value is read from the last line only. */
  lemma FooterOfLines(front: seq<string>, footer: seq<string>)
    requires |footer| > 0
    ensures FooterCommits(front + footer) == FooterCommits(footer)
  {
    var lines := front + footer;
    assert lines[|lines| - 1] == footer[|footer| - 1];
  }

  /** The archive loop over written records gives the records' column totals. */
  lemma ArchiveSumOfRecords(recs: seq<Record>)
    requires forall i :: 0 <= i < |recs| ==> IsToken(recs[i].hash)
    ensures ArchiveSum(Render(recs)) == Ok((Total(recs, 3), Total(recs, 4), OwnCommitTotal(recs)))
  {
    var body := Render(recs);
    ArchiveSumByColumns(body);
    ColumnSumRender(recs, 3);
    ColumnSumRender(recs, 4);
    DigitsTotalOfRecords(recs);
  }

  lemma ArchiveBody(header: seq<string>, body: seq<string>, footer: seq<string>)
    requires |header| == 7 && |footer| == 3
    ensures ArchiveData(header + body + footer) == body
  {
    var lines := header + body + footer;
    assert lines[7..|lines| - 3] == body;
  }

  // ---------------------------------------------------------------------------
  // The merge in the main block

  /** The figures the main block prints: the LOC totals, the commit total and the contributed-repository count. */
  datatype Summary = Summary(loc: Totals, commits: int, contributed: int)

  /**
   * The archive block of the main program: for the archive's own account, the first
   * three LOC totals, the commit total and the contributed-repository count each get
   * the archive's value added; any other account's figures are left as they are.
   */
  function MergeArchive(ownerId: string, s: Summary, archive: string): (r: Result<Summary>)
    ensures ownerId != ArchiveOwner ==> r == Ok(s)
    ensures ownerId == ArchiveOwner ==> (r.Ok? <==> AddArchive(archive).Ok?)
    ensures r.Ok? && ownerId == ArchiveOwner ==>
      var a := AddArchive(archive).value;
      && r.value.loc.added == s.loc.added + a.added
      && r.value.loc.deleted == s.loc.deleted + a.deleted
      && r.value.loc.net == s.loc.net + a.net
      && r.value.loc.cached == s.loc.cached
      && r.value.commits == s.commits + a.commits
      && r.value.contributed == s.contributed + a.repos
  {
    if ownerId != ArchiveOwner then Ok(s)
    else match AddArchive(archive)
      case Err(fault) => Err(fault)
      case Ok(a) =>
        var loc := Totals(s.loc.added + a.added, s.loc.deleted + a.deleted, s.loc.net + a.net, s.loc.cached);
        Ok(Summary(loc, s.commits + a.commits, s.contributed + a.repos))
  }

  /** The merge keeps the net total equal to the added total minus the deleted total. */
  lemma MergeKeepsNet(ownerId: string, s: Summary, archive: string)
    requires s.loc.net == s.loc.added - s.loc.deleted
    ensures var r := MergeArchive(ownerId, s, archive);
      r.Ok? ==> r.value.loc.net == r.value.loc.added - r.value.loc.deleted
  {
  }
  /**
   * End to end for the archive's own account: merging an archive of written records
   * adds their added and deleted lines to the LOC totals, their own commits plus the
   * footer's correction to the commit total, and their number to the contributed count.
   */
  lemma MergeOfRecords(s: Summary, text: string, header: seq<string>, recs: seq<Record>, footer: seq<string>, extra: int)
    requires |header| == 7 && |footer| == 3
    requires ReadLines(text) == header + Render(recs) + footer
    requires forall i :: 0 <= i < |recs| ==> IsToken(recs[i].hash)
    requires FooterCommits(footer) == Ok(extra)
    ensures MergeArchive(ArchiveOwner, s, text).Ok?
    ensures MergeArchive(ArchiveOwner, s, text).value.loc.added == s.loc.added + Total(recs, 3)
    ensures MergeArchive(ArchiveOwner, s, text).value.loc.deleted == s.loc.deleted + Total(recs, 4)
    ensures MergeArchive(ArchiveOwner, s, text).value.commits == s.commits + OwnCommitTotal(recs) + extra
    ensures MergeArchive(ArchiveOwner, s, text).value.contributed == s.contributed + |recs|
  {
    AddArchiveOfRecords(text, header, recs, footer, extra);
  }
}
