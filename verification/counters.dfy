/**
 * The two plain summations: `commit_counter`, which adds up the own-commit field of
 * every record line of the cache file, and `stars_counter`, which adds up the
 * stargazer counts of the listed repositories.
 */
module Counters {
  import opened Common
  import opened PyText
  import opened Lines
  import opened CacheLine

  /**
   * `commit_counter(comment_size)` on the cache file's text: the lines after the first
   * `cs` are the records, and field 2 (own commits) of each is added up.
   */
  function CommitCounter(text: string, cs: nat): Result<int> {
    var data := ReadLines(text);
    ColumnSum(Slice(data, cs, |data|), 2)
  }

  /**
   * On a file made of a complete comment block followed by written records,
   * `commit_counter` returns the sum of the records' own-commit counts.
   */
  lemma CommitCounterOfRecords(header: seq<string>, recs: seq<Record>)
    requires forall i :: 0 <= i < |header| ==> ProperLine(header[i])
    requires forall i :: 0 <= i < |recs| ==> IsToken(recs[i].hash)
    ensures CommitCounter(WriteLines(header + Render(recs)), |header|) == Ok(Total(recs, 2))
  {
    var body := Render(recs);
    RenderProper(recs);
    ProperLinesAppend(header, body);
    ProperLinesRead(header + body);
    SliceAtSeam(header, body);
    ColumnSumRender(recs, 2);
  }

  // ---------------------------------------------------------------------------
  // stars_counter

  /** The sum of the stargazer counts, first to last. */
  function StarTotal(stars: seq<int>): int
    decreases |stars|
  {
    if |stars| == 0 then 0 else StarTotal(stars[..|stars| - 1]) + stars[|stars| - 1]
  }

  /** Counting two parts of the listing separately and adding gives the count of the whole. */
  lemma {:induction false} StarTotalAppend(a: seq<int>, b: seq<int>)
    ensures StarTotal(a + b) == StarTotal(a) + StarTotal(b)
    decreases |b|
  {
    if |b| == 0 {
      assert a + b == a;
    } else {
      var n := |b| - 1;
      assert (a + b)[..|a + b| - 1] == a + b[..n];
      StarTotalAppend(a, b[..n]);
    }
  }

  /** A listing whose every count is non-negative has a total no smaller than any one of them. */
  lemma {:induction false} StarTotalBounds(stars: seq<int>, i: nat)
    requires forall j :: 0 <= j < |stars| ==> stars[j] >= 0
    requires i < |stars|
    ensures StarTotal(stars) >= stars[i] >= 0
    decreases |stars|
  {
    var n := |stars| - 1;
    StarTotalNonNegative(stars[..n]);
    if i < n {
      StarTotalBounds(stars[..n], i);
    }
  }

  lemma {:induction false} StarTotalNonNegative(stars: seq<int>)
    requires forall j :: 0 <= j < |stars| ==> stars[j] >= 0
    ensures StarTotal(stars) >= 0
    decreases |stars|
  {
    if |stars| > 0 {
      StarTotalNonNegative(stars[..|stars| - 1]);
    }
  }

  /** `stars_counter(data)`: the loop over the listing's stargazer counts. */
  method StarsCounter(stars: seq<int>) returns (total: int)
    ensures total == StarTotal(stars)
  {
    total := 0;
    var i := 0;
    while i < |stars|
      invariant i <= |stars|
      invariant total == StarTotal(stars[..i])
    {
      assert stars[..i + 1][..i] == stars[..i];
      total := total + stars[i];
      i := i + 1;
    }
    assert stars[..i] == stars;
  }
}
