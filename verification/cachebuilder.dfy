/**
 * `cache_builder` with `flush_cache` and `force_close_file`: the LOC cache file is a
 * block of `comment_size` comment lines followed by one record line per repository.
 * A call reads the file (creating it with a placeholder comment block when missing),
 * rebuilds it with zero records when its record count does not match the listing or
 * when forced, refreshes the stale records, writes the file back and returns the
 * summed added and deleted lines. The file's text is a value here: the call takes the
 * text it finds (None when the file does not exist) and returns the text it leaves.
 */
module CacheBuilder {
  import opened Common
  import opened PyText
  import opened Lines
  import opened CacheLine
  import opened History
  import opened Reconciliation

  /**
   * The placeholder comment of a new cache file, without its line break, written in
   * ten-character pieces so that each piece can be checked for a line break.
   */
  const PlaceholderText := "This line " + "is a comme" + "nt block. " + "Write what" + "ever you w" + "ant here."

  /** The comment line written `comment_size` times into a new cache file. */
  const Placeholder := PlaceholderText + "\n"

  /** The list `[loc_add, loc_del, loc_add - loc_del, cached]`. */
  datatype Totals = Totals(added: int, deleted: int, net: int, cached: bool)

  /** The cache file's text after a call, and what the call returned or raised. */
  datatype Run = Run(disk: string, result: Result<Totals>)

  /**
   * The state just before the reconciliation loop: the comment block `cache_comment`,
   * the record lines `data`, whether the rebuild ran, and the file's text at that point.
   */
  datatype Layout = Layout(header: seq<string>, records: seq<string>, rebuilt: bool, disk: string)

  /** `data` after the `try`: the lines read, or the placeholder block of a new file. */
  function InitialLines(file: Option<string>, cs: nat): seq<string> {
    if file.None? then Repeat(Placeholder, cs) else ReadLines(file.value)
  }

  /** The file after the `try`: as found, or created holding the placeholder block. */
  function InitialDisk(file: Option<string>, cs: nat): string {
    if file.None? then WriteLines(InitialLines(file, cs)) else file.value
  }

  /** One zero record per listed repository, in listing order. */
  function ZeroLines(edges: seq<Edge>, sha: string -> Digest): (ls: seq<string>)
    ensures |ls| == |edges|
  {
    seq(|edges|, i requires 0 <= i < |edges| => ZeroLine(sha(edges[i].nameWithOwner)))
  }

  /** `flush_cache`: the file's first `cs` lines, then a zero record for every listed repository. */
  function Flush(text: string, edges: seq<Edge>, cs: nat, sha: string -> Digest): string {
    WriteLines(Slice(ReadLines(text), 0, cs)) + WriteLines(ZeroLines(edges, sha))
  }

  /** The start of `cache_builder`, up to the split of the lines into comment block and records. */
  function Prepare(file: Option<string>, edges: seq<Edge>, cs: nat, force: bool, sha: string -> Digest): Layout {
    var data0 := InitialLines(file, cs);
    var disk0 := InitialDisk(file, cs);
    var rebuilt := |data0| - cs != |edges| || force;
    var disk := if rebuilt then Flush(disk0, edges, cs, sha) else disk0;
    var data := if rebuilt then ReadLines(disk) else data0;
    Layout(Slice(data, 0, cs), Slice(data, cs, |data|), rebuilt, disk)
  }

  /**
   * The closing loop `loc_add += int(loc[3]); loc_del += int(loc[4])` over the written
   * records: both sums, or the exception of the first line lacking either integer.
   */
  function SumLoc(ls: seq<string>): Result<(int, int)> {
    SumPair(ls, FieldAt(3), FieldAt(4))
  }

  /**
   * `cache_builder(edges, comment_size, force_cache)` with the history answers of every
   * listed repository.
   */
  function BuildCache(file: Option<string>, edges: seq<Edge>, cs: nat, force: bool,
                      histories: seq<seq<Response>>, owner: string, sha: string -> Digest): (r: Run)
    requires |histories| == |edges|
    requires forall k :: 0 <= k < |histories| ==> Ends(histories[k])
    ensures r.result.Ok? ==> r.result.value.net == r.result.value.added - r.result.value.deleted
    ensures r.result.Ok? ==> (r.result.value.cached <==> !Prepare(file, edges, cs, force, sha).rebuilt)
  {
    Conclude(Prepare(file, edges, cs, force, sha), edges, histories, owner, sha)
  }

  /**
   * The rest of `cache_builder` from a layout: the reconciliation loop, then the write
   * and the sums. A failed history request (`Interrupted`) leaves the file as
   * `force_close_file` writes it; any other exception in the loop leaves it as it was.
   */
  function Conclude(L: Layout, edges: seq<Edge>, histories: seq<seq<Response>>,
                    owner: string, sha: string -> Digest): (r: Run)
    requires |histories| == |edges|
    requires forall k :: 0 <= k < |histories| ==> Ends(histories[k])
    ensures r.result.Ok? ==> r.result.value.net == r.result.value.added - r.result.value.deleted
    ensures r.result.Ok? ==> (r.result.value.cached <==> !L.rebuilt)
  {
    match Reconcile(L.records, edges, histories, owner, sha)
    case Broken(fault, _) => Run(L.disk, Err(fault))
    case Interrupted(partial, fault, _) => Run(WriteLines(L.header) + WriteLines(partial), Err(fault))
    case Synced(out) => Finish(L.header, out, L.rebuilt)
  }

  /** The end of a call whose pass completed: write the file back, then sum the records. */
  function Finish(header: seq<string>, out: seq<string>, rebuilt: bool): (r: Run)
    ensures r.disk == WriteLines(header + out)
  {
    WriteLinesAppend(header, out);
    var disk := WriteLines(header) + WriteLines(out);
    match SumLoc(out)
    case Err(fault) => Run(disk, Err(fault))
    case Ok(s) => Run(disk, Ok(Totals(s.0, s.1, s.0 - s.1, !rebuilt)))
  }

  /** The flag is the only part of the outcome the rebuild decides. */
  lemma FinishCached(header: seq<string>, out: seq<string>, rebuilt: bool)
    ensures var r := Finish(header, out, rebuilt);
      Finish(header, out, false) == if r.result.Ok? then r.(result := Ok(r.result.value.(cached := true))) else r
  {
  }

  // ---------------------------------------------------------------------------
  // Layout

  /** The file's first `cs` lines, or all of them when there are fewer, end in '\n'. */
  predicate HeadTerminated(ls: seq<string>, cs: nat) {
    forall i :: 0 <= i < |ls| && i < cs ==> Terminated(ls[i])
  }

  /** The file starts with a complete comment block: at least `cs` lines, each ending in '\n'. */
  predicate HeaderComplete(ls: seq<string>, cs: nat) {
    |ls| >= cs && HeadTerminated(ls, cs)
  }

  lemma PlaceholderTextBreakFree()
    ensures '\n' !in PlaceholderText
  {
    assert '\n' !in "This line " && '\n' !in "is a comme" && '\n' !in "nt block. ";
    assert '\n' !in "Write what" && '\n' !in "ever you w" && '\n' !in "ant here.";
  }

  lemma PlaceholderIsProperLine()
    ensures ProperLine(Placeholder)
  {
    PlaceholderTextBreakFree();
    BreakFreeLine(PlaceholderText);
  }

  /** The lines in memory after the `try` are what the file on disk reads as. */
  lemma InitialLinesRead(file: Option<string>, cs: nat)
    ensures WellFormed(InitialLines(file, cs))
    ensures ReadLines(InitialDisk(file, cs)) == InitialLines(file, cs)
  {
    if file.None? {
      PlaceholderIsProperLine();
      ReadWriteLines(InitialLines(file, cs));
    }
  }

  /** A new file's placeholder block is a complete comment block. */
  lemma PlaceholderBlockComplete(cs: nat)
    ensures HeaderComplete(InitialLines(None, cs), cs)
  {
    PlaceholderIsProperLine();
  }

  lemma ZeroLinesProper(edges: seq<Edge>, sha: string -> Digest)
    ensures forall i :: 0 <= i < |edges| ==> ProperLine(ZeroLines(edges, sha)[i])
    ensures WellFormed(ZeroLines(edges, sha))
  {
    forall i | 0 <= i < |edges|
      ensures ProperLine(ZeroLines(edges, sha)[i])
    {
      var hash := sha(edges[i].nameWithOwner);
      DigestIsToken(hash);
      ZeroLineIsZeroRecord(hash);
      RecordIsProperLine(Record(hash, 0, 0, 0, 0));
    }
  }

  /**
   * `flush_cache` on a file whose first `cs` lines (all of them, when there are fewer)
   * are complete: reading the file back gives those lines, then exactly one zero
   * record per listed repository.
   */
  lemma FlushReadsBack(text: string, edges: seq<Edge>, cs: nat, sha: string -> Digest)
    requires HeadTerminated(ReadLines(text), cs)
    ensures ReadLines(Flush(text, edges, cs, sha)) == Slice(ReadLines(text), 0, cs) + ZeroLines(edges, sha)
  {
    var data := ReadLines(text);
    var head := Slice(data, 0, cs);
    var zeros := ZeroLines(edges, sha);
    SliceSplit(data, cs);
    forall i | 0 <= i < |head|
      ensures ProperLine(head[i])
    {
      assert head[i] == data[i];
    }
    ZeroLinesProper(edges, sha);
    ReadLinesAfterProper(head, WriteLines(zeros));
    ReadWriteLines(zeros);
  }

  /**
   * The file `flush_cache` writes, split as the code splits it: the comment block it
   * was given, then one zero record per listed repository, all of it well formed.
   */
  lemma FlushLayout(text: string, edges: seq<Edge>, cs: nat, sha: string -> Digest)
    requires HeaderComplete(ReadLines(text), cs)
    ensures var data := ReadLines(Flush(text, edges, cs, sha));
      && Slice(data, 0, cs) == ReadLines(text)[..cs]
      && Slice(data, cs, |data|) == ZeroLines(edges, sha)
      && WellFormed(data)
  {
    var head := ReadLines(text)[..cs];
    var zeros := ZeroLines(edges, sha);
    FlushReadsBack(text, edges, cs, sha);
    SliceSplit(ReadLines(text), cs);
    SliceAtSeam(head, zeros);
    ZeroLinesProper(edges, sha);
    WellFormedAppend(head, zeros);
  }

  /**
   * The rebuild, when it runs: the comment block comes through it unchanged and it
   * leaves exactly one zero record per listed repository, in listing order.
   */
  lemma RebuiltLayout(file: Option<string>, edges: seq<Edge>, cs: nat, force: bool, sha: string -> Digest)
    requires HeaderComplete(InitialLines(file, cs), cs)
    requires Prepare(file, edges, cs, force, sha).rebuilt
    ensures var L := Prepare(file, edges, cs, force, sha);
      && L.header == InitialLines(file, cs)[..cs]
      && L.records == ZeroLines(edges, sha)
      && ReadLines(L.disk) == L.header + L.records
      && WellFormed(L.header + L.records)
  {
    var disk0 := InitialDisk(file, cs);
    InitialLinesRead(file, cs);
    FlushLayout(disk0, edges, cs, sha);
    var data := ReadLines(Flush(disk0, edges, cs, sha));
    SliceSplit(data, cs);
  }

  /** Without the rebuild, the records are the file's own lines after the comment block. */
  lemma KeptLayout(file: Option<string>, edges: seq<Edge>, cs: nat, force: bool, sha: string -> Digest)
    requires !Prepare(file, edges, cs, force, sha).rebuilt
    ensures var L := Prepare(file, edges, cs, force, sha);
      var data0 := InitialLines(file, cs);
      && |data0| == cs + |edges|
      && L.header == data0[..cs]
      && L.records == data0[cs..]
      && L.disk == InitialDisk(file, cs)
      && WellFormed(L.header + L.records)
  {
    var data0 := InitialLines(file, cs);
    InitialLinesRead(file, cs);
    SliceSplit(data0, cs);
    assert data0 == data0[..cs] + data0[cs..];
  }

  /**
   * The start of a call: the rebuild runs exactly when the file's record count differs
   * from the listing's length or it is forced; either way the comment block is the
   * file's first `cs` lines, there is one record line per listed repository and the
   * lines are those of a well-formed file. After a rebuild the records are zero records
   * and the file reads back as the comment block followed by them.
   */
  lemma StartLayout(file: Option<string>, edges: seq<Edge>, cs: nat, force: bool, sha: string -> Digest)
    requires HeaderComplete(InitialLines(file, cs), cs)
    ensures var L := Prepare(file, edges, cs, force, sha);
      var data0 := InitialLines(file, cs);
      && (L.rebuilt <==> force || |data0| != cs + |edges|)
      && L.header == data0[..cs]
      && (L.rebuilt ==> L.records == ZeroLines(edges, sha) && ReadLines(L.disk) == L.header + L.records)
      && (!L.rebuilt ==> L.records == data0[cs..] && L.disk == InitialDisk(file, cs))
      && |L.records| == |edges|
      && WellFormed(L.header + L.records)
  {
    if Prepare(file, edges, cs, force, sha).rebuilt {
      RebuiltLayout(file, edges, cs, force, sha);
    } else {
      KeptLayout(file, edges, cs, force, sha);
    }
  }

  // ---------------------------------------------------------------------------
  // After the pass

  /** The closing loop computes both column sums in one pass, and fails exactly when either does. */
  lemma SumLocByColumns(ls: seq<string>)
    ensures SumLoc(ls).Ok? <==> ColumnSum(ls, 3).Ok? && ColumnSum(ls, 4).Ok?
    ensures SumLoc(ls).Ok? ==> SumLoc(ls).value == (ColumnSum(ls, 3).value, ColumnSum(ls, 4).value)
  {
    SumPairBySumBy(ls, FieldAt(3), FieldAt(4));
  }

  /** A completed pass over well-formed record lines leaves well-formed record lines. */
  lemma SyncedWellFormed(records: seq<string>, edges: seq<Edge>, histories: seq<seq<Response>>,
                         owner: string, sha: string -> Digest)
    requires |histories| == |edges|
    requires forall k :: 0 <= k < |histories| ==> Ends(histories[k])
    requires WellFormed(records) && |records| == |edges|
    requires Reconcile(records, edges, histories, owner, sha).Synced?
    ensures WellFormed(Reconcile(records, edges, histories, owner, sha).records)
  {
    ReconcileByPosition(records, edges, histories, owner, sha);
    var out := Reconcile(records, edges, histories, owner, sha).records;
    forall j | 0 <= j < |out|
      ensures LineShape(out[j]) && (j < |out| - 1 ==> Terminated(out[j]))
    {
      RewriteIsProperLine(records[j], edges[j], histories[j], owner, sha);
    }
  }

  /**
   * The file a completed pass writes reads back as the comment block, unchanged,
   * followed by the pass's record lines, one per listed repository.
   */
  lemma WrittenLayout(file: Option<string>, edges: seq<Edge>, cs: nat, force: bool,
                      histories: seq<seq<Response>>, owner: string, sha: string -> Digest)
    requires |histories| == |edges|
    requires forall k :: 0 <= k < |histories| ==> Ends(histories[k])
    requires HeaderComplete(InitialLines(file, cs), cs)
    requires Reconcile(Prepare(file, edges, cs, force, sha).records, edges, histories, owner, sha).Synced?
    ensures var out := Reconcile(Prepare(file, edges, cs, force, sha).records, edges, histories, owner, sha).records;
      && |out| == |edges|
      && ReadLines(BuildCache(file, edges, cs, force, histories, owner, sha).disk) == InitialLines(file, cs)[..cs] + out
    ensures HeaderComplete(ReadLines(BuildCache(file, edges, cs, force, histories, owner, sha).disk), cs)
  {
    var L := Prepare(file, edges, cs, force, sha);
    var data0 := InitialLines(file, cs);
    StartLayout(file, edges, cs, force, sha);
    var out := Reconcile(L.records, edges, histories, owner, sha).records;
    ReconcileByPosition(L.records, edges, histories, owner, sha);
    forall i | 0 <= i < |L.header|
      ensures ProperLine(L.header[i])
    {
      assert L.header[i] == (L.header + L.records)[i];
    }
    SplitAtSeam(L.header, L.records);
    WellFormedSuffix(L.header + L.records, |L.header|);
    SyncedWellFormed(L.records, edges, histories, owner, sha);
    ReadLinesAfterProper(L.header, WriteLines(out));
    ReadWriteLines(out);
    var ls := L.header + out;
    forall i | 0 <= i < cs
      ensures Terminated(ls[i])
    {
      assert ls[i] == L.header[i];
    }
  }

  /** What a call leaves and returns once its pass has completed. */
  lemma BuildCacheSynced(file: Option<string>, edges: seq<Edge>, cs: nat, force: bool,
                         histories: seq<seq<Response>>, owner: string, sha: string -> Digest)
    requires |histories| == |edges|
    requires forall k :: 0 <= k < |histories| ==> Ends(histories[k])
    requires Reconcile(Prepare(file, edges, cs, force, sha).records, edges, histories, owner, sha).Synced?
    ensures var L := Prepare(file, edges, cs, force, sha);
      var out := Reconcile(L.records, edges, histories, owner, sha).records;
      BuildCache(file, edges, cs, force, histories, owner, sha) == Finish(L.header, out, L.rebuilt)
  {
  }

  /**
   * A file holding a complete comment block and records a pass leaves as they are is
   * not rebuilt and not rewritten.
   */
  lemma BuildCacheOnSettledFile(header: seq<string>, out: seq<string>, edges: seq<Edge>, cs: nat,
                                histories: seq<seq<Response>>, owner: string, sha: string -> Digest)
    requires |histories| == |edges|
    requires forall k :: 0 <= k < |histories| ==> Ends(histories[k])
    requires |header| == cs && |out| == |edges|
    requires ReadLines(WriteLines(header) + WriteLines(out)) == header + out
    requires Reconcile(out, edges, histories, owner, sha) == Synced(out)
    ensures var disk := WriteLines(header) + WriteLines(out);
      var L := Prepare(Some(disk), edges, cs, false, sha);
      && !L.rebuilt && L.header == header && L.records == out && L.disk == disk
  {
    var data := header + out;
    SplitAtSeam(header, out);
    SliceSplit(data, cs);
  }

  /**
   * Idempotence: after a successful call, a second call with the same listing and the
   * same history answers, not forced, rebuilds nothing, rewrites nothing, leaves the
   * file byte for byte as it is and returns the same totals, now marked cached.
   */
  lemma BuildCacheSettles(file: Option<string>, edges: seq<Edge>, cs: nat, force: bool,
                          histories: seq<seq<Response>>, owner: string, sha: string -> Digest,
                          disk: string, t: Totals)
    requires |histories| == |edges|
    requires forall k :: 0 <= k < |histories| ==> Ends(histories[k])
    requires HeaderComplete(InitialLines(file, cs), cs)
    requires BuildCache(file, edges, cs, force, histories, owner, sha) == Run(disk, Ok(t))
    ensures BuildCache(Some(disk), edges, cs, false, histories, owner, sha) == Run(disk, Ok(t.(cached := true)))
  {
    var L := Prepare(file, edges, cs, force, sha);
    var out := Reconcile(L.records, edges, histories, owner, sha).records;
    StartLayout(file, edges, cs, force, sha);
    WrittenLayout(file, edges, cs, force, histories, owner, sha);
    BuildCacheSynced(file, edges, cs, force, histories, owner, sha);
    ReconcileSettles(L.records, edges, histories, owner, sha);
    BuildCacheOnSettledFile(L.header, out, edges, cs, histories, owner, sha);
    var L2 := Prepare(Some(disk), edges, cs, false, sha);
    assert !L2.rebuilt && L2.header == L.header && L2.records == out;
    assert Reconcile(L2.records, edges, histories, owner, sha) == Synced(out);
    BuildCacheSynced(Some(disk), edges, cs, false, histories, owner, sha);
    FinishCached(L.header, out, L.rebuilt);
  }

  /**
   * The returned totals are the sums of the added and deleted fields over the record
   * list the completed pass leaves in memory, the list the file is written from.
   */
  lemma BuildCacheTotals(file: Option<string>, edges: seq<Edge>, cs: nat, force: bool,
                         histories: seq<seq<Response>>, owner: string, sha: string -> Digest)
    requires |histories| == |edges|
    requires forall k :: 0 <= k < |histories| ==> Ends(histories[k])
    requires BuildCache(file, edges, cs, force, histories, owner, sha).result.Ok?
    ensures var L := Prepare(file, edges, cs, force, sha);
      var p := Reconcile(L.records, edges, histories, owner, sha);
      var r := BuildCache(file, edges, cs, force, histories, owner, sha);
      && p.Synced?
      && r.disk == WriteLines(L.header + p.records)
      && ColumnSum(p.records, 3) == Ok(r.result.value.added)
      && ColumnSum(p.records, 4) == Ok(r.result.value.deleted)
      && r.result.value.net == r.result.value.added - r.result.value.deleted
  {
    var L := Prepare(file, edges, cs, force, sha);
    SumLocByColumns(Reconcile(L.records, edges, histories, owner, sha).records);
  }

  /**
   * On a file that starts with a complete comment block, the returned totals are the
   * sums of the added and deleted fields over the record lines of the file as written,
   * one per listed repository, the comment block excluded.
   */
  lemma BuildCacheTotalsOnDisk(file: Option<string>, edges: seq<Edge>, cs: nat, force: bool,
                               histories: seq<seq<Response>>, owner: string, sha: string -> Digest)
    requires |histories| == |edges|
    requires forall k :: 0 <= k < |histories| ==> Ends(histories[k])
    requires HeaderComplete(InitialLines(file, cs), cs)
    requires BuildCache(file, edges, cs, force, histories, owner, sha).result.Ok?
    ensures var r := BuildCache(file, edges, cs, force, histories, owner, sha);
      var ls := ReadLines(r.disk);
      && |ls| == cs + |edges|
      && ColumnSum(ls[cs..], 3) == Ok(r.result.value.added)
      && ColumnSum(ls[cs..], 4) == Ok(r.result.value.deleted)
  {
    var L := Prepare(file, edges, cs, force, sha);
    var out := Reconcile(L.records, edges, histories, owner, sha).records;
    StartLayout(file, edges, cs, force, sha);
    WrittenLayout(file, edges, cs, force, histories, owner, sha);
    SplitAtSeam(L.header, out);
    BuildCacheTotals(file, edges, cs, force, histories, owner, sha);
  }

  /** What a call leaves and returns when its pass stops on a failed history request. */
  lemma BuildCacheInterrupted(file: Option<string>, edges: seq<Edge>, cs: nat, force: bool,
                              histories: seq<seq<Response>>, owner: string, sha: string -> Digest)
    requires |histories| == |edges|
    requires forall k :: 0 <= k < |histories| ==> Ends(histories[k])
    requires Reconcile(Prepare(file, edges, cs, force, sha).records, edges, histories, owner, sha).Interrupted?
    ensures var L := Prepare(file, edges, cs, force, sha);
      var p := Reconcile(L.records, edges, histories, owner, sha);
      BuildCache(file, edges, cs, force, histories, owner, sha) == Run(WriteLines(L.header + p.records), Err(p.fault))
  {
    var L := Prepare(file, edges, cs, force, sha);
    var p := Reconcile(L.records, edges, histories, owner, sha);
    WriteLinesAppend(L.header, p.records);
  }

  /**
   * The crash flush (`force_close_file`): when a history request fails at record `at`,
   * the file holds the comment block and the pass's current record list, where every
   * record before `at` is settled and every record from `at` on is as it was read; the
   * exception is the rate-limit one exactly when the status was 403.
   */
  lemma BuildCacheCrash(file: Option<string>, edges: seq<Edge>, cs: nat, force: bool,
                        histories: seq<seq<Response>>, owner: string, sha: string -> Digest)
    requires |histories| == |edges|
    requires forall k :: 0 <= k < |histories| ==> Ends(histories[k])
    requires Reconcile(Prepare(file, edges, cs, force, sha).records, edges, histories, owner, sha).Interrupted?
    ensures var L := Prepare(file, edges, cs, force, sha);
      var p := Reconcile(L.records, edges, histories, owner, sha);
      var r := BuildCache(file, edges, cs, force, histories, owner, sha);
      && p.at < |edges| && p.at < |L.records|
      && r.disk == WriteLines(L.header + p.records)
      && |p.records| == |L.records|
      && (forall j :: 0 <= j < p.at ==>
            p.records[j] == Settle(Judge(L.records[j], edges[j], histories[j], owner, sha), L.records[j]))
      && (forall j :: p.at <= j < |L.records| ==> p.records[j] == L.records[j])
      && Stale(L.records[p.at], edges[p.at], sha)
      && var w := Walk(histories[p.at], owner, NoTally);
         && w.Refused?
         && r.result == Err(RefusalFault(w.status))
         && (r.result == Err(RateLimited) <==> w.status == 403)
  {
    var L := Prepare(file, edges, cs, force, sha);
    ReconcileInterrupted(L.records, edges, histories, owner, sha);
    BuildCacheInterrupted(file, edges, cs, force, histories, owner, sha);
  }

  /** Any other exception in the pass leaves the file as it was before the pass. */
  lemma BuildCacheRaises(file: Option<string>, edges: seq<Edge>, cs: nat, force: bool,
                         histories: seq<seq<Response>>, owner: string, sha: string -> Digest)
    requires |histories| == |edges|
    requires forall k :: 0 <= k < |histories| ==> Ends(histories[k])
    requires Reconcile(Prepare(file, edges, cs, force, sha).records, edges, histories, owner, sha).Broken?
    ensures var L := Prepare(file, edges, cs, force, sha);
      var p := Reconcile(L.records, edges, histories, owner, sha);
      var r := BuildCache(file, edges, cs, force, histories, owner, sha);
      && r == Run(L.disk, Err(p.fault))
      && p.at < |edges|
      && (p.at < |L.records| ==> Judge(L.records[p.at], edges[p.at], histories[p.at], owner, sha) == Raised(p.fault))
      && (p.at >= |L.records| ==> p.fault == MissingRecord(p.at))
  {
    ReconcileByPosition(Prepare(file, edges, cs, force, sha).records, edges, histories, owner, sha);
  }
}
