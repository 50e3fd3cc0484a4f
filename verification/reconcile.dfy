/**
 * The reconciliation pass of `cache_builder`: record line `i` (after the header) is
 * matched to listing entry `i` by position and checked by its hash; a matching
 * record whose stored commit count differs from the live one is refreshed by a
 * history walk. The pass stops at the first exception.
 */
module Reconciliation {
  import opened Common
  import opened PyText
  import opened Lines
  import opened CacheLine
  import opened History

  /**
   * One entry of the repository listing: `nameWithOwner` and the default branch's
   * `history.totalCount`, None when `defaultBranchRef` is null.
   */
  datatype Edge = Edge(nameWithOwner: string, totalCount: Option<int>)

  /** What happens to one record line. */
  datatype Verdict =
    | Keep                 // left as it is
    | Rewrite(line: string) // replaced by this line
    | Flushed(fault: Fault) // a history request failed: the cache is written, then the exception propagates
    | Raised(fault: Fault)  // any other exception: it propagates with nothing written

  /** How the pass ends: all records processed, or stopped by one of the two kinds of exception. */
  datatype Pass =
    | Synced(records: seq<string>)
    | Interrupted(records: seq<string>, fault: Fault, at: nat)
    | Broken(fault: Fault, at: nat)

  /** The exception a refused history request raises; 403 gets its own rate-limit message. */
  function RefusalFault(status: int): Fault {
    if status == 403 then RateLimited else RequestFailed(status)
  }

  function Occurrences(s: string, c: char): nat
    decreases |s|
  {
    if |s| == 0 then 0 else Occurrences(s[1..], c) + (if s[0] == c then 1 else 0)
  }

  /** `owner, repo_name = name.split('/')` succeeds exactly when there is one '/'. */
  predicate SplitsInTwo(name: string) {
    Occurrences(name, '/') == 1
  }

  /**
   * A record the pass must refresh: it has a hash and a count field, the hash is the
   * listed repository's, the count is an integer, and it is not the live commit count
   * (there is none when the repository has no default branch).
   */
  predicate Stale(line: string, e: Edge, sha: string -> Digest) {
    var f := Split(line);
    && |f| >= 2
    && f[0] == sha(e.nameWithOwner)
    && ParseInt(f[1]).Some?
    && e.totalCount != Some(ParseInt(f[1]).value)
  }

  /** The record line after its verdict. */
  function Settle(v: Verdict, line: string): string {
    if v.Rewrite? then v.line else line
  }

  /**
   * One iteration of the `for index in range(len(edges))` loop on the record line it
   * reads. A record of another repository is kept; a stale one becomes the zero line
   * when there is no live count or the walk finds no branch, the walk's totals under
   * the live count when the walk counts, and a flush when the walk is refused. The
   * loop body raises on fewer than two fields, on a matching hash with a non-integer
   * count, and on a stale record with a live count whose name does not split in two.
   */
  function Judge(line: string, e: Edge, history: seq<Response>, owner: string, sha: string -> Digest): (v: Verdict)
    requires Ends(history)
    ensures v.Rewrite? || v.Flushed? ==> Stale(line, e, sha)
    ensures Stale(line, e, sha) ==> !v.Keep?
    ensures var f := Split(line);
      v.Raised? <==>
        || |f| < 2
        || (&& f[0] == sha(e.nameWithOwner)
            && (|| ParseInt(f[1]).None?
                || (Stale(line, e, sha) && e.totalCount.Some? && !SplitsInTwo(e.nameWithOwner))))
    ensures var f := Split(line);
      |f| >= 2 && f[0] != sha(e.nameWithOwner) ==> v == Keep
    ensures Stale(line, e, sha) && e.totalCount.None? ==> v == Rewrite(ZeroLine(sha(e.nameWithOwner)))
    ensures && Stale(line, e, sha) && e.totalCount.Some? && SplitsInTwo(e.nameWithOwner)
            && Walk(history, owner, NoTally).NoBranch?
            ==> v == Rewrite(ZeroLine(sha(e.nameWithOwner)))
    ensures && Stale(line, e, sha) && e.totalCount.Some? && SplitsInTwo(e.nameWithOwner)
            && Walk(history, owner, NoTally).Counted?
            ==> var t := Walk(history, owner, NoTally).tally;
                v == Rewrite(FormatRecord(Record(sha(e.nameWithOwner), e.totalCount.value, t.mine, t.added, t.deleted)))
    ensures v.Rewrite? ==>
      || v.line == ZeroLine(sha(e.nameWithOwner))
      || (&& e.totalCount.Some?
          && Walk(history, owner, NoTally).Counted?
          && var t := Walk(history, owner, NoTally).tally;
             v.line == FormatRecord(Record(sha(e.nameWithOwner), e.totalCount.value, t.mine, t.added, t.deleted)))
    ensures v.Flushed? <==>
      (&& Stale(line, e, sha) && e.totalCount.Some? && SplitsInTwo(e.nameWithOwner)
       && Walk(history, owner, NoTally).Refused?)
    ensures v.Flushed? ==> v.fault == RefusalFault(Walk(history, owner, NoTally).status)
  {
    var f := Split(line);
    if |f| < 2 then Raised(UnreadableLine(line))
    else
      var hash := f[0];
      if hash != sha(e.nameWithOwner) then Keep
      else match ParseInt(f[1])
        case None => Raised(UnreadableLine(line))
        case Some(stored) =>
          match e.totalCount
          case None => Rewrite(ZeroLine(hash))
          case Some(live) =>
            if stored == live then Keep
            else if !SplitsInTwo(e.nameWithOwner) then Raised(UnsplittableName(e.nameWithOwner))
            else match Walk(history, owner, NoTally)
              case Refused(status) => Flushed(RefusalFault(status))
              case NoBranch => Rewrite(ZeroLine(hash))
              case Counted(t) => Rewrite(FormatRecord(Record(hash, live, t.mine, t.added, t.deleted)))
  }

  predicate Passes(v: Verdict) {
    v.Keep? || v.Rewrite?
  }

  /**
   * The pass as the left fold the loop is: positions `0 .. n - 2` first, then position
   * `n - 1` against the partly updated record list, with `verdict(i, line)` the loop body.
   */
  function Fold(records: seq<string>, verdict: (nat, string) -> Verdict, n: nat): Pass
    decreases n
  {
    if n == 0 then Synced(records)
    else
      var i := n - 1;
      var prior := Fold(records, verdict, i);
      if !prior.Synced? then prior
      else if i >= |prior.records| then Broken(MissingRecord(i), i)
      else match verdict(i, prior.records[i])
        case Keep => prior
        case Rewrite(line) => Synced(prior.records[i := line])
        case Flushed(fault) => Interrupted(prior.records, fault, i)
        case Raised(fault) => Broken(fault, i)
  }

  /**
   * The fold is a positional map: it completes exactly when every record passes its
   * own check, and then each record is settled by its own verdict; a failed history
   * request at position `at` leaves every earlier record settled and every later one
   * (that one included) as it was read; any other exception, or a listing longer than
   * the record list, stops it at the first position that raises.
   */
  lemma {:induction false} FoldByPosition(records: seq<string>, verdict: (nat, string) -> Verdict, n: nat)
    ensures var p := Fold(records, verdict, n);
      && (p.Synced? <==> |records| >= n && forall j :: 0 <= j < n ==> Passes(verdict(j, records[j])))
      && (!p.Broken? ==> |p.records| == |records|)
      && (p.Synced? ==> forall j :: 0 <= j < |records| ==>
            p.records[j] == if j < n then Settle(verdict(j, records[j]), records[j]) else records[j])
      && (p.Interrupted? ==>
            && p.at < n && p.at < |records|
            && verdict(p.at, records[p.at]) == Flushed(p.fault)
            && (forall j :: 0 <= j < p.at ==>
                  Passes(verdict(j, records[j])) && p.records[j] == Settle(verdict(j, records[j]), records[j]))
            && (forall j :: p.at <= j < |records| ==> p.records[j] == records[j]))
      && (p.Broken? ==>
            && p.at < n && p.at <= |records|
            && (forall j :: 0 <= j < p.at ==> Passes(verdict(j, records[j])))
            && if p.at < |records| then verdict(p.at, records[p.at]) == Raised(p.fault)
               else p.fault == MissingRecord(p.at))
    decreases n
  {
    if n > 0 {
      var i := n - 1;
      FoldByPosition(records, verdict, i);
      var prior := Fold(records, verdict, i);
      if prior.Synced? {
        assert |records| >= i && |prior.records| == |records|;
        if i < |prior.records| {
          assert prior.records[i] == records[i];
        }
      }
    }
  }

  /** The loop body at every position of the listing. */
  function Verdicts(edges: seq<Edge>, histories: seq<seq<Response>>, owner: string, sha: string -> Digest): (nat, string) -> Verdict {
    (i: nat, line: string) =>
      if i < |edges| && i < |histories| && Ends(histories[i]) then Judge(line, edges[i], histories[i], owner, sha)
      else Keep
  }

  /** The reconciliation loop of `cache_builder` over the record lines that follow the header. */
  function Reconcile(records: seq<string>, edges: seq<Edge>, histories: seq<seq<Response>>,
                     owner: string, sha: string -> Digest): Pass
    requires |histories| == |edges|
    requires forall k :: 0 <= k < |histories| ==> Ends(histories[k])
  {
    Fold(records, Verdicts(edges, histories, owner, sha), |edges|)
  }

  /** The positional description of the reconciliation loop, with each position checked by `Judge`. */
  lemma ReconcileByPosition(records: seq<string>, edges: seq<Edge>, histories: seq<seq<Response>>,
                            owner: string, sha: string -> Digest)
    requires |histories| == |edges|
    requires forall k :: 0 <= k < |histories| ==> Ends(histories[k])
    ensures var p := Reconcile(records, edges, histories, owner, sha);
      && (p.Synced? <==>
            |records| >= |edges| && forall j :: 0 <= j < |edges| ==> Passes(Judge(records[j], edges[j], histories[j], owner, sha)))
      && (!p.Broken? ==> |p.records| == |records|)
      && (p.Synced? ==> forall j :: 0 <= j < |records| ==>
            p.records[j] == if j < |edges| then Settle(Judge(records[j], edges[j], histories[j], owner, sha), records[j]) else records[j])
      && (p.Interrupted? ==>
            && p.at < |edges| && p.at < |records|
            && Judge(records[p.at], edges[p.at], histories[p.at], owner, sha) == Flushed(p.fault)
            && (forall j :: 0 <= j < p.at ==>
                  p.records[j] == Settle(Judge(records[j], edges[j], histories[j], owner, sha), records[j]))
            && (forall j :: p.at <= j < |records| ==> p.records[j] == records[j]))
      && (p.Broken? ==>
            && p.at < |edges| && p.at <= |records|
            && (forall j :: 0 <= j < p.at ==> Passes(Judge(records[j], edges[j], histories[j], owner, sha)))
            && if p.at < |records| then Judge(records[p.at], edges[p.at], histories[p.at], owner, sha) == Raised(p.fault)
               else p.fault == MissingRecord(p.at))
  {
    var verdict := Verdicts(edges, histories, owner, sha);
    FoldByPosition(records, verdict, |edges|);
    forall j | 0 <= j < |edges| && j < |records|
      ensures verdict(j, records[j]) == Judge(records[j], edges[j], histories[j], owner, sha)
    {
    }
  }

  /**
   * A pass stopped by a failed history request: it stopped at the first stale record
   * whose walk was refused, with the exception that refusal raises, every earlier
   * record settled and every later one, that one included, as it was read.
   */
  lemma ReconcileInterrupted(records: seq<string>, edges: seq<Edge>, histories: seq<seq<Response>>,
                             owner: string, sha: string -> Digest)
    requires |histories| == |edges|
    requires forall k :: 0 <= k < |histories| ==> Ends(histories[k])
    requires Reconcile(records, edges, histories, owner, sha).Interrupted?
    ensures var p := Reconcile(records, edges, histories, owner, sha);
      && p.at < |edges| && p.at < |records|
      && |p.records| == |records|
      && (forall j :: 0 <= j < p.at ==>
            p.records[j] == Settle(Judge(records[j], edges[j], histories[j], owner, sha), records[j]))
      && (forall j :: p.at <= j < |records| ==> p.records[j] == records[j])
      && Stale(records[p.at], edges[p.at], sha)
      && var w := Walk(histories[p.at], owner, NoTally);
         w.Refused? && p.fault == RefusalFault(w.status)
  {
    ReconcileByPosition(records, edges, histories, owner, sha);
  }

  /**
   * A record that passed its check is settled: checked again against the same listing
   * entry and the same history answers, its new line passes and stays as it is.
   */
  lemma JudgeSettles(line: string, e: Edge, history: seq<Response>, owner: string, sha: string -> Digest)
    requires Ends(history)
    requires Passes(Judge(line, e, history, owner, sha))
    ensures var settled := Settle(Judge(line, e, history, owner, sha), line);
      && Passes(Judge(settled, e, history, owner, sha))
      && Settle(Judge(settled, e, history, owner, sha), settled) == settled
  {
    var v := Judge(line, e, history, owner, sha);
    if v.Rewrite? {
      var hash := sha(e.nameWithOwner);
      DigestIsToken(hash);
      if v.line == ZeroLine(hash) {
        ZeroLineIsZeroRecord(hash);
        RecordRoundTrip(Record(hash, 0, 0, 0, 0));
      } else {
        var t := Walk(history, owner, NoTally).tally;
        RecordRoundTrip(Record(hash, e.totalCount.value, t.mine, t.added, t.deleted));
      }
    }
  }

  /**
   * Idempotence: a pass that completed leaves records that a second pass over the
   * same listing and the same history answers completes on without changing.
   */
  lemma ReconcileSettles(records: seq<string>, edges: seq<Edge>, histories: seq<seq<Response>>,
                         owner: string, sha: string -> Digest)
    requires |histories| == |edges|
    requires forall k :: 0 <= k < |histories| ==> Ends(histories[k])
    requires Reconcile(records, edges, histories, owner, sha).Synced?
    ensures var out := Reconcile(records, edges, histories, owner, sha).records;
      Reconcile(out, edges, histories, owner, sha) == Synced(out)
  {
    var out := Reconcile(records, edges, histories, owner, sha).records;
    ReconcileByPosition(records, edges, histories, owner, sha);
    forall j | 0 <= j < |edges|
      ensures Passes(Judge(out[j], edges[j], histories[j], owner, sha))
      ensures Settle(Judge(out[j], edges[j], histories[j], owner, sha), out[j]) == out[j]
    {
      JudgeSettles(records[j], edges[j], histories[j], owner, sha);
    }
    ReconcileByPosition(out, edges, histories, owner, sha);
    var again := Reconcile(out, edges, histories, owner, sha);
    assert again.records == out;
  }

  /**
   * Only stale records are rewritten, and every stale one is: a record that is not
   * stale keeps its line; a stale one gets the zero line when the repository has no
   * default branch or its walk finds none, and otherwise the walk counted and the line
   * holds the walk's totals under the live commit count.
   */
  lemma ReconcileRefreshesStale(records: seq<string>, edges: seq<Edge>, histories: seq<seq<Response>>,
                                owner: string, sha: string -> Digest, j: nat)
    requires |histories| == |edges|
    requires forall k :: 0 <= k < |histories| ==> Ends(histories[k])
    requires Reconcile(records, edges, histories, owner, sha).Synced?
    requires j < |records|
    ensures var out := Reconcile(records, edges, histories, owner, sha).records;
      && |out| == |records|
      && (j >= |edges| || !Stale(records[j], edges[j], sha) ==> out[j] == records[j])
      && (j < |edges| && Stale(records[j], edges[j], sha) ==>
            var hash := sha(edges[j].nameWithOwner);
            var w := Walk(histories[j], owner, NoTally);
            && (edges[j].totalCount.None? || w.NoBranch? ==> out[j] == ZeroLine(hash))
            && (edges[j].totalCount.Some? ==> SplitsInTwo(edges[j].nameWithOwner) && !w.Refused?)
            && (edges[j].totalCount.Some? && w.Counted? ==>
                  out[j] == FormatRecord(Record(hash, edges[j].totalCount.value, w.tally.mine, w.tally.added, w.tally.deleted))))
  {
    ReconcileByPosition(records, edges, histories, owner, sha);
  }

  /** A rewritten record is one complete line, its hash field first. */
  lemma RewriteIsProperLine(line: string, e: Edge, history: seq<Response>, owner: string, sha: string -> Digest)
    requires Ends(history)
    ensures var v := Judge(line, e, history, owner, sha);
      v.Rewrite? ==> ProperLine(v.line) && Split(v.line)[0] == sha(e.nameWithOwner)
  {
    var v := Judge(line, e, history, owner, sha);
    if v.Rewrite? {
      var hash := sha(e.nameWithOwner);
      DigestIsToken(hash);
      var r := if v.line == ZeroLine(hash) then Record(hash, 0, 0, 0, 0)
        else
          var t := Walk(history, owner, NoTally).tally;
          Record(hash, e.totalCount.value, t.mine, t.added, t.deleted);
      ZeroLineIsZeroRecord(hash);
      assert v.line == FormatRecord(r);
      RecordIsProperLine(r);
      RecordRoundTrip(r);
    }
  }
}
