/**
 * The per-repository history walk (`recursive_loc` with `loc_counter_one_repo`):
 * the commit history of the default branch is read page by page; commits whose
 * author user is the tracked account add one to the own-commit count and their
 * additions and deletions to the running totals. The answers of the remote to the
 * successive requests are an input, in request order.
 */
module History {
  import opened Common

  /** One history entry: the author's user id (None when the author has no user) and its line deltas. */
  datatype Commit = Commit(authorId: Option<string>, additions: int, deletions: int)

  /** One page of `history(first: 100, after: cursor)`. */
  datatype Page = Page(commits: seq<Commit>, hasNextPage: bool, endCursor: Option<string>)

  /**
   * One answer to the history request: its HTTP status and, for status 200,
   * the default branch's history page (None when `defaultBranchRef` is null).
   */
  datatype Response = Response(status: int, history: Option<Page>)

  /** The running totals, as the tuple `(addition_total, deletion_total, my_commits)`. */
  datatype Tally = Tally(added: int, deleted: int, mine: int)

  /** How a walk ends: with totals, with "no default branch" (the bare `0`), or with a refused request. */
  datatype WalkResult = Counted(tally: Tally) | NoBranch | Refused(status: int)

  const NoTally := Tally(0, 0, 0)

  function Plus(a: Tally, b: Tally): Tally {
    Tally(a.added + b.added, a.deleted + b.deleted, a.mine + b.mine)
  }

  /** The author check `node['author']['user'] == OWNER_ID`, with both sides reduced to the user id. */
  predicate Authored(c: Commit, owner: string) {
    c.authorId == Some(owner)
  }

  /** What one entry adds to the totals. */
  function CommitTally(c: Commit, owner: string): Tally {
    if Authored(c, owner) then Tally(c.additions, c.deletions, 1) else NoTally
  }

  /** The `for node in history['edges']` loop over a list of entries, left to right. */
  function TallyOf(cs: seq<Commit>, owner: string): Tally
    decreases |cs|
  {
    if |cs| == 0 then NoTally
    else Plus(TallyOf(cs[..|cs| - 1], owner), CommitTally(cs[|cs| - 1], owner))
  }

  /** The page after which no further request is made. */
  predicate FinalPage(p: Page) {
    |p.commits| == 0 || !p.hasNextPage
  }

  /** An answer that ends the walk: a refusal, a null branch, or a final page. */
  predicate Last(r: Response) {
    r.status != 200 || r.history.None? || FinalPage(r.history.value)
  }

  /** The answers contain one that ends the walk. */
  predicate Ends(rs: seq<Response>)
    decreases |rs|
  {
    |rs| > 0 && (Last(rs[0]) || Ends(rs[1..]))
  }

  /** The walk as the code runs it, with the accumulators carried from page to page. */
  function Walk(rs: seq<Response>, owner: string, acc: Tally): WalkResult
    requires Ends(rs)
    decreases |rs|
  {
    var r := rs[0];
    if r.status != 200 then Refused(r.status)
    else if r.history.None? then NoBranch
    else
      var page := r.history.value;
      var acc' := Plus(acc, TallyOf(page.commits, owner));
      if FinalPage(page) then Counted(acc')
      else Walk(rs[1..], owner, acc')
  }

  // ---------------------------------------------------------------------------
  // The walk described without the fold

  /** The index of the answer that ends the walk. */
  function StopIndex(rs: seq<Response>): (k: nat)
    requires Ends(rs)
    ensures k < |rs| && Last(rs[k])
    ensures forall j :: 0 <= j < k ==> !Last(rs[j])
    decreases |rs|
  {
    if Last(rs[0]) then 0 else 1 + StopIndex(rs[1..])
  }

  /** All entries of the pages among the given answers, in order. */
  function Entries(rs: seq<Response>): seq<Commit>
    decreases |rs|
  {
    if |rs| == 0 then []
    else (if rs[0].history.Some? then rs[0].history.value.commits else []) + Entries(rs[1..])
  }

  /** Only the tracked account's commits, in order. */
  function Mine(cs: seq<Commit>, owner: string): (m: seq<Commit>)
    ensures forall i :: 0 <= i < |m| ==> Authored(m[i], owner)
    decreases |cs|
  {
    if |cs| == 0 then []
    else Mine(cs[..|cs| - 1], owner) + (if Authored(cs[|cs| - 1], owner) then [cs[|cs| - 1]] else [])
  }

  function SumAdditions(cs: seq<Commit>): int
    decreases |cs|
  {
    if |cs| == 0 then 0 else SumAdditions(cs[..|cs| - 1]) + cs[|cs| - 1].additions
  }

  function SumDeletions(cs: seq<Commit>): int
    decreases |cs|
  {
    if |cs| == 0 then 0 else SumDeletions(cs[..|cs| - 1]) + cs[|cs| - 1].deletions
  }

  /**
   * Author filtering: the totals are the line sums and the number of the tracked
   * account's own commits; every other entry contributes nothing.
   */
  lemma {:induction false} TallyCountsOwnCommits(cs: seq<Commit>, owner: string)
    ensures TallyOf(cs, owner) == Tally(SumAdditions(Mine(cs, owner)), SumDeletions(Mine(cs, owner)), |Mine(cs, owner)|)
    decreases |cs|
  {
    if |cs| > 0 {
      var init := cs[..|cs| - 1];
      var c := cs[|cs| - 1];
      TallyCountsOwnCommits(init, owner);
      var m := Mine(init, owner);
      if Authored(c, owner) {
        assert (m + [c])[..|m|] == m;
      } else {
        assert m + [] == m;
      }
    }
  }

  lemma PlusNone(t: Tally)
    ensures Plus(t, NoTally) == t
  {
  }

  lemma PlusAssociative(x: Tally, y: Tally, z: Tally)
    ensures Plus(Plus(x, y), z) == Plus(x, Plus(y, z))
  {
  }

  lemma {:induction false} TallyOfAppend(a: seq<Commit>, b: seq<Commit>, owner: string)
    ensures TallyOf(a + b, owner) == Plus(TallyOf(a, owner), TallyOf(b, owner))
    decreases |b|
  {
    if |b| == 0 {
      assert a + b == a;
      PlusNone(TallyOf(a, owner));
    } else {
      var init := b[..|b| - 1];
      var c := b[|b| - 1];
      var ab := a + b;
      assert ab[..|ab| - 1] == a + init;
      assert ab[|ab| - 1] == c;
      assert TallyOf(ab, owner) == Plus(TallyOf(a + init, owner), CommitTally(c, owner));
      TallyOfAppend(a, init, owner);
      PlusAssociative(TallyOf(a, owner), TallyOf(init, owner), CommitTally(c, owner));
    }
  }

  lemma TallyOfSingle(c: Commit, owner: string)
    ensures TallyOf([c], owner) == CommitTally(c, owner)
  {
    var s := [c];
    assert s[..|s| - 1] == [];
    assert TallyOf(s, owner) == Plus(TallyOf([], owner), CommitTally(c, owner));
  }

  /** An entry by another author can be added anywhere without changing the totals. */
  lemma ForeignCommitIgnored(a: seq<Commit>, c: Commit, b: seq<Commit>, owner: string)
    requires !Authored(c, owner)
    ensures TallyOf(a + [c] + b, owner) == TallyOf(a + b, owner)
  {
    var ac := a + [c];
    TallyOfSingle(c, owner);
    TallyOfAppend(a, [c], owner);
    assert TallyOf(ac, owner) == TallyOf(a, owner);
    TallyOfAppend(ac, b, owner);
    TallyOfAppend(a, b, owner);
  }

  /**
   * The walk's result: the answer at `StopIndex` decides how it ends; when it ends
   * with a page, the totals are the accumulators plus the tally over every entry of
   * every page consumed, that final page included.
   */
  lemma {:induction false} WalkConsumesUpToStop(rs: seq<Response>, owner: string, acc: Tally)
    requires Ends(rs)
    ensures var k := StopIndex(rs);
      Walk(rs, owner, acc) ==
        if rs[k].status != 200 then Refused(rs[k].status)
        else if rs[k].history.None? then NoBranch
        else Counted(Plus(acc, TallyOf(Entries(rs[..k + 1]), owner)))
    decreases |rs|
  {
    var k := StopIndex(rs);
    var r := rs[0];
    if r.status == 200 && r.history.Some? {
      var page := r.history.value;
      var acc' := Plus(acc, TallyOf(page.commits, owner));
      assert Entries(rs[..k + 1]) == page.commits + Entries(rs[..k + 1][1..]);
      if Last(r) {
        assert k == 0;
        assert Entries(rs[..1][1..]) == [];
        assert page.commits + [] == page.commits;
      } else {
        assert StopIndex(rs[1..]) == k - 1;
        assert rs[..k + 1][1..] == rs[1..][..k];
        WalkConsumesUpToStop(rs[1..], owner, acc');
        TallyOfAppend(page.commits, Entries(rs[1..][..k]), owner);
      }
    }
  }

  /** One request of the walk: an answer that does not end it hands the totals on to the next one. */
  lemma WalkStep(rs: seq<Response>, owner: string, acc: Tally)
    requires Ends(rs) && !Last(rs[0])
    ensures Ends(rs[1..])
    ensures Walk(rs, owner, acc) == Walk(rs[1..], owner, Plus(acc, TallyOf(rs[0].history.value.commits, owner)))
  {
  }

  /** The request at position `k` of the answers, when it does not end the walk. */
  lemma WalkAdvance(rs: seq<Response>, k: nat, owner: string, acc: Tally)
    requires k < |rs| && Ends(rs[k..]) && !Last(rs[k])
    ensures k + 1 < |rs| && Ends(rs[k + 1..])
    ensures Walk(rs[k..], owner, acc) == Walk(rs[k + 1..], owner, Plus(acc, TallyOf(rs[k].history.value.commits, owner)))
  {
    WalkStep(rs[k..], owner, acc);
    assert rs[k..][1..] == rs[k + 1..];
  }

  /** The request at position `k` of the answers, when it ends the walk. */
  lemma WalkFinish(rs: seq<Response>, k: nat, owner: string, acc: Tally)
    requires k < |rs| && Ends(rs[k..]) && Last(rs[k])
    ensures Walk(rs[k..], owner, acc) ==
      if rs[k].status != 200 then Refused(rs[k].status)
      else if rs[k].history.None? then NoBranch
      else Counted(Plus(acc, TallyOf(rs[k].history.value.commits, owner)))
  {
    assert rs[k..][0] == rs[k];
  }

  /**
   * The walk as a loop with an explicit cursor. `cursors` are the `after` arguments of
   * the requests made: none for the first request, then the previous page's `endCursor`.
   */
  method WalkHistory(rs: seq<Response>, owner: string) returns (r: WalkResult, cursors: seq<Option<string>>)
    requires Ends(rs)
    ensures r == Walk(rs, owner, NoTally)
    ensures |cursors| == StopIndex(rs) + 1
    ensures cursors[0] == None
    ensures forall j :: 0 <= j < |cursors| - 1 ==> rs[j].history.Some? && cursors[j + 1] == rs[j].history.value.endCursor
  {
    var k, acc;
    k, acc, cursors := FollowPages(rs, owner);
    AftersAt(rs[..k]);
    WalkFinish(rs, k, owner, acc);
    var resp := rs[k];
    if resp.status != 200 {
      r := Refused(resp.status);
    } else if resp.history.None? {
      r := NoBranch;
    } else {
      var pageTally := TallyPage(resp.history.value.commits, owner);
      r := Counted(Plus(acc, pageTally));
    }
  }

  /** The `after` argument of the request that follows an answer with a page. */
  function After(r: Response): Option<string> {
    if r.history.Some? then r.history.value.endCursor else None
  }

  /** The `after` arguments that follow the given answers, in order. */
  function Afters(rs: seq<Response>): (cs: seq<Option<string>>)
    ensures |cs| == |rs|
    decreases |rs|
  {
    if |rs| == 0 then [] else Afters(rs[..|rs| - 1]) + [After(rs[|rs| - 1])]
  }

  lemma {:induction false} AftersAt(rs: seq<Response>)
    ensures forall j :: 0 <= j < |rs| ==> Afters(rs)[j] == After(rs[j])
    decreases |rs|
  {
    if |rs| > 0 {
      AftersAt(rs[..|rs| - 1]);
    }
  }

  /**
   * The requests up to the one that ends the walk: its position, the totals of the
   * pages before it and the cursors of all the requests made.
   */
  method FollowPages(rs: seq<Response>, owner: string) returns (k: nat, acc: Tally, cursors: seq<Option<string>>)
    requires Ends(rs)
    ensures k == StopIndex(rs) && Ends(rs[k..])
    ensures Walk(rs, owner, NoTally) == Walk(rs[k..], owner, acc)
    ensures cursors == [None] + Afters(rs[..k])
  {
    acc := NoTally;
    k := 0;
    cursors := [None];
    while !Last(rs[k])
      invariant k <= StopIndex(rs) && Ends(rs[k..])
      invariant Walk(rs, owner, NoTally) == Walk(rs[k..], owner, acc)
      invariant cursors == [None] + Afters(rs[..k])
      decreases |rs| - k
    {
      var page := rs[k].history.value;
      var pageTally := TallyPage(page.commits, owner);
      WalkAdvance(rs, k, owner, acc);
      assert rs[..k + 1][..k] == rs[..k];
      acc := Plus(acc, pageTally);
      cursors := cursors + [page.endCursor];
      k := k + 1;
    }
  }

  /** The `for node in history['edges']` loop of one page. */
  method TallyPage(commits: seq<Commit>, owner: string) returns (t: Tally)
    ensures t == TallyOf(commits, owner)
  {
    t := NoTally;
    var i := 0;
    while i < |commits|
      invariant i <= |commits|
      invariant t == TallyOf(commits[..i], owner)
    {
      var c := commits[i];
      assert commits[..i + 1][..i] == commits[..i];
      assert TallyOf(commits[..i + 1], owner) == Plus(t, CommitTally(c, owner));
      if c.authorId == Some(owner) {
        t := Tally(t.added + c.additions, t.deleted + c.deletions, t.mine + 1);
      }
      i := i + 1;
    }
    assert commits[..i] == commits;
  }
}
