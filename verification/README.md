# LOC cache engine of `today.py`

A Dafny model of the part of `today.py` that counts lines of code for a GitHub
profile card through a cache file.

**The cache file.** It is a block of `comment_size` comment lines followed by one
record line per repository of the listing:

    <sha256(nameWithOwner)> <commit count at sync> <own commits> <added> <deleted>

**`cache_builder`.**
- It reads the file. A missing file is created holding a placeholder comment block.
- It rebuilds the file with zero records (`flush_cache`) when the record count does
  not match the listing, or when forced.
- It matches record `i` to listing entry `i` by position and checks it by hash.
- It refreshes a matching record whose stored commit count is not the live one, by
  walking that repository's commit history (`recursive_loc` and
  `loc_counter_one_repo`). The walk counts only the commits authored by the tracked
  account.
- It writes the file back and returns the added, deleted and net totals and the
  `cached` flag.

**When a history request fails.** The file is first written with the comment block
and the partly refreshed records (`force_close_file`), then an exception is raised.
Status 403 raises its own rate-limit message.

**The rest of the model.**
- `commit_counter` and `stars_counter` are plain sums.
- `add_archive` reads an archive of deleted repositories: a 7-line header, record
  lines, then a 3-line footer.
- The main block adds the archive's figures to the live ones, for the archive's own
  account only.
- `justify_format` computes the dot leader in front of each right-aligned figure.

**How the outside world is modelled.**
- The cache file is its text: a `string`, `None` when the file does not exist. A call
  takes the text it finds and returns the text it leaves.
- `readlines()` is `Lines.ReadLines`. Each line keeps its `'\n'`; only the last line
  may lack one.
- `str.split()` is `PyText.Split`, over Python's whitespace set.
- `int()` of a token is `PyText.ParseInt`: an optional sign, then ASCII digits with
  single underscores.
- SHA-256 is a parameter `sha: string -> Digest`. A `Digest` is 64 lower-case
  hexadecimal characters.
- The answers of the GraphQL API are inputs:
  - the repository listing is a `seq<Edge>`;
  - the history answers of each repository are a `seq<Response>`, in request order;
  - the tracked account's user id is `owner`.

Modules, one per file:

| module | file | models |
|---|---|---|
| `Common` | common.dfy | Option, Result, the exceptions |
| `PyText` | pytext.dfy | `split()`, `int()`, `str()`, `isdigit()`, slicing |
| `Lines` | lines.dfy | `readlines()` and `writelines()` |
| `CacheLine` | cacheline.dfy | one record line, and column sums over record lines |
| `History` | history.dfy | the paginated history walk |
| `Reconciliation` | reconcile.dfy | the record-by-record loop of `cache_builder` |
| `CacheBuilder` | cachebuilder.dfy | `cache_builder`, `flush_cache`, `force_close_file` |
| `Counters` | counters.dfy | `commit_counter`, `stars_counter` |
| `Archive` | archive.dfy | `add_archive` and the merge in the main block |
| `Justify` | justify.dfy | the dot leader of `justify_format` |

The definitions that model each source function:

| definition | models | source lines |
|---|---|---|
| `History.TallyOf`, `History.TallyPage` | `loc_counter_one_repo`, the loop over one page | today.py:149-157 |
| `History.Walk`, `History.WalkHistory` | `recursive_loc` with `loc_counter_one_repo`, page by page | today.py:100-161 |
| `Reconciliation.Judge` | one iteration of the record loop of `cache_builder` | today.py:229-238 |
| `Reconciliation.Reconcile` | the record loop of `cache_builder` | today.py:229-238 |
| `CacheBuilder.Flush` | `flush_cache` | today.py:249-260 |
| `CacheBuilder.Prepare` | `cache_builder` up to the split into comment block and records | today.py:209-228 |
| `CacheBuilder.Finish` | the final write and the closing sums of `cache_builder` | today.py:239-246 |
| `CacheBuilder.Conclude` | the loop, then either the final write or `force_close_file` | today.py:229-246, 282-289 |
| `CacheBuilder.BuildCache` | `cache_builder` | today.py:205-246 |
| `Counters.CommitCounter` | `commit_counter` | today.py:355-366 |
| `Counters.StarTotal`, `Counters.StarsCounter` | `stars_counter` | today.py:293-299 |
| `Archive.ArchiveSum` | the data loop of `add_archive` | today.py:272-277 |
| `Archive.FooterCommits` | the footer correction of `add_archive` | today.py:278 |
| `Archive.AddArchive` | `add_archive` | today.py:263-279 |
| `Archive.MergeArchive` | the archive block of the main program | today.py:456-461 |
| `Justify.Dots` | the dot leader of `justify_format` | today.py:335-341 |

## Model

| member | source | states |
|---|---|---|
| PyText.ParseIntStr | today.py:236 | `int()` reads back every number `str()` writes |
| PyText.SplitWordsLine | today.py:230 | `split()` of tokens joined by single spaces and ended by '\n' gives the tokens back |
| PyText.SliceSplit | today.py:227-228 | `data[:cs]` and `data[cs:]` put back together give `data`; each is the prefix or suffix cut at `min(cs, len(data))` |
| Lines.ReadLines | today.py:212-213 | the lines `readlines()` returns are non-empty, have no inner '\n', all but the last end in '\n', and written back in order give the text read |
| Lines.ReadWriteLines | today.py:239-241 | reading back what `writelines` wrote gives the same lines if and only if they are non-empty, have no inner '\n' and all but the last end in '\n' |
| Lines.ReadLinesAfterProper | today.py:239-241 | complete lines written before any text read back as themselves, followed by the lines of that text |
| Lines.WriteLinesAppend | today.py:240-241 | two `writelines` calls leave the concatenation of both line lists |
| CacheLine.RecordRoundTrip | today.py:230-236 | `split()` on a written record gives five fields; the first is the hash and `int()` of each other field is the number written |
| CacheLine.FormatIsConcatenation | today.py:236 | the record line is hash, live count, own commits, added and deleted, separated by single spaces and ended by '\n' |
| CacheLine.ZeroLineIsZeroRecord | today.py:238 | the literal `hash 0 0 0 0\n` line is the record with all four counts 0 |
| CacheLine.RecordIsProperLine | today.py:236 | a written record is one complete line |
| CacheLine.SumPairBySumBy | today.py:242-245 | one loop that sums two columns fails exactly when either single-column loop fails, and otherwise gives both sums |
| CacheLine.ColumnSumRender | today.py:242-245 | summing field `k` over written records gives the total of that record field |
| History.TallyCountsOwnCommits | today.py:153-157 | a page's totals are the added and deleted sums and the count of the entries authored by the tracked account, and of no other entries |
| History.ForeignCommitIgnored | today.py:154 | an entry by another author changes no total, wherever it sits |
| History.TallyOfAppend | today.py:153-157 | counting two runs of entries one after the other gives the sum of their totals |
| History.WalkConsumesUpToStop | today.py:139-161 | the walk ends at the first answer that is refused, has no default branch, or holds an empty page or a page without a next page; its totals are those of every page up to and including that one |
| History.WalkHistory | today.py:100-161 | the loop with an explicit cursor computes the walk; the first request has no cursor, each later one has the `endCursor` of the page before it, and there is one request per answer up to the stop |
| History.TallyPage | today.py:153-157 | the page loop computes the page's totals |
| Reconciliation.Judge | today.py:229-238 | a record of another repository (hash mismatch) is kept and the pass goes on; a stale record is never kept: it becomes the zero line when the listing has no live count or the walk finds no branch, and the line `hash live mine added deleted` of the walk's totals when the walk counts; a flush happens exactly on a refused walk of a stale record whose name splits in two, with the refusal's exception; the body raises exactly on fewer than two fields, on a matching hash with a non-integer count, or on a stale record with a live count whose name does not split in two |
| Reconciliation.FoldByPosition | today.py:229-238 | the loop completes exactly when every record passes its own check, and each record is then settled by its own verdict; on a flush, every record before the stop is settled and every other record is as read; on any other exception, it stops at the first position that raises, or at the first listing entry without a record |
| Reconciliation.ReconcileByPosition | today.py:229-238 | the loop's outcome position by position, with `Judge` as the check at each position |
| Reconciliation.ReconcileRefreshesStale | today.py:229-238 | after a completed pass, a record that is not stale (a hash mismatch, an equal count, or beyond the listing) keeps its line byte for byte; a stale one is the zero line when the repository has no live count or its walk found no branch, and otherwise its walk counted and the line holds the walk's own commits, added and deleted lines under the live count |
| Reconciliation.ReconcileInterrupted | today.py:229-236 | a pass cut short by a refused history request stops at a stale record; earlier records are settled, later ones and that one are as read, and the exception is the refusal's |
| Reconciliation.JudgeSettles | today.py:229-238 | a settled record passes a second check against the same entry and answers, and stays as it is |
| Reconciliation.ReconcileSettles | today.py:229-238 | a completed pass, run again on its own output, completes and changes nothing |
| Reconciliation.RewriteIsProperLine | today.py:236-238 | a rewritten record is one complete line whose first field is the repository's hash |
| CacheBuilder.FlushReadsBack | today.py:249-260 | when the file's first `comment_size` lines (all of them, if it has fewer) end in '\n', the file `flush_cache` writes reads back as those lines, then one zero record per listed repository, in listing order |
| CacheBuilder.FlushLayout | today.py:249-260 | split at `comment_size`, the rebuilt file gives the original comment block and the zero records, and its lines are well formed |
| CacheBuilder.InitialLinesRead | today.py:211-219 | the lines in memory after the `try` are those of the file on disk, a new file included |
| CacheBuilder.PlaceholderBlockComplete | today.py:215-217 | a new file's placeholder block is `comment_size` complete lines |
| CacheBuilder.StartLayout | today.py:209-228 | the rebuild runs if and only if the record count differs from the listing's length or it is forced; the comment block is always the file's first `comment_size` lines; after a rebuild the records are the zero records; otherwise they are the file's own lines |
| CacheBuilder.BuildCache | today.py:205-246 | the net total is the added total minus the deleted total, and `cached` is false exactly when the rebuild ran |
| CacheBuilder.Conclude | today.py:229-246 | from a given layout, a successful call reports net = added − deleted, and `cached` is the negation of the layout's rebuild flag |
| CacheBuilder.SumLocByColumns | today.py:242-245 | the closing loop sums fields 3 and 4 together and fails exactly when either column sum fails |
| CacheBuilder.WrittenLayout | today.py:239-241 | on a file with a complete comment block, the file a completed pass writes reads back as the untouched comment block, then one record line per listed repository, so it again starts with a complete comment block |
| CacheBuilder.BuildCacheTotals | today.py:239-246 | a successful call completed its pass, wrote the comment block and the pass's record list, and returns as added and deleted totals the sums of fields 3 and 4 over that list, with net their difference |
| CacheBuilder.BuildCacheTotalsOnDisk | today.py:239-246 | on a file with a complete comment block, the file as written holds one record line per listed repository after the comment block, and the returned totals are the sums of their fields 3 and 4 |
| CacheBuilder.BuildCacheSettles | today.py:205-246 | a second unforced call with the same listing and answers leaves the file byte for byte as it is and returns the same totals, now with `cached` true |
| CacheBuilder.BuildCacheOnSettledFile | today.py:221-228 | a file whose records a pass leaves as they are is neither rebuilt nor rewritten |
| CacheBuilder.FinishCached | today.py:221-222 | the rebuild flag changes nothing in the outcome but the `cached` field |
| CacheBuilder.BuildCacheInterrupted | today.py:282-289 | a refused history request leaves the file holding the comment block and the pass's current record list, and raises |
| CacheBuilder.BuildCacheCrash | today.py:282-289 | the file the crash flush leaves holds the comment block, then the records refreshed before the stop, then the rest as read; the stop is at a stale record; the exception is the rate-limit one exactly when the status is 403 |
| CacheBuilder.BuildCacheRaises | today.py:229-238 | any other exception in the pass leaves the file as it was before the pass |
| Counters.CommitCounterOfRecords | today.py:355-366 | on a complete comment block followed by written records, `commit_counter` returns the sum of the records' own-commit counts |
| Counters.StarsCounter | today.py:293-299 | the loop returns the sum of the stargazer counts |
| Counters.StarTotalAppend | today.py:298 | the count of two listings together is the sum of their counts |
| Counters.StarTotalBounds | today.py:298 | with non-negative counts, the total is at least each single count |
| Archive.ArchiveWindow | today.py:270 | the data lines are those between the first 7 and the last 3; a file of fewer than 10 lines has none |
| Archive.ArchiveFoldByParts | today.py:273-277 | the archive loop is the two-column loop with the own-commit sum carried alongside |
| Archive.ArchiveSumByColumns | today.py:273-277 | the archive loop completes exactly when fields 3 and 4 can be summed; its totals are those column sums and the sum of the own-commit fields that pass the digit check |
| Archive.DigitsValueOfRecord | today.py:277 | a written record's own-commit count is counted if it is not negative, and skipped if it is |
| Archive.DigitsTotalOfRecords | today.py:277 | the digit-checked own commits of written records add up to the sum of their non-negative own-commit counts, which is the field's total when none is negative |
| Archive.OwnCommitTotalOfNonNegative | today.py:277 | when no own-commit count is negative, the digit check skips nothing |
| Archive.FooterOfLines | today.py:278 | the footer correction is read from the last line only |
| Archive.AddArchive | today.py:263-279 | net = added − deleted; the repository count is the number of data lines; an empty file raises |
| Archive.AddArchiveOfBody | today.py:267-279 | on a file of a 7-line header, data lines and a 3-line footer, the result is the data lines' two column sums and their difference, their own-commit sum plus the footer correction, and their number |
| Archive.AddArchiveOfRecords | today.py:263-279 | an archive of written records gives their added and deleted totals, the sum of their non-negative own-commit counts plus the footer correction, and their number |
| Archive.ArchiveSumOfRecords | today.py:273-277 | the data loop over written records gives the totals of the added and deleted fields and the sum of the own-commit counts that are not negative |
| Archive.MergeArchive | today.py:456-461 | a different account's figures are left as they are; for the archive's account, the result is defined exactly when `add_archive` succeeds, and the three LOC totals, the commit total and the contributed count each get the archive's value added |
| Archive.MergeKeepsNet | today.py:458-459 | the merge keeps net = added − deleted |
| Archive.MergeOfRecords | today.py:456-461 | for the archive's account, merging an archive of written records adds their line totals, their non-negative own commits plus the footer correction, and their number |
| Justify.Dots | today.py:335-341 | the leader is exactly `max(0, length - len(text))` characters long |
| Justify.DotsByPosition | today.py:337-341 | character by character, the leader ends in a space, starts with a space unless it is two long, and is dots in between |
| Justify.DotsFillField | today.py:335-341 | figure and leader together are `max(length, len(text))` characters wide, and the leader is empty exactly when the figure fills the field |
| Justify.DotsDefault | today.py:320 | with the default field width 0, as used for the added-lines figure, there is no leader |
| Justify.DotsAlign | today.py:335 | two figures that fit the same field end at the same column together with their leaders |

## Left out

- HTTP and GraphQL transport (`requests.post`, `simple_request`, the query wrappers):
  foreign calls. Their answers are inputs.
- `loc_query`: it only concatenates the listing pages. The model starts from the
  finished listing.
- `open` and I/O errors: the file is a text value. The placeholder file that
  `cache_builder` creates when its file is missing is modelled
  (`CacheBuilder.InitialDisk`); a missing archive file, which raises
  `FileNotFoundError`, is not.
- SHA-256 itself: a parameter.
- `svg_overwrite` and `find_and_replace`: DOM editing in an external library.
- `daily_readme`, `perf_counter`, `formatter`, `query_count` and printing:
  date library calls and instrumentation.
- Environment and token loading: process configuration.
- The `'{:,}'` thousands-separator formatting in `justify_format` and in the main
  block: Python format-spec behaviour. `Justify.Dots` takes the figure's text as
  given.
- Universal-newline translation of `'\r'` in `readlines()`: the model splits only
  after `'\n'`.
- Unicode digits in `int()` and `isdigit()`: only ASCII digits are modelled.
- History.Ends: each repository's answers must contain one that ends the walk. A
  server that answers `hasNextPage` forever is not modelled; in the source such a
  walk ends in the `RecursionError` described on the next line.
- History.Walk and History.WalkHistory: the interpreter's recursion limit is not
  modelled. `recursive_loc` and `loc_counter_one_repo` call each other, two stack
  frames per page, so with CPython's default limit of 1000 frames a history of
  more than about 497 pages raises `RecursionError`. That is not a `TypeError`, so
  `cache_builder` does not catch it: the exception escapes with no crash flush and
  no final write, and the file is left as it was before the pass. The model
  returns `Counted` for a finite answer list of any length.
- A `TypeError` raised inside the history walk by a null `additions` or `deletions`
  field: not modelled. Such a value is caught by the same `except TypeError` and
  would give the zero line.
- A null `author` on a history entry: not modelled. A `Commit` carries only the
  author's user id, `None` when `author.user` is null. With `author` itself null,
  `node['node']['author']['user']` raises a `TypeError` at line 154, which the same
  `except TypeError` turns into the zero line.
- Archive.MergeArchive: the account check compares the user id string. The source
  compares the `{'id': …}` dictionary.
- CacheBuilder.StartLayout: stated for files whose first `comment_size` lines are
  complete lines (`HeaderComplete`). A file whose comment block is shorter, or whose
  last comment line lacks its `'\n'`, is not described after the rebuild: the rebuild
  then pulls zero records into the comment block, or glues the first one onto the last
  comment line. A file the code creates meets the hypothesis
  (`PlaceholderBlockComplete`), and so does a file a completed call wrote, read again
  with the same `comment_size` (`WrittenLayout`). A file edited by hand, or read with
  another `comment_size`, need not.
- CacheBuilder.FlushReadsBack: stated for files whose first `comment_size` lines, or
  all lines when there are fewer, end in `'\n'`. When the last of them lacks it,
  `flush_cache` glues the first zero record onto that line; that case is not
  described.
- CacheBuilder.FlushLayout: stated under `HeaderComplete`, for the reason given for
  StartLayout.
- CacheBuilder.WrittenLayout: stated under `HeaderComplete`, for the reason given for
  StartLayout.
- CacheBuilder.BuildCacheTotalsOnDisk: stated under `HeaderComplete`. Without it the
  file as written can hold fewer record lines than the listing; `BuildCacheTotals`
  states the totals over the in-memory record list with no such hypothesis.
- CacheBuilder.BuildCacheSettles: stated under the same `HeaderComplete` hypothesis.
- Counters.CommitCounterOfRecords: describes files made of a comment block and
  written records. On other files, `CommitCounter` gives the column sum or the
  exception of the first unreadable line, and no lemma relates it to records.

Three behaviours of the code, kept as written:
- A repository without a default branch gets the line `hash 0 0 0 0`. Its synced
  count is 0, not the live count.
- `cached` is false only when the rebuild ran. Records refreshed by a walk leave it
  true.
- A record whose hash does not match its listing entry is left as it is.
