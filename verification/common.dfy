/** Shared value types: optional values, the failures a run can end with, and results. */
module Common {

  datatype Option<+T> = None | Some(value: T)

  /** Why a run of the LOC engine stops with an exception instead of a value. */
  datatype Fault =
    | RateLimited                    // a history request answered 403
    | RequestFailed(status: int)     // a history request answered any other non-200 status
    | MissingRecord(index: nat)      // the cache holds fewer record lines than the listing has repositories
    | UnreadableLine(line: string)   // a line lacks a field the code unpacks, or a field is not an integer
    | UnsplittableName(name: string) // `owner/name` does not split into exactly two parts
    | EmptyArchive                   // the archive file has no last line to read the correction from

  datatype Result<+T> = Ok(value: T) | Err(fault: Fault)

  function Max(a: int, b: int): int {
    if a < b then b else a
  }

  function Min(a: int, b: int): int {
    if a < b then a else b
  }

  /** `[x] * n`. */
  function Repeat<T>(x: T, n: nat): (r: seq<T>)
    ensures |r| == n
    ensures forall i :: 0 <= i < n ==> r[i] == x
    decreases n
  {
    if n == 0 then [] else Repeat(x, n - 1) + [x]
  }

  /** Cutting a concatenation at the seam gives its two parts back. */
  lemma SplitAtSeam<T>(a: seq<T>, b: seq<T>)
    ensures (a + b)[..|a|] == a
    ensures (a + b)[|a|..] == b
  {
  }
}
