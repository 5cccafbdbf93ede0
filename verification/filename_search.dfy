/** `search_docset_in_filenames` (src/search.rs:162-229): look the query up
    in a docset's `index.json` by entry name and path. */
module FilenameSearch {
  import opened Wrappers
  import opened Text
  import opened Ordering
  import opened Results

  /** One `{name, path}` record of `index.json` (its `type` is skipped). */
  datatype IndexEntry = IndexEntry(name: string, path: string)

  /** `<docset>/index.json` as the search finds it. */
  datatype IndexFile =
    | ExistsCheckFailed   // `try_exists` itself failed
    | Absent              // written by a builder older than 0.2.0
    | Unopenable
    | Malformed           // does not deserialize into `{entries: [...]}`
    | Parsed(entries: seq<IndexEntry>)

  datatype FilenameSearchError =
    | ExistsCheckError(docset: string)
    | IncompatibleDocset(docset: string)
    | OpenError(docset: string)
    | DeserializeError(docset: string)
    | SplitError(message: string)

  /** `split_to_item_and_fragment` (common.rs, not part of this model): a
      path such as `a/b.html#frag` into its item and optional fragment. */
  type PathSplitter = string -> Result<(string, Option<string>), string>

  /** `str::to_lowercase` (full Unicode case mapping, not modelled). */
  type CaseFold = string -> string

  /** The filter: the query is a substring of the entry's name or path, both
      sides folded when the search ignores case. */
  predicate EntryMatches(e: IndexEntry, query: string, caseInsensitive: bool, fold: CaseFold)
  {
    if caseInsensitive then
      Contains(fold(e.name), fold(query)) || Contains(fold(e.path), fold(query))
    else
      Contains(e.name, query) || Contains(e.path, query)
  }

  /** Every matching entry's path splits. */
  ghost predicate SplitsSucceed(entries: seq<IndexEntry>, query: string, caseInsensitive: bool, fold: CaseFold, split: PathSplitter)
  {
    forall k :: 0 <= k < |entries| && EntryMatches(entries[k], query, caseInsensitive, fold) ==> split(entries[k].path).Success?
  }

  function ToResult(parts: (string, Option<string>)): ExactResult
  {
    ExactResult(parts.0, parts.1)
  }

  /** Reference definition: the matching entries, split, in index order. */
  ghost function Kept(entries: seq<IndexEntry>, query: string, caseInsensitive: bool, fold: CaseFold, split: PathSplitter): seq<ExactResult>
    requires SplitsSucceed(entries, query, caseInsensitive, fold, split)
  {
    if |entries| == 0 then []
    else
      var init := entries[..|entries| - 1];
      var e := entries[|entries| - 1];
      assert SplitsSucceed(init, query, caseInsensitive, fold, split) by {
        forall k | 0 <= k < |init| && EntryMatches(init[k], query, caseInsensitive, fold)
          ensures split(init[k].path).Success?
        {
          assert init[k] == entries[k];
        }
      }
      Kept(init, query, caseInsensitive, fold, split)
        + (if EntryMatches(e, query, caseInsensitive, fold) then [ToResult(split(e.path).value)] else [])
  }

  /** `search_docset_in_filenames` once the docset directory is known: the
      errors of reading the index, the first failing split among the matching
      entries, or the matching entries split and sorted. */
  method SearchInFilenames(docset: string, index: IndexFile, query: string, caseInsensitive: bool, fold: CaseFold, split: PathSplitter)
    returns (r: Result<seq<ExactResult>, FilenameSearchError>)
    ensures index.ExistsCheckFailed? ==> r == Failure(ExistsCheckError(docset))
    ensures index.Absent? ==> r == Failure(IncompatibleDocset(docset))
    ensures index.Unopenable? ==> r == Failure(OpenError(docset))
    ensures index.Malformed? ==> r == Failure(DeserializeError(docset))
    ensures index.Parsed? ==> (r.Success? <==> SplitsSucceed(index.entries, query, caseInsensitive, fold, split))
    ensures index.Parsed? && r.Failure? ==>
      exists k :: 0 <= k < |index.entries| && FirstSplitFailure(index.entries, query, caseInsensitive, fold, split, k)
        && r.error == SplitError(split(index.entries[k].path).error)
    ensures r.Success? ==> index.Parsed? && SortedBy(r.value, CompareExact)
    ensures r.Success? ==> multiset(r.value) == multiset(Kept(index.entries, query, caseInsensitive, fold, split))
  {
    match index {
      case ExistsCheckFailed => return Failure(ExistsCheckError(docset));
      case Absent => return Failure(IncompatibleDocset(docset));
      case Unopenable => return Failure(OpenError(docset));
      case Malformed => return Failure(DeserializeError(docset));
      case Parsed(entries) =>
        var items: seq<ExactResult> := [];
        var i := 0;
        while i < |entries|
          invariant 0 <= i <= |entries|
          invariant SplitsSucceed(entries[..i], query, caseInsensitive, fold, split)
          invariant items == Kept(entries[..i], query, caseInsensitive, fold, split)
        {
          var e := entries[i];
          assert entries[..i + 1][..i] == entries[..i];
          if EntryMatches(e, query, caseInsensitive, fold) {
            var parts := split(e.path);
            if parts.Failure? {
              assert FirstSplitFailure(entries, query, caseInsensitive, fold, split, i) by {
                forall k | 0 <= k < i && EntryMatches(entries[k], query, caseInsensitive, fold)
                  ensures split(entries[k].path).Success?
                {
                  assert entries[..i][k] == entries[k];
                }
              }
              return Failure(SplitError(parts.error));
            }
            items := items + [ToResult(parts.value)];
          }
          i := i + 1;
        }
        assert entries[..i] == entries;
        items := SortExact(items);
        return Success(items);
    }
  }

  /** Entry `k` is the first matching entry whose path does not split. */
  ghost predicate FirstSplitFailure(entries: seq<IndexEntry>, query: string, caseInsensitive: bool, fold: CaseFold, split: PathSplitter, k: nat)
    requires k < |entries|
  {
    && EntryMatches(entries[k], query, caseInsensitive, fold)
    && split(entries[k].path).Failure?
    && forall m :: 0 <= m < k && EntryMatches(entries[m], query, caseInsensitive, fold) ==> split(entries[m].path).Success?
  }

  /** The number of matching entries. */
  function CountMatching(entries: seq<IndexEntry>, query: string, caseInsensitive: bool, fold: CaseFold): nat
  {
    if |entries| == 0 then 0
    else
      var last := if EntryMatches(entries[|entries| - 1], query, caseInsensitive, fold) then 1 else 0;
      CountMatching(entries[..|entries| - 1], query, caseInsensitive, fold) + last
  }

  /** Exactly one result per matching entry, and every result comes from a
      matching entry: with K of N entries matching, K results come back. */
  lemma {:induction false} KeptIsExactlyTheMatches(entries: seq<IndexEntry>, query: string, caseInsensitive: bool, fold: CaseFold, split: PathSplitter)
    requires SplitsSucceed(entries, query, caseInsensitive, fold, split)
    ensures |Kept(entries, query, caseInsensitive, fold, split)| == CountMatching(entries, query, caseInsensitive, fold)
    ensures forall x :: x in Kept(entries, query, caseInsensitive, fold, split) <==>
      exists k :: 0 <= k < |entries| && EntryMatches(entries[k], query, caseInsensitive, fold) && x == ToResult(split(entries[k].path).value)
    decreases |entries|
  {
    if |entries| > 0 {
      var init := entries[..|entries| - 1];
      var e := entries[|entries| - 1];
      assert SplitsSucceed(init, query, caseInsensitive, fold, split) by {
        forall k | 0 <= k < |init| && EntryMatches(init[k], query, caseInsensitive, fold)
          ensures split(init[k].path).Success?
        {
          assert init[k] == entries[k];
        }
      }
      KeptIsExactlyTheMatches(init, query, caseInsensitive, fold, split);
      forall x
        ensures x in Kept(entries, query, caseInsensitive, fold, split) <==>
          exists k :: 0 <= k < |entries| && EntryMatches(entries[k], query, caseInsensitive, fold) && x == ToResult(split(entries[k].path).value)
      {
        if x in Kept(entries, query, caseInsensitive, fold, split) {
          if x in Kept(init, query, caseInsensitive, fold, split) {
            var k :| 0 <= k < |init| && EntryMatches(init[k], query, caseInsensitive, fold) && x == ToResult(split(init[k].path).value);
            assert init[k] == entries[k];
          } else {
            assert EntryMatches(entries[|entries| - 1], query, caseInsensitive, fold);
          }
        }
        if exists k :: 0 <= k < |entries| && EntryMatches(entries[k], query, caseInsensitive, fold) && x == ToResult(split(entries[k].path).value) {
          var k :| 0 <= k < |entries| && EntryMatches(entries[k], query, caseInsensitive, fold) && x == ToResult(split(entries[k].path).value);
          if k < |init| {
            assert init[k] == entries[k];
          }
        }
      }
    }
  }

  /** With no entry matching, the search succeeds with no results. */
  lemma NoMatchesNoResults(entries: seq<IndexEntry>, query: string, caseInsensitive: bool, fold: CaseFold, split: PathSplitter)
    requires forall k :: 0 <= k < |entries| ==> !EntryMatches(entries[k], query, caseInsensitive, fold)
    ensures SplitsSucceed(entries, query, caseInsensitive, fold, split)
    ensures Kept(entries, query, caseInsensitive, fold, split) == []
  {
    KeptIsExactlyTheMatches(entries, query, caseInsensitive, fold, split);
  }
}
