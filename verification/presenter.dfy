/** How results are numbered, grouped and addressed
    (`print_search_results`, `print_vague_search_results` and the `--open`
    and `--columns` decisions of `search_impl`, src/search.rs:386-567).
    Colours and padding are left out; a listing is the sequence of decisions
    each printed line stands for. */
module Presenter {
  import opened Wrappers
  import opened Ordering
  import opened Results
  import opened Numeric
  import opened Cache

  /** One line of the exact-match listing. */
  datatype ExactLine =
    | Headed(number: nat, item: string, fragment: Option<string>)   // `N  item` or `N  item, #fragment`
    | FragmentOnly(number: nat, anchor: string)                   // indented `N  #fragment`

  /** One vague result: its numbered item line and its context lines. */
  datatype VagueBlock = VagueBlock(number: nat, item: string, contexts: seq<string>)

  /** The line `print_search_results` prints for `r` after an item `prev`. */
  function LineFor(r: ExactResult, number: nat, prev: string): ExactLine
  {
    if r.fragment.Some? && r.item == prev then FragmentOnly(number, r.fragment.value)
    else Headed(number, r.item, r.fragment)
  }

  /** `print_search_results(results, start)`, with the previous item
      starting out as the empty string. */
  function ExactListing(results: seq<ExactResult>, start: nat, prev: string): (lines: seq<ExactLine>)
    ensures |lines| == |results|
    ensures forall k :: 0 <= k < |lines| ==> lines[k].number == start + k
    ensures forall k :: 0 <= k < |lines| ==>
      (lines[k].FragmentOnly? <==> results[k].fragment.Some? && results[k].item == (if k == 0 then prev else results[k - 1].item))
    ensures forall k :: 0 <= k < |lines| && lines[k].FragmentOnly? ==> results[k].fragment == Some(lines[k].anchor)
    ensures forall k :: 0 <= k < |lines| && lines[k].Headed? ==> lines[k].item == results[k].item && lines[k].fragment == results[k].fragment
    decreases |results|
  {
    if |results| == 0 then []
    else
      var rest := ExactListing(results[1..], start + 1, results[0].item);
      assert forall k :: 1 <= k < |results| ==> results[1..][k - 1] == results[k];
      [LineFor(results[0], start, prev)] + rest
  }

  /** `print_vague_search_results(results, start)`. */
  function VagueListing(results: seq<VagueResult>, start: nat): (blocks: seq<VagueBlock>)
    ensures |blocks| == |results|
    ensures forall k :: 0 <= k < |blocks| ==> blocks[k] == VagueBlock(start + k, results[k].item, results[k].contexts)
    decreases |results|
  {
    if |results| == 0 then []
    else [VagueBlock(start, results[0].item, results[0].contexts)] + VagueListing(results[1..], start + 1)
  }

  /** Reading one line back: an indented line belongs to the item above it. */
  function ReadLine(line: ExactLine, prev: string): ExactResult
  {
    match line
    case Headed(_, item, fragment) => ExactResult(item, fragment)
    case FragmentOnly(_, anchor) => ExactResult(prev, Some(anchor))
  }

  /** Reading a whole listing back. */
  function ReadListing(lines: seq<ExactLine>, prev: string): seq<ExactResult>
    decreases |lines|
  {
    if |lines| == 0 then []
    else
      var r := ReadLine(lines[0], prev);
      [r] + ReadListing(lines[1..], r.item)
  }

  /** A line read back after the item it was printed after is its result. */
  lemma ReadLineInverts(r: ExactResult, number: nat, prev: string)
    ensures ReadLine(LineFor(r, number, prev), prev) == r
  {
  }

  /** Grouping loses nothing: the listing determines the results. */
  lemma {:induction false} GroupingIsLossless(results: seq<ExactResult>, start: nat, prev: string)
    ensures ReadListing(ExactListing(results, start, prev), prev) == results
    decreases |results|
  {
    if |results| > 0 {
      var lines := ExactListing(results, start, prev);
      ListingUnfolds(results, start, prev);
      ReadListingUnfolds(lines, prev);
      ReadLineInverts(results[0], start, prev);
      GroupingIsLossless(results[1..], start + 1, results[0].item);
      ResultHeadAndTail(results);
    }
  }

  /** The first line of a listing and the listing of the rest. */
  lemma ListingUnfolds(results: seq<ExactResult>, start: nat, prev: string)
    requires |results| > 0
    ensures var lines := ExactListing(results, start, prev);
      && |lines| > 0
      && lines[0] == LineFor(results[0], start, prev)
      && lines[1..] == ExactListing(results[1..], start + 1, results[0].item)
  {
    var rest := ExactListing(results[1..], start + 1, results[0].item);
    assert ExactListing(results, start, prev) == [LineFor(results[0], start, prev)] + rest;
  }

  lemma ReadListingUnfolds(lines: seq<ExactLine>, prev: string)
    requires |lines| > 0
    ensures ReadListing(lines, prev) == [ReadLine(lines[0], prev)] + ReadListing(lines[1..], ReadLine(lines[0], prev).item)
  {
  }

  lemma ResultHeadAndTail(results: seq<ExactResult>)
    requires |results| > 0
    ensures [results[0]] + results[1..] == results
  {
  }

  /** In a sorted list the results of one page are adjacent. */
  lemma SortedItemsAreAdjacent(results: seq<ExactResult>, j: nat, k: nat)
    requires SortedBy(results, CompareExact)
    requires j < k < |results| && results[j].item == results[k].item
    ensures results[k - 1].item == results[k].item
  {
    var a, b := results[k - 1].item, results[k].item;
    assert CompareExact(results[k - 1], results[k]) != Greater;
    ItemOrderOfExact(results[k - 1], results[k]);
    if j < k - 1 {
      assert CompareExact(results[j], results[k - 1]) != Greater;
      ItemOrderOfExact(results[j], results[k - 1]);
    }
    StringOrderIsAntisymmetric(a, b);
  }

  /** So every fragment of a page listed earlier is printed as an indented
      line under it. */
  lemma SortedFragmentsAreGrouped(results: seq<ExactResult>, j: nat, k: nat)
    requires SortedBy(results, CompareExact)
    requires j < k < |results| && results[j].item == results[k].item && results[k].fragment.Some?
    ensures ExactListing(results, 1, "")[k] == FragmentOnly(k + 1, results[k].fragment.value)
  {
    SortedItemsAreAdjacent(results, j, k);
    ListingLine(results, 1, "", k);
  }

  /** The `k`-th line depends only on the `k`-th result and the one before. */
  lemma ListingLine(results: seq<ExactResult>, start: nat, prev: string, k: nat)
    requires k < |results|
    ensures ExactListing(results, start, prev)[k] == LineFor(results[k], start + k, if k == 0 then prev else results[k - 1].item)
  {
  }

  // ---------------------------------------------------------------------
  // `--open`

  /** What `--open` asked for. */
  datatype OpenRequest = NoOpen | OpenAt(n: nat) | NotANumber

  /** `flag_open`: absent when empty, else parsed as `usize`. */
  function ParseOpen(flag: string): (r: OpenRequest)
    ensures flag == [] <==> r.NoOpen?
    ensures r.OpenAt? <==> flag != [] && ParseUsize(flag).Some?
    ensures r.OpenAt? ==> r.n == ParseUsize(flag).value
  {
    if flag == [] then NoOpen
    else
      match ParseUsize(flag)
      case Some(n) => OpenAt(n)
      case None => NotANumber
  }

  datatype Warning =
    | InvalidColumns
    | CacheNotWritten(error: CacheWriteError)
    | OpenOutOfBounds(n: nat)
    | OpenRequiresNumber

  /** A page to hand to the renderer. */
  datatype Target = Target(item: string, fragment: Option<string>)

  datatype Resolution = Open(target: Target) | List(warnings: seq<Warning>)

  function ExactTarget(r: ExactResult, ignoreFragment: bool): Target
  {
    Target(r.item, if ignoreFragment then None else r.fragment)
  }

  /** The precise-mode `match open_number`: exact results first, then vague
      ones; anything else adds a warning and falls back to the listing. */
  function ResolvePrecise(request: OpenRequest, exact: seq<ExactResult>, vague: seq<VagueResult>, ignoreFragment: bool): (r: Resolution)
    ensures request.NoOpen? ==> r == List([])
    ensures request.NotANumber? ==> r == List([OpenRequiresNumber])
    ensures request.OpenAt? && (request.n < 1 || request.n > |exact| + |vague|) ==> r == List([OpenOutOfBounds(request.n)])
    ensures r.Open? <==> request.OpenAt? && 1 <= request.n <= |exact| + |vague|
  {
    match request
    case NoOpen => List([])
    case NotANumber => List([OpenRequiresNumber])
    case OpenAt(n) =>
      if n < 1 || n > |exact| + |vague| then List([OpenOutOfBounds(n)])
      else if n <= |exact| then Open(ExactTarget(exact[n - 1], ignoreFragment))
      else Open(Target(vague[n - |exact| - 1].item, None))
  }

  /** The filename-mode `match open_number`, over the exact results only. */
  function ResolveFilenames(request: OpenRequest, results: seq<ExactResult>, ignoreFragment: bool): (r: Resolution)
    ensures request.NoOpen? ==> r == List([])
    ensures request.NotANumber? ==> r == List([OpenRequiresNumber])
    ensures request.OpenAt? && (request.n < 1 || request.n > |results|) ==> r == List([OpenOutOfBounds(request.n)])
    ensures r.Open? <==> request.OpenAt? && 1 <= request.n <= |results|
  {
    match request
    case NoOpen => List([])
    case NotANumber => List([OpenRequiresNumber])
    case OpenAt(n) =>
      if n < 1 || n > |results| then List([OpenOutOfBounds(n)])
      else Open(ExactTarget(results[n - 1], ignoreFragment))
  }

  /** Reference definition: every result in numbering order, as the page it opens. */
  function Addressable(exact: seq<ExactResult>, vague: seq<VagueResult>, ignoreFragment: bool): (targets: seq<Target>)
    ensures |targets| == |exact| + |vague|
    ensures forall k :: 0 <= k < |exact| ==> targets[k] == ExactTarget(exact[k], ignoreFragment)
    ensures forall k :: 0 <= k < |vague| ==> targets[|exact| + k] == Target(vague[k].item, None)
  {
    seq(|exact|, k requires 0 <= k < |exact| => ExactTarget(exact[k], ignoreFragment))
      + seq(|vague|, k requires 0 <= k < |vague| => Target(vague[k].item, None))
  }

  /** `--open N` opens the N-th addressable result, and only numbers that
      address one open anything. */
  lemma OpenAddressesTheNthResult(n: nat, exact: seq<ExactResult>, vague: seq<VagueResult>, ignoreFragment: bool)
    ensures 1 <= n <= |exact| + |vague| ==>
      ResolvePrecise(OpenAt(n), exact, vague, ignoreFragment) == Open(Addressable(exact, vague, ignoreFragment)[n - 1])
    ensures ResolvePrecise(OpenAt(n), exact, vague, ignoreFragment).Open? ==> 1 <= n <= |exact| + |vague|
  {
    if 1 <= n <= |exact| + |vague| && n > |exact| {
      assert Addressable(exact, vague, ignoreFragment)[|exact| + (n - |exact| - 1)] == Target(vague[n - |exact| - 1].item, None);
    }
  }

  /** Filename mode is precise mode without vague results. */
  lemma FilenameModeIsPreciseWithoutVague(request: OpenRequest, results: seq<ExactResult>, ignoreFragment: bool)
    ensures ResolveFilenames(request, results, ignoreFragment) == ResolvePrecise(request, results, [], ignoreFragment)
  {
  }

  /** The number printed in front of the `k`-th exact result, passed to
      `--open`, opens that result. */
  lemma PrintedExactNumberOpensIt(exact: seq<ExactResult>, vague: seq<VagueResult>, ignoreFragment: bool, k: nat)
    requires k < |exact| && |exact| + |vague| <= UsizeMax
    ensures ResolvePrecise(ParseOpen(Decimal(ExactListing(exact, 1, "")[k].number)), exact, vague, ignoreFragment)
      == Open(ExactTarget(exact[k], ignoreFragment))
  {
    assert ExactListing(exact, 1, "")[k].number == k + 1;
    assert ParseOpen(Decimal(k + 1)) == OpenAt(k + 1) by {
      ParseDecimal(k + 1);
    }
  }

  /** Vague results are numbered after the exact ones, from E+1, and the
      printed number opens the vague result it labels. */
  lemma PrintedVagueNumberOpensIt(exact: seq<ExactResult>, vague: seq<VagueResult>, ignoreFragment: bool, k: nat)
    requires k < |vague| && |exact| + |vague| <= UsizeMax
    ensures VagueListing(vague, |exact| + 1)[k].number == |exact| + 1 + k
    ensures ResolvePrecise(ParseOpen(Decimal(VagueListing(vague, |exact| + 1)[k].number)), exact, vague, ignoreFragment)
      == Open(Target(vague[k].item, None))
  {
    var n := |exact| + 1 + k;
    assert VagueListing(vague, |exact| + 1)[k].number == n;
    assert ParseOpen(Decimal(n)) == OpenAt(n) by {
      ParseDecimal(n);
    }
    assert n - |exact| - 1 == k;
  }

  // ---------------------------------------------------------------------
  // `--columns`

  /** Width chosen for the page renderer, and whether the flag was invalid:
      0 means "unlimited" (999 columns), a value above 10 is taken as given,
      1 to 10 and an absent flag keep the terminal's width. */
  function ColumnWidth(flag: string, terminalWidth: nat): (r: (nat, bool))
    ensures r.1 <==> flag != [] && ParseUsize(flag).None?
    ensures r.0 == terminalWidth || r.0 == 999 || r.0 > 10
    ensures ParseUsize(flag) == Some(0) ==> r.0 == 999
    ensures ParseUsize(flag).Some? && ParseUsize(flag).value > 10 ==> r.0 == ParseUsize(flag).value
    ensures ParseUsize(flag).None? || 1 <= ParseUsize(flag).value <= 10 ==> r.0 == terminalWidth
  {
    match ParseUsize(flag)
    case Some(c) =>
      if c == 0 then (999, false)
      else if c > 10 then (c, false)
      else (terminalWidth, false)
    case None => (terminalWidth, flag != [])
  }

  /** `--columns N` with a printed number above 10 sets exactly that width. */
  lemma ColumnsRoundTrip(c: nat, terminalWidth: nat)
    requires 10 < c <= UsizeMax
    ensures ColumnWidth(Decimal(c), terminalWidth) == (c, false)
  {
    ParseDecimal(c);
  }
}
