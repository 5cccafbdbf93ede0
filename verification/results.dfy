/** The records the search engine produces, caches and presents
    (`ExactResult`, `VagueResult`, `SearchFlags`, `SearchOptions`,
    `SearchCache` in src/search.rs), with the orders their derived `Ord`
    gives them. */
module Results {
  import opened Wrappers
  import opened Ordering

  /** A page (and optionally an anchor inside it) whose name matched. `item`
      is the docset-relative path without extension. */
  datatype ExactResult = ExactResult(item: string, fragment: Option<string>)

  /** A page whose text mentions the query, with one context per matching line. */
  datatype VagueResult = VagueResult(item: string, contexts: seq<string>)

  /** Every flag that changes which results are produced or how they are
      opened; all four are part of the cache fingerprint. */
  datatype SearchFlags = SearchFlags(caseInsensitive: bool, precise: bool, whole: bool, ignoreFragment: bool)

  /** The cache fingerprint. */
  datatype SearchOptions = SearchOptions(query: string, docset: string, flags: SearchFlags)

  /** The cached payload. */
  datatype SearchCache = SearchCache(exactResults: seq<ExactResult>, vagueResults: seq<VagueResult>)

  /** Derived `Ord` of `ExactResult`: by `item`, then by `fragment`. */
  function CompareExact(a: ExactResult, b: ExactResult): Cmp
  {
    var c := CompareString(a.item, b.item);
    if c != Equal then c else CompareOptionString(a.fragment, b.fragment)
  }

  /** Derived `Ord` of `VagueResult`: by `item`, then by `contexts`. */
  function CompareVague(a: VagueResult, b: VagueResult): Cmp
  {
    var c := CompareString(a.item, b.item);
    if c != Equal then c else CompareStrings(a.contexts, b.contexts)
  }

  lemma ResultOrdersAreTotal()
    ensures IsTotalOrder(CompareExact)
    ensures IsTotalOrder(CompareVague)
  {
    StringOrdersAreTotal();
  }

  /** The order puts a page before its fragments and sorts by item first. */
  lemma ExactOrderFacts(a: ExactResult, b: ExactResult)
    ensures a.item == b.item && a.fragment.None? && b.fragment.Some? ==> CompareExact(a, b) == Less
    ensures CompareString(a.item, b.item) == Less ==> CompareExact(a, b) == Less
    ensures CompareExact(a, b) == Equal <==> a == b
  {
    ResultOrdersAreTotal();
  }

  /** Results in order have their items in order. */
  lemma ItemOrderOfExact(a: ExactResult, b: ExactResult)
    requires CompareExact(a, b) != Greater
    ensures CompareString(a.item, b.item) != Greater
  {
  }

  /** `exact_results.sort_unstable()`. */
  function SortExact(s: seq<ExactResult>): (r: seq<ExactResult>)
    ensures SortedBy(r, CompareExact)
    ensures multiset(r) == multiset(s)
  {
    ResultOrdersAreTotal();
    Sort(s, CompareExact)
  }

  /** `vague_results.sort_unstable()`. */
  function SortVague(s: seq<VagueResult>): (r: seq<VagueResult>)
    ensures SortedBy(r, CompareVague)
    ensures multiset(r) == multiset(s)
  {
    ResultOrdersAreTotal();
    Sort(s, CompareVague)
  }

  /** The sorted lists depend only on which results were found, not on the
      order the directory walk or the index produced them in. */
  lemma SortingIsCanonical(a: seq<ExactResult>, b: seq<ExactResult>, c: seq<VagueResult>, d: seq<VagueResult>)
    ensures multiset(a) == multiset(b) ==> SortExact(a) == SortExact(b)
    ensures multiset(c) == multiset(d) ==> SortVague(c) == SortVague(d)
  {
    ResultOrdersAreTotal();
    if multiset(a) == multiset(b) {
      SortedPermutationsAreEqual(SortExact(a), SortExact(b), CompareExact);
    }
    if multiset(c) == multiset(d) {
      SortedPermutationsAreEqual(SortVague(c), SortVague(d), CompareVague);
    }
  }
}
