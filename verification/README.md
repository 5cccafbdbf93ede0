# dedoc search engine, modelled in Dafny

This project models the search-and-cache engine of `dedoc`, a command-line
reader for offline documentation sets ("docsets"). It also models the two
pure text rewrites of its downloader.

- **Filename search** (`search_docset_in_filenames`). Looks the query up in
  the entries of a docset's `index.json`, by name and by path. Case folding
  is optional.
- **Content search** (`search_docset_precisely`). Walks the docset's page
  tree.
  - A page whose file name contains the query is an *exact* result.
  - Any other page is scanned line by line. Each line that contains the
    query contributes a short context snippet, and a page with at least one
    snippet is a *vague* result.
- **Context windowing** (`get_context_around_query`). Cuts a snippet about
  33 bytes either side of the match. It never splits a UTF-8 character,
  whatever byte index it is handed.
- **Result cache** (`try_use_cache`, `cache_search_results`). Two files: a
  fingerprint (query, docset and the four flags) and the results. A probe
  hits only when the stored fingerprint equals the probe.
- **Presentation decisions of `search`.**
  - Exact results are numbered `1..E` and vague ones `E+1..E+V`.
  - Fragments of one page are grouped under it.
  - `--open N` addresses a result, honouring `--ignore-fragment`.
  - The `--columns` rule and the `--whole` query wrapping.
- **`sanitize_html_line`.** A four-state machine (Default, InTag, InKey,
  InValue) that strips `class="…"`, `title="…"` and `data-language="…"`
  from tags. The model includes a proof of its unit test.
- **`sanitize_filename_for_windows`.** Replaces each of seven characters forbidden in Windows file names with `_`.

Strings are Dafny `string`s: sequences of Unicode scalar values, as Rust
`char`s are. Rust's byte offsets are computed from each character's UTF-8
width (`Text.Offset`, `Text.ByteLen`). A byte-range slice is
`Text.ByteSlice`, which is `None` exactly where Rust would panic.

Everything is a pure function over immutable data:
- the docset tree is an in-memory `ContentSearch.Node` value;
- each cache file is a `Cache.Stored` value (missing, unparsable, or a record);
- I/O outcomes are parameters.

Files, one module each:

| file | contents |
|---|---|
| wrappers.dfy | `Option` and `Result` |
| text.dfy | UTF-8 widths and byte offsets; `&s[a..b]`, `find`, `contains`, `trim`, `join`, `make_ascii_lowercase` |
| utf8.dfy | UTF-8 encoding; byte prefixes of ASCII literals |
| ordering.dfy | lexicographic orders; insertion sort; uniqueness of sorted permutations |
| results.dfy | `ExactResult`, `VagueResult`, `SearchFlags`, `SearchOptions`, `SearchCache`; derived `Ord`; `sort_unstable` |
| context.dfy | `get_context_around_query` |
| filename_search.dfy | `search_docset_in_filenames` |
| content_search.dfy | `search_docset_precisely`, `visit_dir_with_query`, `convert_path_to_item` |
| cache.dfy | `try_use_cache`, `cache_search_results` |
| numeric.dfy | `str::parse::<usize>` and decimal printing |
| presenter.dfy | numbering, grouping, `--open` resolution, `--columns` |
| search_command.dfy | `search_impl` and query assembly in `search` |
| sanitize.dfy | `sanitize_html_line`, `sanitize_filename_for_windows` |
| sanitize_unit_test.dfy | `test_sanitize_html` |

Behaviours of the code worth knowing:

- **Vague result order.** Vague results are ordered by the derived `Ord` of
  `VagueResult`: by `item`, then by `contexts` (src/search.rs:49-53). They
  are not ordered by `item` alone.
- **Directories named like pages.** Every directory is descended into, and
  is then classified by its own name like any other entry
  (src/search.rs:299-325). So a directory whose name ends with the page
  extension and contains the query is an exact result. One that does not
  contain the query yields no lines: on Unix, `File::open` on a directory
  succeeds and the first `read_line` fails, which ends the scan. (On
  Windows the open itself fails and the `?` aborts the search; the model
  follows Unix.)
- **A failed store is not always a miss.** The store writes the
  fingerprint first. If the results file then cannot be created, the old
  results stay under the new fingerprint (src/search.rs:108-134). The next
  probe is a *hit* on the previous search's results
  (`Cache.StalePayloadAfterFailedPayloadCreate`), not a miss followed by
  a recomputation.

## Model

| member | source | states |
|---|---|---|
| Results.ResultOrdersAreTotal | src/search.rs:43-53 | the derived orders of `ExactResult` and `VagueResult` are total orders, so `sort_unstable` has one answer |
| Results.ExactOrderFacts | src/search.rs:43-47 | results compare by item first; a page without a fragment sorts before its fragments; two results compare equal only when they are equal |
| Results.SortExact | src/search.rs:226 | `sort_unstable` on exact results gives an ascending permutation of its input |
| Results.SortVague | src/search.rs:376 | `sort_unstable` on vague results gives an ascending permutation of its input |
| Results.SortingIsCanonical | src/search.rs:375-376 | two lists holding the same results sort to the same list, whatever order the walk found them in |
| Ordering.SortedPermutationsAreEqual | src/search.rs:375-376 | under a total order, two ascending lists with the same elements are equal, so stability does not matter |
| Context.SaturatingSub | src/search.rs:234 | `usize::saturating_sub`: the difference, or 0 when it would be negative |
| Context.RevFindAtMost | src/search.rs:238-242 | the reversed `char_indices` search finds the last character starting at or below the bound, or reports that none does |
| Context.SkipWhileBelow | src/search.rs:246 | `skip_while` stops at the first character starting at or past the end of the match |
| Context.FindAtLeast | src/search.rs:247-248 | the forward search finds the first character from there starting at or past the upper edge, or reports that none does |
| Context.WindowBounds | src/search.rs:234-248 | for any index and query length, both cut points are character boundaries with start ≤ end ≤ line length; the start is the last character start at or below the lower edge, so on a non-empty line it is never the line's end, even for an index past the line; the end is the first boundary at or past the upper edge, or the end of the line |
| Context.ContextAroundQuery | src/search.rs:250 | the snippet is the byte slice between the cut points with only whitespace trimmed, and it has no whitespace at either end |
| Context.WindowCoversMatch | src/search.rs:234-248 | when the match lies inside the line, the untrimmed window contains it |
| Context.WindowIsBounded | src/search.rs:232-248 | the window spans at most the query plus 33 bytes each side, plus at most 3 bytes each side of rounding to a character boundary |
| Context.ShortLineIsShownWhole | src/search.rs:232-250 | when the match starts within 33 bytes of the line's start and ends within 33 bytes of its end, the snippet is the whole trimmed line |
| Context.LongLineIsCut | src/search.rs:232-250 | a line longer than the bounded window is always cut |
| Text.ByteSlice | src/search.rs:250 | `&s[a..b]` succeeds exactly when both ends are character boundaries in order, and then has `b - a` bytes and is the run of characters starting at byte `a` and ending at byte `b` |
| Text.Trim | src/search.rs:250 | `trim` leaves a slice of its input with no whitespace at either end, and only whitespace around it |
| Text.Find | src/search.rs:348 | `find` gives the first occurrence of the pattern, and finds one exactly when the text contains it |
| Text.AsciiLowercase | src/search.rs:313-315 | `make_ascii_lowercase` changes only `A`..`Z`, each to its lower-case letter, and keeps the length |
| Text.Join | src/search.rs:632 | `join(" ")` holds every part at its place, each place being the lengths of the earlier parts plus one separator per earlier part, with the separator between each two parts; its length is the parts' lengths plus the separators |
| FilenameSearch.SearchInFilenames | src/search.rs:162-229 | an index that cannot be checked, is absent, cannot be opened or does not parse gives its own error; otherwise the result is the first failing path split among matching entries, or the matching entries split and sorted ascending by (item, fragment) |
| FilenameSearch.KeptIsExactlyTheMatches | src/search.rs:197-224 | one result per matching entry, and a result comes from an entry exactly when that entry's name or path contains the query (both folded when ignoring case) |
| FilenameSearch.NoMatchesNoResults | src/search.rs:197-228 | with no matching entry the search succeeds with no results, whatever the splitter does |
| ContentSearch.FileStem | src/search.rs:254-263 | `with_extension("")` keeps the name up to its last dot unless that dot is the first character or the name is `..`; the stem is shorter than the name exactly in that case, and then no dot follows the cut, so no extension is left in an item |
| ContentSearch.Item | src/search.rs:254-263 | `convert_path_to_item`: every directory below the docset root followed by `/`, then the file's stem (`Text.JoinWithLast` ties this to `join`) |
| ContentSearch.LineContext | src/search.rs:342-352 | a line contributes a context exactly when its working copy (lowercased when ignoring case) contains the query, and that context is the snippet cut from the original line around the byte offset of the first occurrence in the working copy, with the query's byte length |
| ContentSearch.ScanLines | src/search.rs:332-355 | the `read_line` loop yields at most one trimmed context per line, and none at all exactly when no line read before the first empty read contains the query |
| ContentSearch.ClassifyPage | src/search.rs:307-361 | one entry classified by its name: at most one result, named by the entry's item, an exact result without a fragment or a vague one with at least one context; it fails only for a page that cannot be opened, with that page's path relative to the docset root. `NonPageIsSkipped`, `MatchingNameIsExact` and `OtherPageIsScanned` state each branch |
| ContentSearch.VisitDir | src/search.rs:278-289 | an unlistable directory fails with its path relative to the docset root; any success holds only whole-page exact results and vague results with contexts. `FailingSubdirectoryAborts` and `WalkIsEntryByEntry` state the rest |
| ContentSearch.VisitEntries | src/search.rs:290-365 | the loop over a directory's entries fails whenever one entry cannot be read; `WalkIsEntryByEntry` proves it equal to classifying every entry of the flattened tree in turn |
| ContentSearch.VisitNode | src/search.rs:291-325 | an unreadable entry and an entry whose type cannot be read fail with their errors; a directory is walked and then classified by its own name (`WalkIsEntryByEntryNode`) |
| ContentSearch.ScanIsInReadOrder | src/search.rs:337-355 | contexts come in read order: the contexts of two consecutive stretches of lines are those of the first followed by those of the second |
| ContentSearch.ScanOneLine | src/search.rs:342-352 | one line gives the snippet around the first occurrence of the query when it contains the query, and nothing otherwise |
| ContentSearch.NonPageIsSkipped | src/search.rs:307-311 | a file without the page extension contributes nothing, whether or not it can be read |
| ContentSearch.MatchingNameIsExact | src/search.rs:313-325 | a page whose name (ASCII-lowercased when ignoring case) contains the query is one exact result without a fragment, and its body is not read |
| ContentSearch.OtherPageIsScanned | src/search.rs:326-361 | any other page fails the search when it cannot be opened; otherwise it is a vague result exactly when some line yields a context |
| ContentSearch.FailingSubdirectoryAborts | src/search.rs:287-301 | a subdirectory that cannot be listed aborts the whole search with its error; there is no partial result |
| ContentSearch.WalkIsEntryByEntry | src/search.rs:290-365 | the recursive walk equals classifying every entry of the flattened tree on its own, children before their directory: same first error, same results in the same order |
| ContentSearch.WalkIsEntryByEntryNode | src/search.rs:299-305 | one entry: a directory's descendants, then the directory itself by its own name |
| ContentSearch.SearchPrecisely | src/search.rs:265-381 | fails exactly when the walk fails, with its error; otherwise both lists are ascending permutations of what the walk found |
| Cache.TryUseCache | src/search.rs:79-103 | a probe hits exactly when the program directory exists, the stored fingerprint equals the probe, and the payload parses; it then returns that payload; anything else is a miss, never an error |
| Cache.WriteFile | src/search.rs:129-139 | a complete write stores the value; a failed create leaves the old file; a failed or lost write leaves a truncated, unparsable file |
| Cache.CacheSearchResults | src/search.rs:105-143 | writes the fingerprint, then the payload; reports success exactly when neither create nor write fails; a fingerprint failure leaves the payload untouched |
| Cache.StoreThenProbeHits | src/search.rs:79-143 | a completed store followed by a probe with the same fingerprint returns the stored results |
| Cache.OtherFingerprintMisses | src/search.rs:90-92 | after a store, a probe with any other fingerprint misses |
| Cache.EachFlagInvalidates | src/search.rs:55-62 | changing any one of the four flags, query and docset unchanged, makes the next probe miss |
| Cache.HitAfterStoreIsFresh | src/search.rs:105-143 | once both files could be created, whatever write failed, a later hit is only for the stored fingerprint and returns the new results |
| Cache.StalePayloadAfterFailedPayloadCreate | src/search.rs:127-134 | whatever fingerprint was stored before, a written fingerprint with an uncreatable results file makes the next probe hit on the previous search's results |
| Cache.LostFlushIsAMiss | src/search.rs:136-139 | a write lost when the buffered writer drops reports success, and the next probe misses |
| Numeric.ParseUsize | src/search.rs:450 | `parse::<usize>()` accepts an optional `+` and one or more ASCII digits whose value fits in 64 bits, and yields that value |
| Numeric.ParseDecimal | src/search.rs:450 | every number the listing prints parses back to itself |
| Numeric.ParseRejectsOverflow | src/search.rs:450 | a number past `usize::MAX` does not parse |
| Presenter.ExactListing | src/search.rs:407-433 | one line per result, numbered consecutively from the start; a line is indented fragment-only exactly when its result has a fragment and the same item as the previous result; it carries that result's item and fragment |
| Presenter.VagueListing | src/search.rs:386-405 | one block per vague result, numbered consecutively from the start, with that result's item and contexts |
| Presenter.GroupingIsLossless | src/search.rs:410-430 | reading the listing back, with an indented line belonging to the item above it, gives the results again |
| Presenter.ListingLine | src/search.rs:411-429 | the k-th line depends only on the k-th result and the item before it |
| Presenter.SortedItemsAreAdjacent | src/search.rs:226 | in a sorted list, results for the same page are adjacent |
| Presenter.SortedFragmentsAreGrouped | src/search.rs:410-430 | in a sorted list, every later fragment of an already-listed page is printed as an indented line under it |
| Presenter.ParseOpen | src/search.rs:450 | an empty `--open` asks for nothing; otherwise it asks for a number exactly when the flag parses as `usize` |
| Presenter.ResolvePrecise | src/search.rs:487-513 | precise mode: no flag means no warning; a non-number warns "requires a number"; 0 or more than E+V warns out of bounds; a page is opened exactly for 1..E+V |
| Presenter.ResolveFilenames | src/search.rs:548-567 | filename mode: the same rules over 1..E |
| Presenter.Addressable | src/search.rs:494-508 | reference numbering: exact results first, each with its fragment unless ignored, then vague results without a fragment |
| Presenter.OpenAddressesTheNthResult | src/search.rs:491-508 | `--open N` opens the N-th addressable result, and only such N open anything |
| Presenter.FilenameModeIsPreciseWithoutVague | src/search.rs:548-567 | filename-mode resolution is precise-mode resolution with no vague results |
| Presenter.PrintedExactNumberOpensIt | src/search.rs:494-503 | the number printed in front of an exact result, passed to `--open`, opens that result |
| Presenter.PrintedVagueNumberOpensIt | src/search.rs:504-508 | vague results are numbered from E+1, and the printed number opens the vague result it labels |
| Presenter.ColumnWidth | src/search.rs:453-462 | 0 means 999 columns; above 10 is used as given; 1 to 10, or no flag, keeps the terminal width; a non-number keeps it and warns |
| Presenter.ColumnsRoundTrip | src/search.rs:457-458 | `--columns N` with a printed N above 10 sets exactly width N, without a warning |
| SearchCommand.BuildQuery | src/search.rs:631-641 | the query is the arguments joined by single spaces, with one more space on each side under `--whole` |
| SearchCommand.WholeQueryIsSpaceDelimited | src/search.rs:634-637 | a `--whole` query occurs exactly where the plain query occurs with a space on either side |
| SearchCommand.SpacedOccurrence | src/search.rs:634-637 | `" " + p + " "` occurs exactly where `p` occurs between two spaces |
| SearchCommand.Obtain | src/search.rs:469-546 | a hit returns the cached results and writes nothing; a miss returns the engine's error, or its results (vague ones only in precise mode) with a cache warning exactly when the store failed; a completed store makes the next probe hit |
| SearchCommand.SearchImpl | src/search.rs:435-578 | a hit leaves the cache as it was; an engine failure ends the command with its error; opening needs a working renderer and uses the `--columns` width; filename mode lists no vague results; an invalid `--columns` gives the first warning |
| SearchCommand.Resolve | src/search.rs:487-567 | `--open` is resolved against exact and vague results in precise mode and against exact results alone in filename mode; a listing carries at most one `--open` warning |
| SearchCommand.OpenedIsTheNthResult | src/search.rs:487-567 | a page is opened exactly for `--open N` with N in 1..E+V (1..E in filename mode) and a working renderer: an addressed N with a working renderer always opens the N-th result in numbering order, its fragment dropped under `--ignore-fragment`, at the `--columns` width and with the columns and cache warnings; conversely an opened page was addressed this way |
| SearchCommand.ListingNumbersAllResults | src/search.rs:487-567 | whenever `--open` addresses no result (absent, not a number, or out of range), the command ends with the full listing of the obtained results: every exact result on its own line numbered 1..E, then in precise mode every vague result numbered E+1..E+V; filename mode lists no vague results |
| SearchCommand.CacheHitIgnoresEngine | src/search.rs:470-471 | on a hit, the engine's outcome and any write faults make no difference |
| SearchCommand.SearchIsIdempotent | src/search.rs:469-485 | running the same search again after a completed store is served from the cache, writes nothing, and ends the same way, whatever the engine would compute by then |
| SearchCommand.FailedStoreWarns | src/search.rs:480-482 | on a miss, a fingerprint that cannot be created still hands on the engine's results, with one cache warning |
| SearchCommand.WarningsInOrder | src/search.rs:453-492 | for every invocation that lists or opens, the warnings come in stage order (invalid columns, then cache write, then `--open`), at most one per stage; the columns warning is present exactly when `--columns` was rejected, the cache warnings are exactly the store's, and an opened page carries no `--open` warning |
| SearchCommand.AllThreeWarnings | src/search.rs:453-492 | an invalid `--columns`, an uncreatable options file and an out-of-range `--open` give exactly those three warnings, in that order, with the full listing |
| SearchCommand.RenderFailureDropsWarnings | src/search.rs:487-503 | for every invocation with a failing renderer, no page is opened; once results are obtained, any failure is the renderer's, and an `--open` that addresses a result ends with that error alone, dropping the warnings gathered so far |
| SearchCommand.RenderFailureAfterWarnings | src/search.rs:487-503 | with two warnings pending, `--open 1` and a failing renderer end the command with the renderer's error |
| Sanitize.AttributeGuardIsByteGuard | src/download.rs:121-129 | for the ASCII literals, the byte guard (`position + k < length` and the bytes ahead equal the literal) is the same as comparing characters |
| Sanitize.Step | src/download.rs:113-148 | one character is either dropped or pushed unchanged |
| Sanitize.Run | src/download.rs:112-151 | the output is a subsequence of the input |
| Sanitize.SanitizeHtmlLine | src/download.rs:94-154 | the sanitised line is a subsequence of the input, so never longer |
| Sanitize.NoTagIsIdentity | src/download.rs:114-119 | outside a tag every character is copied, so a line without `<` comes back unchanged |
| Sanitize.SkipToQuote | src/download.rs:138-147 | in a key or a value, everything up to the next `"` is dropped, and that quote moves the machine on |
| Sanitize.ReadsKey | src/download.rs:120-142 | reading a whole stripped literal in a tag leaves the machine in the attribute's value |
| Sanitize.DropsAttribute | src/download.rs:120-147 | in a tag, an attribute starting with `class="`, `title="` or `data-language="` is dropped through its closing quote, and the tag goes on |
| Sanitize.CloseTagReturnsToDefault | src/download.rs:132-135 | `>` in a tag is kept and ends the tag |
| Sanitize.OtherTagCharacterIsKept | src/download.rs:136 | any other character in a tag is kept, including the space before a stripped attribute |
| Sanitize.AttributeAtLineEndIsKept | src/download.rs:121-131 | the guards compare strictly, so a stripped literal that ends exactly at the end of the line is kept whole |
| Sanitize.RunIsPiecewise | src/download.rs:112-151 | a text cut after separator characters is sanitised part by part, carrying the state from each part to the next |
| Sanitize.RunIsLinewise | src/download.rs:112-151 | a text made of lines, none ending inside a tag, is sanitised line by line |
| Sanitize.SanitizeFilenameForWindows | src/download.rs:162-168 | each forbidden character (`<`, `>`, `:`, `"`, the vertical bar, `?`, `*`) becomes `_`; every other character and the length are kept |
| Sanitize.FilenameSanitizingIsIdempotent | src/download.rs:162-168 | a sanitised name is left alone by a second pass |
| SanitizeUnitTest.SanitizeHtmlTest | src/download.rs:324-361 | the unit test's page sanitises to exactly the page the test expects |
| SanitizeUnitTest.Line5 | src/download.rs:331 | `<span class="since" title="const since 1.39.0">` becomes `<span  >` |

## Left out

- Filesystem and JSON I/O. `read_dir`, `File::open`/`create`, `BufReader`/`BufWriter` and `serde_json` are not modelled.
  - The docset is an in-memory tree.
  - Each cache file is a stored value, and serialisation is assumed to round-trip.
  - The outcome of each write is a `Cache.WriteFault` parameter.
- A `read_line` error ends a page's scan exactly like end of file (src/search.rs:337). It is modelled that way, with a page's text given as the chunks `read_line` returns.
- `str::to_lowercase` is a parameter (`fold`). Full Unicode case mapping is not modelled. File names use ASCII-only lowercasing, which is modelled.
- `common.rs` is not part of this model. Its collaborators are parameters or plain values:
  - `split_to_item_and_fragment` is `FilenameSearch.PathSplitter`;
  - `get_docset_path` is taken to succeed, and the docset tree is handed in;
  - `get_program_directory` is `Cache.ProgramDir`;
  - `print_page_from_docset` is the `render` outcome;
  - `get_terminal_width` is `terminalWidth`;
  - `DOC_PAGE_EXTENSION` is `pageExt`.
- `convert_path_to_item`'s `strip_prefix` cannot fail for paths under the docset root, so its error path is not modelled. Item paths are joined with `/`.
- The search engine's own outcome is a parameter of `SearchCommand.SearchImpl`. `SearchCommand.Obtain` uses that parameter on a cache miss. No member ties the parameter to the engines themselves, `FilenameSearch.SearchInFilenames` and `ContentSearch.SearchPrecisely`: each is modelled and proved on its own.
- ANSI colours, padding, headings and the `Searching for` line are console output only. A listing is modelled as the numbering and grouping decisions it prints.
- The argument parsing, the help text, the docs-manifest and docset-downloaded checks, and the printing of warnings in `search` (src/search.rs:580-629, 656-662) are plumbing around `search_impl`.
- Downloading, extraction and progress output in src/download.rs are network and file I/O. So are src/main.rs and src/open.rs: they are command dispatch, and the column rule in open.rs repeats the modelled one.
- `sanitize_filename_for_windows` is compiled only on Windows. The model states the mapping itself.
- A directory whose name ends with the page extension but does not contain the query is scanned as on Unix, where it opens and its first `read_line` fails, so it yields no lines. On Windows opening it fails and aborts the search; that platform difference is not modelled.
- `ReadDirError` and `OpenError` carry the path relative to the docset root (the root itself is the empty path), and the other errors carry no OS message. The source's messages print the full path, docset directory included, and the OS error text (src/search.rs:288, 328); message text is not modelled.
- Concurrent invocations and the atomicity of cache writes across processes are not modelled.
- `usize` is taken to be 64 bits. `--open` and `--columns` are parsed against that bound. The window arithmetic is unbounded: `saturating_add` (src/search.rs:235) and `index + query_len` cannot reach `usize::MAX` for indices into a line held in memory.
- Context.WindowIsBounded: bounds the window by the rounding slack of 3 bytes per side rather than naming the exact boundary on each side, which `Context.WindowBounds` states.
