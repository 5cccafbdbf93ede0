/** The `search` subcommand around the engines (`search_impl` and the query
    assembly of `search`, src/search.rs:435-641): probe the cache, run the
    engine on a miss and store its results, then either open the addressed
    page or list the results, collecting warnings in the order they arise. */
module SearchCommand {
  import opened Wrappers
  import opened Text
  import opened Results
  import opened Cache
  import opened Presenter

  /** The query: the remaining arguments joined by single spaces, with one
      more space on each side under `--whole`. */
  function BuildQuery(args: seq<string>, whole: bool): (q: string)
    ensures !whole ==> q == Join(args, " ")
    ensures whole ==> |q| == |Join(args, " ")| + 2 && q[0] == ' ' && q[|q| - 1] == ' ' && q[1..|q| - 1] == Join(args, " ")
  {
    var merged := Join(args, " ");
    if whole then " " + merged + " " else merged
  }

  /** `" " + p + " "` occurs exactly where `p` occurs with a space on
      either side. */
  lemma SpacedOccurrence(hay: string, p: string, i: nat)
    requires 0 < i
    ensures OccursAt(hay, " " + p + " ", i - 1) <==>
      OccursAt(hay, p, i) && hay[i - 1] == ' ' && i + |p| < |hay| && hay[i + |p|] == ' '
  {
    var wrapped := " " + p + " ";
    assert |wrapped| == |p| + 2 && wrapped[0] == ' ' && wrapped[|p| + 1] == ' ' && wrapped[1..|p| + 1] == p;
    if OccursAt(hay, p, i) && hay[i - 1] == ' ' && i + |p| < |hay| && hay[i + |p|] == ' ' {
      var window := hay[i - 1..i + |p| + 1];
      assert window == [hay[i - 1]] + hay[i..i + |p|] + [hay[i + |p|]];
      assert window == wrapped;
    }
    if OccursAt(hay, wrapped, i - 1) {
      var window := hay[i - 1..i + |p| + 1];
      assert window == wrapped;
      assert hay[i - 1] == window[0] && hay[i + |p|] == window[|p| + 1];
      var middle, inner := hay[i..i + |p|], window[1..|p| + 1];
      forall k | 0 <= k < |p| ensures middle[k] == inner[k] {
        assert inner[k] == window[k + 1] == hay[i + k];
      }
      assert middle == inner;
    }
  }

  /** A `--whole` query occurs exactly where the plain query occurs with a
      space on either side. */
  lemma WholeQueryIsSpaceDelimited(hay: string, args: seq<string>, i: nat)
    requires 0 < i
    ensures var plain := Join(args, " ");
      OccursAt(hay, BuildQuery(args, true), i - 1) <==>
        OccursAt(hay, plain, i) && hay[i - 1] == ' ' && i + |plain| < |hay| && hay[i + |plain|] == ' '
  {
    SpacedOccurrence(hay, Join(args, " "), i);
  }

  /** What one invocation ends with. */
  datatype Outcome =
    | Opened(target: Target, width: nat, warnings: seq<Warning>)
    | Listed(exact: seq<ExactLine>, vague: seq<VagueBlock>, warnings: seq<Warning>)
    | Failed(error: string)   // warnings collected so far are not printed

  /** The results the listing works on and the cache directory afterwards,
      with the cache warning a failed store adds. */
  datatype Obtained = Obtained(dir: ProgramDir, results: SearchCache, warnings: seq<Warning>)

  /** The cache probe, then on a miss the engine and the store. In filename
      mode only the engine's exact list is used and an empty vague list is
      stored with it. */
  function Obtain(dir: ProgramDir, options: SearchOptions, engine: Result<SearchCache, string>,
                  optionsFault: WriteFault, payloadFault: WriteFault): (r: Result<Obtained, string>)
    ensures TryUseCache(dir, options).Some? ==> r == Success(Obtained(dir, TryUseCache(dir, options).value, []))
    ensures TryUseCache(dir, options).None? ==> (r.Failure? <==> engine.Failure?)
    ensures TryUseCache(dir, options).None? && r.Success? ==>
      && r.value.results.exactResults == engine.value.exactResults
      && r.value.results.vagueResults == (if options.flags.precise then engine.value.vagueResults else [])
      && (r.value.warnings == [] <==> dir.ProgramDir? && !optionsFault.CreateFails? && !optionsFault.WriteFails?
                                      && !payloadFault.CreateFails? && !payloadFault.WriteFails?)
    ensures r.Success? ==> |r.value.warnings| <= 1 && forall w :: w in r.value.warnings ==> w.CacheNotWritten?
    ensures TryUseCache(dir, options).None? && r.Success? && dir.ProgramDir? && optionsFault == Complete && payloadFault == Complete ==>
      TryUseCache(r.value.dir, options) == Some(r.value.results)
  {
    match TryUseCache(dir, options)
    case Some(cached) => Success(Obtained(dir, cached, []))
    case None =>
      var computed :- engine;
      var results := if options.flags.precise then computed else SearchCache(computed.exactResults, []);
      var (dir', stored) := CacheSearchResults(dir, options, results, optionsFault, payloadFault);
      var warnings := if stored.Failure? then [CacheNotWritten(stored.error)] else [];
      Success(Obtained(dir', results, warnings))
  }

  /** `search_impl`. `terminalWidth` is `get_terminal_width()`, `engine` what
      the engine for the mode computes for these options, and `render` the
      outcome of `print_page_from_docset`. */
  function SearchImpl(dir: ProgramDir, options: SearchOptions, flagOpen: string, flagColumns: string, terminalWidth: nat,
                      engine: Result<SearchCache, string>, optionsFault: WriteFault, payloadFault: WriteFault,
                      render: Result<(), string>): (r: (ProgramDir, Outcome))
    ensures TryUseCache(dir, options).Some? ==> r.0 == dir
    ensures TryUseCache(dir, options).None? && engine.Failure? ==> r == (dir, Failed(engine.error))
    ensures r.1.Opened? ==> render.Success? && r.1.width == ColumnWidth(flagColumns, terminalWidth).0
    ensures r.1.Listed? && !options.flags.precise ==> r.1.vague == []
    ensures r.1.Listed? || r.1.Opened? ==>
      (ColumnWidth(flagColumns, terminalWidth).1 <==> |r.1.warnings| > 0 && r.1.warnings[0] == InvalidColumns)
  {
    var (width, badColumns) := ColumnWidth(flagColumns, terminalWidth);
    var columnWarnings := if badColumns then [InvalidColumns] else [];
    match Obtain(dir, options, engine, optionsFault, payloadFault)
    case Failure(e) => (dir, Failed(e))
    case Success(Obtained(dir', results, cacheWarnings)) =>
      var exact, vague := results.exactResults, results.vagueResults;
      match Resolve(options, flagOpen, results)
      case Open(target) =>
        if render.Failure? then (dir', Failed(render.error))
        else (dir', Opened(target, width, columnWarnings + cacheWarnings))
      case List(openWarnings) =>
        var vagueLines := if options.flags.precise then VagueListing(vague, |exact| + 1) else [];
        (dir', Listed(ExactListing(exact, 1, ""), vagueLines, columnWarnings + cacheWarnings + openWarnings))
  }

  /** The `match open_number` of the mode. */
  function Resolve(options: SearchOptions, flagOpen: string, results: SearchCache): (r: Resolution)
    ensures r.List? ==> |r.warnings| <= 1 && forall w :: w in r.warnings ==> w.OpenOutOfBounds? || w.OpenRequiresNumber?
  {
    var request := ParseOpen(flagOpen);
    if options.flags.precise then ResolvePrecise(request, results.exactResults, results.vagueResults, options.flags.ignoreFragment)
    else ResolveFilenames(request, results.exactResults, options.flags.ignoreFragment)
  }

  /** The results addressable in a mode: filename mode ignores any vague
      results. */
  function InMode(results: SearchCache, precise: bool): seq<VagueResult>
  {
    if precise then results.vagueResults else []
  }

  /** A page is opened only for `--open N` with N addressing a result, and
      it is the N-th result in numbering order. */
  lemma OpenedIsTheNthResult(dir: ProgramDir, options: SearchOptions, flagOpen: string, flagColumns: string, terminalWidth: nat,
                             engine: Result<SearchCache, string>, optionsFault: WriteFault, payloadFault: WriteFault,
                             render: Result<(), string>)
    ensures var (_, outcome) := SearchImpl(dir, options, flagOpen, flagColumns, terminalWidth, engine, optionsFault, payloadFault, render);
      var got := Obtain(dir, options, engine, optionsFault, payloadFault);
      outcome.Opened? ==>
        && got.Success? && ParseOpen(flagOpen).OpenAt?
        && var n := ParseOpen(flagOpen).n;
        var found := got.value.results;
        var vague := InMode(found, options.flags.precise);
        && 1 <= n <= |found.exactResults| + |vague|
        && outcome.target == Addressable(found.exactResults, vague, options.flags.ignoreFragment)[n - 1]
    ensures var (_, outcome) := SearchImpl(dir, options, flagOpen, flagColumns, terminalWidth, engine, optionsFault, payloadFault, render);
      var got := Obtain(dir, options, engine, optionsFault, payloadFault);
      got.Success? && render.Success? && ParseOpen(flagOpen).OpenAt? ==>
        var n := ParseOpen(flagOpen).n;
        var found := got.value.results;
        var vague := InMode(found, options.flags.precise);
        var (width, badColumns) := ColumnWidth(flagColumns, terminalWidth);
        1 <= n <= |found.exactResults| + |vague| ==>
          outcome == Opened(Addressable(found.exactResults, vague, options.flags.ignoreFragment)[n - 1], width,
                            (if badColumns then [InvalidColumns] else []) + got.value.warnings)
  {
    var got := Obtain(dir, options, engine, optionsFault, payloadFault);
    if got.Success? && ParseOpen(flagOpen).OpenAt? {
      var found := got.value.results;
      var ignore := options.flags.ignoreFragment;
      FilenameModeIsPreciseWithoutVague(ParseOpen(flagOpen), found.exactResults, ignore);
      OpenAddressesTheNthResult(ParseOpen(flagOpen).n, found.exactResults, InMode(found, options.flags.precise), ignore);
    }
  }

  /** A listing numbers the exact results 1..E and the vague results
      E+1..E+V, in the order they were found or cached; and whenever
      `--open` addresses no result (absent, not a number, or out of range)
      the full listing is what the command ends with. */
  lemma ListingNumbersAllResults(dir: ProgramDir, options: SearchOptions, flagOpen: string, flagColumns: string, terminalWidth: nat,
                                 engine: Result<SearchCache, string>, optionsFault: WriteFault, payloadFault: WriteFault,
                                 render: Result<(), string>)
    ensures var (_, outcome) := SearchImpl(dir, options, flagOpen, flagColumns, terminalWidth, engine, optionsFault, payloadFault, render);
      var got := Obtain(dir, options, engine, optionsFault, payloadFault);
      outcome.Listed? ==>
        && got.Success?
        && var found := got.value.results;
        var e := |found.exactResults|;
        && |outcome.exact| == e
        && |outcome.vague| == |InMode(found, options.flags.precise)|
        && (forall k :: 0 <= k < e ==> outcome.exact[k].number == k + 1)
        && (forall k :: 0 <= k < |outcome.vague| ==>
              outcome.vague[k].number == e + 1 + k && outcome.vague[k].item == found.vagueResults[k].item)
    ensures var (_, outcome) := SearchImpl(dir, options, flagOpen, flagColumns, terminalWidth, engine, optionsFault, payloadFault, render);
      var got := Obtain(dir, options, engine, optionsFault, payloadFault);
      got.Success? ==>
        var found := got.value.results;
        var e := |found.exactResults|;
        var request := ParseOpen(flagOpen);
        !(request.OpenAt? && 1 <= request.n <= e + |InMode(found, options.flags.precise)|) ==>
          && outcome.Listed?
          && outcome.exact == ExactListing(found.exactResults, 1, "")
          && outcome.vague == (if options.flags.precise then VagueListing(found.vagueResults, e + 1) else [])
  {
  }

  /** A hit never consults the engine and writes nothing: any engine
      outcome and any write faults give the same result. */
  lemma CacheHitIgnoresEngine(dir: ProgramDir, options: SearchOptions, flagOpen: string, flagColumns: string, terminalWidth: nat,
                              engine1: Result<SearchCache, string>, engine2: Result<SearchCache, string>,
                              faults1: (WriteFault, WriteFault), faults2: (WriteFault, WriteFault), render: Result<(), string>)
    requires TryUseCache(dir, options).Some?
    ensures SearchImpl(dir, options, flagOpen, flagColumns, terminalWidth, engine1, faults1.0, faults1.1, render)
         == SearchImpl(dir, options, flagOpen, flagColumns, terminalWidth, engine2, faults2.0, faults2.1, render)
  {
  }

  /** The outcome depends on the cache directory and the engine only
      through what `Obtain` gives. */
  lemma OutcomeFollowsObtained(dir1: ProgramDir, dir2: ProgramDir, options: SearchOptions, flagOpen: string, flagColumns: string,
                               terminalWidth: nat, engine1: Result<SearchCache, string>, engine2: Result<SearchCache, string>,
                               faults1: (WriteFault, WriteFault), faults2: (WriteFault, WriteFault), render: Result<(), string>)
    requires Obtain(dir1, options, engine1, faults1.0, faults1.1).Success?
    requires Obtain(dir1, options, engine1, faults1.0, faults1.1) == Obtain(dir2, options, engine2, faults2.0, faults2.1)
    ensures SearchImpl(dir1, options, flagOpen, flagColumns, terminalWidth, engine1, faults1.0, faults1.1, render)
         == SearchImpl(dir2, options, flagOpen, flagColumns, terminalWidth, engine2, faults2.0, faults2.1, render)
  {
  }

  /** Running the same search twice: once the first run has stored its
      results, the second is served from the cache, writes nothing, and ends
      the same way, whatever the engine would compute by then. */
  lemma SearchIsIdempotent(dir: ProgramDir, options: SearchOptions, flagOpen: string, flagColumns: string, terminalWidth: nat,
                           engine: Result<SearchCache, string>, later: Result<SearchCache, string>,
                           faults: (WriteFault, WriteFault), render: Result<(), string>)
    requires dir.ProgramDir? && engine.Success?
    ensures var (dir1, first) := SearchImpl(dir, options, flagOpen, flagColumns, terminalWidth, engine, Complete, Complete, render);
      var (dir2, second) := SearchImpl(dir1, options, flagOpen, flagColumns, terminalWidth, later, faults.0, faults.1, render);
      dir2 == dir1 && second == first
  {
    var first := Obtain(dir, options, engine, Complete, Complete);
    var dir1 := first.value.dir;
    assert TryUseCache(dir1, options) == Some(first.value.results) && first.value.warnings == [];
    assert SearchImpl(dir, options, flagOpen, flagColumns, terminalWidth, engine, Complete, Complete, render).0 == dir1;
    OutcomeFollowsObtained(dir, dir1, options, flagOpen, flagColumns, terminalWidth, engine, later, (Complete, Complete), faults, render);
  }

  /** On a miss, a store whose options file cannot be created still hands
      on the engine's results, with one warning. */
  lemma FailedStoreWarns(files: CacheFiles, options: SearchOptions, found: SearchCache, e: string)
    requires files.options != Record(options)
    ensures var r := Obtain(ProgramDir(files), options, Success(found), CreateFails(e), Complete);
      && r.Success?
      && r.value.warnings == [CacheNotWritten(CreateOptionsError(e))]
      && (options.flags.precise ==> r.value.results == found)
  {
    assert TryUseCache(ProgramDir(files), options).None?;
    assert CacheSearchResults(ProgramDir(files), options, found, CreateFails(e), Complete).1 == Failure(CreateOptionsError(e));
  }

  /** The stage a warning comes from: `--columns`, the cache store, `--open`. */
  function WarningStage(w: Warning): nat
  {
    match w
    case InvalidColumns => 0
    case CacheNotWritten(_) => 1
    case _ => 2
  }

  /** For every invocation that lists or opens: the warnings come in the
      order their stages run, at most one per stage; the columns warning is
      there exactly when `--columns` was rejected, the cache warnings are
      exactly those of the store, and opening a page leaves no `--open`
      warning. */
  lemma WarningsInOrder(dir: ProgramDir, options: SearchOptions, flagOpen: string, flagColumns: string, terminalWidth: nat,
                        engine: Result<SearchCache, string>, optionsFault: WriteFault, payloadFault: WriteFault,
                        render: Result<(), string>)
    ensures var (_, outcome) := SearchImpl(dir, options, flagOpen, flagColumns, terminalWidth, engine, optionsFault, payloadFault, render);
      var got := Obtain(dir, options, engine, optionsFault, payloadFault);
      outcome.Listed? || outcome.Opened? ==>
        && got.Success?
        && (forall i, j :: 0 <= i < j < |outcome.warnings| ==> WarningStage(outcome.warnings[i]) < WarningStage(outcome.warnings[j]))
        && (InvalidColumns in outcome.warnings <==> ColumnWidth(flagColumns, terminalWidth).1)
        && (forall w :: w in got.value.warnings <==> w in outcome.warnings && w.CacheNotWritten?)
        && (outcome.Opened? ==> forall w :: w in outcome.warnings ==> WarningStage(w) < 2)
  {
    var columnWarnings := if ColumnWidth(flagColumns, terminalWidth).1 then [InvalidColumns] else [];
    var got := Obtain(dir, options, engine, optionsFault, payloadFault);
    if got.Success? {
      var resolution := Resolve(options, flagOpen, got.value.results);
      var openWarnings := if resolution.List? then resolution.warnings else [];
      WarningsAreStaged(dir, options, flagOpen, flagColumns, terminalWidth, engine, optionsFault, payloadFault, render);
      StagesAscend(columnWarnings, got.value.warnings, openWarnings);
    }
  }

  /** The warnings of a listing or an opened page are those of the three
      stages, in stage order. */
  lemma WarningsAreStaged(dir: ProgramDir, options: SearchOptions, flagOpen: string, flagColumns: string, terminalWidth: nat,
                          engine: Result<SearchCache, string>, optionsFault: WriteFault, payloadFault: WriteFault,
                          render: Result<(), string>)
    ensures var (_, outcome) := SearchImpl(dir, options, flagOpen, flagColumns, terminalWidth, engine, optionsFault, payloadFault, render);
      var got := Obtain(dir, options, engine, optionsFault, payloadFault);
      outcome.Listed? || outcome.Opened? ==>
        && got.Success?
        && var resolution := Resolve(options, flagOpen, got.value.results);
        && (outcome.Opened? ==> resolution.Open?)
        && outcome.warnings == (if ColumnWidth(flagColumns, terminalWidth).1 then [InvalidColumns] else [])
                               + got.value.warnings + (if resolution.List? then resolution.warnings else [])
  {
    var got := Obtain(dir, options, engine, optionsFault, payloadFault);
    if got.Success? {
      var columnWarnings := if ColumnWidth(flagColumns, terminalWidth).1 then [InvalidColumns] else [];
      assert columnWarnings + got.value.warnings + [] == columnWarnings + got.value.warnings;
    }
  }

  /** One warning at most from each stage, in stage order. */
  lemma StagesAscend(columns: seq<Warning>, cache: seq<Warning>, open: seq<Warning>)
    requires |columns| <= 1 && forall w :: w in columns ==> w == InvalidColumns
    requires |cache| <= 1 && forall w :: w in cache ==> w.CacheNotWritten?
    requires |open| <= 1 && forall w :: w in open ==> WarningStage(w) == 2
    ensures var all := columns + cache + open;
      forall i, j :: 0 <= i < j < |all| ==> WarningStage(all[i]) < WarningStage(all[j])
  {
    var all := columns + cache + open;
    var c, k := |columns|, |cache|;
    forall m | 0 <= m < |all|
      ensures WarningStage(all[m]) == (if m < c then 0 else if m < c + k then 1 else 2)
    {
      if m < c {
        assert all[m] == columns[m] && columns[m] in columns;
      } else if m < c + k {
        assert all[m] == cache[m - c] && cache[m - c] in cache;
      } else {
        assert all[m] == open[m - c - k] && open[m - c - k] in open;
      }
    }
  }

  /** For every invocation whose renderer fails: no page counts as opened,
      and when the results were obtained, any failure is the renderer's,
      which is what an addressed `--open` ends with, whatever warnings were
      pending. */
  lemma RenderFailureDropsWarnings(dir: ProgramDir, options: SearchOptions, flagOpen: string, flagColumns: string, terminalWidth: nat,
                                   engine: Result<SearchCache, string>, optionsFault: WriteFault, payloadFault: WriteFault,
                                   err: string)
    ensures var (_, outcome) := SearchImpl(dir, options, flagOpen, flagColumns, terminalWidth, engine, optionsFault, payloadFault, Failure(err));
      var got := Obtain(dir, options, engine, optionsFault, payloadFault);
      && !outcome.Opened?
      && (got.Failure? ==> outcome == Failed(got.error))
      && (got.Success? && outcome.Failed? ==> outcome == Failed(err))
      && (got.Success? && ParseOpen(flagOpen).OpenAt?
          && 1 <= ParseOpen(flagOpen).n <= |got.value.results.exactResults| + |InMode(got.value.results, options.flags.precise)|
          ==> outcome == Failed(err))
  {
  }

  /** All three warnings at once: an invalid `--columns`, an options file
      that cannot be created, and an out-of-range `--open`. */
  lemma AllThreeWarnings(files: CacheFiles, options: SearchOptions, n: nat, terminalWidth: nat, found: SearchCache, e: string)
    requires options.flags.precise
    requires n > |found.exactResults| + |found.vagueResults| && n <= Numeric.UsizeMax
    requires files.options != Record(options)
    ensures SearchImpl(ProgramDir(files), options, Numeric.Decimal(n), "wide", terminalWidth, Success(found), CreateFails(e), Complete, Success(())).1
      == Listed(ExactListing(found.exactResults, 1, ""), VagueListing(found.vagueResults, |found.exactResults| + 1),
                [InvalidColumns, CacheNotWritten(CreateOptionsError(e)), OpenOutOfBounds(n)])
  {
    var dir := ProgramDir(files);
    assert ParseOpen(Numeric.Decimal(n)) == OpenAt(n) by {
      Numeric.ParseDecimal(n);
    }
    assert ColumnWidth("wide", terminalWidth) == (terminalWidth, true) by {
      assert !Numeric.IsDigit("wide"[0]);
    }
    FailedStoreWarns(files, options, found, e);
  }

  /** A renderer failure after two warnings ends the command with its error
      alone. */
  lemma RenderFailureAfterWarnings(files: CacheFiles, options: SearchOptions, terminalWidth: nat, found: SearchCache, e: string, err: string)
    requires |found.exactResults| > 0
    requires files.options != Record(options)
    ensures SearchImpl(ProgramDir(files), options, "1", "wide", terminalWidth, Success(found), CreateFails(e), Complete, Failure(err)).1
      == Failed(err)
  {
    Numeric.ParseDecimal(1);
    assert Numeric.Decimal(1) == "1";
    assert Numeric.ParseUsize("wide").None? by {
      assert !Numeric.IsDigit("wide"[0]);
    }
  }
}
