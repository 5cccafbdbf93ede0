/** `search_docset_precisely` and its inner `visit_dir_with_query`
    (src/search.rs:253-381): walk the docset's directory tree, classify every
    page file as an exact match (by its name) or a vague match (by its text),
    and sort both lists.

    The directory tree is an in-memory value. An entry the directory
    iterator cannot read, or whose type cannot be read, is a node of its
    own; a directory whose listing fails, and a page that cannot be opened,
    carry that outcome. A file's text is the sequence of chunks `read_line`
    returns; a read error ends the scan like end of file does. */
module ContentSearch {
  import opened Wrappers
  import opened Text
  import opened Ordering
  import opened Results
  import opened Context

  datatype Node =
    | Dir(name: string, contents: DirContents)
    | File(name: string, body: Body)
    | UnreadableEntry             // the `read_dir` iterator yielded an error
    | UnknownType(name: string)   // `file_type()` failed

  datatype DirContents = Entries(nodes: seq<Node>) | Unlistable

  datatype Body = Lines(lines: seq<string>) | Unopenable

  datatype ContentSearchError =
    | ReadDirError(path: string)
    | ReadEntryError
    | FileTypeError(name: string)
    | OpenError(path: string)

  /** What the walk searches for: the (already folded) query, the case
      rule, the `to_lowercase` used on lines, and `DOC_PAGE_EXTENSION`. */
  datatype Query = Query(text: string, caseInsensitive: bool, fold: string -> string, pageExt: string)

  type Found = (seq<ExactResult>, seq<VagueResult>)

  const Nothing: Found := ([], [])

  /** Appending the results of two steps of the walk, the first error winning. */
  function Combine(a: Result<Found, ContentSearchError>, b: Result<Found, ContentSearchError>): (r: Result<Found, ContentSearchError>)
    ensures a.Failure? ==> r == a
    ensures a.Success? && b.Failure? ==> r == b
    ensures a.Success? && b.Success? ==> r == Success((a.value.0 + b.value.0, a.value.1 + b.value.1))
  {
    if a.Failure? then a
    else if b.Failure? then b
    else Success((a.value.0 + b.value.0, a.value.1 + b.value.1))
  }

  /** Rust's `Path::file_stem`, which `with_extension("")` keeps: the name up
      to its last `.`, unless that dot is the first character. */
  function FileStem(name: string): (stem: string)
    ensures |stem| <= |name| && stem == name[..|stem|]
    ensures |stem| < |name| ==> name[|stem|] == '.' && |stem| > 0
    ensures |stem| < |name| ==> forall k :: |stem| < k < |name| ==> name[k] != '.'
    ensures name != ".." && LastDot(name, |name|).Some? && LastDot(name, |name|).value > 0
      ==> |stem| == LastDot(name, |name|).value
    ensures |stem| == |name| ==> name == ".." || forall k :: 0 < k < |name| ==> name[k] != '.'
  {
    if name == ".." then name
    else
      match LastDot(name, |name|)
      case Some(d) => if d == 0 then name else name[..d]
      case None => name
  }

  function LastDot(name: string, j: nat): (r: Option<nat>)
    requires j <= |name|
    ensures r.Some? ==> r.value < j && name[r.value] == '.'
    ensures r.Some? ==> forall k :: r.value < k < j ==> name[k] != '.'
    ensures r.None? ==> forall k :: 0 <= k < j ==> name[k] != '.'
    decreases j
  {
    if j == 0 then None
    else if name[j - 1] == '.' then Some(j - 1)
    else LastDot(name, j - 1)
  }

  /** `convert_path_to_item`: the path relative to the docset root, without
      the file's extension. */
  function Item(dirs: seq<string>, name: string): (item: string)
    ensures item == EachFollowedBy(dirs, "/") + FileStem(name)
  {
    JoinWithLast(dirs, FileStem(name), "/");
    Join(dirs + [FileStem(name)], "/")
  }

  /** The context one line contributes: the window around the first
      occurrence of the query in the (folded) line, cut from the original
      line at the byte index found in the folded one. */
  function LineContext(line: string, q: Query): (r: Option<string>)
    ensures r.Some? <==> Contains(DisplayLine(line, q), q.text)
    ensures r.Some? ==> var d := DisplayLine(line, q);
      exists j: nat :: FirstOccurrence(d, q.text, j)
        && r.value == ContextAroundQuery(line, Offset(d, j), ByteLen(q.text))
  {
    var display := DisplayLine(line, q);
    match Find(display, q.text)
    case Some(j) => Some(ContextAroundQuery(line, Offset(display, j), ByteLen(q.text)))
    case None => None
  }

  /** `j` is where `needle` first occurs in `hay`. */
  predicate FirstOccurrence(hay: string, needle: string, j: nat)
  {
    OccursAt(hay, needle, j) && forall k :: 0 <= k < j ==> !OccursAt(hay, needle, k)
  }

  /** The working copy a line is searched in. */
  function DisplayLine(line: string, q: Query): string
  {
    if q.caseInsensitive then q.fold(line) else line
  }

  /** The `read_line` loop: one context per line containing the query, in
      read order, stopping at the first empty read (end of file). */
  function ScanLines(lines: seq<string>, q: Query): (contexts: seq<string>)
    ensures |contexts| <= |lines|
    ensures forall c :: c in contexts ==> IsTrimmed(c)
    ensures |contexts| == 0 <==> NoLineMatches(lines, q)
  {
    if |lines| == 0 || |lines[0]| == 0 then
      NothingReadMatches(lines, q);
      []
    else
      NoLineMatchesStep(lines, q);
      LineContribution(lines[0], q) + ScanLines(lines[1..], q)
  }

  /** No line read before end of file contains the query. */
  predicate NoLineMatches(lines: seq<string>, q: Query)
  {
    forall k :: 0 <= k < |lines| && ReadBeforeEnd(lines, k) ==> !Contains(DisplayLine(lines[k], q), q.text)
  }

  /** Line `k` is read before the loop meets an empty read: it and every
      line before it are non-empty. */
  predicate ReadBeforeEnd(lines: seq<string>, k: nat)
    requires k < |lines|
  {
    forall m :: 0 <= m <= k ==> |lines[m]| > 0
  }

  lemma NothingReadMatches(lines: seq<string>, q: Query)
    requires |lines| == 0 || |lines[0]| == 0
    ensures NoLineMatches(lines, q)
  {
    forall k | 0 <= k < |lines|
      ensures !ReadBeforeEnd(lines, k)
    {
      assert |lines[0]| == 0;
    }
  }

  lemma NoLineMatchesStep(lines: seq<string>, q: Query)
    requires |lines| > 0 && |lines[0]| > 0
    ensures NoLineMatches(lines, q) <==> !Contains(DisplayLine(lines[0], q), q.text) && NoLineMatches(lines[1..], q)
  {
    var tail := lines[1..];
    forall k | 0 <= k < |tail|
      ensures ReadBeforeEnd(tail, k) <==> ReadBeforeEnd(lines, k + 1)
    {
      assert forall m :: 0 <= m <= k ==> tail[m] == lines[m + 1];
    }
    assert ReadBeforeEnd(lines, 0);
  }

  /** What one line adds to the page's contexts. */
  function LineContribution(line: string, q: Query): (r: seq<string>)
    ensures |r| <= 1
    ensures |r| == 0 <==> !Contains(DisplayLine(line, q), q.text)
    ensures forall c :: c in r ==> IsTrimmed(c)
  {
    match LineContext(line, q)
    case Some(c) => [c]
    case None => []
  }

  /** The classification of one directory entry by its own name and text;
      `body` is `None` for a directory, which opens but yields no line. */
  function ClassifyPage(dirs: seq<string>, name: string, body: Option<Body>, q: Query): (r: Result<Found, ContentSearchError>)
    ensures r.Failure? ==> body == Some(Unopenable) && r.error == OpenError(Join(dirs + [name], "/"))
    ensures r.Success? ==> |r.value.0| + |r.value.1| <= 1 && PageResults(r.value)
    ensures r.Success? ==> forall e :: e in r.value.0 ==> e.item == Item(dirs, name)
    ensures r.Success? ==> forall v :: v in r.value.1 ==> v.item == Item(dirs, name)
  {
    if !EndsWith(name, q.pageExt) then Success(Nothing)
    else
      var fileName := if q.caseInsensitive then AsciiLowercase(name) else name;
      var item := Item(dirs, name);
      if Contains(fileName, q.text) then Success(([ExactResult(item, None)], []))
      else
        match body
        case Some(Unopenable) => Failure(OpenError(Join(dirs + [name], "/")))
        case Some(Lines(lines)) =>
          var contexts := ScanLines(lines, q);
          if |contexts| == 0 then Success(Nothing) else Success(([], [VagueResult(item, contexts)]))
        case None => Success(Nothing)
  }

  /** What the content search can find: exact results name whole pages,
      without a fragment, and a vague result has at least one context. */
  predicate PageResults(found: Found)
  {
    && (forall e :: e in found.0 ==> e.fragment.None?)
    && (forall v :: v in found.1 ==> |v.contexts| > 0)
  }

  /** `visit_dir_with_query` on one directory. */
  function VisitDir(path: seq<string>, contents: DirContents, q: Query): (r: Result<Found, ContentSearchError>)
    ensures contents.Unlistable? ==> r == Failure(ReadDirError(Join(path, "/")))
    ensures r.Success? ==> PageResults(r.value)
    decreases contents
  {
    match contents
    case Unlistable => Failure(ReadDirError(Join(path, "/")))
    case Entries(nodes) => VisitEntries(path, nodes, q)
  }

  /** The `for entry in dir` loop. */
  function VisitEntries(dirs: seq<string>, nodes: seq<Node>, q: Query): (r: Result<Found, ContentSearchError>)
    ensures r.Success? ==> PageResults(r.value)
    ensures (exists k :: 0 <= k < |nodes| && nodes[k].UnreadableEntry?) ==> r.Failure?
    decreases nodes
  {
    if |nodes| == 0 then Success(Nothing)
    else Combine(VisitNode(dirs, nodes[0], q), VisitEntries(dirs, nodes[1..], q))
  }

  /** One iteration of that loop. A directory is always descended into, and
      then, like any other entry, classified by its name. */
  function VisitNode(dirs: seq<string>, node: Node, q: Query): (r: Result<Found, ContentSearchError>)
    ensures r.Success? ==> PageResults(r.value)
    ensures node.UnreadableEntry? ==> r == Failure(ReadEntryError)
    ensures node.UnknownType? ==> r == Failure(FileTypeError(node.name))
    decreases node
  {
    match node
    case UnreadableEntry => Failure(ReadEntryError)
    case UnknownType(name) => Failure(FileTypeError(name))
    case Dir(name, contents) => Combine(VisitDir(dirs + [name], contents, q), ClassifyPage(dirs, name, None, q))
    case File(name, body) => ClassifyPage(dirs, name, Some(body), q)
  }

  /** `search_docset_precisely` from the docset root: fold the query when
      ignoring case, walk, then sort both lists. */
  function SearchPrecisely(root: DirContents, query: string, caseInsensitive: bool, fold: string -> string, pageExt: string)
    : (r: Result<Found, ContentSearchError>)
    ensures var q := Query(if caseInsensitive then fold(query) else query, caseInsensitive, fold, pageExt);
      && (r.Success? <==> VisitDir([], root, q).Success?)
      && (r.Failure? ==> r == VisitDir([], root, q))
      && (r.Success? ==> SortedBy(r.value.0, CompareExact) && SortedBy(r.value.1, CompareVague))
      && (r.Success? ==> multiset(r.value.0) == multiset(VisitDir([], root, q).value.0))
      && (r.Success? ==> multiset(r.value.1) == multiset(VisitDir([], root, q).value.1))
  {
    var q := Query(if caseInsensitive then fold(query) else query, caseInsensitive, fold, pageExt);
    var found :- VisitDir([], root, q);
    Success((SortExact(found.0), SortVague(found.1)))
  }

  // ---------------------------------------------------------------------
  // Reference definition: every entry of the tree, classified on its own.

  /** An entry of the tree with the directories leading to it. */
  datatype Located = Located(dirs: seq<string>, node: Node)

  /** The entries of the tree in the order the walk finishes with them: a
      directory's descendants come before the directory itself. */
  function Flatten(dirs: seq<string>, nodes: seq<Node>): seq<Located>
    decreases nodes
  {
    if |nodes| == 0 then []
    else FlattenNode(dirs, nodes[0]) + Flatten(dirs, nodes[1..])
  }

  function FlattenNode(dirs: seq<string>, node: Node): seq<Located>
    decreases node
  {
    match node
    case Dir(name, Entries(children)) => Flatten(dirs + [name], children) + [Located(dirs, node)]
    case _ => [Located(dirs, node)]
  }

  /** What one entry contributes by itself. */
  function Own(loc: Located, q: Query): Result<Found, ContentSearchError>
  {
    match loc.node
    case UnreadableEntry => Failure(ReadEntryError)
    case UnknownType(name) => Failure(FileTypeError(name))
    case Dir(name, Unlistable) => Failure(ReadDirError(Join(loc.dirs + [name], "/")))
    case Dir(name, Entries(_)) => ClassifyPage(loc.dirs, name, None, q)
    case File(name, body) => ClassifyPage(loc.dirs, name, Some(body), q)
  }

  /** The first entry's error, or every entry's contribution in order. */
  function CollectAll(locs: seq<Located>, q: Query): Result<Found, ContentSearchError>
  {
    if |locs| == 0 then Success(Nothing)
    else Combine(Own(locs[0], q), CollectAll(locs[1..], q))
  }

  lemma CombineAssociative(a: Result<Found, ContentSearchError>, b: Result<Found, ContentSearchError>, c: Result<Found, ContentSearchError>)
    ensures Combine(Combine(a, b), c) == Combine(a, Combine(b, c))
  {
    if a.Success? && b.Success? && c.Success? {
      assert a.value.0 + b.value.0 + c.value.0 == a.value.0 + (b.value.0 + c.value.0);
      assert a.value.1 + b.value.1 + c.value.1 == a.value.1 + (b.value.1 + c.value.1);
    }
  }

  lemma CombineNothing(a: Result<Found, ContentSearchError>)
    ensures Combine(a, Success(Nothing)) == a
    ensures Combine(Success(Nothing), a) == a
  {
    if a.Success? {
      assert a.value.0 + [] == a.value.0 && a.value.1 + [] == a.value.1;
      assert [] + a.value.0 == a.value.0 && [] + a.value.1 == a.value.1;
    }
  }

  lemma {:induction false} CollectAllAppend(xs: seq<Located>, ys: seq<Located>, q: Query)
    ensures CollectAll(xs + ys, q) == Combine(CollectAll(xs, q), CollectAll(ys, q))
    decreases |xs|
  {
    if |xs| == 0 {
      assert xs + ys == ys;
      CombineNothing(CollectAll(ys, q));
    } else {
      assert (xs + ys)[1..] == xs[1..] + ys;
      CollectAllAppend(xs[1..], ys, q);
      CombineAssociative(Own(xs[0], q), CollectAll(xs[1..], q), CollectAll(ys, q));
    }
  }

  /** The recursive walk is exactly the entry-by-entry classification of the
      flattened tree: same first error, same results in the same order. */
  lemma {:induction false} WalkIsEntryByEntry(dirs: seq<string>, nodes: seq<Node>, q: Query)
    ensures VisitEntries(dirs, nodes, q) == CollectAll(Flatten(dirs, nodes), q)
    decreases nodes
  {
    if |nodes| > 0 {
      WalkIsEntryByEntryNode(dirs, nodes[0], q);
      WalkIsEntryByEntry(dirs, nodes[1..], q);
      CollectAllAppend(FlattenNode(dirs, nodes[0]), Flatten(dirs, nodes[1..]), q);
    }
  }

  lemma {:induction false} WalkIsEntryByEntryNode(dirs: seq<string>, node: Node, q: Query)
    ensures VisitNode(dirs, node, q) == CollectAll(FlattenNode(dirs, node), q)
    decreases node
  {
    var here := Located(dirs, node);
    assert CollectAll([here], q) == Combine(Own(here, q), Success(Nothing));
    CombineNothing(Own(here, q));
    match node {
      case Dir(name, Entries(children)) =>
        WalkIsEntryByEntry(dirs + [name], children, q);
        CollectAllAppend(Flatten(dirs + [name], children), [here], q);
      case _ =>
    }
  }

  // ---------------------------------------------------------------------
  // Properties of the classification.

  /** A file without the page extension contributes nothing, readable or not. */
  lemma NonPageIsSkipped(dirs: seq<string>, name: string, body: Body, q: Query)
    requires !EndsWith(name, q.pageExt)
    ensures VisitNode(dirs, File(name, body), q) == Success(Nothing)
  {
  }

  /** A page whose (ASCII-lowercased, when ignoring case) name contains the
      query is one exact result without a fragment, and its body is never
      read: the outcome is the same even if it cannot be opened. */
  lemma MatchingNameIsExact(dirs: seq<string>, name: string, body: Body, q: Query)
    requires EndsWith(name, q.pageExt)
    requires Contains(if q.caseInsensitive then AsciiLowercase(name) else name, q.text)
    ensures VisitNode(dirs, File(name, body), q) == Success(([ExactResult(Item(dirs, name), None)], []))
    ensures VisitNode(dirs, File(name, body), q) == VisitNode(dirs, File(name, Unopenable), q)
  {
  }

  /** Any other page is scanned: it becomes a vague result exactly when some
      line contains the query, and an unopenable one aborts the search. */
  lemma OtherPageIsScanned(dirs: seq<string>, name: string, lines: seq<string>, q: Query)
    requires EndsWith(name, q.pageExt)
    requires !Contains(if q.caseInsensitive then AsciiLowercase(name) else name, q.text)
    ensures VisitNode(dirs, File(name, Unopenable), q) == Failure(OpenError(Join(dirs + [name], "/")))
    ensures var contexts := ScanLines(lines, q);
      VisitNode(dirs, File(name, Lines(lines)), q)
        == Success(([], if |contexts| == 0 then [] else [VagueResult(Item(dirs, name), contexts)]))
  {
  }

  /** Scanning reads lines in order: the contexts of a concatenation are the
      contexts of the first part followed by those of the second. */
  lemma {:induction false} ScanIsInReadOrder(a: seq<string>, b: seq<string>, q: Query)
    requires forall k :: 0 <= k < |a| ==> |a[k]| > 0
    ensures ScanLines(a + b, q) == ScanLines(a, q) + ScanLines(b, q)
    decreases |a|
  {
    if |a| == 0 {
      assert a + b == b;
    } else {
      var ab := a + b;
      assert ab[0] == a[0] && |ab[0]| > 0;
      assert ab[1..] == a[1..] + b;
      var head := LineContribution(a[0], q);
      var restA, restB := ScanLines(a[1..], q), ScanLines(b, q);
      ScanIsInReadOrder(a[1..], b, q);
      calc {
        ScanLines(ab, q);
        head + ScanLines(a[1..] + b, q);
        head + (restA + restB);
        { assert head + (restA + restB) == (head + restA) + restB; }
        (head + restA) + restB;
      }
    }
  }

  /** A single line contributes its context exactly when its working copy
      contains the query. */
  lemma ScanOneLine(line: string, q: Query)
    requires |line| > 0
    ensures Contains(DisplayLine(line, q), q.text) ==> ScanLines([line], q) == [LineContext(line, q).value]
    ensures !Contains(DisplayLine(line, q), q.text) ==> ScanLines([line], q) == []
  {
  }

  /** A failing subdirectory aborts the whole search: there is no partial
      result. */
  lemma FailingSubdirectoryAborts(dirs: seq<string>, name: string, q: Query)
    ensures VisitNode(dirs, Dir(name, Unlistable), q) == Failure(ReadDirError(Join(dirs + [name], "/")))
  {
  }
}
