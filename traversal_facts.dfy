/** Properties of the traversal engine `FileSearch.FilesAtPath`, stated against
    definitions on the filesystem tree itself: how many leaves and failure points
    a tree has, which locations are reachable from a root, and which failures
    are met there. */
module TraversalFacts {
  import opened FileSearch

  /** The kinds of terminal point a walk can meet: a regular file that can be
      read, a regular file that cannot, and a failure (a failing metadata query
      or listing, or an error reported by a listing). */
  datatype Terminal = ReadableFile | UnreadableFile | Failure

  // Counting on the tree.

  /** The number of terminal points of kind `t` in the tree below `n`. */
  function NodeCount(n: Node, t: Terminal): nat
    decreases NodeSize(n), 1
  {
    match n
    case File(read) =>
      if t == (if read.Contents? then ReadableFile else UnreadableFile) then 1 else 0
    case Dir(es) => EntriesCount(es, t)
    case UnreadableDir(_) => if t == Failure then 1 else 0
    case MetadataError(_) => if t == Failure then 1 else 0
  }

  function EntriesCount(es: seq<Entry>, t: Terminal): nat
    decreases EntriesSize(es), 0
  {
    if es == [] then 0
    else
      var first := match es[0] case Entry(_, n) => NodeCount(n, t) case EntryError(_) => if t == Failure then 1 else 0;
      first + EntriesCount(es[1..], t)
  }

  /** All terminal points of the tree below `n`. */
  function TerminalCount(n: Node): nat
  {
    NodeCount(n, ReadableFile) + NodeCount(n, UnreadableFile) + NodeCount(n, Failure)
  }

  // Counting on a list of outcomes.

  /** The outcome `r` reports a terminal point of kind `t`. */
  predicate Reports(r: Result<Located>, t: Terminal)
  {
    match t
    case Failure => r.Err?
    case ReadableFile => r.Ok? && r.value.node.File? && r.value.node.read.Contents?
    case UnreadableFile => r.Ok? && r.value.node.File? && r.value.node.read.ReadError?
  }

  function ResultsCount(rs: seq<Result<Located>>, t: Terminal): nat
  {
    if rs == [] then 0 else (if Reports(rs[0], t) then 1 else 0) + ResultsCount(rs[1..], t)
  }

  lemma {:induction false} ResultsCountAppend(a: seq<Result<Located>>, b: seq<Result<Located>>, t: Terminal)
    ensures ResultsCount(a + b, t) == ResultsCount(a, t) + ResultsCount(b, t)
  {
    if a == [] {
      assert a + b == b;
    } else {
      assert (a + b)[0] == a[0];
      assert (a + b)[1..] == a[1..] + b;
      ResultsCountAppend(a[1..], b, t);
    }
  }

  /** In a list whose successes are all files, every outcome reports exactly one
      terminal point: the successes are the files, the errors the failures. */
  lemma {:induction false} ResultsCountPartition(rs: seq<Result<Located>>)
    requires AllFiles(rs)
    ensures OkCount(rs) == ResultsCount(rs, ReadableFile) + ResultsCount(rs, UnreadableFile)
    ensures ErrCount(rs) == ResultsCount(rs, Failure)
  {
    if rs != [] {
      assert rs[0] in rs;
      assert forall r <- rs[1..] :: r in rs;
      ResultsCountPartition(rs[1..]);
    }
  }

  /** The traversal reports each terminal point of the tree exactly once. */
  lemma {:induction false} TraversalCountsKind(loc: Located, t: Terminal)
    decreases NodeSize(loc.node), 1
    ensures ResultsCount(FilesAtPath(Ok(loc)), t) == NodeCount(loc.node, t)
  {
    match loc.node
    case Dir(es) => EntriesCountMatches(es, t);
    case File(_) => assert FilesAtPath(Ok(loc))[1..] == [];
    case UnreadableDir(_) => assert FilesAtPath(Ok(loc))[1..] == [];
    case MetadataError(_) => assert FilesAtPath(Ok(loc))[1..] == [];
  }

  lemma {:induction false} EntriesCountMatches(es: seq<Entry>, t: Terminal)
    decreases EntriesSize(es), 0
    ensures ResultsCount(FilesOfEntries(es), t) == EntriesCount(es, t)
  {
    if es != [] {
      var head := FilesAtPath(EntryInput(es[0]));
      ResultsCountAppend(head, FilesOfEntries(es[1..]), t);
      if es[0].Entry? {
        TraversalCountsKind(Located(es[0].path, es[0].node), t);
      } else {
        assert head[1..] == [];
      }
      EntriesCountMatches(es[1..], t);
    }
  }

  /** Every outcome is a file leaf or a failure point of the tree: the successes
      are the files, the errors are the failures, and nothing else is reported. */
  lemma TraversalCounts(loc: Located)
    ensures OkCount(FilesAtPath(Ok(loc))) == NodeCount(loc.node, ReadableFile) + NodeCount(loc.node, UnreadableFile)
    ensures ErrCount(FilesAtPath(Ok(loc))) == NodeCount(loc.node, Failure)
    ensures |FilesAtPath(Ok(loc))| == TerminalCount(loc.node)
  {
    TraversalCountsKind(loc, ReadableFile);
    TraversalCountsKind(loc, UnreadableFile);
    TraversalCountsKind(loc, Failure);
    ResultsCountPartition(FilesAtPath(Ok(loc)));
  }

  // Reachability.

  /** `q` is `loc` itself or is listed, directly or further down, in the
      directory at `loc`. */
  ghost predicate Reaches(loc: Located, q: Located)
    decreases NodeSize(loc.node), 1
  {
    loc == q || (loc.node.Dir? && ReachesAmong(loc.node.entries, q))
  }

  ghost predicate ReachesAmong(es: seq<Entry>, q: Located)
    decreases EntriesSize(es), 0
  {
    es != [] &&
    ((es[0].Entry? && Reaches(Located(es[0].path, es[0].node), q)) || ReachesAmong(es[1..], q))
  }

  /** A success outcome names exactly the regular files reachable from the root. */
  lemma {:induction false} FoundIffReachableFile(loc: Located, q: Located)
    decreases NodeSize(loc.node), 1
    ensures Ok(q) in FilesAtPath(Ok(loc)) <==> q.node.File? && Reaches(loc, q)
  {
    match loc.node
    case Dir(es) => FoundAmongIff(es, q);
    case File(_) =>
    case UnreadableDir(_) =>
    case MetadataError(_) =>
  }

  lemma {:induction false} FoundAmongIff(es: seq<Entry>, q: Located)
    decreases EntriesSize(es), 0
    ensures Ok(q) in FilesOfEntries(es) <==> q.node.File? && ReachesAmong(es, q)
  {
    if es != [] {
      if es[0].Entry? {
        FoundIffReachableFile(Located(es[0].path, es[0].node), q);
      }
      FoundAmongIff(es[1..], q);
    }
  }

  // Failure points.

  /** The failure met at location `q` itself: a failing metadata query or
      listing paired with `q`'s path, or an error in `q`'s listing paired with
      the placeholder path. */
  ghost predicate FailsAt(q: Located, e: ErrorWithPath)
  {
    ((q.node.MetadataError? || q.node.UnreadableDir?) && e == ErrorWithPath(q.node.error, q.path))
    || (q.node.Dir? && e.path == UNKNOWN_PATH && EntryError(e.error) in q.node.entries)
  }

  /** No failure is dropped and none is invented: the error outcomes are exactly
      the failures at locations reachable from the root. */
  lemma {:induction false} ErrorIffReachableFailure(loc: Located, e: ErrorWithPath)
    decreases NodeSize(loc.node), 1
    ensures Err(e) in FilesAtPath(Ok(loc)) <==> exists q :: Reaches(loc, q) && FailsAt(q, e)
  {
    match loc.node
    case Dir(es) =>
      ErrorAmongIff(es, e);
      if Err(e) in FilesAtPath(Ok(loc)) {
        if EntryError(e.error) in es && e.path == UNKNOWN_PATH {
          assert Reaches(loc, loc) && FailsAt(loc, e);
        } else {
          var q :| ReachesAmong(es, q) && FailsAt(q, e);
          assert Reaches(loc, q);
        }
      }
      if exists q :: Reaches(loc, q) && FailsAt(q, e) {
        var q :| Reaches(loc, q) && FailsAt(q, e);
        if q == loc {
          assert EntryError(e.error) in es && e.path == UNKNOWN_PATH;
        } else {
          assert ReachesAmong(es, q);
        }
      }
    case File(_) =>
      forall q | Reaches(loc, q) ensures !FailsAt(q, e) {
        assert q == loc;
      }
    case UnreadableDir(_) =>
      if Err(e) in FilesAtPath(Ok(loc)) {
        assert Reaches(loc, loc) && FailsAt(loc, e);
      }
    case MetadataError(_) =>
      if Err(e) in FilesAtPath(Ok(loc)) {
        assert Reaches(loc, loc) && FailsAt(loc, e);
      }
  }

  lemma {:induction false} ErrorAmongIff(es: seq<Entry>, e: ErrorWithPath)
    decreases EntriesSize(es), 0
    ensures Err(e) in FilesOfEntries(es) <==>
              (exists q :: ReachesAmong(es, q) && FailsAt(q, e))
              || (e.path == UNKNOWN_PATH && EntryError(e.error) in es)
  {
    if es != [] {
      var rest := es[1..];
      assert es == [es[0]] + rest;
      ErrorAmongIff(rest, e);
      match es[0]
      case EntryError(err) =>
        assert forall q :: ReachesAmong(es, q) == ReachesAmong(rest, q);
      case Entry(p, n) =>
        var child := Located(p, n);
        ErrorIffReachableFailure(child, e);
        assert forall q :: ReachesAmong(es, q) == (Reaches(child, q) || ReachesAmong(rest, q));
        assert EntryError(e.error) in es <==> EntryError(e.error) in rest;
    }
  }

  /** Each error a listing reports comes out with the placeholder path, and each
      regular file it lists comes out as found. */
  lemma {:induction false} ListedItemsReported(es: seq<Entry>)
    ensures forall e <- es :: e.EntryError? ==> Err(ErrorWithPath(e.error, UNKNOWN_PATH)) in FilesOfEntries(es)
    ensures forall e <- es :: e.Entry? && e.node.File? ==> Ok(Located(e.path, e.node)) in FilesOfEntries(es)
  {
    if es != [] {
      ListedItemsReported(es[1..]);
      assert forall e <- es :: e == es[0] || e in es[1..];
    }
  }

  // Order.

  /** A listing's outcomes are the outcomes of its parts, in listing order. */
  lemma {:induction false} FilesOfEntriesAppend(a: seq<Entry>, b: seq<Entry>)
    ensures FilesOfEntries(a + b) == FilesOfEntries(a) + FilesOfEntries(b)
  {
    if a == [] {
      assert a + b == b;
    } else {
      var head := FilesAtPath(EntryInput(a[0]));
      assert (a + b)[0] == a[0];
      assert (a + b)[1..] == a[1..] + b;
      FilesOfEntriesAppend(a[1..], b);
      calc {
        FilesOfEntries(a + b);
        head + FilesOfEntries(a[1..] + b);
        head + (FilesOfEntries(a[1..]) + FilesOfEntries(b));
        (head + FilesOfEntries(a[1..])) + FilesOfEntries(b);
        FilesOfEntries(a) + FilesOfEntries(b);
      }
    }
  }

  /** Splitting a directory's listing splits its outcomes: the traversal of a
      directory concatenates its entries' outcomes in listing order. */
  lemma DirectoryConcatenates(p: Path, a: seq<Entry>, b: seq<Entry>)
    ensures FilesAtPath(Ok(Located(p, Dir(a + b))))
         == FilesAtPath(Ok(Located(p, Dir(a)))) + FilesAtPath(Ok(Located(p, Dir(b))))
  {
    FilesOfEntriesAppend(a, b);
  }

  /** The traversal of a directory listing one entry is the traversal of that entry;
      an entry-level error becomes one error with the placeholder path. */
  lemma SingleEntry(p: Path, e: Entry)
    ensures FilesAtPath(Ok(Located(p, Dir([e])))) == FilesAtPath(EntryInput(e))
    ensures e.EntryError? ==>
              FilesAtPath(Ok(Located(p, Dir([e])))) == [Err(ErrorWithPath(e.error, UNKNOWN_PATH))]
  {
    assert [e][1..] == [];
    assert FilesOfEntries([e]) == FilesAtPath(EntryInput(e)) + FilesOfEntries([]);
  }
}
