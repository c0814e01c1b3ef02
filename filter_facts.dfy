/** Properties of the word filter `FileSearch.FilterResults` and of the whole
    search `FileSearch.FilesContainingWord`. */
module FilterFacts {
  import opened FileSearch
  import opened TraversalFacts

  /** `a` is `b` with some elements left out, the rest in the same order. */
  ghost predicate IsSubsequence<T>(a: seq<T>, b: seq<T>)
    decreases |b|
  {
    a == [] || (b != [] && ((a[0] == b[0] && IsSubsequence(a[1..], b[1..])) || IsSubsequence(a, b[1..])))
  }

  /** The file at `f` can be read and its text contains `word`. */
  ghost predicate ContainsWord(f: Located, word: string)
  {
    f.node.File? && f.node.read.Contents? && exists i :: OccursAt(f.node.read.text, word, i)
  }

  /** The error the filter reports for the file at `f` when reading it fails. */
  ghost predicate ReadFailure(f: Located, e: ErrorWithPath)
  {
    f.node.File? && f.node.read.ReadError? && e == ErrorWithPath(f.node.read.error, f.path)
  }

  // The outcome list with one more outcome in front.

  lemma ConsCounts<T>(x: Result<T>, rs: seq<Result<T>>)
    ensures OkCount([x] + rs) == (if x.Ok? then 1 else 0) + OkCount(rs)
    ensures ErrCount([x] + rs) == (if x.Err? then 1 else 0) + ErrCount(rs)
    ensures Errors([x] + rs) == (if x.Err? then [x.error] else []) + Errors(rs)
  {
  }

  /** Filtering the first outcome and then the rest. */
  lemma FilterUnfold(rs: seq<Result<Located>>, word: string)
    requires AllFiles(rs) && rs != []
    ensures rs[0] in rs
    ensures FilterResults(rs, word) ==
              (match KeepIfContains(rs[0], word) case Some(x) => [x] case None => []) + FilterResults(rs[1..], word)
  {
  }

  /** Joining two outcome lists whose successes are files gives such a list. */
  lemma AllFilesAppend(a: seq<Result<Located>>, b: seq<Result<Located>>)
    requires AllFiles(a) && AllFiles(b)
    ensures AllFiles(a + b)
  {
    assert forall r <- a + b :: r in a || r in b;
  }

  /** The filter keeps the order: filtering a concatenation concatenates the
      filtered parts. */
  lemma {:induction false} FilterAppend(a: seq<Result<Located>>, b: seq<Result<Located>>, word: string)
    requires AllFiles(a) && AllFiles(b)
    ensures AllFiles(a + b)
    ensures FilterResults(a + b, word) == FilterResults(a, word) + FilterResults(b, word)
  {
    AllFilesAppend(a, b);
    if a == [] {
      assert a + b == b;
    } else {
      var rest := a[1..];
      assert (a + b)[0] == a[0];
      assert (a + b)[1..] == rest + b;
      assert forall r <- rest :: r in a;
      FilterAppend(rest, b, word);
      FilterUnfold(a, word);
      FilterUnfold(a + b, word);
      var head := match KeepIfContains(a[0], word) case Some(x) => [x] case None => [];
      calc {
        FilterResults(a + b, word);
        head + FilterResults(rest + b, word);
        head + (FilterResults(rest, word) + FilterResults(b, word));
        (head + FilterResults(rest, word)) + FilterResults(b, word);
        FilterResults(a, word) + FilterResults(b, word);
      }
    }
  }

  /** How many outcomes of each kind the filter produces: every error passes,
      every unreadable file becomes an error, and only readable files can be
      dropped; with the empty word none is dropped. */
  lemma {:induction false} FilterCounts(rs: seq<Result<Located>>, word: string)
    requires AllFiles(rs)
    ensures ErrCount(FilterResults(rs, word)) == ResultsCount(rs, Failure) + ResultsCount(rs, UnreadableFile)
    ensures OkCount(FilterResults(rs, word)) <= ResultsCount(rs, ReadableFile)
    ensures word == [] ==> OkCount(FilterResults(rs, word)) == ResultsCount(rs, ReadableFile)
    ensures word == [] ==> |FilterResults(rs, word)| == |rs|
  {
    if rs != [] {
      var rest := rs[1..];
      assert forall r <- rest :: r in rs;
      FilterUnfold(rs, word);
      FilterCounts(rest, word);
      if rs[0].Ok? && rs[0].value.node.read.Contents? {
        assert word == [] ==> OccursAt(rs[0].value.node.read.text, word, 0);
      }
      match KeepIfContains(rs[0], word)
      case Some(x) =>
        ConsCounts(x, FilterResults(rest, word));
      case None =>
        assert FilterResults(rs, word) == FilterResults(rest, word);
    }
  }

  /** Exactly the readable files containing the word are kept, and the errors
      are exactly those of the traversal plus one per unreadable file. */
  lemma {:induction false} FilterMembership(rs: seq<Result<Located>>, word: string, p: Path, e: ErrorWithPath)
    requires AllFiles(rs)
    ensures Ok(p) in FilterResults(rs, word) <==> exists f :: Ok(f) in rs && f.path == p && ContainsWord(f, word)
    ensures Err(e) in FilterResults(rs, word) <==> Err(e) in rs || exists f :: Ok(f) in rs && ReadFailure(f, e)
  {
    if rs != [] {
      var rest := rs[1..];
      assert rs == [rs[0]] + rest;
      assert forall r <- rest :: r in rs;
      FilterUnfold(rs, word);
      FilterMembership(rest, word, p, e);
      assert forall f :: Ok(f) in rs <==> Ok(f) == rs[0] || Ok(f) in rest;
      if rs[0].Ok? {
        var f0 := rs[0].value;
        if Ok(p) in FilterResults(rs, word) && !(Ok(p) in FilterResults(rest, word)) {
          assert Ok(f0) in rs && f0.path == p && ContainsWord(f0, word);
        }
        if Err(e) in FilterResults(rs, word) && !(Err(e) in FilterResults(rest, word)) {
          assert Ok(f0) in rs && ReadFailure(f0, e);
        }
      }
    }
  }

  /** The errors of the traversal reach the output unchanged and in order; when
      no file fails to be read they are the output's only errors. */
  lemma {:induction false} FilterKeepsErrorsInOrder(rs: seq<Result<Located>>, word: string)
    requires AllFiles(rs)
    ensures IsSubsequence(Errors(rs), Errors(FilterResults(rs, word)))
    ensures ResultsCount(rs, UnreadableFile) == 0 ==> Errors(FilterResults(rs, word)) == Errors(rs)
  {
    if rs != [] {
      var rest := rs[1..];
      assert forall r <- rest :: r in rs;
      assert rs == [rs[0]] + rest;
      FilterUnfold(rs, word);
      FilterKeepsErrorsInOrder(rest, word);
      ConsCounts(rs[0], rest);
      var a, b := Errors(rest), Errors(FilterResults(rest, word));
      match KeepIfContains(rs[0], word)
      case None =>
        assert FilterResults(rs, word) == FilterResults(rest, word);
        assert Errors(rs) == a;
      case Some(x) =>
        assert FilterResults(rs, word) == [x] + FilterResults(rest, word);
        ConsCounts(x, FilterResults(rest, word));
        if rs[0].Err? {
          var e := rs[0].error;
          assert ([e] + a)[0] == e && ([e] + a)[1..] == a;
          assert ([e] + b)[0] == e && ([e] + b)[1..] == b;
          assert IsSubsequence([e] + a, [e] + b);
        } else if x.Err? {
          assert Errors(rs) == a;
          assert Errors(FilterResults(rs, word)) == [x.error] + b;
          assert ([x.error] + b)[1..] == b;
          assert IsSubsequence(a, [x.error] + b);
          assert Reports(rs[0], UnreadableFile);
        } else {
          assert Errors(FilterResults(rs, word)) == b;
          assert Errors(rs) == a;
        }
    }
  }

  // The whole search.

  /** A directory root: the errors are the failures of the tree plus one per
      unreadable file, no more successes than readable files, and with the
      empty word every readable file is reported. */
  lemma WordSearchCounts(root: Located, word: string)
    requires IsDir(root.node)
    ensures ErrCount(FilesContainingWord(root, word)) == NodeCount(root.node, Failure) + NodeCount(root.node, UnreadableFile)
    ensures OkCount(FilesContainingWord(root, word)) <= NodeCount(root.node, ReadableFile)
    ensures word == [] ==> OkCount(FilesContainingWord(root, word)) == NodeCount(root.node, ReadableFile)
    ensures word == [] ==> |FilesContainingWord(root, word)| == TerminalCount(root.node)
  {
    var walked := FilesAtPath(Ok(root));
    TraversalCountsKind(root, ReadableFile);
    TraversalCountsKind(root, UnreadableFile);
    TraversalCountsKind(root, Failure);
    TraversalCounts(root);
    FilterCounts(walked, word);
  }

  /** A directory root: a path is reported as found exactly when it is a
      readable regular file reachable from the root whose text contains the word. */
  lemma WordSearchFinds(root: Located, word: string, p: Path)
    requires IsDir(root.node)
    ensures Ok(p) in FilesContainingWord(root, word) <==>
              exists f :: Reaches(root, f) && f.path == p && ContainsWord(f, word)
  {
    var walked := FilesAtPath(Ok(root));
    FilterMembership(walked, word, p, ErrorWithPath(IoError(Other, ""), p));
    forall f ensures Ok(f) in walked <==> f.node.File? && Reaches(root, f) {
      FoundIffReachableFile(root, f);
    }
  }

  /** A directory listing three regular files yields the three files, in order. */
  lemma ThreeFiles(p: Path, a: Located, b: Located, c: Located)
    requires a.node.File? && b.node.File? && c.node.File?
    ensures FilesAtPath(Ok(Located(p, Dir([Entry(a.path, a.node), Entry(b.path, b.node), Entry(c.path, c.node)]))))
         == [Ok(a), Ok(b), Ok(c)]
  {
    var es := [Entry(a.path, a.node), Entry(b.path, b.node), Entry(c.path, c.node)];
    assert FilesOfEntries(es[2..]) == [Ok(c)] + FilesOfEntries([]);
    assert FilesOfEntries(es[1..]) == [Ok(b)] + FilesOfEntries(es[2..]);
    assert FilesOfEntries(es) == [Ok(a)] + FilesOfEntries(es[1..]);
  }

  /** A directory listing a file whose text contains the word, a file whose text
      does not and a file that cannot be read: the search reports the first file
      and the read error of the third, and nothing for the second. */
  lemma OneMatchOneUnreadable(d: Path, pa: Path, pb: Path, pc: Path, ta: string, tb: string, err: IoError, word: string)
    requires exists i :: OccursAt(ta, word, i)
    requires forall i :: !OccursAt(tb, word, i)
    ensures FilesContainingWord(Located(d, Dir([Entry(pa, File(Contents(ta))), Entry(pb, File(Contents(tb))), Entry(pc, File(ReadError(err)))])), word)
         == [Ok(pa), Err(ErrorWithPath(err, pc))]
  {
    var a, b, c := Located(pa, File(Contents(ta))), Located(pb, File(Contents(tb))), Located(pc, File(ReadError(err)));
    ThreeFiles(d, a, b, c);
    var walked := [Ok(a), Ok(b), Ok(c)];
    FilterUnfold(walked, word);
    FilterUnfold(walked[1..], word);
    FilterUnfold(walked[2..], word);
    assert walked[1..][1..] == walked[2..];
    assert walked[2..][1..] == [];
  }

  /** A directory holding `a.txt` (which contains the word), `b.txt` (which does
      not) and an unreadable `c`: the search reports `a.txt` and the error
      reading `c`, and says nothing about `b.txt`. */
  lemma ScenarioOneMatchOneUnreadable()
    ensures
      var denied := IoError(PermissionDenied, "Permission denied (os error 13)");
      var d := Located(PathFrom("D"), Dir([
                 Entry(PathFrom("D/a.txt"), File(Contents("target"))),
                 Entry(PathFrom("D/b.txt"), File(Contents("none"))),
                 Entry(PathFrom("D/c"), File(ReadError(denied)))]));
      FilesContainingWord(d, "target") == [Ok(PathFrom("D/a.txt")), Err(ErrorWithPath(denied, PathFrom("D/c")))]
  {
    assert OccursAt("target", "target", 0);
    OneMatchOneUnreadable(PathFrom("D"), PathFrom("D/a.txt"), PathFrom("D/b.txt"), PathFrom("D/c"), "target", "none",
                          IoError(PermissionDenied, "Permission denied (os error 13)"), "target");
  }
}
