/** A model of `run` (src/lib.rs): the check of the argument count and the
    formatting of the search's outcomes into the text meant for the standard
    output (the found paths) and the text meant for the standard error (the
    errors). */
module Lib {
  import opened FileSearch

  /** The two texts the program prints; `None` prints nothing. */
  datatype RunResult = RunResult(stdout: Option<string>, stderr: Option<string>)

  const USAGE: string := "Usage: cargo run path_to_dir word_to_search"

  /** What stands for a found path that is not valid Unicode. */
  const UNDISPLAYABLE: string := "can't display this path"

  // Reference definitions: each string followed by a newline, and plain concatenation.

  function Lines(xs: seq<string>): string
  {
    if xs == [] then "" else xs[0] + "\n" + Lines(xs[1..])
  }

  function Concat(xs: seq<string>): string
  {
    if xs == [] then "" else xs[0] + Concat(xs[1..])
  }

  /** The number of occurrences of `c` in `s`. */
  function Occurrences(s: string, c: char): nat
  {
    if s == [] then 0 else (if s[0] == c then 1 else 0) + Occurrences(s[1..], c)
  }

  // The formatting as the source performs it.

  /** `path.to_str().unwrap_or(...)`: the path's text, or the placeholder when
      the path is not valid Unicode. */
  function ShowPath(p: Path): (s: string)
    ensures p.unicode ==> s == p.text
    ensures !p.unicode ==> s == UNDISPLAYABLE
  {
    match ToStr(p)
    case Some(text) => text
    case None => UNDISPLAYABLE
  }

  /** `Path::to_str`: the path as a string, when it is valid Unicode. */
  function ToStr(p: Path): (r: Option<string>)
    ensures r.Some? <==> p.unicode
    ensures r.Some? ==> r.value == p.text
  {
    if p.unicode then Some(p.text) else None
  }

  /** The `filter_map` over the outcomes: the shown path of each success, in order. */
  function FoundTexts(rs: seq<Result<Path>>): (xs: seq<string>)
    ensures |xs| == |Successes(rs)|
    ensures forall k :: 0 <= k < |xs| ==> xs[k] == ShowPath(Successes(rs)[k])
  {
    if rs == [] then []
    else (match rs[0] case Ok(p) => [ShowPath(p)] case Err(_) => []) + FoundTexts(rs[1..])
  }

  /** The `filter_map` over the outcomes: each error displayed and followed by a
      newline, in order. */
  function ErrorLines(rs: seq<Result<Path>>): (xs: seq<string>)
    ensures |xs| == |Errors(rs)|
    ensures forall k :: 0 <= k < |xs| ==> xs[k] == Display(Errors(rs)[k]) + "\n"
  {
    if rs == [] then []
    else (match rs[0] case Ok(_) => [] case Err(e) => [Display(e) + "\n"]) + ErrorLines(rs[1..])
  }

  /** Every found path reaches the standard output, and nothing else does: each
      shown text is the shown form of a success, and each success is shown. */
  lemma FoundTextsMembership(rs: seq<Result<Path>>)
    ensures forall p :: Ok(p) in rs ==> ShowPath(p) in FoundTexts(rs)
    ensures forall x <- FoundTexts(rs) :: exists p :: Ok(p) in rs && x == ShowPath(p)
  {
    forall p | Ok(p) in rs ensures ShowPath(p) in FoundTexts(rs) {
      var k :| 0 <= k < |Successes(rs)| && Successes(rs)[k] == p;
      assert FoundTexts(rs)[k] == ShowPath(p);
    }
    forall x | x in FoundTexts(rs) ensures exists p :: Ok(p) in rs && x == ShowPath(p) {
      var k :| 0 <= k < |FoundTexts(rs)| && FoundTexts(rs)[k] == x;
      assert Successes(rs)[k] in Successes(rs);
    }
  }

  /** `fold(accu, |accu, ele| accu + ele + "\n")`. */
  function FoldLines(accu: string, xs: seq<string>): (r: string)
    decreases xs
    ensures |r| >= |accu| + |xs| && r[..|accu|] == accu
    ensures xs != [] ==> r[|r| - 1] == '\n'
  {
    if xs == [] then accu else FoldLines(accu + xs[0] + "\n", xs[1..])
  }

  /** `reduce(|accu, ele| accu + ele)`: nothing for no strings, otherwise the
      first string with the others appended from left to right. */
  function ReduceConcat(xs: seq<string>): (r: Option<string>)
    ensures r.None? <==> xs == []
    ensures r.Some? ==> |r.value| >= |xs[0]| && r.value[..|xs[0]|] == xs[0]
  {
    if xs == [] then None else Some(FoldConcat(xs[0], xs[1..]))
  }

  /** `accu` with the strings appended from left to right. */
  function FoldConcat(accu: string, xs: seq<string>): (r: string)
    decreases xs
    ensures |r| >= |accu| && r[..|accu|] == accu
  {
    if xs == [] then accu else FoldConcat(accu + xs[0], xs[1..])
  }

  /** The left fold appends the same text as the reference `Lines`. */
  lemma {:induction false} FoldLinesIsLines(accu: string, xs: seq<string>)
    decreases xs
    ensures FoldLines(accu, xs) == accu + Lines(xs)
  {
    if xs != [] {
      FoldLinesIsLines(accu + xs[0] + "\n", xs[1..]);
      assert accu + xs[0] + "\n" + Lines(xs[1..]) == accu + (xs[0] + "\n" + Lines(xs[1..]));
    }
  }

  /** The left fold appends the same text as the reference `Concat`. */
  lemma {:induction false} FoldConcatIsConcat(accu: string, xs: seq<string>)
    decreases xs
    ensures FoldConcat(accu, xs) == accu + Concat(xs)
  {
    if xs != [] {
      FoldConcatIsConcat(accu + xs[0], xs[1..]);
      assert accu + xs[0] + Concat(xs[1..]) == accu + (xs[0] + Concat(xs[1..]));
    }
  }

  /** Reducing gives nothing exactly for no strings, otherwise their concatenation. */
  lemma ReduceIsConcat(xs: seq<string>)
    ensures ReduceConcat(xs).None? <==> xs == []
    ensures xs != [] ==> ReduceConcat(xs) == Some(Concat(xs))
  {
    if xs != [] {
      FoldConcatIsConcat(xs[0], xs[1..]);
    }
  }

  /** Each line of `Lines(xs)` is one of `xs`: when no string holds a newline,
      the text has exactly one newline per string. */
  lemma {:induction false} LinesCount(xs: seq<string>)
    requires forall x <- xs :: '\n' !in x
    ensures Occurrences(Lines(xs), '\n') == |xs|
  {
    if xs != [] {
      assert forall x <- xs[1..] :: x in xs;
      LinesCount(xs[1..]);
      OccurrencesAppend(xs[0], "\n" + Lines(xs[1..]), '\n');
      OccurrencesAppend("\n", Lines(xs[1..]), '\n');
      OccurrencesAbsent(xs[0], '\n');
      assert xs[0] + "\n" + Lines(xs[1..]) == xs[0] + ("\n" + Lines(xs[1..]));
    }
  }

  lemma {:induction false} OccurrencesAppend(a: string, b: string, c: char)
    ensures Occurrences(a + b, c) == Occurrences(a, c) + Occurrences(b, c)
  {
    if a == [] {
      assert a + b == b;
    } else {
      assert (a + b)[0] == a[0];
      assert (a + b)[1..] == a[1..] + b;
      OccurrencesAppend(a[1..], b, c);
    }
  }

  lemma {:induction false} OccurrencesAbsent(s: string, c: char)
    requires c !in s
    ensures Occurrences(s, c) == 0
  {
    if s != [] {
      assert forall x <- s[1..] :: x in s;
      OccurrencesAbsent(s[1..], c);
    }
  }

  /** The outcomes of the search that `run` performs for the arguments. */
  function SearchResults(args: seq<string>, lookup: Path -> Node): (r: seq<Result<Path>>)
    requires |args| == 3
    ensures !IsDir(lookup(PathFrom(args[1]))) ==>
              r == [Err(ErrorWithPath(IoError(InvalidInput, NON_DIR_ERROR_MSG), PathFrom(args[1])))]
    ensures IsDir(lookup(PathFrom(args[1]))) ==>
              |r| <= |FilesAtPath(Ok(Located(PathFrom(args[1]), lookup(PathFrom(args[1])))))|
  {
    var dir := PathFrom(args[1]);
    FilesContainingWord(Located(dir, lookup(dir)), args[2])
  }

  /** `run`: with other than three arguments (the program name, the directory,
      the word), only the usage message on the standard error; otherwise the
      found paths, one per line, on the standard output (possibly empty), and
      the displayed errors, one per line, on the standard error when there are any.
      `lookup` is what the filesystem holds at a path. */
  function Run(args: seq<string>, lookup: Path -> Node): (r: RunResult)
    ensures |args| != 3 ==> r == RunResult(None, Some(USAGE))
    ensures |args| == 3 ==> r.stdout == Some(Lines(FoundTexts(SearchResults(args, lookup))))
    ensures |args| == 3 ==> (r.stderr.None? <==> ErrCount(SearchResults(args, lookup)) == 0)
    ensures |args| == 3 && r.stderr.Some? ==> r.stderr.value == Concat(ErrorLines(SearchResults(args, lookup)))
  {
    if |args| != 3 then RunResult(None, Some(USAGE))
    else
      var results := SearchResults(args, lookup);
      var files := FoldLines("", FoundTexts(results));
      var errors := ReduceConcat(ErrorLines(results));
      FoldLinesIsLines("", FoundTexts(results));
      assert "" + Lines(FoundTexts(results)) == Lines(FoundTexts(results));
      ReduceIsConcat(ErrorLines(results));
      RunResult(Some(files), errors)
  }

  /** When no found path holds a newline, the standard output has one line per
      found path. */
  lemma StdoutLineCount(args: seq<string>, lookup: Path -> Node)
    requires |args| == 3
    requires forall p :: Ok(p) in SearchResults(args, lookup) && p.unicode ==> '\n' !in p.text
    ensures Run(args, lookup).stdout.Some?
    ensures Occurrences(Run(args, lookup).stdout.value, '\n') == OkCount(SearchResults(args, lookup))
  {
    var rs := SearchResults(args, lookup);
    FoundTextsHaveNoNewline(rs);
    LinesCount(FoundTexts(rs));
  }

  /** No shown text holds a newline when no valid-Unicode success does. */
  lemma {:induction false} FoundTextsHaveNoNewline(rs: seq<Result<Path>>)
    requires forall p :: Ok(p) in rs && p.unicode ==> '\n' !in p.text
    ensures forall x <- FoundTexts(rs) :: '\n' !in x
  {
    if rs != [] {
      assert forall r <- rs[1..] :: r in rs;
      FoundTextsHaveNoNewline(rs[1..]);
      assert rs[0] in rs;
      assert '\n' !in UNDISPLAYABLE;
    }
  }
}
