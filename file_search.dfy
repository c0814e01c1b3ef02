/** A model of the traversal engine and the word filter of files_containing_word
    (src/file_search.rs).

    The operating system is replaced by a finite tree: a `Located` pairs a path with
    the `Node` that the filesystem holds at that path, and every filesystem call of
    the source (`metadata`, `read_dir`, `DirEntry::path`, `read_to_string`) becomes a
    field of that tree. */
module FileSearch {

  datatype Option<T> = None | Some(value: T)

  /** The `std::io::ErrorKind` values that the walk distinguishes. */
  datatype ErrorKind = NotFound | PermissionDenied | InvalidInput | InvalidData | Other

  /** An I/O error: its kind and the text it displays. */
  datatype IoError = IoError(kind: ErrorKind, message: string)

  /** A path: `text` is what `Path::display` shows, `unicode` says whether
      `Path::to_str` succeeds (a path that is not valid Unicode cannot be turned
      into a string, only displayed lossily). */
  datatype Path = Path(text: string, unicode: bool)

  /** The conversion of a string into a path (`String::into`). */
  function PathFrom(s: string): Path
  {
    Path(s, true)
  }

  /** The placeholder path paired with errors that a directory listing reports
      for one of its entries, where no path is available. */
  const UNKNOWN_PATH: Path := PathFrom("Unknown path")

  /** The message of the error returned when the root is not a directory. */
  const NON_DIR_ERROR_MSG: string := "path doesn't identify an accessible directory"

  /** An I/O error together with the path it concerns. */
  datatype ErrorWithPath = ErrorWithPath(error: IoError, path: Path)

  /** How an `ErrorWithPath` is displayed: the path, a colon and a space, the error. */
  function Display(e: ErrorWithPath): (s: string)
    ensures |s| == |e.path.text| + 2 + |e.error.message|
    ensures s[..|e.path.text|] == e.path.text
    ensures s[|e.path.text|..|e.path.text| + 2] == ": "
    ensures s[|e.path.text| + 2..] == e.error.message
  {
    e.path.text + ": " + e.error.message
  }

  /** Every filesystem access can fail, so every outcome is a success value or an
      error bound to a path. */
  datatype Result<T> = Ok(value: T) | Err(error: ErrorWithPath)

  /** What `read_to_string` returns for a regular file: its text, or the error
      (permission denied, contents that are not valid UTF-8, ...). */
  datatype ReadResult = Contents(text: string) | ReadError(error: IoError)

  /** What the filesystem holds at a path.
      - `File`: the metadata says regular file; `read` is what reading it yields.
      - `Dir`: the metadata says directory and listing it succeeds.
      - `UnreadableDir`: the metadata says directory, but listing it fails.
      - `MetadataError`: querying the metadata fails (for example the path does not exist).
      A path that is neither a file nor a directory cannot be expressed. */
  datatype Node =
    | File(read: ReadResult)
    | Dir(entries: seq<Entry>)
    | UnreadableDir(error: IoError)
    | MetadataError(error: IoError)

  /** One item of a directory listing: an entry with its path and node, or an
      error reported by the listing in place of an entry. */
  datatype Entry = Entry(path: Path, node: Node) | EntryError(error: IoError)

  /** A path together with what the filesystem holds there. */
  datatype Located = Located(path: Path, node: Node)

  // Sizes of trees, used as termination measures.

  function NodeSize(n: Node): nat
    decreases n
  {
    match n
    case Dir(es) => 1 + EntriesSize(es)
    case _ => 1
  }

  function EntriesSize(es: seq<Entry>): (n: nat)
    decreases es
    ensures es != [] ==> n == EntrySize(es[0]) + EntriesSize(es[1..])
  {
    if es == [] then 0 else EntrySize(es[0]) + EntriesSize(es[1..])
  }

  function EntrySize(e: Entry): (n: nat)
    decreases e
    ensures n >= 1
    ensures e.Entry? ==> n > NodeSize(e.node)
  {
    match e
    case Entry(_, n) => 1 + NodeSize(n)
    case EntryError(_) => 1
  }

  function InputSize(input: Result<Located>): nat
  {
    match input
    case Ok(loc) => NodeSize(loc.node)
    case Err(_) => 0
  }

  /** `Path::is_dir`: the metadata can be read and says directory. */
  predicate IsDir(n: Node)
    ensures IsDir(n) <==> !n.File? && !n.MetadataError?
  {
    n.Dir? || n.UnreadableDir?
  }

  /** Every success outcome names a regular file. */
  predicate AllFiles(rs: seq<Result<Located>>)
  {
    forall r <- rs :: r.Ok? ==> r.value.node.File?
  }

  /** The base case of the recursion: a one-element list. */
  function WrapIntoVec<T>(t: T): (r: seq<T>)
    ensures |r| == 1 && r[0] == t
  {
    [t]
  }

  /** The input handed to the traversal for one item of a listing: the entry's
      path, or the listing's error paired with the placeholder path. */
  function EntryInput(e: Entry): (r: Result<Located>)
    ensures e.EntryError? ==> r == Err(ErrorWithPath(e.error, UNKNOWN_PATH))
    ensures e.Entry? ==> r.Ok? && r.value.path == e.path && r.value.node == e.node
    ensures InputSize(r) < EntrySize(e)
  {
    match e
    case Entry(path, node) => Ok(Located(path, node))
    case EntryError(err) => Err(ErrorWithPath(err, UNKNOWN_PATH))
  }

  /** The traversal engine: the outcomes of walking `input` depth first.
      An error input is passed on as it is; a regular file is one success; a
      failing metadata query or listing is one error paired with the path
      concerned; a listable directory contributes the outcomes of its entries. */
  function FilesAtPath(input: Result<Located>): (r: seq<Result<Located>>)
    decreases InputSize(input), 1
    ensures AllFiles(r)
    ensures input.Err? ==> r == [input]
    ensures input.Ok? && input.value.node.File? ==> r == [input]
    ensures input.Ok? && (input.value.node.MetadataError? || input.value.node.UnreadableDir?) ==>
              r == [Err(ErrorWithPath(input.value.node.error, input.value.path))]
    ensures input.Ok? && input.value.node == Dir([]) ==> r == []
  {
    match input
    case Ok(loc) =>
      (match loc.node
       case MetadataError(e) => WrapIntoVec(Err(ErrorWithPath(e, loc.path)))
       case Dir(es) => FilesOfEntries(es)
       case UnreadableDir(e) => WrapIntoVec(Err(ErrorWithPath(e, loc.path)))
       case File(_) => WrapIntoVec(Ok(loc)))
    case Err(e) => WrapIntoVec(Err(e))
  }

  /** The outcomes of the items of one listing, concatenated in listing order. */
  function FilesOfEntries(es: seq<Entry>): (r: seq<Result<Located>>)
    decreases EntriesSize(es), 0
    ensures AllFiles(r)
  {
    if es == [] then []
    else FilesAtPath(EntryInput(es[0])) + FilesOfEntries(es[1..])
  }

  // Substring search (`str::find`).

  /** `w` occurs in `s` at offset `i`. */
  predicate OccursAt(s: string, w: string, i: nat)
  {
    i + |w| <= |s| && s[i..i + |w|] == w
  }

  /** The first offset at or after `i` where `w` occurs in `s`. */
  function FindFrom(s: string, w: string, i: nat): (r: Option<nat>)
    requires i <= |s|
    decreases |s| - i
    ensures r.Some? ==> i <= r.value && OccursAt(s, w, r.value)
    ensures r.Some? ==> forall j :: i <= j < r.value ==> !OccursAt(s, w, j)
    ensures r.None? ==> forall j :: i <= j ==> !OccursAt(s, w, j)
  {
    if i + |w| > |s| then None
    else if s[i..i + |w|] == w then Some(i)
    else FindFrom(s, w, i + 1)
  }

  /** `s.find(w)`: the first offset where `w` occurs in `s`, if any. The offset
      counts characters, where `str::find` counts bytes; the filter only asks
      whether there is one, which is the same for both. */
  function Find(s: string, w: string): (r: Option<nat>)
    ensures r.Some? <==> exists i :: OccursAt(s, w, i)
    ensures r.Some? ==> OccursAt(s, w, r.value) && forall j :: 0 <= j < r.value ==> !OccursAt(s, w, j)
    ensures w == [] ==> r == Some(0)
  {
    FindFrom(s, w, 0)
  }

  // The word filter.

  /** What the filter does with one outcome of the traversal: an error passes,
      an unreadable file becomes an error bound to its path, a readable file is
      kept exactly when its text contains `word`. */
  function KeepIfContains(r: Result<Located>, word: string): (o: Option<Result<Path>>)
    requires r.Ok? ==> r.value.node.File?
    ensures r.Err? ==> o == Some(Err(r.error))
    ensures r.Ok? && r.value.node.read.ReadError? ==>
              o == Some(Err(ErrorWithPath(r.value.node.read.error, r.value.path)))
    ensures r.Ok? && r.value.node.read.Contents? ==>
              (o.Some? <==> exists i :: OccursAt(r.value.node.read.text, word, i))
    ensures r.Ok? && r.value.node.read.Contents? && o.Some? ==> o.value == Ok(r.value.path)
  {
    match r
    case Ok(file) =>
      (match file.node.read
       case Contents(text) => if Find(text, word).None? then None else Some(Ok(file.path))
       case ReadError(e) => Some(Err(ErrorWithPath(e, file.path))))
    case Err(e) => Some(Err(e))
  }

  /** The filter applied to every outcome, keeping the order. */
  function FilterResults(rs: seq<Result<Located>>, word: string): (r: seq<Result<Path>>)
    requires AllFiles(rs)
    ensures |r| <= |rs|
  {
    if rs == [] then []
    else
      var head := match KeepIfContains(rs[0], word) case Some(x) => [x] case None => [];
      head + FilterResults(rs[1..], word)
  }

  /** The word filter: the files under the directory `dir` whose text contains
      `word`, and every error met on the way. A root that is not a directory
      yields only the invalid-input error. */
  function FilesContainingWord(dir: Located, word: string): (r: seq<Result<Path>>)
    ensures !IsDir(dir.node) ==>
              r == [Err(ErrorWithPath(IoError(InvalidInput, NON_DIR_ERROR_MSG), dir.path))]
    ensures IsDir(dir.node) ==> |r| <= |FilesAtPath(Ok(dir))|
  {
    var pathResult :=
      if IsDir(dir.node) then Ok(dir)
      else Err(ErrorWithPath(IoError(InvalidInput, NON_DIR_ERROR_MSG), dir.path));
    FilterResults(FilesAtPath(pathResult), word)
  }

  // Counting outcomes.

  function OkCount<T>(rs: seq<Result<T>>): (n: nat)
    ensures n <= |rs|
  {
    if rs == [] then 0 else (if rs[0].Ok? then 1 else 0) + OkCount(rs[1..])
  }

  function ErrCount<T>(rs: seq<Result<T>>): (n: nat)
    ensures n + OkCount(rs) == |rs|
  {
    if rs == [] then 0 else (if rs[0].Err? then 1 else 0) + ErrCount(rs[1..])
  }

  /** The values of the successes among the outcomes, in order. */
  function Successes<T(!new)>(rs: seq<Result<T>>): (vs: seq<T>)
    ensures |vs| == OkCount(rs)
    ensures forall v :: v in vs <==> Ok(v) in rs
  {
    if rs == [] then []
    else (if rs[0].Ok? then [rs[0].value] else []) + Successes(rs[1..])
  }

  /** The errors among the outcomes, in order. */
  function Errors<T>(rs: seq<Result<T>>): (es: seq<ErrorWithPath>)
    ensures |es| == ErrCount(rs)
  {
    if rs == [] then []
    else (if rs[0].Err? then [rs[0].error] else []) + Errors(rs[1..])
  }
}
