# files_containing_word, modelled in Dafny

files_containing_word walks a directory tree depth first, reads every regular
file as text and reports the files whose text contains a given word. It never
stops at a filesystem error: every failure becomes an error outcome bound to a
path, and the walk goes on. This project models the two core source files:

- `src/file_search.rs`: the traversal engine `files_at_path`, the word filter
  `files_containing_word`, `ErrorWithPath` and how it is displayed
  (module `FileSearch` in `file_search.dfy`; its properties are in
  `traversal_facts.dfy`, module `TraversalFacts`, and `filter_facts.dfy`, module
  `FilterFacts`).
- `src/lib.rs`: `run`, which checks the argument count and turns the outcomes
  into the text for the standard output and the standard error (module `Lib` in
  `lib.dfy`).

The filesystem is a finite tree. A `Located` is a path with the `Node` the
filesystem holds there: `File(read)` (a regular file; `read` is what reading it
as text yields), `Dir(entries)` (a directory that can be listed),
`UnreadableDir(error)` (a directory whose listing fails) or
`MetadataError(error)` (the metadata query fails, for example because the path
does not exist). A listing is a sequence of `Entry(path, node)` items and
`EntryError(error)` items, the latter for errors the listing reports in place of
an entry. An I/O error is a kind and the text it displays. A path is the text it
displays plus a flag saying whether it is valid Unicode (whether `to_str`
succeeds).

The traversal's input and output are `Result<Located>`: an `Ok` carries the
location, so that the word filter can read the file's text from the tree. The
word filter returns `Result<Path>`, as the source does. `run` takes the
argument list as a sequence of strings, and takes `lookup`, what the
filesystem holds at a path, as a parameter.

What is proved, in short:

- the traversal reports every terminal point of the tree exactly once: as many
  successes as regular files, as many errors as failure points (failing
  metadata queries, failing listings, entry-level errors), nothing else;
- a path is reported as found exactly when it is a regular file reachable from
  the root; an error is reported exactly when it is a failure at a reachable
  location, paired with that location's path or, for an entry-level error, with
  the placeholder `Unknown path`;
- a directory's outcomes are the concatenation, in listing order, of its
  entries' outcomes; an error input is passed on unchanged;
- the word filter passes every error through unchanged and in order, turns each
  unreadable file into one error, keeps a readable file exactly when its text
  contains the word and drops it otherwise; with the empty word nothing is dropped;
- a root that is not a directory gives exactly the invalid-input error, whatever
  the word;
- `run` gives only the usage message for other than three arguments; otherwise
  its standard output is every found path followed by a newline, with a
  placeholder for paths that are not valid Unicode, and its standard error is
  absent exactly when there is no error, and otherwise every displayed error
  `<path>: <error>` followed by a newline.

Notes on the source's behaviour:

- A path whose metadata says neither regular file nor directory reaches
  `unreachable!()` (src/file_search.rs:81), which panics. The model makes such a
  node impossible to express.
- Errors that a listing reports in place of an entry are paired with the literal
  path `Unknown path` (src/file_search.rs:63). A real path with that text cannot
  be told apart from it.
- The outcomes come out in depth-first listing order (the `map`, `flatten` and
  `collect` at src/file_search.rs:59-70). The model states this order, not only
  the counts.
- The root check is `is_dir` (src/file_search.rs:23). A directory whose listing
  fails passes it and then yields one listing error bound to the root, not the
  invalid-input error.

## Model

| member | source | states |
|---|---|---|
| `FileSearch.Display` | src/file_search.rs:11-15 | the displayed error is the path's text, then `": "`, then the error's text |
| `FileSearch.WrapIntoVec` | src/file_search.rs:45-47 | the base case builds a one-element list holding its argument |
| `FileSearch.EntryInput` | src/file_search.rs:61-65 | an entry-level error becomes an error paired with the placeholder path `Unknown path`; an entry becomes a path to walk |
| `FileSearch.FilesAtPath` | src/file_search.rs:50-94 | every success names a regular file; an error input comes back as the only outcome, unchanged; a regular file (readable or not) is exactly one success; a failing metadata query or listing is exactly one error paired with that location's own path; an empty directory yields nothing |
| `FileSearch.FilesOfEntries` | src/file_search.rs:59-70 | every success in the outcomes of a listing names a regular file |
| `FileSearch.IsDir` | src/file_search.rs:23 | the root counts as a directory exactly when its metadata can be read and does not say regular file, so a directory whose listing fails passes the check |
| `FileSearch.Find` | src/file_search.rs:30 | the search finds an offset exactly when the word occurs in the text, and that offset (counted in characters) is the first occurrence; the empty word is found at offset 0 |
| `FileSearch.KeepIfContains` | src/file_search.rs:27-37 | an error passes unchanged; an unreadable file becomes its read error paired with its path; a readable file is kept, as a success with its path, exactly when its text contains the word |
| `FileSearch.FilterResults` | src/file_search.rs:26-39 | the filter never lengthens the list |
| `FileSearch.FilesContainingWord` | src/file_search.rs:21-42 | a root that is not a directory gives exactly one error of kind InvalidInput with the fixed message and the root's path, for every word; a directory root gives no more outcomes than its traversal |
| `TraversalFacts.TraversalCountsKind` | src/file_search.rs:50-94 | for each kind of terminal point (readable file, unreadable file, failure), the traversal reports as many as the tree holds |
| `TraversalFacts.EntriesCountMatches` | src/file_search.rs:58-70 | the same count equality for the items of one listing |
| `TraversalFacts.TraversalCounts` | src/file_search.rs:50-94 | the successes are the regular files of the tree, the errors its failure points, and the number of outcomes is their sum |
| `TraversalFacts.FoundIffReachableFile` | src/file_search.rs:50-94 | a location is reported as found exactly when it is a regular file reachable from the root |
| `TraversalFacts.FoundAmongIff` | src/file_search.rs:58-70 | the same characterisation for the items of one listing |
| `TraversalFacts.ErrorIffReachableFailure` | src/file_search.rs:50-94 | an error is reported exactly when it is a failure at a location reachable from the root (its failing metadata query or listing with its path, or an entry-level error with `Unknown path`): none dropped, none invented |
| `TraversalFacts.ErrorAmongIff` | src/file_search.rs:58-70 | the same characterisation for the items of one listing |
| `TraversalFacts.ListedItemsReported` | src/file_search.rs:59-70 | each error a listing reports comes out paired with `Unknown path`, and each regular file it lists comes out as found |
| `TraversalFacts.FilesOfEntriesAppend` | src/file_search.rs:59-70 | the outcomes of a listing split into parts are the parts' outcomes concatenated in order |
| `TraversalFacts.DirectoryConcatenates` | src/file_search.rs:56-71 | a directory's outcomes are its entries' outcomes concatenated in listing order |
| `TraversalFacts.SingleEntry` | src/file_search.rs:59-67 | a directory with one entry yields that entry's outcomes; with one entry-level error, exactly one error paired with `Unknown path` |
| `FilterFacts.FilterAppend` | src/file_search.rs:26-39 | the filter keeps the order: filtering a concatenation concatenates the filtered parts |
| `FilterFacts.FilterCounts` | src/file_search.rs:26-39 | the errors out are the errors in plus one per unreadable file; the successes out are at most the readable files in; with the empty word every readable file stays and the length is unchanged |
| `FilterFacts.FilterMembership` | src/file_search.rs:26-39 | a path is kept exactly when it is a readable file whose text contains the word; an error is produced exactly when it came in or is the read error of a file that came in |
| `FilterFacts.FilterKeepsErrorsInOrder` | src/file_search.rs:34-36 | the incoming errors appear unchanged and in the same order in the output; with no unreadable file they are exactly the output's errors |
| `FilterFacts.WordSearchCounts` | src/file_search.rs:21-40 | for a directory root: errors are the tree's failure points plus its unreadable files; with the empty word every readable file is reported and the outcome count is the number of terminal points |
| `FilterFacts.WordSearchFinds` | src/file_search.rs:21-40 | for a directory root: a path is found exactly when it is a readable regular file reachable from the root whose text contains the word |
| `FilterFacts.ThreeFiles` | src/file_search.rs:56-71 | a directory listing three regular files yields exactly those three, in listing order |
| `FilterFacts.OneMatchOneUnreadable` | src/file_search.rs:21-40 | for any paths, word and error: a directory listing a file containing the word, a file not containing it and an unreadable file yields exactly the first file's path and the third file's read error |
| `FilterFacts.ScenarioOneMatchOneUnreadable` | src/file_search.rs:26-39 | a directory with a matching file, a non-matching file and an unreadable file yields the matching file and the read error, and nothing for the non-matching file |
| `Lib.ToStr` | src/lib.rs:16 | a path converts to a string exactly when it is valid Unicode, and then to its text |
| `Lib.ShowPath` | src/lib.rs:16 | a found path shows as its text, or as `can't display this path` when it is not valid Unicode |
| `Lib.FoundTexts` | src/lib.rs:14-19 | one text per success, in order: the k-th text is the shown form of the k-th successful path (its text, or the placeholder when it is not valid Unicode) |
| `Lib.ErrorLines` | src/lib.rs:22-27 | one line per error, in order: the k-th line is the k-th error displayed as `<path>: <error>` followed by a newline |
| `Lib.FoundTextsMembership` | src/lib.rs:14-19 | every success's shown path is among the texts, and every text is the shown path of some success |
| `Lib.FoldLines` | src/lib.rs:20 | the fold only appends to its accumulator, adds at least one character per string, and ends in a newline when there is any string |
| `Lib.FoldLinesIsLines` | src/lib.rs:20 | the left fold appending each path and a newline builds the same text as the concatenation of the lines |
| `Lib.FoldConcat` | src/lib.rs:28 | the fold only appends to its accumulator |
| `Lib.ReduceConcat` | src/lib.rs:28 | the reduction is absent exactly for no strings, and otherwise starts with the first string |
| `Lib.FoldConcatIsConcat` | src/lib.rs:28 | the left fold appending each string builds their concatenation |
| `Lib.ReduceIsConcat` | src/lib.rs:28 | the reduction is absent exactly for no strings, otherwise their concatenation |
| `Lib.LinesCount` | src/lib.rs:20 | lines without newlines, each followed by one, give exactly one newline per line |
| `Lib.SearchResults` | src/lib.rs:12 | the search of the second argument for the third: a second argument that is not a directory gives exactly the invalid-input error with that path; a directory gives no more outcomes than its traversal |
| `Lib.Run` | src/lib.rs:6-31 | other than three arguments: no standard output, the usage message on the standard error; three: the standard output is always present and is each found path (shown as above) followed by a newline, in order; the standard error is absent exactly when there is no error and otherwise is each displayed error followed by a newline, in order |
| `Lib.StdoutLineCount` | src/lib.rs:14-20 | when no found path contains a newline, the standard output has one newline per found path |

## Left out

- The filesystem calls `is_dir`, `metadata`, `read_dir`, `DirEntry::path` and `read_to_string` are OS I/O; they are replaced by the tree and its fields (the entry path, the read result).
- Symbolic links are not modelled: a link to a directory is a `Dir` node, a broken link a `MetadataError` node; the symlink test therefore has no counterpart.
- FileSearch.Find: counts offsets in characters, whereas `str::find` returns a byte offset; the source only asks whether there is a match (src/file_search.rs:30), so the outcomes are the same.
- UTF-8 decoding is not modelled: contents that are not valid UTF-8 are one possible `ReadError` of a file.
- `std::io::Error` is reduced to a kind and its displayed text; error codes and sources are not modelled.
- How `Path::display` replaces invalid Unicode is not modelled: a path's displayed text is given with the path.
- The order in which a directory lists its entries is whatever the tree holds; the model does not constrain it.
- Releasing directory and file handles is not modelled (there is no resource state).
- The exact totals in the tests depend on a test directory that is not part of this model.
- src/main.rs only prints the two texts; printing is not modelled.
- Collecting the process arguments is not modelled: `run` takes them as a sequence of strings. A non-Unicode argument, which makes the source panic, cannot be expressed.
- Lib.StdoutLineCount: the line count holds only when no found path contains a newline; a path may contain one, and then the count differs in the source too.
