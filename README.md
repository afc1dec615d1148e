# music-library-reader, modelled in Dafny

music-library-reader is a small Go batch program (`main.go`). It walks a music
folder and reads the artist, title and album tags of every MP3 file it finds.
It then sorts the songs by title or by artist and writes them out as a CSV
file or as an HTML page with a searchable table. This project models the
sequential logic in the middle of that pipeline and proves what it does:

- **Song collector** (`Collector`, `collectSongsFromFileNames`). A file name
  is kept when the regular expression `.mp3$` matches it. Its tags are then
  read. Files whose read fails are skipped. Records whose three fields are
  all empty are dropped. Everything else is kept in input order. The tag
  reader (`getSongData` over the `tag` library) is a parameter of type
  `string -> Option<Song>`.
- **Go string semantics** (`GoStrings`). This covers Go's built-in `<` on
  strings, which the sort comparator uses, and
  `strings.Replace(s, old, new, 1)`, which fills the page template.
- **Sorter** (`Sorter`, `sortSongs`). It sorts an `array<Song>` in place on the
  title or on the artist. The program calls an unstable library sort.
  `SortSongs` is therefore specified only as "sorted and a permutation". Its
  body is a selection sort. A lemma shows that every sorted permutation has
  the same sequence of keys.
- **HTML report** (`HtmlReport`, the row loop and the placeholder
  replacement in `createHTML`). Each song becomes
  `<tr><td>`title`</td><td>`artist`</td><td>`album`</td></tr>`. The rows are
  concatenated in order. The result replaces the first
  `__HERE_GO_THE_TABLE_ROWS__` in the template.
- **CSV report layout** (`CsvReport`, the loop in `createCSV`). There is one
  record `[title, artist, album]` per song, in list order.
- **Input checks** (`Prompts`). Both directories must be non-empty. The format
  must be `csv`, `pdf` or `html`. A failed check is a `Failure` that carries
  the message the program exits with.
- **The run** (`Pipeline`, the second half of `main`). It collects, sorts and
  then picks the emitter for the format.

In a few places `main.go` behaves differently from what one might expect of
the program. The model follows the code in each case:

- Field text goes into the HTML rows verbatim. It is not HTML-escaped.
  `HtmlReport.UnescapedFieldsAreAmbiguous` shows a consequence: one song
  whose title contains table markup gives exactly the same rows as two
  different songs. Rows read back as the songs exactly when no field contains
  `<` (`HtmlReport.RowsRoundTrip` and `HtmlReport.RowsRoundTripNeedsPlainFields`).
- The file filter is the regular expression `.mp3$`. Its `.` matches any
  character except a newline, so `song_mp3` is accepted, and the match is
  case-sensitive, so `song.MP3` is rejected (`Collector.PatternExamples`).
- `pdf` is accepted as a format, but no emitter exists for it, so nothing is
  written (`Pipeline.OnlyPdfWritesNothing`).
- The program has no ignore list for directories.

Files: `wrappers.dfy`, `go_strings.dfy`, `songs.dfy`, `collector.dfy`,
`sorter.dfy`, `html_report.dfy`, `csv_report.dfy`, `prompts.dfy`,
`pipeline.dfy`.

## Model

| member | source | states |
|---|---|---|
| GoStrings.LessIsLexicographic | main.go:140-142 | Go's string `<` as used by the comparator holds exactly when the first string is a proper prefix of the second, or at the first differing position its character is smaller (both directions) |
| GoStrings.LessTotal | main.go:140-142 | any two different strings are ordered one way or the other by `<` |
| GoStrings.LessTransitive | main.go:140-142 | `<` on strings is transitive |
| GoStrings.LessAsymmetric | main.go:140-142 | `a < b` excludes `b < a` |
| GoStrings.NotLessTransitive | main.go:140-142 | the "not after" relation `!(b < a)` that the sort leaves between neighbours is transitive |
| GoStrings.IndexFrom | main.go:190 | the search inside `strings.Replace` returns an occurrence of the pattern with none before it, or reports that there is none |
| GoStrings.ReplaceFirst | main.go:190 | `strings.Replace(s, old, new, 1)` leaves a string without `old` unchanged, and otherwise replaces only the leftmost occurrence, keeping the text before and after it |
| Collector.IsMp3Name | main.go:89 | the decision taken for a file name is exactly whether the unanchored regular expression `.mp3$` matches it: some position holds a non-newline character followed by `mp3` and the end of the text |
| Collector.PatternExamples | main.go:89 | `song.mp3`, `song_mp3` and `xmp3` are accepted; `song.MP3`, `mp3`, a newline before `mp3` and `song.mp3.txt` are rejected |
| Collector.Collected | main.go:84-104 | the collected songs never include a record whose album, artist and title are all empty, and there are never more songs than file names |
| Collector.CollectSongsFromFileNames | main.go:84-104 | the loop over the file names returns exactly the songs specified by `Collected` |
| Collector.CollectedAppend | main.go:87-101 | each file is handled on its own: collecting two lists in sequence gives the concatenation of the two results |
| Collector.FailedReadIsSkipped | main.go:91-95 | a file whose tag read fails contributes nothing, and the files after it are still processed as if it were absent |
| Collector.ReaderSeesOnlyMp3Names | main.go:89-91 | names the pattern rejects never reach the tag reader: two readers that agree on accepted names give the same result |
| Collector.CollectedKeepsOrder | main.go:84-104 | every collected song was read from an accepted file name, and the songs keep the order of their files (the result is a subsequence of the tag reads of the input) |
| Collector.CollectedIsComplete | main.go:90-99 | every accepted file whose read succeeds with a record that is not all-empty contributes its song |
| Collector.CollectedBoundedByMp3Names | main.go:87-101 | there are never more songs than file names the pattern accepts |
| Sorter.SortSongs | main.go:137-145 | after sorting in place, no song's key (title, or artist when `byTitle` is false) is `<` the key of the song before it, and the array holds the same multiset of songs |
| Sorter.SortedIsPairwise | main.go:137-145 | neighbour-wise order implies that every pair of songs is in order |
| Sorter.SortedKeysUnique | main.go:137-145 | any two sorted permutations of the same songs have the same sequence of keys, so the unstable sort can vary only the order of songs with equal keys |
| Sorter.SortedTwoDistinct | main.go:137-145 | two songs with different keys have exactly one sorted arrangement |
| HtmlReport.BuildTableRows | main.go:185-188 | the string-builder loop yields exactly the concatenated rows of the songs in list order |
| HtmlReport.RowsSplit | main.go:186-187 | song `i` becomes exactly `<tr><td>`title`</td><td>`artist`</td><td>`album`</td></tr>`, between the rows of the songs before it and those after it |
| HtmlReport.RowsAppend | main.go:186-188 | the rows of two song lists in sequence are the concatenation of their rows |
| HtmlReport.RowsSingle | main.go:186-187 | a single song gives exactly its one row |
| HtmlReport.RowsLength | main.go:187 | the rows are 36 characters of markup per song plus the song's field text, and nothing else |
| HtmlReport.RowsRoundTrip | main.go:185-188 | when no field contains `<`, the rows read back as exactly the songs, one row per song, in order |
| HtmlReport.RowsRoundTripNeedsPlainFields | main.go:187 | when some field contains `<`, the rows do not read back as the songs, because fields are not escaped |
| HtmlReport.UnescapedFieldsAreAmbiguous | main.go:187 | fields are inserted verbatim, so a song whose title contains table markup produces the same rows as two other songs |
| HtmlReport.FillTemplate | main.go:190 | a template without the placeholder comes back unchanged; otherwise the rows replace the first placeholder and the text around it is kept |
| HtmlReport.FillKeepsSurroundings | main.go:190 | the page has the template's text before the placeholder, then the rows, then the template's text after it, and the matching length |
| HtmlReport.LaterPlaceholderKept | main.go:190 | only the first placeholder is replaced: a later one that starts after the first one ends is still in the page, shifted by the length difference |
| HtmlReport.ParseRowOfRow | main.go:187 | a row whose fields contain no `<` reads back as its song, leaving what follows the row |
| CsvReport.RecordAt | main.go:164-169 | there is one record per song, and record `i` is `[title, artist, album]` of song `i` |
| CsvReport.RecordsRoundTrip | main.go:164-169 | reading the records back as title, artist, album gives the songs again in the same order |
| CsvReport.WriteRecords | main.go:164-173 | the loop that hands records to the CSV writer produces exactly one record per song, in list order |
| Prompts.CheckDirectory | main.go:112-118 | a directory answer is accepted exactly when it is not empty, and is then returned as given; otherwise the run ends with "You need to enter a valid path" (the same check as the output directory at main.go:128-134) |
| Prompts.CheckFormat | main.go:120-126 | a format is accepted exactly when it is one of `csv`, `pdf` and `html`; otherwise the run ends with the unsupported-format message |
| Pipeline.OnlyPdfWritesNothing | main.go:256-262 | of the formats the format check accepts, `csv` produces a CSV report, `html` an HTML page, and `pdf` produces nothing |
| Pipeline.Run | main.go:250-262 | a run returns the collected songs sorted on the chosen key (a permutation of them), and the report of the chosen format built from those sorted songs |
| Pipeline.ExampleRun | main.go:250-262 | with `a.mp3` (Zeta, A), `b.mp3` (Alpha, B) and `c.txt` sorted by title, every possible result is Alpha then Zeta, `c.txt` contributes nothing although its read would succeed, and the CSV records are `[Alpha, B, …]` then `[Zeta, A, …]` |

## Left out

- The file system walk (`IsDirectory`, `addFilesToGlobalFilesVariable`, `getAllFileNamesInDirectoryRecursively`, main.go:41-65 and 106-110) is file system plumbing. The list of file names is an input of the model. The walk calls itself from inside `filepath.Walk` without skipping the directory, so files in subdirectories are listed more than once; the model sees whatever list it gets.
- Tag reading (`getSongData`, main.go:67-82, and the `tag` library) is a parameter `string -> Option<Song>`. The unchecked `os.Open` error at main.go:68 is not modelled.
- Go strings are byte sequences; here they are sequences of characters. For valid UTF-8 the order of the bytes and the order of the characters agree. Invalid UTF-8 cannot be represented.
- Sorter.SortSongs: the library sort's own algorithm, and so the arrangement it gives songs with equal keys, is not modelled. The body is a selection sort. The contract is only what the library guarantees: sorted, and a permutation.
- CSV quoting and escaping are done by Go's `encoding/csv` writer. They are not modelled; only the fields, their order and the number of records are. Write errors that end the run (main.go:170-172) are not modelled.
- File creation, writing and closing in `createCSV` and `createHTML`, and the `panic` when a file cannot be created, are not modelled.
- Console output is not modelled: the file names printed by the collector, the read-error message, `printAllSongs`, `logDescription` and the success messages.
- The interactive prompts (`prompter`) are not modelled. Only the checks on their answers are. A failed check is a `Failure` value, not a process exit.
- The hard-coded directories, sort flag and format in `main` (main.go:234-248) are parameters of `Pipeline.Run`. The static body of the page template (`htmlBase`, main.go:195-229) is the `template` parameter; only the position of the placeholder matters.
