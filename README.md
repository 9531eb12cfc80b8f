# Git repository activity analyser, modelled in Dafny

`analyzertest.py` asks git seven questions about a working tree and turns
the answers into one report: whether the directory is inside a work tree,
the total number of commits, the list of commit hashes, a histogram of
commits per date, the paths ranked by how often commits touched them, the
tracked files counted per extension, and per-file added/removed line totals
ranked by churn. Every statistic is computed from the captured standard
output of one git command, with its surrounding whitespace stripped.

The model keeps that structure:

- `Text` holds the Python string operations the analyser relies on:
  `str.strip`, `str.split`, `str.splitlines`, `str.isdigit` and `int`.
- `Paths` holds the extension part of `os.path.splitext` and the
  `"<noext>"` bucket.
- `Dicts` holds an insertion-ordered dictionary (Python's `dict` order
  matters, because ties in the sorted rankings keep it) and the counting
  loop `d[k] = d.get(k, 0) + 1`, as a method proved against the function
  `Tally`.
- `Ranking` holds `sorted(..., reverse=True)`: a stable, descending
  ranking that permutes its entries.
- `Numstat` holds the per-file record that `file_line_changes` builds from
  `git log --numstat` lines.
- `Analyzer` holds one producer per statistic and `AnalyzeRepo`. The
  producers whose source has a loop are methods with loop invariants, proved
  against specification functions. `AnalyzeRepo` takes the commands'
  outputs as a function `stdout` from a `Query` (one constructor per git
  command) to text. Every output it uses is read through `Issue`, which
  returns that command's output and appends the command to a trace; the
  method returns the report or the error that stops it, plus that trace,
  so the trace lists the commands whose output was read, in order.
- `TextExamples`, `DictExamples`, `NumstatExamples` and `Scenarios` work
  the producers through concrete outputs, ending with one whole analysis.

## Model

| member | source | states |
|---|---|---|
| Text.Strip | analyzertest.py:13 | the stripped output is one contiguous piece of the raw output, never longer than it |
| Text.TrimStart | analyzertest.py:13 | the result is a suffix of the input, everything cut is whitespace, and it does not start with whitespace |
| Text.TrimEnd | analyzertest.py:13 | the result is a prefix of the input, everything cut is whitespace, and it does not end with whitespace |
| Text.StripSlice | analyzertest.py:13 | `strip` returns the slice of the output between a whitespace-only prefix and a whitespace-only suffix |
| Text.StripEnds | analyzertest.py:13 | a stripped output neither starts nor ends with whitespace |
| Text.StripUnpadded | analyzertest.py:13 | text with no surrounding whitespace is returned unchanged |
| Text.StripTrailingSpace | analyzertest.py:13 | the trailing newline a command prints is removed and nothing else |
| Text.StripIdempotent | analyzertest.py:38 | stripping twice is stripping once, so the paths kept by the comprehension are already stripped |
| Text.StripEmptyIffBlank | analyzertest.py:38 | `f.strip()` is falsy exactly when the line is all whitespace, both directions |
| Text.SplitOn | analyzertest.py:61 | `split` always returns at least one piece |
| Text.SplitOnCount | analyzertest.py:61-62 | `split("\t")` has exactly one more piece than the line has tabs |
| Text.SplitOnSeparatorFree | analyzertest.py:61 | no piece of a split contains the separator |
| Text.JoinSplit | analyzertest.py:61 | joining the pieces of a split with the separator gives the line back |
| Text.SplitJoin | analyzertest.py:61 | splitting a join of separator-free pieces gives the pieces back |
| Text.SplitLines | analyzertest.py:25 | no line returned by `splitlines` contains a newline, and empty output has no lines at all |
| Text.SplitLinesCount | analyzertest.py:25 | there is one line per newline, plus one when the text does not end in a newline |
| Text.SplitLinesTerminated | analyzertest.py:29 | reading back newline-terminated lines gives exactly those lines, in order |
| Text.SplitLinesOfJoin | analyzertest.py:25 | splitting lines joined by newlines gives them back when the last is non-empty |
| Text.SplitLinesJoin | analyzertest.py:24-25 | stripped output, which never ends in a newline, is exactly its lines joined by newlines |
| Text.ParseDecimal | analyzertest.py:21 | `int` gives a value exactly when the trimmed text is a non-empty run of digits, otherwise an error |
| Text.Decimal | analyzertest.py:21 | the printed form of a count is all digits, with no leading zero unless the count is 0 |
| Text.ParseDecimalOfDecimal | analyzertest.py:21 | `int` of a printed count gives the count back |
| Paths.Extension | analyzertest.py:50 | the extension is never longer than the path |
| Paths.ExtensionShape | analyzertest.py:50 | `root + ext == path`, and a non-empty extension is a dot followed by a tail with no dot or slash |
| Paths.ExtensionExists | analyzertest.py:50 | a path has an extension exactly when its final segment has a dot with a non-dot character before it |
| Paths.ExtensionToken | analyzertest.py:50-52 | every path gets a non-empty bucket name, which is the path's extension whenever it has one |
| Paths.ExtensionTokenShape | analyzertest.py:50-52 | the bucket is `"<noext>"` exactly when the extension is empty, and otherwise the extension itself |
| Dicts.Dict.GetOr | analyzertest.py:32 | `d.get(k, default)`: the stored value of a present key, the default for a missing one; its use in counting is stated by `Dicts.TallyCounts` |
| Dicts.Dict.Put | analyzertest.py:32 | assignment sets the value, appends a new key at the end and keeps an existing key in its place |
| Dicts.Dict.Items | analyzertest.py:43 | `items()` pairs every key with its value, in insertion order |
| Dicts.PutKeepsValid | analyzertest.py:32 | assignment keeps every key listed exactly once |
| Dicts.Tally | analyzertest.py:30-32 | the dictionary `for x in xs: d[x] = d.get(x, 0) + 1` leaves, from an empty one; what it holds is stated by `Dicts.TallyFacts`, `Dicts.TallyKeys` and `Dicts.TallySize` |
| Dicts.TallySize | analyzertest.py:30-32 | the counting loop adds at most one key per item |
| Dicts.Count | analyzertest.py:30-32 | the counting loop leaves the dictionary `Tally` describes |
| Dicts.TallyCounts | analyzertest.py:31-32 | each key's count is its number of occurrences, 0 for a value never seen |
| Dicts.TallyFacts | analyzertest.py:30-33 | the keys are exactly the items seen, each counted as often as it occurs and at least once, the counts adding up to the number of items |
| Dicts.TallyKeys | analyzertest.py:31-32 | the keys are the distinct items in order of first appearance |
| Dicts.TallyTotal | analyzertest.py:31-32 | the counts add up to the number of items |
| Dicts.FirstIndex | analyzertest.py:43 | the position of an item's first occurrence, or the length when it never occurs |
| Dicts.Distinct | analyzertest.py:40-41 | the distinct items hold exactly the items of the input |
| Dicts.DistinctFirstSeen | analyzertest.py:40-41 | the distinct items are listed in the order they first occur |
| Ranking.Rank | analyzertest.py:43 | the ranking is a permutation of the entries whose key never increases |
| Ranking.RankStable | analyzertest.py:43 | entries with equal keys keep their relative order (Python's sort is stable, also with `reverse=True`) |
| Ranking.RankOfDescending | analyzertest.py:43 | entries already in descending key order are returned unchanged |
| Ranking.RankKeySum | analyzertest.py:43 | ranking does not change the sum of the keys |
| Numstat.StatFields | analyzertest.py:61-64 | a line yields fields exactly when `split("\t")` gives three pieces, and none of the three holds a tab |
| Numstat.FieldValue | analyzertest.py:68-71 | an all-digit field adds what `int` reads from it; any other field, such as `-`, adds nothing |
| Numstat.Record | analyzertest.py:64-73 | a line without three fields leaves the records as they are; a kept line appends its path when it is new, keeps the key order otherwise, and changes no other path's record |
| Numstat.Churns | analyzertest.py:58-73 | the records after reading the lines, one line at a time from an empty dictionary; at most one record per line |
| Numstat.StatFieldsKept | analyzertest.py:61-63 | a stat line is kept exactly when it holds exactly two tabs |
| Numstat.StatFieldsShape | analyzertest.py:61-64 | a kept line is its three tab-free fields joined by tabs |
| Numstat.StatFieldsOfJoin | analyzertest.py:61-64 | three tab-free fields joined by tabs are kept, with those fields |
| Numstat.RecordValid | analyzertest.py:65-73 | recording a line keeps the dictionary well formed |
| Numstat.ChurnsValid | analyzertest.py:58-73 | the dictionary the loop builds lists each path once |
| Numstat.ChurnRecord | analyzertest.py:60-73 | a path has a record exactly when a kept line names it; the record holds the sums of its all-digit added and removed fields and the number of its kept lines, digits or not |
| Numstat.ChurnKeys | analyzertest.py:65-66 | records appear in the order their paths are first named by a kept line |
| Numstat.MalformedLineIgnored | analyzertest.py:62-63 | a line that does not split into three fields changes nothing, wherever it stands |
| Numstat.ChurnsAppend | analyzertest.py:60-73 | reading one more line is one more step of the loop body |
| Analyzer.Run | analyzertest.py:5-13 | what a command prints, stripped: it never starts or ends with whitespace, and output that is already unpadded is returned as it is |
| Analyzer.Issue | analyzertest.py:78-87 | reading a command's output appends exactly that command to the trace of commands run |
| Analyzer.IsGitRepo | analyzertest.py:16-18 | the check passes exactly for the literal output `true`; the outputs it rejects are listed by `Analyzer.OnlyTrueValidates` |
| Analyzer.OnlyTrueValidates | analyzertest.py:16-18 | any trimmed output other than exactly `"true"` fails the check: empty, `"false"`, other cases, padding, an error message |
| Analyzer.TotalCommits | analyzertest.py:20-21 | a count exactly when the trimmed output is all digits; when the output is the printed form of `n`, the count is `n` |
| Analyzer.CommitHashes | analyzertest.py:23-25 | empty output gives no hashes; otherwise one hash more than the output has newlines, none containing a newline, and the hashes joined by newlines are the trimmed output |
| Analyzer.CommitsByDate | analyzertest.py:27-33 | the histogram is the count of the date lines, in order of first appearance |
| Analyzer.ChangedPaths | analyzertest.py:38 | at most one path per line, and no kept path is empty |
| Analyzer.NonEmpty | analyzertest.py:38 | the `if f.strip()` filter: never longer than its input, and nothing it keeps is empty |
| Analyzer.NonEmptyFirstIndex | analyzertest.py:38 | the filter keeps the order of the strings it keeps: of two non-empty strings, the one seen first in the input is seen first in the result, and conversely |
| Analyzer.ChangedPathsFirstIndex | analyzertest.py:38 | the changed paths keep the order of the log's stripped lines, both directions, so the ranking's ties follow the log |
| Analyzer.StripAll | analyzertest.py:38 | every line stripped, same length, in order |
| Analyzer.NonEmptyFacts | analyzertest.py:38 | the filter keeps each non-empty string as often as it occurs and drops exactly the empty ones |
| Analyzer.ChangedPathsFacts | analyzertest.py:38 | the kept paths are non-empty and already stripped, each stripped line kept as often as it occurs, the blank lines dropped |
| Analyzer.ChangedPathsUnpadded | analyzertest.py:38 | for lines without surrounding whitespace the comprehension only drops the empty lines |
| Analyzer.TopChangedFiles | analyzertest.py:36-43 | the method returns the stable descending ranking of the counted paths |
| Analyzer.ChangeRanking | analyzertest.py:43 | the sorted items of the path counts: at most one entry per path named, in non-increasing count order |
| Analyzer.CountRank | analyzertest.py:43 | the sort key of `top_changed_files`, the count of an item |
| Analyzer.RankedCounts | analyzertest.py:39-43 | every changed path is listed exactly once with its number of mentions, counts descending, ties in order of first mention, counts adding up to the number of mentions |
| Analyzer.ItemsCountSum | analyzertest.py:43 | the counts of the items add up to the dictionary's total |
| Analyzer.ExtensionTokens | analyzertest.py:49-52 | each tracked file is mapped to its own bucket, file by file |
| Analyzer.ExtensionStats | analyzertest.py:45-54 | the loop leaves the count of the files' buckets |
| Analyzer.ExtensionStatsFacts | analyzertest.py:47-54 | each file is counted once, in its own bucket; the buckets are exactly the tokens that occur, each `"<noext>"` or dotted; the counts add up to the number of files |
| Analyzer.RecordLine | analyzertest.py:61-73 | one pass of the loop body: skip a malformed line, start a zero record, add the all-digit counts, count the line |
| Analyzer.FileLineChanges | analyzertest.py:56-75 | the loop builds the records `Churns` describes, and the method returns their stable descending ranking by added plus removed |
| Analyzer.ChurnRanking | analyzertest.py:75 | the sorted items of the churn records: at most one entry per stat line, in non-increasing order of added plus removed |
| Analyzer.ChurnRank | analyzertest.py:75 | the sort key of `file_line_changes`, added plus removed, never less than either part |
| Analyzer.RankedChurn | analyzertest.py:60-75 | every path named by a kept line is listed once with its sums and line count, churn descending, ties in order of first mention |
| Analyzer.AnalyzeRepo | analyzertest.py:77-88 | fails with `NotARepository` after reading one command's output unless the check passes; fails with `InvalidCommitCount` after reading two when `int` rejects the count; otherwise reads all seven outputs in order and returns the six statistics; succeeds exactly when both checks pass |
| TextExamples.Trimmed | analyzertest.py:13 | each canned output, with or without its trailing newline, strips to itself |
| TextExamples.CountsParsed | analyzertest.py:21 | `int("2")` is 2 and `int("n/a")` fails |
| Scenarios.ChangedFilesExample | analyzertest.py:36-43 | `"a.txt\n\nb.py\na.txt"` ranks `("a.txt", 2)` before `("b.py", 1)` |
| Scenarios.TiedLogExample | analyzertest.py:36-43 | `"b.py\n\na.txt"` ranks `("b.py", 1)` before `("a.txt", 1)`: tied paths keep the log's order |
| Scenarios.TiedFilesExample | analyzertest.py:39-43 | two paths named once each keep the order in which they were first named |
| Scenarios.ExtensionStatsExample | analyzertest.py:45-54 | `a.txt`, `b.py`, `Makefile` give one file each under `.txt`, `.py` and `<noext>`, in that order |
| Scenarios.LineChangesExample | analyzertest.py:56-75 | the three stat lines give `a.txt` 8 added, 3 removed, 2 lines, ahead of `b.py` with 0, 0, 1 |
| NumstatExamples.BinaryStatExample | analyzertest.py:68-73 | a binary file's `-` counts add nothing but its line is still counted |
| Scenarios.CannedCommits | analyzertest.py:20-33 | the canned count, hashes and dates give 2, `["h2", "h1"]` and one commit per date |
| Scenarios.AnalyzeCanned | analyzertest.py:77-88 | the canned repository runs every command and yields the expected report |
| Scenarios.AnalyzeOutsideWorkTree | analyzertest.py:77-79 | when the check prints `false` the analysis stops after that one command, whatever the others print |
| Scenarios.AnalyzeBadCount | analyzertest.py:77-82 | a count `int` rejects stops the analysis after the second command |

## Left out

- `run` (lines 5-13) starts a shell process. The model replaces it with the `stdout` parameter, a function from each command to what it prints; it keeps only the final `strip`. Working directories, exit codes, standard error and process failures are not modelled.
- The command strings appear only as the `Query` constructors that name them. What git prints for each command is not modelled, beyond the canned outputs in `Scenarios`.
- The script at lines 90-95 is not modelled. It hard-codes a repository path and prints the path and the JSON report.
- The exceptions that `analyze_repo` and `int` raise are modelled as `AnalysisError` values. Their messages are not kept.
- `dict(sorted(...))` at lines 43 and 75 is modelled as the ranked list of pairs. Rebuilding a dictionary from that list keeps the same keys and order, so it is not modelled separately.
- The nested record `{"added": …, "removed": …, "commits": …}` is modelled as the datatype `Churn`.
- Text.SplitLines: breaks lines at "\n" only. Python's `splitlines` also breaks at "\r", "\r\n", "\v", "\f", "\x1c"-"\x1e", U+0085, U+2028 and U+2029. Hashes, dates and the paths git prints do not contain them, but the commit messages and author names that `git log --numstat` prints verbatim can. There a message line such as `"    1\t2\ta\f3\t4\tb"` is two stat lines to Python, recording `a` and `b`, and one five-field line to the model, which skips it.
- Text.ParseDecimal: accepts ASCII digits only. `int` also accepts a sign, underscores between digits and non-ASCII digits, none of which `git rev-list --count` prints.
- Text.IsSpace: covers the characters Python's `str.isspace` accepts up to U+3000. It does not cover whitespace classes Python adds in other Unicode versions.
- Numstat.FieldValue: `isdigit` is modelled on ASCII digits only. Python also accepts other Unicode digits, and `int` then raises on some of them.
- Paths.Extension: uses the POSIX `os.path.splitext`, with `/` as the only separator. On Windows `\` also separates, but `git ls-files` prints `/`.
- Analyzer.TotalCommits: states nothing about the number of hashes. `git rev-list --all` counts commits reachable from every ref, while `git log` lists only those reachable from `HEAD`, so the two need not agree.
