# SQLLogicTest runner and starter REPL, modelled in Dafny

This project models the test harness of a "build your own SQL database" challenge. It covers three pieces of one wire protocol.

- **The SQLLogicTest script parser and result comparator** (`scripts/slt_parser.py`). `parse_file` scans the lines of a `.test` script into `Statement`, `Query` and `Control` records. It honours `skipif`/`onlyif`, `halt` and `hash-threshold`. `normalize_value` and `compare_results` normalise values by a cycling column-type string, arrange them by sort mode (`nosort`, `rowsort`, `valuesort`) and give a verdict.
- **The runner** (`scripts/run_tests.py`). `DatabaseRunner` frames each SQL text as a request to the database process and decodes the lines the process prints back. `start`, `stop` and `restart` replace the process handle. `TestRunner.run_file` runs the records of one file, keeps the statement and query counters and records the first failing file with the line number its message names. `find_test_files` sorts and filters the test files.
- **The starter REPL** (`src/main.rs`). Its `main` loop joins non-empty input lines with single spaces and executes the trimmed buffer at each blank line and at end of input. `execute_sql` trims whitespace and trailing semicolons and answers with exactly one framed response. `first_word` picks the first whitespace-separated token.

The modules are:

- `Options`, `Strings` and `Ordering` hold the shared vocabulary:
  - Python's `strip`, `lstrip`, `rstrip('\n\r')`, `split` and `lower`/`upper` on ASCII.
  - Rust's `trim`, `trim_end_matches` and `split_whitespace`.
  - Decimal printing and parsing.
  - Lexicographic order, insertion sort and the facts that a sorted permutation is unique.
- `SltParser` is the parser. `Parse` is its specification. `ParseFile` is the line scanner with its index and its one-shot skip flag, proved equal to `Parse`.
- `ParserProperties` holds lemmas about `Parse` and the two findings below.
- `Comparator` is the normalisation and comparison.
- `DbRunner` holds request framing, reply decoding and the `DatabaseRunner` class.
- `TestRunner` holds the verdict of one record, the run of a file, the counters as a class, the first-failure line extraction and test-file selection.
- `Repl` is `src/main.rs`.
- `Protocol` puts the two ends together.
  - A request written by the runner is read by the REPL as exactly one statement.
  - It is executed exactly once.
  - Its response is decoded by the runner whole, and nothing after it is read.
  - So a sequence of requests stays in step with its replies.

The subprocess is modelled by what the runner can observe of it:

- whether it is running, which it stops being once its output has ended;
- the text written to its standard input;
- the lines it will print, each as `readline` returns it (the empty string once output ends);
- its standard-error text.

The outcome of spawning a process is a parameter of `Start`/`Restart`, and so is whether the binary exists.

## Model

| member | source | states |
|---|---|---|
| SltParser.ParseFile | scripts/slt_parser.py:73-230 | the scanner over the script's lines returns exactly `Parse(lines, target)`, the record sequence the specification defines |
| SltParser.ParseLines | scripts/slt_parser.py:87-230 | the main `while` loop, with its index and pending skip flag, yields the records `ParseFrom` assigns to the lines from the start |
| SltParser.ParseStep | scripts/slt_parser.py:91-230 | one turn of the loop: it advances the index, emits at most one record and carries the skip flag on; the records of the rest of the script follow, or none after `halt` |
| SltParser.StatementBlock | scripts/slt_parser.py:130-157 | a `statement` header, skipped or not, yields the record of `ParseFrom` and resumes where the specification resumes |
| SltParser.QueryBlock | scripts/slt_parser.py:160-227 | a `query` header, skipped or not, yields the record of `ParseFrom` and resumes where the specification resumes |
| SltParser.ReadStatement | scripts/slt_parser.py:139-157 | a non-skipped statement block gives `StatementRecordAt` and ends where `StatementEnd` says |
| SltParser.ReadStatementSql | scripts/slt_parser.py:143-149 | the SQL lines are gathered up to the first empty or directive line |
| SltParser.ReadQuery | scripts/slt_parser.py:172-227 | a non-skipped query block gives `QueryRecordAt` and ends where `QueryEnd` says, including the header with no tokens |
| SltParser.ReadQueryBody | scripts/slt_parser.py:178-227 | after the header tokens, the SQL, separator and results give `QueryRecordAt` |
| SltParser.ReadQueryOptions | scripts/slt_parser.py:178-186 | the sort mode and label read from the header tokens after the column types |
| SltParser.QueryHeaderTokens | scripts/slt_parser.py:173 | a query header's tokens are the whitespace-separated words after `query ` |
| SltParser.ReadQuerySql | scripts/slt_parser.py:190-196 | the SQL lines run up to the line exactly `----`, with empty lines dropped |
| SltParser.ReadResults | scripts/slt_parser.py:205-216 | the expected values are gathered up to an empty or directive line, each line split as `LineValues` says |
| SltParser.SkipStatement | scripts/slt_parser.py:131-137 | a skipped statement resumes at the first whitespace-only or directive line, tested on the raw line |
| SltParser.SkipQuerySql | scripts/slt_parser.py:164-166 | a skipped query's SQL runs to the first line whose strip is `----` |
| SltParser.SkipResults | scripts/slt_parser.py:167-169 | a skipped query's results run to the first whitespace-only line |
| SltParser.SkipQuery | scripts/slt_parser.py:161-170 | a skipped query resumes where the two skip scans above end |
| SltParser.ScanFromStops | scripts/slt_parser.py:135 | a scan stops at the first line that fails its test, and every line before it passes |
| SltParser.HeaderSortModeIsLastKeyword | scripts/slt_parser.py:179-186 | the sort mode is `nosort` without a keyword, else the mode of the last sort keyword |
| SltParser.HeaderLabelIsLastOther | scripts/slt_parser.py:180-186 | there is no label iff every option is a sort keyword; otherwise the label is the last option that is not one |
| SltParser.LineValuesRoundTrip | scripts/slt_parser.py:212-215 | a result line splits into at least one value, none holding the pipe character, and joining them with pipes gives the line back |
| ParserProperties.DirectiveAgreesWithClassify | scripts/slt_parser.py:233-243 | `_is_directive` holds on a line without leading space iff the line is classified as one of the six directives; a line with leading space is never classified as one |
| ParserProperties.HaltIgnoresRest | scripts/slt_parser.py:116-118 | after a `halt` line no further records are produced, whatever lines follow |
| ParserProperties.HaltLine | scripts/slt_parser.py:116-146 | a line reading `halt` after `rstrip('\n\r')` is classified as halt and ends a SQL block |
| ParserProperties.ParsePlaced | scripts/slt_parser.py:91-226 | every record carries the 1-based number of the header line that announced it; the numbers strictly increase; only the last record can be a `Control` |
| ParserProperties.ParseFromPlaced | scripts/slt_parser.py:91-230 | the same placement for the records parsed from any line on |
| ParserProperties.ParseStepOf | scripts/slt_parser.py:91-230 | every non-`halt` line yields at most one record, placed at that line, and parsing continues further on |
| ParserProperties.StatementRecordAnnounced | scripts/slt_parser.py:139-156 | a statement record has its header's line number and its `expect_error` iff `error` occurs in the lower-cased header |
| ParserProperties.QueryRecordAnnounced | scripts/slt_parser.py:173-226 | a query record has its header's line number, column types, sort mode and label |
| ParserProperties.StatementBlockContents | scripts/slt_parser.py:139-157 | the statement body is the maximal run of non-empty, non-directive lines; no record when it is empty, else the `\n`-join of the lines |
| ParserProperties.QuerySqlRunsToSeparator | scripts/slt_parser.py:190-201 | the query SQL runs up to the first line exactly `----`; no record without one |
| ParserProperties.QueryBlockContents | scripts/slt_parser.py:188-226 | the query record holds the non-empty SQL lines joined by `\n` and the values of the result lines in order; no record when the SQL is empty |
| ParserProperties.GatherStatementSql | scripts/slt_parser.py:143-149 | statement SQL gathering keeps every line of the block |
| ParserProperties.GatherQuerySql | scripts/slt_parser.py:191-196 | query SQL gathering keeps exactly the non-empty lines |
| ParserProperties.GatherResultValues | scripts/slt_parser.py:206-216 | expected values are the concatenation, in line order, of each line's values |
| ParserProperties.SkippedStatementSwallowsHalt | scripts/slt_parser.py:135 | as written: a skipped statement whose next line is `halt` with a line end runs past the `halt` that unskipped parsing stops at |
| ParserProperties.SkipPassesOverHalt | scripts/slt_parser.py:135-146 | the same on line views |
| ParserProperties.HaltLineWithLineEnd | scripts/slt_parser.py:135 | `halt` with a line end is a halt line for the normal path and a body line for the skip scan |
| ParserProperties.HaltWithMoreIsNotDirective | scripts/slt_parser.py:233-243 | a raw line longer than `halt` is not a directive for `_is_directive` |
| ParserProperties.SkipPassesOverNextBlock | scripts/slt_parser.py:168-210 | as written: a skipped query's results run over the next header when no blank line separates them, so the next block is lost, while unskipped parsing stops there |
| ParserProperties.SkippedQuerySwallowsNextStatement | scripts/slt_parser.py:168-210 | as written, on the lines `query I`, `SELECT 1`, `----`, `1`, `statement ok`: read, the parse is at most the query's record followed by the whole parse from the `statement` header; skipped, every record comes after that header, so the statement is lost |
| ParserProperties.AlignedSkipDropsAtMostOne | scripts/slt_parser.py:101-170 | corrected: when a skip resumes where unskipped parsing resumes, a pending skip drops at most the one record of the next block and leaves the rest unchanged |
| ParserProperties.PlacedCons | scripts/slt_parser.py:152-226 | a record placed at a line before a placed rest keeps the whole sequence placed |
| Comparator.NormalizeValue | scripts/slt_parser.py:246-282 | after `strip`, an empty value or a case-insensitive `NULL` becomes `NULL` for every type; `I` and `R` go through the numeric formats; any other type keeps the stripped value |
| Comparator.NormalizeIgnoresSurroundingSpace | scripts/slt_parser.py:257 | surrounding whitespace never changes a normalised value |
| Comparator.NormalizeTextIdempotent | scripts/slt_parser.py:257-282 | normalising a text value twice is normalising it once |
| Comparator.NullMarkerIsNull | scripts/slt_parser.py:260-261 | the normalised `NULL` is itself read as null |
| Comparator.NormalizeList | scripts/slt_parser.py:306-311 | the append loop gives the value at position i normalised with type `column_types[i % num_cols]`, or `T` when the type string is empty |
| Comparator.NormalizedRows | scripts/slt_parser.py:306-326 | on full rows, normalising the flat list is normalising row by row |
| Comparator.TypeAtShift | scripts/slt_parser.py:309 | the type of a position repeats with period `num_cols` |
| Comparator.StrLeTotal | scripts/slt_parser.py:330-331 | Python's string order is total |
| Comparator.RowLeTotal | scripts/slt_parser.py:322-323 | Python's tuple order on rows is total |
| Comparator.ArrangeLength | scripts/slt_parser.py:316-331 | arranging by sort mode keeps the number of values |
| Comparator.Message | scripts/slt_parser.py:334-343 | the message is empty iff the verdict passes |
| Comparator.FirstDifference | scripts/slt_parser.py:337-341 | the first index where two equal-length lists differ, or their length |
| Comparator.CompareResults | scripts/slt_parser.py:285-343 | returns the pass flag and message of `Compare` |
| Comparator.CompareArranged | scripts/slt_parser.py:333-343 | the comparison loop returns the verdict `Judge` gives on the arranged lists |
| Comparator.PassesIffArrangedEqual | scripts/slt_parser.py:313-343 | the comparison passes iff the normalised and arranged lists are equal |
| Comparator.CountMismatchIffLengthsDiffer | scripts/slt_parser.py:334-335 | a length mismatch is reported, with both lengths, iff the input lengths differ, before any value is checked |
| Comparator.MismatchIsFirstDifference | scripts/slt_parser.py:337-341 | a value mismatch names the first differing position as row `i // num_cols`, column `i % num_cols`, with both values |
| Comparator.ValueSortIgnoresOrder | scripts/slt_parser.py:328-331 | under `valuesort` with one column type, permuting either list never changes the verdict |
| Comparator.SortedNormalizedIgnoresOrder | scripts/slt_parser.py:328-331 | under `valuesort` with one column type, permutations arrange to the same list |
| Comparator.RowSortIgnoresRowOrder | scripts/slt_parser.py:317-326 | under `rowsort`, permuting the actual rows, the expected rows or both never changes the verdict |
| Comparator.RowSortedRows | scripts/slt_parser.py:319-326 | under `rowsort`, full rows arrange to their normalised rows sorted and flattened |
| Ordering.SortSorted | scripts/slt_parser.py:322-331 | `sorted` under a total order returns a sorted permutation |
| Ordering.SortDependsOnlyOnMultiset | scripts/slt_parser.py:322-331 | `sorted` gives the same list for any two permutations of the same values |
| Ordering.LexTotalOrder | scripts/slt_parser.py:322-323 | lexicographic order over a total order is total |
| Ordering.FilterMultiset | scripts/run_tests.py:183 | a list comprehension with a condition keeps exactly the elements that satisfy it, with their multiplicities |
| Ordering.FilterSorted | scripts/run_tests.py:179-183 | filtering a sorted list keeps it sorted |
| Strings.JoinSplit | scripts/slt_parser.py:213 | joining the pieces of `split(sep)` with `sep` gives the string back |
| Strings.SplitJoin | scripts/run_tests.py:116-119 | splitting a join of pieces free of the separator gives the pieces back |
| Strings.StripLineEndIsPrefix | scripts/slt_parser.py:92 | `rstrip('\n\r')` removes the trailing run of `\n`/`\r` and nothing else |
| Strings.TrimIdempotent | scripts/run_tests.py:85 | stripping twice is stripping once |
| Strings.FindIsFirst | scripts/run_tests.py:286-288 | the search for `Line ` finds its first occurrence, or reports that there is none |
| Strings.ParseIntOfNatToString | scripts/run_tests.py:288 | `int()` reads a printed line number back |
| Strings.WordsAreWords | src/main.rs:124 | `split_whitespace` yields non-empty words without whitespace |
| DbRunner.CleanSql | scripts/run_tests.py:85-87 | the sent SQL always ends in `;`; it equals the stripped SQL iff that already ends in `;`, else it is the stripped SQL with `;` appended |
| DbRunner.CleanSqlIdempotent | scripts/run_tests.py:85-87 | cleaning a cleaned request changes nothing |
| DbRunner.Request | scripts/run_tests.py:89-90 | the text written is the cleaned SQL, a newline, then the empty line that asks for execution |
| DbRunner.RowValues | scripts/run_tests.py:116-121 | a result line contributes at least one value |
| DbRunner.ReadResponse | scripts/run_tests.py:97-126 | the reading loop never reads more lines than the output has |
| DbRunner.EndingOf | scripts/run_tests.py:97-108 | a response ends at the first line empty after `rstrip('\n\r')`, or where the output ends; every line before it is neither |
| DbRunner.LastError | scripts/run_tests.py:110-113 | the error of a body is its last `Error:`/`ERROR:` line, and there is none iff no line is one |
| DbRunner.ReadResponseDecodes | scripts/run_tests.py:97-126 | the loop's reply is `Decode`: fail with the last error line if any; else succeed with the values of the other lines in order; fail as died when the output ends first; consume up to and including the blank line |
| DbRunner.ReadResponseFinishes | scripts/run_tests.py:97-126 | the same, from any point of the loop with the values and error gathered so far |
| DbRunner.FinishStep | scripts/run_tests.py:110-121 | an error line replaces the error; any other line appends its values |
| DbRunner.DecodePrintedRows | scripts/run_tests.py:97-126 | rows printed tab-separated and closed by a blank line decode to the rows' values in order, and the lines after the blank line are not read |
| DbRunner.ReadPrintedRows | scripts/run_tests.py:97-126 | the same from any values gathered so far |
| DbRunner.RowValuesOfRowLine | scripts/run_tests.py:116-121 | a printable row printed with tabs splits back into that row |
| DbRunner.StripPrintedLine | scripts/run_tests.py:104 | `rstrip('\n\r')` gives back a printed line without its newline |
| DbRunner.DatabaseRunner.constructor | scripts/run_tests.py:40-43 | a new runner has no process |
| DbRunner.DatabaseRunner.Start | scripts/run_tests.py:45-64 | succeeds iff the binary exists and the process spawned; on success the handle is the new process, otherwise it is unchanged |
| DbRunner.DatabaseRunner.Stop | scripts/run_tests.py:134-143 | the handle is always cleared |
| DbRunner.DatabaseRunner.Restart | scripts/run_tests.py:145-148 | stop then start: the handle is the new process on success, otherwise none |
| DbRunner.DatabaseRunner.Execute | scripts/run_tests.py:66-126 | without a running process it returns not-running and writes nothing; otherwise it writes the request, returns the decoded reply, leaves exactly the unread lines pending, and leaves the process exited when the output ended before the reply did |
| DbRunner.DatabaseRunner.ReadReply | scripts/run_tests.py:94-126 | the reading loop returns `Decode`'s reply, drops exactly the lines it consumed, and marks the process exited when it reads the end of the output |
| DbRunner.ExitedProcessStaysDown | scripts/run_tests.py:76-102 | when the output has ended, `execute` reports that the process died and leaves it exited, and every later `execute` answers that the process is not running and writes nothing |
| DbRunner.AnsweredProcessKeepsRunning | scripts/run_tests.py:76-126 | when the reply ends at a blank line, the process is still running afterwards and the reply is `Decode`'s |
| TestRunner.TestRunner.constructor | scripts/run_tests.py:154-175 | all counters start at zero, with no first failure |
| TestRunner.TestRunner.RunRecord | scripts/run_tests.py:211-265 | one record: the pass flag, detail, stop flag, process and counter increments are those of `StepRecord` |
| TestRunner.TestRunner.RunStatement | scripts/run_tests.py:217-238 | a statement counts once; it fails iff its success equals `expect_error`, with detail `Line n: Expected error but got success` or `Line n: <error>`; it counts as failed exactly then, and stops under fail-fast |
| TestRunner.TestRunner.RunQuery | scripts/run_tests.py:240-265 | a query counts once; it fails on an execution error or a failed comparison, with detail `Line n: <error>` or `Line n: <diff>`; it counts as failed exactly then, and stops under fail-fast |
| TestRunner.TestRunner.RunRecordsOf | scripts/run_tests.py:205-265 | the loop over the records gives the verdict, the last detail, the process and the counter increments of `RunRecords` |
| TestRunner.TestRunner.CountFile | scripts/run_tests.py:280-291 | a passed file counts as passed, a failed one as failed; the first failure is recorded only while there is none, with the line its detail names |
| TestRunner.TestRunner.RunFile | scripts/run_tests.py:187-293 | without a started database the file fails with `Database failed to start` and nothing is counted; otherwise the parsed records are run and counted as `RunRecords` says, and the counters stay consistent |
| TestRunner.StepConsistent | scripts/run_tests.py:217-265 | one record passes iff it counts no failure iff its detail is empty |
| TestRunner.RunConsistent | scripts/run_tests.py:205-265 | a file passes iff it counts no failed statement or query iff its detail is empty, and failures never exceed totals |
| TestRunner.RunConsistentFor | scripts/run_tests.py:205-265 | the same for any step that is consistent per record |
| TestRunner.ThenConsistent | scripts/run_tests.py:205-265 | adding a consistent record's tally keeps the file's tally consistent |
| TestRunner.ThenAssociative | scripts/run_tests.py:205-265 | the per-file tallies compose associatively |
| TestRunner.RunRecordsIsRun | scripts/run_tests.py:211-265 | the record loop is the generic run with the record check as its step |
| TestRunner.FailFastStopsAtFirstFailure | scripts/run_tests.py:229-265 | under fail-fast a file counts at most one failed statement or query |
| TestRunner.AtMostOneFailure | scripts/run_tests.py:229-265 | a run stopping at its first failure counts at most one |
| TestRunner.HaltEndsFile | scripts/run_tests.py:212-215 | records after a `halt` record are never run |
| TestRunner.StopEndsRun | scripts/run_tests.py:212-215 | records after one that stops the run are never run |
| TestRunner.EveryRecordRuns | scripts/run_tests.py:211-242 | without fail-fast, the statement and query counts are the numbers of statements and queries before the first `halt` |
| TestRunner.CountsBeforeHalt | scripts/run_tests.py:211-242 | the same for any step that counts each record once and stops only at `halt` |
| TestRunner.BeforeHalt | scripts/run_tests.py:212-214 | the records before the first `halt` never outnumber the file's |
| TestRunner.DetailNamesRecord | scripts/run_tests.py:228-291 | a failed file's detail names, as the first-failure extraction reads it, the line of one of its statement or query records |
| TestRunner.DetailNamesRecordFor | scripts/run_tests.py:228-265 | the same for any step whose failures name their record's line |
| TestRunner.FailedStepNamesLine | scripts/run_tests.py:228-263 | a failed record's detail names its own line |
| TestRunner.FailedNamesLine | scripts/run_tests.py:228-288 | a `Line n: …` detail is read back as line n |
| TestRunner.LineOfDetailRoundTrip | scripts/run_tests.py:285-290 | the number between the first `Line ` and the next `:` of `Line n: <message>` is n, whatever the message |
| TestRunner.LineFieldOfDigits | scripts/run_tests.py:288 | the field cut at the next `:` after `Line ` is the digits printed there |
| TestRunner.LineOfDetailWithoutMarker | scripts/run_tests.py:285-286 | a detail without `Line ` gives line 0 |
| TestRunner.LastIndexOfChar | scripts/run_tests.py:183 | the last occurrence of a character, or -1 |
| TestRunner.StemOfTestFile | scripts/run_tests.py:183 | the stem of `<base>.test` is `<base>` |
| TestRunner.FindTestFilesSelects | scripts/run_tests.py:177-185 | the list is sorted; with a non-empty pattern it keeps exactly the files whose stem contains it, otherwise every file, with their multiplicities |
| TestRunner.FindTestFilesIgnoresOrder | scripts/run_tests.py:179 | the result does not depend on the order the directory walk returns files in |
| TestRunner.PathLeTotal | scripts/run_tests.py:179 | the order on paths is total |
| Repl.Serve | src/main.rs:18-52 | the loop over input lines writes exactly `Session(lines, "")` |
| Repl.SessionExecutesBatches | src/main.rs:24-51 | the output is the responses to the space-joined runs of non-empty lines, in order, each executed once, including the leftover at end of input |
| Repl.SessionFromBuffer | src/main.rs:24-51 | the same from any buffer: the buffer extended by the first run is flushed, then the later runs are executed |
| Repl.StatementThenBlank | src/main.rs:31-38 | a run of non-empty lines then a blank line executes that run once; repeated blank lines on an empty buffer produce nothing |
| Repl.LeftoverStatement | src/main.rs:47-51 | a run not followed by a blank line is executed once at end of input |
| Repl.OneBlankLinePerBatch | src/main.rs:24-51 | the output holds exactly one empty line per executed statement |
| Repl.ExecuteAllStep | src/main.rs:24-51 | the responses to a sequence of runs are the first's followed by the rest's, empty runs producing nothing |
| Repl.FlushFirstGroup | src/main.rs:31-36 | flushing a buffer built from one run executes that run joined by spaces |
| Repl.ExtendLine | src/main.rs:41-44 | appending a line then a run is appending the run that starts with the line |
| Repl.Accumulate | src/main.rs:41-44 | appending a non-empty line leaves a non-empty buffer |
| Repl.Groups | src/main.rs:24-45 | the input splits into runs of non-empty lines separated by blank lines |
| Repl.GroupsRun | src/main.rs:24-45 | a run followed by a blank line or the end is the first group |
| Repl.InputLinesOfText | src/main.rs:24 | `lines()` reads back text made of newline-terminated lines as those lines |
| Repl.ReadFirstLine | src/main.rs:24 | `lines()` ends the first line at the first newline |
| Repl.DropCarriageReturn | src/main.rs:24 | `lines()` drops one trailing `\r` and nothing else |
| Repl.ExecuteSql | src/main.rs:69-120 | the response ends in exactly one empty line; it is only that line iff the cleaned statement is empty, and otherwise `Error: not implemented - <first word>` then the empty line |
| Repl.OneBlankLine | src/main.rs:69-120 | every response holds exactly one empty line |
| Repl.CleanStatementIdempotent | src/main.rs:71 | the cleaned statement has no surrounding whitespace |
| Repl.SemicolonIgnored | src/main.rs:71 | a trailing `;` does not change the cleaned statement |
| Repl.FirstWord | src/main.rs:123-125 | the first word is never empty |
| Repl.FirstWordOf | src/main.rs:123-125 | after leading whitespace, the first word is the maximal run of non-whitespace |
| Repl.FirstWordAt | src/main.rs:123-125 | the first word is the first maximal non-whitespace run, by position |
| Repl.FirstWordOfSpace | src/main.rs:124 | an all-whitespace statement gives `unknown` |
| Repl.FirstWordOfSelect | src/main.rs:133 | `SELECT 1` gives `SELECT` |
| Repl.FirstWordOfCreate | src/main.rs:134 | `CREATE TABLE t1(x INT)` gives `CREATE` |
| Repl.FirstWordOfIndentedInsert | src/main.rs:135 | `  INSERT INTO t1 VALUES(1)` gives `INSERT` |
| Repl.TextJoin | src/main.rs:24 | newline-terminated lines are their newline join plus a final newline |
| Protocol.RequestText | scripts/run_tests.py:89-90 | the request is the cleaned SQL's lines followed by an empty line, each newline-terminated |
| Protocol.RequestReadAsLines | scripts/run_tests.py:89-90 | the REPL's `lines()` reads a request as the SQL's lines then one empty line, then reads what follows |
| Protocol.OneRequestOneExecution | scripts/run_tests.py:89-90 | one request makes the REPL execute exactly one statement, the space join of its lines, and then go on as if it had not been sent |
| Protocol.ResponseDecodes | scripts/run_tests.py:97-126 | every REPL response is decoded whole by the runner, and nothing after it is read |
| Protocol.AcknowledgementDecodes | scripts/run_tests.py:104-108 | a lone blank line decodes as success with no values |
| Protocol.ErrorDecodes | scripts/run_tests.py:110-124 | an `Error:` line and a blank line decode as failure with that line |
| Protocol.NotImplementedLine | src/main.rs:117 | the REPL's error line starts with `Error:` and is one line |
| Protocol.FirstWordOnOneLine | src/main.rs:123-125 | the first word holds no line end |
| Protocol.ExecuteAgainstRepl | scripts/run_tests.py:66-126 | `execute` against the REPL returns the REPL's answer to the statement and leaves exactly the later responses pending |
| Protocol.ConversationStaysInStep | scripts/run_tests.py:66-126 | a sequence of requests against the REPL gets the REPL's answer to each, in order |
| Protocol.ReadBackAppend | scripts/run_tests.py:98 | reading printed lines back distributes over concatenation |
| Protocol.JoinAppend | scripts/run_tests.py:89-90 | joining with one more piece appends the separator and the piece |

## Left out

- Reading the script file (`open`/`readlines`, scripts/slt_parser.py:84-85): the parser takes the file's lines, each with its line end as `readlines` keeps it.
- `hash_threshold` (scripts/slt_parser.py:121-127): its value is never read, so the model keeps only the branch that passes the line over.
- `compute_hash` and `HashResult` (scripts/slt_parser.py:47-50, 346-349) are not part of this model: MD5 is a foreign call and the comparison never uses it.
- `ParseError` (scripts/slt_parser.py:65-70) is never raised. The `Parse error` path of `run_file` (scripts/run_tests.py:267-269) is left out because no modelled operation raises.
- Comparator.NormalizeValue: the `I` and `R` branches (scripts/slt_parser.py:263-279) use floating-point parsing and formatting. They are the two functions of the `NumericFormat` parameter rather than IEEE arithmetic.
- Comparator.ValueSortIgnoresOrder: the permutation invariance under `valuesort` is proved only when every column has the same type. With mixed types, normalisation depends on position, so a permutation can change the normalised values.
- Strings.ParseInt: Python's `int()` is modelled on ASCII signs and digits. Underscores between digits and non-ASCII digits are left out.
- Strings.Lower: `lower()`/`upper()` are modelled on ASCII letters. Only the tests for `error` and `NULL` use them.
- Subprocess management (scripts/run_tests.py:52-64, 128-142) is left out: `Popen`, pipe writes and flushes, `poll` itself (see the next line), `stderr.read`, `terminate`/`wait`/`kill`, and the `BrokenPipeError` and catch-all handlers. The process is the value described above; whether it spawned and whether the binary exists are parameters.
- DbRunner.DatabaseRunner.Execute: `poll()` is modelled as reporting exit exactly once the output has ended. A process that exits with output still unread keeps answering until that output is read, and the race between `poll()` and the process exiting is not modelled.
- TestRunner.TestRunner.RunFile: the file's path relative to the test directory is used only for printing, and it is not modelled.
- `TestRunner.run` (scripts/run_tests.py:295-361) is left out: the loop over files with its fail-fast break, the summary printing, the percentage (a float) and the timing. It is orchestration and console output around `run_file`, which is modelled.
- `main` and argument parsing (scripts/run_tests.py:364-420) are left out.
- Verbose and progress printing in `execute` and `run_file` is left out.
- TestRunner.FindTestFilesSelects: the recursive directory walk (`rglob`) is not modelled. The files it returns are given as a sequence of paths, each a sequence of components. Paths are ordered component-wise.
- In `src/main.rs`, stdin locking, read errors (the loop's `break` on `Err`), and `writeln!`/`flush`/`unwrap` are left out. The REPL's input is a text, and its output is the sequence of lines it prints.
- Protocol.OneRequestOneExecution: the closed-protocol lemmas need every line of the cleaned SQL to be non-empty and free of `\r`. A SQL text with an empty line inside would be executed by the REPL as two statements.

## Findings

Both findings concern the pending skip of `skipif`/`onlyif`. The skip path scans a block with different tests from the path that reads it. `SltParser.ParseFrom` takes the rule as a parameter:

- `AsWritten` follows the code, and `Parse`, `ParseFile` and the runner use it, so verdicts match what the script does.
- `Aligned` resumes a skipped block exactly where reading it would resume. The corrected property is proved about `Aligned`.

| source | as written | input that shows it | evidently intended | confidence | as-written member | corrected member |
|---|---|---|---|---|---|---|
| scripts/slt_parser.py:135 | the skip scan tests `_is_directive` on the raw line with its line end, so `halt\n` is not a directive there | `skipif sqlite`, `statement ok`, `halt\n`, followed by records: unskipped, parsing stops at `halt`; skipped, it runs past the `halt` and goes on parsing | a skipped statement ends where a read one ends, so `halt` still ends the script | not executed | ParserProperties.SkippedStatementSwallowsHalt | ParserProperties.AlignedSkipDropsAtMostOne |
| scripts/slt_parser.py:168-169 | a skipped query's results end only at a whitespace-only line | `skipif sqlite`, `query I`, `SELECT 1`, `----`, `1`, then `statement ok` with no blank line before it: the next statement is skipped too | a skipped query ends where a read one ends, at a blank or directive line, so only one record is dropped | not executed | ParserProperties.SkippedQuerySwallowsNextStatement | ParserProperties.AlignedSkipDropsAtMostOne |
