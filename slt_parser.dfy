/**
  The SQLLogicTest script parser (scripts/slt_parser.py): it turns the lines of a
  `.test` script into `Statement`, `Query` and `Control` records.  The lines are
  given as Python's `readlines()` returns them, each possibly still carrying its
  line end; opening and reading the file is not modelled.

  The parser's tests look at one line at a time, so the specification first reads
  every line into a `LineView` (what each of those tests says about it) and then
  states, on the views alone, what the parser yields from a scan position
  (`ParseFrom`).  `ParseFile` is the line scanner itself, working on the raw lines
  as the source does, proved to yield exactly `Parse(lines, target)`.
*/
module SltParser {
  import opened Options
  import opened Strings
  import Ordering

  datatype SortMode = NoSort | RowSort | ValueSort

  datatype Record =
    | Statement(sql: string, expectError: bool, lineNumber: nat)
    | Query(sql: string, columnTypes: string, sortMode: SortMode, expectedValues: seq<string>,
            queryLabel: Option<string>, lineNumber: nat)
    | Control(directive: string, argument: Option<string>, lineNumber: nat)

  /** The `target_db` used when the caller names none. */
  const DefaultTarget: string := "sqlite"

  /** Whether a line starts a new directive, after leading whitespace (`_is_directive`). */
  predicate IsDirective(line: string) {
    var t := PyLStrip(line);
    || "statement " <= t
    || "query " <= t
    || "hash-threshold " <= t
    || "skipif " <= t
    || "onlyif " <= t
    || t == "halt"
  }

  // ---------------------------------------------------------------------------
  // Query header options

  predicate IsSortKeyword(w: string) {
    w == "nosort" || w == "rowsort" || w == "valuesort"
  }

  function SortModeOf(w: string): SortMode
    requires IsSortKeyword(w)
  {
    if w == "nosort" then NoSort else if w == "rowsort" then RowSort else ValueSort
  }

  /** The sort mode the options of a query header select: the last sort keyword among
      them, or `NoSort` when there is none. */
  function HeaderSortMode(options: seq<string>): SortMode {
    if options == [] then NoSort
    else
      var w := options[|options| - 1];
      if IsSortKeyword(w) then SortModeOf(w) else HeaderSortMode(options[..|options| - 1])
  }

  /** The label of a query header: the last option that is not a sort keyword, if any. */
  function HeaderLabel(options: seq<string>): Option<string> {
    if options == [] then None
    else
      var w := options[|options| - 1];
      if IsSortKeyword(w) then HeaderLabel(options[..|options| - 1]) else Some(w)
  }

  /** `options[k]` is a sort keyword and none follows it. */
  predicate IsLastSortKeyword(options: seq<string>, k: nat)
    requires k < |options|
  {
    IsSortKeyword(options[k]) && forall j :: k < j < |options| ==> !IsSortKeyword(options[j])
  }

  /** `options[k]` is not a sort keyword and only sort keywords follow it. */
  predicate IsLastLabel(options: seq<string>, k: nat)
    requires k < |options|
  {
    !IsSortKeyword(options[k]) && forall j :: k < j < |options| ==> IsSortKeyword(options[j])
  }

  /** The last sort keyword wins; without one the mode is `NoSort`. */
  lemma {:induction false} HeaderSortModeIsLastKeyword(options: seq<string>)
    ensures (forall k :: 0 <= k < |options| ==> !IsSortKeyword(options[k]))
              ==> HeaderSortMode(options) == NoSort
    ensures forall k :: 0 <= k < |options| && IsLastSortKeyword(options, k)
              ==> HeaderSortMode(options) == SortModeOf(options[k])
  {
    if options != [] {
      var init := options[..|options| - 1];
      HeaderSortModeIsLastKeyword(init);
      forall k | 0 <= k < |options| && IsLastSortKeyword(options, k)
        ensures HeaderSortMode(options) == SortModeOf(options[k])
      {
        if k < |options| - 1 {
          assert IsLastSortKeyword(init, k);
        }
      }
    }
  }

  /** The last option that is not a sort keyword is the label; without one there is
      no label. */
  lemma {:induction false} HeaderLabelIsLastOther(options: seq<string>)
    ensures HeaderLabel(options).None? <==> forall k :: 0 <= k < |options| ==> IsSortKeyword(options[k])
    ensures forall k :: 0 <= k < |options| && IsLastLabel(options, k)
              ==> HeaderLabel(options) == Some(options[k])
  {
    if options != [] {
      var init := options[..|options| - 1];
      HeaderLabelIsLastOther(init);
      forall k | 0 <= k < |options| && IsLastLabel(options, k)
        ensures HeaderLabel(options) == Some(options[k])
      {
        if k < |options| - 1 {
          assert IsLastLabel(init, k);
        }
      }
      if IsSortKeyword(options[|options| - 1]) {
        assert (forall k :: 0 <= k < |options| ==> IsSortKeyword(options[k]))
           <==> (forall k :: 0 <= k < |init| ==> IsSortKeyword(init[k]));
      }
    }
  }

  // ---------------------------------------------------------------------------
  // What the parser reads off one line

  /** What the main loop of `parse_file` makes of a line whose line end is removed,
      in the order in which it tests.  A `statement` header carries whether it
      expects an error, a `query` header the tokens after `query `. */
  datatype LineKind =
    | Blank
    | Comment
    | SkipIf(db: string)
    | OnlyIf(db: string)
    | Halt
    | HashThreshold(argument: string)
    | StatementHeader(expectError: bool)
    | QueryHeader(tokens: seq<string>)
    | Other

  function Classify(line: string): LineKind {
    if line == "" then Blank
    else if "#" <= line then Comment
    else if "skipif " <= line then SkipIf(PyStrip(line[7..]))
    else if "onlyif " <= line then OnlyIf(PyStrip(line[7..]))
    else if line == "halt" then Halt
    else if "hash-threshold " <= line then HashThreshold(PyStrip(line[15..]))
    else if "statement " <= line then StatementHeader(Contains(Lower(line), "error"))
    else if "query " <= line then QueryHeader(Words(line[6..], PySpace))
    else Other
  }

  /** A line that continues a statement's SQL or a query's results: not empty once its
      line end is removed, and not a directive. */
  predicate IsBodyLine(raw: string) {
    var line := StripLineEnd(raw);
    line != "" && !IsDirective(line)
  }

  /** A line the skip path passes over after a skipped `statement` header: not blank,
      and not a directive as read with its line end still attached. */
  predicate IsSkippedBodyLine(raw: string) {
    PyStrip(raw) != "" && !IsDirective(raw)
  }

  /** The values of one result line: split at `|` when it has one, else the whole line. */
  function LineValues(line: string): seq<string> {
    if '|' in line then Split(line, '|') else [line]
  }

  /** A result line is recovered by joining its values with `|`, and no value contains
      `|`: the values are exactly the `|`-separated fields of the line. */
  lemma LineValuesRoundTrip(line: string)
    ensures |LineValues(line)| >= 1
    ensures Join(LineValues(line), "|") == line
    ensures forall k :: 0 <= k < |LineValues(line)| ==> '|' !in LineValues(line)[k]
  {
    if '|' in line {
      JoinSplit(line, '|');
      SplitPiecesAvoidSeparator(line, '|');
    }
  }

  /** Everything the parser's tests say about one line. */
  datatype LineView = LineView(
    text: string,               // the line without its line end
    kind: LineKind,             // how the main loop reads it
    isBody: bool,               // continues a statement's SQL or a result block
    isSkippedBody: bool,        // continues a skipped statement's body
    isStrippedSeparator: bool,  // is `----` once all surrounding whitespace is removed
    isBlank: bool,              // is whitespace only
    values: seq<string>)        // the expected values it holds as a result line

  function View(raw: string): LineView {
    var line := StripLineEnd(raw);
    LineView(line, Classify(line), IsBodyLine(raw), IsSkippedBodyLine(raw),
             PyStrip(raw) == "----", PyStrip(raw) == "", LineValues(line))
  }

  /** The views of all lines, in order. */
  function Views(lines: seq<string>): (views: seq<LineView>)
    ensures |views| == |lines|
  {
    seq(|lines|, k requires 0 <= k < |lines| => View(lines[k]))
  }

  /** `views` holds, line by line, what the parser's tests say about `lines`.  Each
      fact is triggered by the test the scanner applies to the raw line, so that
      reasoning about one line does not evaluate the tests on any other. */
  ghost predicate ViewsOf(views: seq<LineView>, lines: seq<string>) {
    && |views| == |lines|
    && (forall k {:trigger StripLineEnd(lines[k])} :: 0 <= k < |lines| ==>
          views[k].text == StripLineEnd(lines[k]) && views[k].isBody == IsBodyLine(lines[k]))
    && (forall k {:trigger Classify(StripLineEnd(lines[k]))} :: 0 <= k < |lines| ==>
          views[k].kind == Classify(StripLineEnd(lines[k])))
    && (forall k {:trigger IsSkippedBodyLine(lines[k])} :: 0 <= k < |lines| ==>
          views[k].isSkippedBody == IsSkippedBodyLine(lines[k]))
    && (forall k {:trigger PyStrip(lines[k])} :: 0 <= k < |lines| ==>
          && views[k].isStrippedSeparator == (PyStrip(lines[k]) == "----")
          && views[k].isBlank == (PyStrip(lines[k]) == ""))
    && (forall k {:trigger LineValues(StripLineEnd(lines[k]))} :: 0 <= k < |lines| ==>
          views[k].values == LineValues(StripLineEnd(lines[k])))
  }

  lemma ViewsOfViews(lines: seq<string>)
    ensures ViewsOf(Views(lines), lines)
  {
  }

  // ---------------------------------------------------------------------------
  // The inner loops, on views

  /** The tests of the inner `while` loops of `parse_file`. */
  datatype LineTest = Body | SkippedBody | NotSeparator | NotStrippedSeparator | NotBlank

  predicate Passes(v: LineView, test: LineTest) {
    match test
    case Body => v.isBody
    case SkippedBody => v.isSkippedBody
    case NotSeparator => v.text != "----"
    case NotStrippedSeparator => !v.isStrippedSeparator
    case NotBlank => !v.isBlank
  }

  /** The first index from `i` on whose line fails `test`, or `|views|`. */
  function ScanFrom(views: seq<LineView>, i: nat, test: LineTest): (j: nat)
    requires i <= |views|
    ensures i <= j <= |views|
    decreases |views| - i
  {
    if i == |views| || !Passes(views[i], test) then i else ScanFrom(views, i + 1, test)
  }

  /** Every line the scan passes satisfies the test, and the line it stops at does not. */
  lemma {:induction false} ScanFromStops(views: seq<LineView>, i: nat, test: LineTest)
    requires i <= |views|
    ensures forall k :: i <= k < ScanFrom(views, i, test) ==> Passes(views[k], test)
    ensures ScanFrom(views, i, test) < |views| ==> !Passes(views[ScanFrom(views, i, test)], test)
    decreases |views| - i
  {
    if i < |views| && Passes(views[i], test) {
      ScanFromStops(views, i + 1, test);
    }
  }

  /** What the collecting loops keep of a line. */
  datatype LineReader = StatementSql | QuerySql | ResultValues

  /** A statement keeps each body line; a query keeps each line before the separator
      that is not empty; a result line gives its values. */
  function Read(v: LineView, reader: LineReader): seq<string> {
    match reader
    case StatementSql => [v.text]
    case QuerySql => if v.text != "" then [v.text] else []
    case ResultValues => v.values
  }

  /** What `reader` keeps of the lines `views[a..b]`, concatenated in order. */
  function Gather(views: seq<LineView>, a: nat, b: nat, reader: LineReader): seq<string>
    requires a <= b <= |views|
    decreases b - a
  {
    if a == b then [] else Gather(views, a, b - 1, reader) + Read(views[b - 1], reader)
  }

  // ---------------------------------------------------------------------------
  // Where each kind of block ends

  /** Where normal parsing resumes after the `statement` header at `h`: the first line
      that is blank or a directive. */
  function StatementEnd(views: seq<LineView>, h: nat): (e: nat)
    requires h < |views|
    ensures h < e <= |views|
  {
    ScanFrom(views, h + 1, Body)
  }

  /** The index of the separator of the query whose header is at `h`, or `|views|`. */
  function SeparatorIndex(views: seq<LineView>, h: nat): (s: nat)
    requires h < |views|
    ensures h < s <= |views|
  {
    ScanFrom(views, h + 1, NotSeparator)
  }

  /** The end of the result block after the separator at `s`: the first line that is
      blank or a directive. */
  function ResultsEnd(views: seq<LineView>, s: nat): (e: nat)
    requires s < |views|
    ensures s < e <= |views|
  {
    ScanFrom(views, s + 1, Body)
  }

  /** Where normal parsing resumes after the `query` header at `h`: the next line when
      the header has no tokens, past the end when there is no separator, else the end
      of the result block. */
  function QueryEnd(views: seq<LineView>, h: nat): (e: nat)
    requires h < |views| && views[h].kind.QueryHeader?
    ensures h < e <= |views| + 1
  {
    if views[h].kind.tokens == [] then h + 1
    else
      var s := SeparatorIndex(views, h);
      if s >= |views| then |views| + 1 else ResultsEnd(views, s)
  }

  /** Where the skip path resumes after a skipped `statement` header at `h`. */
  function SkippedStatementEnd(views: seq<LineView>, h: nat): (e: nat)
    requires h < |views|
    ensures h < e <= |views|
  {
    ScanFrom(views, h + 1, SkippedBody)
  }

  /** The separator a skipped `query` block is scanned to, compared after full
      stripping; `|views|` when there is none. */
  function SkippedSeparatorIndex(views: seq<LineView>, h: nat): (s: nat)
    requires h < |views|
    ensures h < s <= |views|
  {
    ScanFrom(views, h + 1, NotStrippedSeparator)
  }

  /** The end of a skipped result block: the first blank line after the separator. */
  function SkippedResultsEnd(views: seq<LineView>, s: nat): (e: nat)
    requires s < |views|
    ensures s < e <= |views|
  {
    ScanFrom(views, s + 1, NotBlank)
  }

  /** Where the skip path resumes after a skipped `query` header at `h`: past the first
      line that strips to `----`, then past the following non-blank lines. */
  function SkippedQueryEnd(views: seq<LineView>, h: nat): (e: nat)
    requires h < |views|
    ensures h < e <= |views| + 1
  {
    var s := SkippedSeparatorIndex(views, h);
    if s >= |views| then |views| + 1 else SkippedResultsEnd(views, s)
  }

  /** How a skipped block is passed over: as the source does it, or so that the scan
      ends where normal parsing of the same block would have ended. */
  datatype SkipRule = AsWritten | Aligned

  predicate IsHeader(kind: LineKind) {
    kind.StatementHeader? || kind.QueryHeader?
  }

  function ResumeAfterSkip(views: seq<LineView>, h: nat, rule: SkipRule): (e: nat)
    requires h < |views| && IsHeader(views[h].kind)
    ensures h < e <= |views| + 1
  {
    match rule
    case AsWritten =>
      if views[h].kind.QueryHeader? then SkippedQueryEnd(views, h) else SkippedStatementEnd(views, h)
    case Aligned =>
      if views[h].kind.QueryHeader? then QueryEnd(views, h) else StatementEnd(views, h)
  }

  // ---------------------------------------------------------------------------
  // Records

  /** What the non-skipped `statement` header at `h` yields: a `Statement` when SQL
      lines follow it, else nothing. */
  function StatementRecordAt(views: seq<LineView>, h: nat): Option<Record>
    requires h < |views| && views[h].kind.StatementHeader?
  {
    var sql := Gather(views, h + 1, StatementEnd(views, h), StatementSql);
    if sql == [] then None else Some(Statement(Join(sql, "\n"), views[h].kind.expectError, h + 1))
  }

  /** What the non-skipped `query` header at `h` yields: a `Query` when the header has
      tokens, a separator follows and non-empty SQL lines come before it, else
      nothing. */
  function QueryRecordAt(views: seq<LineView>, h: nat): Option<Record>
    requires h < |views| && views[h].kind.QueryHeader?
  {
    var parts := views[h].kind.tokens;
    if parts == [] then None
    else
      var s := SeparatorIndex(views, h);
      if s >= |views| then None
      else
        var sql := Gather(views, h + 1, s, QuerySql);
        if sql == [] then None
        else
          var options := parts[1..];
          Some(Query(Join(sql, "\n"), parts[0], HeaderSortMode(options),
                     Gather(views, s + 1, ResultsEnd(views, s), ResultValues),
                     HeaderLabel(options), h + 1))
  }

  /** The records the parser yields from scan position `i` with the pending skip flag
      `skip`, for the target database `target`. */
  function ParseFrom(views: seq<LineView>, i: nat, skip: bool, target: string, rule: SkipRule)
    : seq<Record>
    decreases |views| - i, 1
  {
    if i >= |views| then [] else ParseLine(views, i, skip, target, rule)
  }

  /** The records yielded from the line at `i` on, by what kind of line it is. */
  function ParseLine(views: seq<LineView>, i: nat, skip: bool, target: string, rule: SkipRule)
    : seq<Record>
    requires i < |views|
    decreases |views| - i, 0
  {
    match views[i].kind
    case SkipIf(db) => ParseFrom(views, i + 1, skip || db == target, target, rule)
    case OnlyIf(db) => ParseFrom(views, i + 1, skip || db != target, target, rule)
    case Halt => [Control("halt", None, i + 1)]
    case StatementHeader(_) =>
      if skip then ParseFrom(views, ResumeAfterSkip(views, i, rule), false, target, rule)
      else StatementRecordAt(views, i).Elements() + ParseFrom(views, StatementEnd(views, i), false, target, rule)
    case QueryHeader(_) =>
      if skip then ParseFrom(views, ResumeAfterSkip(views, i, rule), false, target, rule)
      else QueryRecordAt(views, i).Elements() + ParseFrom(views, QueryEnd(views, i), false, target, rule)
    case _ => ParseFrom(views, i + 1, skip, target, rule)
  }

  /** All records of a script. */
  function Parse(lines: seq<string>, target: string): seq<Record> {
    ParseFrom(Views(lines), 0, false, target, AsWritten)
  }

  // ---------------------------------------------------------------------------
  // One step of the parse, kind of line by kind of line

  /** Kinds of line the main loop passes over without effect. */
  predicate IsPassedOver(kind: LineKind) {
    kind.Blank? || kind.Comment? || kind.HashThreshold? || kind.Other?
  }

  lemma StepPassedOver(views: seq<LineView>, i: nat, skip: bool, target: string, rule: SkipRule)
    requires i < |views| && IsPassedOver(views[i].kind)
    ensures ParseFrom(views, i, skip, target, rule) == ParseFrom(views, i + 1, skip, target, rule)
  {
  }

  lemma StepSkipIf(views: seq<LineView>, i: nat, skip: bool, target: string, rule: SkipRule)
    requires i < |views| && views[i].kind.SkipIf?
    ensures ParseFrom(views, i, skip, target, rule)
         == ParseFrom(views, i + 1, skip || views[i].kind.db == target, target, rule)
  {
  }

  lemma StepOnlyIf(views: seq<LineView>, i: nat, skip: bool, target: string, rule: SkipRule)
    requires i < |views| && views[i].kind.OnlyIf?
    ensures ParseFrom(views, i, skip, target, rule)
         == ParseFrom(views, i + 1, skip || views[i].kind.db != target, target, rule)
  {
  }

  lemma StepHalt(views: seq<LineView>, i: nat, skip: bool, target: string, rule: SkipRule)
    requires i < |views| && views[i].kind.Halt?
    ensures ParseFrom(views, i, skip, target, rule) == [Control("halt", None, i + 1)]
  {
  }

  lemma StepSkippedHeader(views: seq<LineView>, i: nat, target: string, rule: SkipRule)
    requires i < |views| && IsHeader(views[i].kind)
    ensures ParseFrom(views, i, true, target, rule)
         == ParseFrom(views, ResumeAfterSkip(views, i, rule), false, target, rule)
  {
  }

  lemma StepStatement(views: seq<LineView>, i: nat, target: string, rule: SkipRule)
    requires i < |views| && views[i].kind.StatementHeader?
    ensures ParseFrom(views, i, false, target, rule)
         == StatementRecordAt(views, i).Elements() + ParseFrom(views, StatementEnd(views, i), false, target, rule)
  {
  }

  lemma StepQuery(views: seq<LineView>, i: nat, target: string, rule: SkipRule)
    requires i < |views| && views[i].kind.QueryHeader?
    ensures ParseFrom(views, i, false, target, rule)
         == QueryRecordAt(views, i).Elements() + ParseFrom(views, QueryEnd(views, i), false, target, rule)
  {
  }

  // ---------------------------------------------------------------------------
  // The scanner
  //
  // Each method takes the ghost `views` of its `lines` and states its result in
  // their terms; the code itself tests the raw lines as the source does.

  /** The statement-skipping loop: passes over the lines after the skipped header at
      `h` that are not blank and not directives as read with their line ends. */
  method SkipStatement(lines: seq<string>, ghost views: seq<LineView>, h: nat) returns (i: nat)
    requires ViewsOf(views, lines) && h < |lines|
    ensures i == SkippedStatementEnd(views, h)
  {
    i := h + 1;
    while i < |lines| && IsSkippedBodyLine(lines[i])
      invariant h < i <= |lines|
      invariant ScanFrom(views, i, SkippedBody) == SkippedStatementEnd(views, h)
    {
      i := i + 1;
    }
  }

  /** The first query-skipping loop: moves to the line that strips to `----`. */
  method SkipQuerySql(lines: seq<string>, ghost views: seq<LineView>, h: nat) returns (i: nat)
    requires ViewsOf(views, lines) && h < |lines|
    ensures i == SkippedSeparatorIndex(views, h)
  {
    i := h + 1;
    while i < |lines| && PyStrip(lines[i]) != "----"
      invariant h < i <= |lines|
      invariant ScanFrom(views, i, NotStrippedSeparator) == SkippedSeparatorIndex(views, h)
    {
      i := i + 1;
    }
  }

  /** The second query-skipping loop: passes over the non-blank lines after `s`. */
  method SkipResults(lines: seq<string>, ghost views: seq<LineView>, s: nat) returns (i: nat)
    requires ViewsOf(views, lines) && s < |lines|
    ensures i == SkippedResultsEnd(views, s)
  {
    i := s + 1;
    while i < |lines| && PyStrip(lines[i]) != ""
      invariant s < i <= |lines|
      invariant ScanFrom(views, i, NotBlank) == SkippedResultsEnd(views, s)
    {
      i := i + 1;
    }
  }

  /** Passes over the SQL, separator and results of a skipped `query` header at `h`. */
  method SkipQuery(lines: seq<string>, ghost views: seq<LineView>, h: nat) returns (i: nat)
    requires ViewsOf(views, lines) && h < |lines|
    ensures i == SkippedQueryEnd(views, h)
  {
    var s := SkipQuerySql(lines, views, h);
    i := s + 1;
    if s < |lines| {
      i := SkipResults(lines, views, s);
    }
  }

  /** The statement's SQL loop: collects the lines after the header at `h` up to the
      first blank line or directive. */
  method ReadStatementSql(lines: seq<string>, ghost views: seq<LineView>, h: nat)
    returns (sqlLines: seq<string>, i: nat)
    requires ViewsOf(views, lines) && h < |lines|
    ensures i == StatementEnd(views, h)
    ensures sqlLines == Gather(views, h + 1, i, StatementSql)
  {
    i := h + 1;
    sqlLines := [];
    while i < |lines|
      invariant h < i <= |lines|
      invariant ScanFrom(views, i, Body) == StatementEnd(views, h)
      invariant sqlLines == Gather(views, h + 1, i, StatementSql)
    {
      var sqlLine := StripLineEnd(lines[i]);
      if sqlLine == "" || IsDirective(sqlLine) {
        break;
      }
      sqlLines := sqlLines + [sqlLine];
      i := i + 1;
    }
  }

  /** The query's SQL loop: collects the non-empty lines after the header at `h` up to
      the separator, and stops at the separator or at the end. */
  method ReadQuerySql(lines: seq<string>, ghost views: seq<LineView>, h: nat)
    returns (sqlLines: seq<string>, i: nat)
    requires ViewsOf(views, lines) && h < |lines|
    ensures i == SeparatorIndex(views, h)
    ensures sqlLines == Gather(views, h + 1, i, QuerySql)
  {
    i := h + 1;
    sqlLines := [];
    while i < |lines| && StripLineEnd(lines[i]) != "----"
      invariant h < i <= |lines|
      invariant ScanFrom(views, i, NotSeparator) == SeparatorIndex(views, h)
      invariant sqlLines == Gather(views, h + 1, i, QuerySql)
    {
      var sqlLine := StripLineEnd(lines[i]);
      assert Gather(views, h + 1, i + 1, QuerySql) == sqlLines + Read(views[i], QuerySql);
      if sqlLine != "" {
        sqlLines := sqlLines + [sqlLine];
      } else {
        assert sqlLines + Read(views[i], QuerySql) == sqlLines;
      }
      i := i + 1;
    }
  }

  /** The result loop: collects the values of the lines after the separator at `s` up
      to the first blank line or directive. */
  method ReadResults(lines: seq<string>, ghost views: seq<LineView>, s: nat)
    returns (expectedValues: seq<string>, i: nat)
    requires ViewsOf(views, lines) && s < |lines|
    ensures i == ResultsEnd(views, s)
    ensures expectedValues == Gather(views, s + 1, i, ResultValues)
  {
    i := s + 1;
    expectedValues := [];
    while i < |lines|
      invariant s < i <= |lines|
      invariant ScanFrom(views, i, Body) == ResultsEnd(views, s)
      invariant expectedValues == Gather(views, s + 1, i, ResultValues)
    {
      var resultLine := StripLineEnd(lines[i]);
      if resultLine == "" || IsDirective(resultLine) {
        break;
      }
      expectedValues := expectedValues + LineValues(resultLine);
      i := i + 1;
    }
  }

  /** Reads the options of a query header: the sort mode and the label. */
  method ReadQueryOptions(parts: seq<string>) returns (sortMode: SortMode, queryLabel: Option<string>)
    requires parts != []
    ensures sortMode == HeaderSortMode(parts[1..])
    ensures queryLabel == HeaderLabel(parts[1..])
  {
    sortMode := NoSort;
    queryLabel := None;
    var k := 1;
    while k < |parts|
      invariant 1 <= k <= |parts|
      invariant sortMode == HeaderSortMode(parts[1..k])
      invariant queryLabel == HeaderLabel(parts[1..k])
    {
      var part := parts[k];
      if part == "nosort" || part == "rowsort" || part == "valuesort" {
        sortMode := SortModeOf(part);
      } else {
        queryLabel := Some(part);
      }
      assert parts[1..k + 1][..k - 1] == parts[1..k];
      k := k + 1;
    }
    assert parts[1..k] == parts[1..];
  }

  /** The `statement` branch of `parse_file`'s loop for the header at `h` when no skip
      is pending: the record the header yields, if any, and where the loop goes on. */
  method ReadStatement(lines: seq<string>, ghost views: seq<LineView>, h: nat)
    returns (record: Option<Record>, next: nat)
    requires ViewsOf(views, lines) && h < |lines| && views[h].kind.StatementHeader?
    ensures next == StatementEnd(views, h)
    ensures record == StatementRecordAt(views, h)
  {
    var line := StripLineEnd(lines[h]);
    assert views[h].kind == Classify(line);
    var lineNum := h + 1;
    var expectError := Contains(Lower(line), "error");
    var sqlLines;
    sqlLines, next := ReadStatementSql(lines, views, h);
    record := None;
    if sqlLines != [] {
      record := Some(Statement(Join(sqlLines, "\n"), expectError, lineNum));
    }
  }

  /** A `query` header's tokens are the words after its `query ` prefix. */
  lemma QueryHeaderTokens(lines: seq<string>, views: seq<LineView>, h: nat)
    requires ViewsOf(views, lines) && h < |lines| && views[h].kind.QueryHeader?
    ensures "query " <= StripLineEnd(lines[h])
    ensures views[h].kind.tokens == Words(StripLineEnd(lines[h])[6..], PySpace)
  {
    var line := StripLineEnd(lines[h]);
    assert views[h].kind == Classify(line);
    ClassifiedQuery(line);
  }

  /** A line classified as a `query` header starts with `query `, and its tokens are
      the words after that prefix. */
  lemma ClassifiedQuery(line: string)
    requires Classify(line).QueryHeader?
    ensures "query " <= line && Classify(line).tokens == Words(line[6..], PySpace)
  {
  }

  /** The `query` branch of `parse_file`'s loop for the header at `h` when no skip is
      pending: the record the header yields, if any, and where the loop goes on
      (past the end when no separator follows). */
  method ReadQuery(lines: seq<string>, ghost views: seq<LineView>, h: nat)
    returns (record: Option<Record>, next: nat)
    requires ViewsOf(views, lines) && h < |lines| && views[h].kind.QueryHeader?
    ensures next == QueryEnd(views, h)
    ensures record == QueryRecordAt(views, h)
  {
    var line := StripLineEnd(lines[h]);
    QueryHeaderTokens(lines, views, h);
    var parts := Words(line[6..], PySpace);
    if parts == [] {
      record, next := None, h + 1;
    } else {
      record, next := ReadQueryBody(lines, views, h, parts);
    }
  }

  /** The rest of the `query` branch once the header at `h` has the tokens `parts`:
      the SQL up to the separator, then the result lines up to the next blank line. */
  method ReadQueryBody(lines: seq<string>, ghost views: seq<LineView>, h: nat, parts: seq<string>)
    returns (record: Option<Record>, next: nat)
    requires ViewsOf(views, lines) && h < |lines| && views[h].kind.QueryHeader?
    requires parts == views[h].kind.tokens && parts != []
    ensures next == QueryEnd(views, h)
    ensures record == QueryRecordAt(views, h)
  {
    record := None;
    var columnTypes := parts[0];
    var sortMode, queryLabel := ReadQueryOptions(parts);
    var sqlLines, s := ReadQuerySql(lines, views, h);
    if s >= |lines| {
      next := s + 1;
      return;
    }
    var expectedValues;
    expectedValues, next := ReadResults(lines, views, s);
    if sqlLines != [] {
      record := Some(Query(Join(sqlLines, "\n"), columnTypes, sortMode, expectedValues,
                           queryLabel, h + 1));
    }
  }

  /** The `statement` branch of `parse_file`'s loop for the header at `h`: a skipped
      header passes over its body, any other reads it. */
  method StatementBlock(lines: seq<string>, ghost views: seq<LineView>, h: nat, skipNext: bool,
                        target: string)
    returns (record: Option<Record>, next: nat)
    requires ViewsOf(views, lines) && h < |lines| && views[h].kind.StatementHeader?
    ensures h < next <= |lines| + 1
    ensures ParseFrom(views, h, skipNext, target, AsWritten)
         == record.Elements() + ParseFrom(views, next, false, target, AsWritten)
  {
    if skipNext {
      StepSkippedHeader(views, h, target, AsWritten);
      next := SkipStatement(lines, views, h);
      record := None;
    } else {
      StepStatement(views, h, target, AsWritten);
      record, next := ReadStatement(lines, views, h);
    }
  }

  /** The `query` branch of `parse_file`'s loop for the header at `h`: a skipped header
      passes over its SQL and results, any other reads them. */
  method QueryBlock(lines: seq<string>, ghost views: seq<LineView>, h: nat, skipNext: bool,
                    target: string)
    returns (record: Option<Record>, next: nat)
    requires ViewsOf(views, lines) && h < |lines| && views[h].kind.QueryHeader?
    ensures h < next <= |lines| + 1
    ensures ParseFrom(views, h, skipNext, target, AsWritten)
         == record.Elements() + ParseFrom(views, next, false, target, AsWritten)
  {
    if skipNext {
      StepSkippedHeader(views, h, target, AsWritten);
      next := SkipQuery(lines, views, h);
      record := None;
    } else {
      StepQuery(views, h, target, AsWritten);
      record, next := ReadQuery(lines, views, h);
    }
  }

  /** `parse_file`: one pass over the lines with an index and a one-shot skip flag,
      collecting the records in order. */
  method ParseFile(lines: seq<string>, target: string) returns (records: seq<Record>)
    ensures records == Parse(lines, target)
  {
    ghost var views := Views(lines);
    ViewsOfViews(lines);
    records := ParseLines(lines, views, target);
  }

  /** One turn of `parse_file`'s loop at line `i` with the pending skip flag
      `skipNext`: the record it yields, if any, whether it stops the parse (`halt`),
      and otherwise the line and skip flag the loop goes on with. */
  method ParseStep(lines: seq<string>, ghost views: seq<LineView>, i: nat, skipNext: bool, target: string)
    returns (record: Option<Record>, halted: bool, next: nat, skipAfter: bool)
    requires ViewsOf(views, lines) && i < |lines|
    ensures i < next <= |lines| + 1
    ensures halted ==> ParseFrom(views, i, skipNext, target, AsWritten) == record.Elements()
    ensures !halted ==>
              ParseFrom(views, i, skipNext, target, AsWritten)
              == record.Elements() + ParseFrom(views, next, skipAfter, target, AsWritten)
  {
    var line := StripLineEnd(lines[i]);
    assert views[i].kind == Classify(line);
    var lineNum := i + 1;
    record, halted, next, skipAfter := None, false, i + 1, skipNext;

    if line == "" || "#" <= line {
      StepPassedOver(views, i, skipNext, target, AsWritten);
    } else if "skipif " <= line {
      StepSkipIf(views, i, skipNext, target, AsWritten);
      var db := PyStrip(line[7..]);
      if db == target {
        skipAfter := true;
      }
    } else if "onlyif " <= line {
      StepOnlyIf(views, i, skipNext, target, AsWritten);
      var db := PyStrip(line[7..]);
      if db != target {
        skipAfter := true;
      }
    } else if line == "halt" {
      StepHalt(views, i, skipNext, target, AsWritten);
      record, halted := Some(Control("halt", None, lineNum)), true;
    } else if "hash-threshold " <= line {
      // The threshold is read but no record depends on it.
      StepPassedOver(views, i, skipNext, target, AsWritten);
    } else if "statement " <= line {
      record, next := StatementBlock(lines, views, i, skipNext, target);
      skipAfter := false;
    } else if "query " <= line {
      record, next := QueryBlock(lines, views, i, skipNext, target);
      skipAfter := false;
    } else {
      // An unknown directive: passed over.
      StepPassedOver(views, i, skipNext, target, AsWritten);
    }
  }

  /** The loop of `parse_file`. */
  method ParseLines(lines: seq<string>, ghost views: seq<LineView>, target: string)
    returns (records: seq<Record>)
    requires ViewsOf(views, lines)
    ensures records == ParseFrom(views, 0, false, target, AsWritten)
  {
    var i: nat := 0;
    var skipNext := false;
    records := [];
    while i < |lines|
      invariant i <= |lines| + 1
      invariant records + ParseFrom(views, i, skipNext, target, AsWritten)
             == ParseFrom(views, 0, false, target, AsWritten)
      decreases |lines| + 1 - i
    {
      var record, halted, next, skipAfter := ParseStep(lines, views, i, skipNext, target);
      Ordering.AppendAssociative(records, record.Elements(), ParseFrom(views, next, skipAfter, target, AsWritten));
      records := records + record.Elements();
      if halted {
        return;
      }
      i, skipNext := next, skipAfter;
    }
  }
}
