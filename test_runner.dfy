/**
  The test runner's bookkeeping: which test files it runs, how it judges the records
  of one file against the database's replies, the counters it keeps across files,
  and the line number it reports for the first failing file.
*/
module TestRunner {
  import opened Options
  import opened Strings
  import opened Ordering
  import opened SltParser
  import Comparator
  import opened DbRunner

  // ---------------------------------------------------------------------------
  // Finding test files

  /** A path as the sequence of its components. */
  type Path = seq<string>

  /** Python's ordering of paths: component by component, each by code point. */
  function PathLe(a: Path, b: Path): bool {
    LexLe(a, b, Comparator.StrLe)
  }

  lemma PathLeTotal()
    ensures TotalOrder(PathLe)
  {
    Comparator.StrLeTotal();
    LexTotalOrder(Comparator.StrLe, PathLe);
  }

  /** The index of the last `c` in `s` (Python `s.rfind(c)`), or -1 when there is none. */
  function LastIndexOfChar(s: string, c: char): (k: int)
    ensures -1 <= k < |s|
    ensures k >= 0 ==> s[k] == c
    ensures forall j :: k < j < |s| ==> s[j] != c
  {
    if s == [] then -1
    else if s[|s| - 1] == c then |s| - 1
    else LastIndexOfChar(s[..|s| - 1], c)
  }

  /** The last component of a path (`Path.name`). */
  function Name(path: Path): string {
    if path == [] then "" else path[|path| - 1]
  }

  /** The file name without its suffix (`Path.stem`): the part before the last `.`,
      unless that `.` is the first or the last character of the name. */
  function Stem(path: Path): string {
    var name := Name(path);
    var i := LastIndexOfChar(name, '.');
    if 0 < i < |name| - 1 then name[..i] else name
  }

  /** The stem of a `.test` file is its name without `.test`. */
  lemma StemOfTestFile(path: Path, base: string)
    requires path != [] && Name(path) == base + ".test" && base != ""
    ensures Stem(path) == base
  {
    var name := Name(path);
    assert name[|base|] == '.';
    forall j | |base| < j < |name| ensures name[j] != '.' {
      assert name[j] == ".test"[j - |base|];
    }
    assert LastIndexOfChar(name, '.') == |base|;
    assert name[..|base|] == base;
  }

  /** Whether `find_test_files` keeps a file: always without a pattern (`None` or
      empty), otherwise when the pattern occurs in the file's stem. */
  predicate Selected(pattern: Option<string>, path: Path) {
    pattern.None? || pattern.value == "" || Contains(Stem(path), pattern.value)
  }

  /** `find_test_files` over the `.test` files found under the test directory, in
      any order: sorted, then filtered by the pattern. */
  function FindTestFiles(files: seq<Path>, pattern: Option<string>): seq<Path> {
    var all := Sort(files, PathLe);
    if pattern.None? || pattern.value == "" then all
    else Filter((f: Path) => Contains(Stem(f), pattern.value), all)
  }

  /** The files are returned in path order, exactly those the pattern selects, each
      as often as it was found. */
  lemma FindTestFilesSelects(files: seq<Path>, pattern: Option<string>)
    ensures SortedBy(FindTestFiles(files, pattern), PathLe)
    ensures forall f :: multiset(FindTestFiles(files, pattern))[f]
                        == if Selected(pattern, f) then multiset(files)[f] else 0
  {
    PathLeTotal();
    var all := Sort(files, PathLe);
    SortSorted(files, PathLe);
    if !(pattern.None? || pattern.value == "") {
      var keep := (f: Path) => Contains(Stem(f), pattern.value);
      FilterSorted(keep, all, PathLe);
      FilterMultiset(keep, all);
    }
  }

  /** The result does not depend on the order in which the files were found. */
  lemma FindTestFilesIgnoresOrder(files: seq<Path>, files': seq<Path>, pattern: Option<string>)
    requires multiset(files) == multiset(files')
    ensures FindTestFiles(files, pattern) == FindTestFiles(files', pattern)
  {
    PathLeTotal();
    SortDependsOnlyOnMultiset(files, files', PathLe);
  }

  // ---------------------------------------------------------------------------
  // The first failure's line number

  /** The start of every failure detail: `Line <n>: `. */
  function LinePrefix(lineNumber: nat): string {
    "Line " + NatToString(lineNumber) + ": "
  }

  /** The line number `run` reports for a failing file's detail: the integer between
      the first `Line ` and the next `:` (Python
      `int(detail.split("Line ")[1].split(":")[0])`), or 0 when the detail has no
      `Line ` or that text is not an integer. */
  function LineOfDetail(detail: string): int {
    match Find(detail, "Line ")
    case None => 0
    case Some(i) => ParseInt(LineField(detail[i + 5..])).GetOr(0)
  }

  /** The text after the first `Line ` up to the next `Line `, cut at its first `:`. */
  function LineField(after: string): string {
    var piece := match Find(after, "Line ") case Some(j) => after[..j] case None => after;
    piece[..IndexOfChar(piece, ':')]
  }

  /** After `Line `, digits followed by `: ` are the field, whatever follows. */
  lemma LineFieldOfDigits(digits: string, rest: string)
    requires AllDigits(digits)
    ensures LineField(digits + ": " + rest) == digits
  {
    var after := digits + ": " + rest;
    assert Find(after, "Line ").Some? ==> Find(after, "Line ").value > |digits| by {
      FindIsFirst(after, "Line ");
      forall j | 0 <= j <= |digits| ensures !("Line " <= after[j..]) {
        assert after[j] != 'L' by {
          if j < |digits| {
            assert after[j] == digits[j] && IsDigit(digits[j]);
          }
        }
      }
    }
    var piece := match Find(after, "Line ") case Some(j) => after[..j] case None => after;
    assert |piece| > |digits|;
    assert forall j :: 0 <= j <= |digits| ==> piece[j] == after[j];
    forall j | 0 <= j < |digits| ensures piece[j] != ':' {
      assert piece[j] == digits[j] && IsDigit(digits[j]);
    }
    IndexOfCharIsFirst(piece, ':', |digits|);
    assert piece[..|digits|] == digits;
  }

  /** A detail that starts with `Line <n>: ` reports line `n`, whatever follows. */
  lemma LineOfDetailRoundTrip(n: nat, rest: string)
    ensures LineOfDetail(LinePrefix(n) + rest) == n
  {
    var digits := NatToString(n);
    var detail := LinePrefix(n) + rest;
    assert detail == "Line " + (digits + ": " + rest);
    assert Find(detail, "Line ") == Some(0);
    assert detail[5..] == digits + ": " + rest;
    LineFieldOfDigits(digits, rest);
    ParseIntOfNatToString(n);
  }

  /** A detail without `Line ` reports line 0. */
  lemma LineOfDetailWithoutMarker(detail: string)
    requires forall j :: 0 <= j <= |detail| ==> !("Line " <= detail[j..])
    ensures LineOfDetail(detail) == 0
  {
  }

  // ---------------------------------------------------------------------------
  // The verdict on one file

  /** What running some records amounts to: whether they all passed, the detail of
      the last failure (empty when none failed), how many statements and queries ran
      and how many of each failed. */
  datatype Tally = Tally(passed: bool, detail: string, statements: nat, queries: nat,
                         failedStatements: nat, failedQueries: nat)

  const Empty := Tally(true, "", 0, 0, 0, 0)

  /** The tally of `a`'s records followed by `b`'s. */
  function Then(a: Tally, b: Tally): Tally {
    Tally(a.passed && b.passed, if b.detail != "" then b.detail else a.detail,
          a.statements + b.statements, a.queries + b.queries,
          a.failedStatements + b.failedStatements, a.failedQueries + b.failedQueries)
  }

  lemma ThenAssociative(a: Tally, b: Tally, c: Tally)
    ensures Then(Then(a, b), c) == Then(a, Then(b, c))
  {
  }

  /** The outcome of one record: its tally, the database process after it, and
      whether the run of the file stops there. */
  datatype Outcome = Outcome(tally: Tally, process: Option<Process>, stop: bool)

  /** The tally of one failure of a statement or query at `lineNumber`. */
  function Failed(lineNumber: nat, message: string, statement: bool): Tally {
    Tally(false, LinePrefix(lineNumber) + message, if statement then 1 else 0, if statement then 0 else 1,
          if statement then 1 else 0, if statement then 0 else 1)
  }

  /** The tally of one statement or query that passed. */
  function Succeeded(statement: bool): Tally {
    Tally(true, "", if statement then 1 else 0, if statement then 0 else 1, 0, 0)
  }

  /** One record run against the database: a statement fails when it succeeds though
      an error was expected or fails though none was; a query fails when it cannot be
      executed or its values do not match.  `halt` stops the file, and so does any
      failure when `failFast` is set. */
  function StepRecord(record: Record, process: Option<Process>, failFast: bool,
                      fmt: Comparator.NumericFormat): Outcome {
    match record
    case Control(directive, _, _) => Outcome(Empty, process, directive == "halt")
    case Statement(sql, expectError, lineNumber) =>
      var e := ExecuteOn(process, sql);
      if e.0.success == expectError then
        var message := if expectError then "Expected error but got success" else e.0.error;
        Outcome(Failed(lineNumber, message, true), e.1, failFast)
      else Outcome(Succeeded(true), e.1, false)
    case Query(sql, columnTypes, sortMode, expectedValues, _, lineNumber) =>
      var e := ExecuteOn(process, sql);
      if !e.0.success then Outcome(Failed(lineNumber, e.0.error, false), e.1, failFast)
      else
        var verdict := Comparator.Compare(e.0.values, expectedValues, columnTypes, sortMode, fmt);
        if verdict.Pass? then Outcome(Succeeded(false), e.1, false)
        else Outcome(Failed(lineNumber, Comparator.Message(verdict), false), e.1, failFast)
  }

  /** How one record is run: its outcome from the database process before it. */
  type Step = (Record, Option<Process>) -> Outcome

  /** The records run in order by `step` until one stops the run: the tally and the
      database process afterwards. */
  function Run(records: seq<Record>, process: Option<Process>, step: Step): (Tally, Option<Process>)
    decreases |records|
  {
    if records == [] then (Empty, process)
    else
      var o := step(records[0], process);
      if o.stop then (o.tally, o.process)
      else
        var rest := Run(records[1..], o.process, step);
        (Then(o.tally, rest.0), rest.1)
  }

  /** The test runner's step: `StepRecord` with its settings fixed. */
  function CheckRecord(failFast: bool, fmt: Comparator.NumericFormat): Step {
    (record: Record, process: Option<Process>) => StepRecord(record, process, failFast, fmt)
  }

  /** The records of a file run in order against the database until one stops the
      run: the tally and the database process afterwards. */
  function RunRecords(records: seq<Record>, process: Option<Process>, failFast: bool,
                      fmt: Comparator.NumericFormat): (Tally, Option<Process>)
    decreases |records|
  {
    if records == [] then (Empty, process)
    else
      var o := StepRecord(records[0], process, failFast, fmt);
      if o.stop then (o.tally, o.process)
      else
        var rest := RunRecords(records[1..], o.process, failFast, fmt);
        (Then(o.tally, rest.0), rest.1)
  }

  /** Running the records against the database is `Run` with the runner's step. */
  lemma {:induction false} RunRecordsIsRun(records: seq<Record>, process: Option<Process>, failFast: bool,
                                           fmt: Comparator.NumericFormat)
    ensures RunRecords(records, process, failFast, fmt) == Run(records, process, CheckRecord(failFast, fmt))
    decreases |records|
  {
    if records != [] {
      var o := StepRecord(records[0], process, failFast, fmt);
      assert CheckRecord(failFast, fmt)(records[0], process) == o;
      RunRecordsIsRun(records[1..], o.process, failFast, fmt);
    }
  }

  /** `RunRecords` from position `i`: the record there, then, unless it stops the
      run, the records after it. */
  lemma RunRecordsFrom(records: seq<Record>, i: nat, process: Option<Process>, failFast: bool,
                       fmt: Comparator.NumericFormat)
    requires i < |records|
    ensures var o := StepRecord(records[i], process, failFast, fmt);
            var rest := RunRecords(records[i + 1..], o.process, failFast, fmt);
            RunRecords(records[i..], process, failFast, fmt)
            == if o.stop then (o.tally, o.process) else (Then(o.tally, rest.0), rest.1)
  {
    assert records[i..][0] == records[i] && records[i..][1..] == records[i + 1..];
  }

  /** A tally whose pass flag, detail and counters agree: it passed exactly when nothing
      failed and exactly when there is no detail, and no more failed than ran. */
  predicate Consistent(t: Tally) {
    (t.passed <==> t.failedStatements + t.failedQueries == 0)
    && (t.passed <==> t.detail == "")
    && t.failedStatements <= t.statements && t.failedQueries <= t.queries
  }

  lemma ThenConsistent(a: Tally, b: Tally)
    requires Consistent(a) && Consistent(b)
    ensures Consistent(Then(a, b))
  {
  }

  lemma StepConsistent(record: Record, process: Option<Process>, failFast: bool, fmt: Comparator.NumericFormat)
    ensures Consistent(StepRecord(record, process, failFast, fmt).tally)
  {
    match record
    case Control(_, _, _) =>
    case Statement(_, _, lineNumber) =>
      assert LinePrefix(lineNumber) != [];
    case Query(_, _, _, _, _, lineNumber) =>
      assert LinePrefix(lineNumber) != [];
  }

  lemma {:induction false} RunConsistentFor(records: seq<Record>, process: Option<Process>, step: Step)
    requires forall r, p :: Consistent(step(r, p).tally)
    ensures Consistent(Run(records, process, step).0)
    decreases |records|
  {
    if records != [] {
      var o := step(records[0], process);
      if !o.stop {
        RunConsistentFor(records[1..], o.process, step);
        ThenConsistent(o.tally, Run(records[1..], o.process, step).0);
      }
    }
  }

  /** A file's verdict, detail and counters always agree. */
  lemma RunConsistent(records: seq<Record>, process: Option<Process>, failFast: bool,
                      fmt: Comparator.NumericFormat)
    ensures Consistent(RunRecords(records, process, failFast, fmt).0)
  {
    var step := CheckRecord(failFast, fmt);
    forall r, p ensures Consistent(step(r, p).tally) {
      StepConsistent(r, p, failFast, fmt);
    }
    RunConsistentFor(records, process, step);
    RunRecordsIsRun(records, process, failFast, fmt);
  }

  /** The number of failures a tally records. */
  function Failures(t: Tally): nat {
    t.failedStatements + t.failedQueries
  }

  /** An outcome with at most one failure, which stops the run if there is one. */
  predicate StopsAtFailure(o: Outcome) {
    Failures(o.tally) <= 1 && (Failures(o.tally) == 1 ==> o.stop)
  }

  lemma {:induction false} AtMostOneFailure(records: seq<Record>, process: Option<Process>, step: Step)
    requires forall r, p :: StopsAtFailure(step(r, p))
    ensures Failures(Run(records, process, step).0) <= 1
    decreases |records|
  {
    if records != [] {
      var o := step(records[0], process);
      assert StopsAtFailure(o);
      if !o.stop {
        AtMostOneFailure(records[1..], o.process, step);
      }
    }
  }

  /** With `failFast` a file records at most one failure: the run stops at the first. */
  lemma FailFastStopsAtFirstFailure(records: seq<Record>, process: Option<Process>, fmt: Comparator.NumericFormat)
    ensures var t := RunRecords(records, process, true, fmt).0;
            t.failedStatements + t.failedQueries <= 1
  {
    var step := CheckRecord(true, fmt);
    forall r, p ensures StopsAtFailure(step(r, p)) {
      var o := StepRecord(r, p, true, fmt);
    }
    AtMostOneFailure(records, process, step);
    RunRecordsIsRun(records, process, true, fmt);
  }

  predicate IsHalt(record: Record) {
    record.Control? && record.directive == "halt"
  }

  lemma {:induction false} StopEndsRun(records: seq<Record>, k: nat, process: Option<Process>, step: Step)
    requires k < |records| && forall p :: step(records[k], p).stop
    ensures Run(records, process, step) == Run(records[..k + 1], process, step)
    decreases k
  {
    var o := step(records[0], process);
    if k > 0 && !o.stop {
      assert records[..k + 1][1..] == records[1..][..k];
      StopEndsRun(records[1..], k - 1, o.process, step);
    } else if k == 0 {
      assert step(records[..1][0], process).stop;
    }
  }

  /** `halt` ends the file: the records after it are never run. */
  lemma HaltEndsFile(records: seq<Record>, k: nat, process: Option<Process>, failFast: bool,
                     fmt: Comparator.NumericFormat)
    requires k < |records| && IsHalt(records[k])
    ensures RunRecords(records, process, failFast, fmt) == RunRecords(records[..k + 1], process, failFast, fmt)
  {
    var step := CheckRecord(failFast, fmt);
    forall p ensures step(records[k], p).stop {
      assert StepRecord(records[k], p, failFast, fmt).stop;
    }
    StopEndsRun(records, k, process, step);
    RunRecordsIsRun(records, process, failFast, fmt);
    RunRecordsIsRun(records[..k + 1], process, failFast, fmt);
  }

  /** The records before the first `halt`. */
  function BeforeHalt(records: seq<Record>): (r: seq<Record>)
    ensures |r| <= |records|
  {
    if records == [] || IsHalt(records[0]) then [] else [records[0]] + BeforeHalt(records[1..])
  }

  /** An outcome that counts its record once, as a statement or a query, and stops
      the run only at `halt`. */
  predicate CountsOnce(r: Record, o: Outcome) {
    o.tally.statements == (if r.Statement? then 1 else 0)
    && o.tally.queries == (if r.Query? then 1 else 0)
    && (o.stop <==> IsHalt(r))
  }

  lemma {:induction false} CountsBeforeHalt(records: seq<Record>, process: Option<Process>, step: Step)
    requires forall r, p :: CountsOnce(r, step(r, p))
    ensures var t := Run(records, process, step).0;
            t.statements == |Filter((r: Record) => r.Statement?, BeforeHalt(records))|
            && t.queries == |Filter((r: Record) => r.Query?, BeforeHalt(records))|
    decreases |records|
  {
    if records != [] {
      var o := step(records[0], process);
      assert CountsOnce(records[0], o);
      if !o.stop {
        CountsBeforeHalt(records[1..], o.process, step);
        assert BeforeHalt(records) == [records[0]] + BeforeHalt(records[1..]);
      }
    }
  }

  /** Without `failFast` every statement and query before the first `halt` runs once. */
  lemma EveryRecordRuns(records: seq<Record>, process: Option<Process>, fmt: Comparator.NumericFormat)
    ensures var t := RunRecords(records, process, false, fmt).0;
            t.statements == |Filter((r: Record) => r.Statement?, BeforeHalt(records))|
            && t.queries == |Filter((r: Record) => r.Query?, BeforeHalt(records))|
  {
    var step := CheckRecord(false, fmt);
    forall r, p ensures CountsOnce(r, step(r, p)) {
      StepCountsOnce(r, p, fmt);
    }
    CountsBeforeHalt(records, process, step);
    RunRecordsIsRun(records, process, false, fmt);
  }

  /** Without `failFast` a record counts once, and only `halt` stops the run. */
  lemma StepCountsOnce(record: Record, process: Option<Process>, fmt: Comparator.NumericFormat)
    ensures CountsOnce(record, StepRecord(record, process, false, fmt))
  {
    match record
    case Control(_, _, _) =>
    case Statement(_, _, _) =>
    case Query(_, _, _, _, _, _) =>
  }

  /** An outcome whose failure detail names its record's line, as `lineOf` reads it. */
  predicate NamesLine(r: Record, o: Outcome, lineOf: string -> int) {
    Consistent(o.tally) && (!o.tally.passed ==> !r.Control? && lineOf(o.tally.detail) == r.lineNumber)
  }

  /** The detail of a failed tally names its line. */
  lemma FailedNamesLine(lineNumber: nat, message: string, statement: bool)
    ensures LineOfDetail(Failed(lineNumber, message, statement).detail) == lineNumber
  {
    LineOfDetailRoundTrip(lineNumber, message);
  }

  lemma FailedStepNamesLine(record: Record, process: Option<Process>, failFast: bool, fmt: Comparator.NumericFormat)
    ensures NamesLine(record, StepRecord(record, process, failFast, fmt), LineOfDetail)
  {
    StepConsistent(record, process, failFast, fmt);
    match record
    case Control(_, _, _) =>
    case Statement(sql, expectError, lineNumber) =>
      var e := ExecuteOn(process, sql);
      var message := if expectError then "Expected error but got success" else e.0.error;
      FailedNamesLine(lineNumber, message, true);
    case Query(sql, columnTypes, sortMode, expectedValues, _, lineNumber) =>
      var e := ExecuteOn(process, sql);
      FailedNamesLine(lineNumber, e.0.error, false);
      if e.0.success {
        var verdict := Comparator.Compare(e.0.values, expectedValues, columnTypes, sortMode, fmt);
        FailedNamesLine(lineNumber, Comparator.Message(verdict), false);
      }
  }

  lemma {:induction false} DetailNamesRecordFor(records: seq<Record>, process: Option<Process>, step: Step,
                                                lineOf: string -> int)
    requires forall r, p :: NamesLine(r, step(r, p), lineOf)
    ensures var t := Run(records, process, step).0;
            Consistent(t)
            && (!t.passed ==> exists k :: 0 <= k < |records| && !records[k].Control?
                                          && records[k].lineNumber == lineOf(t.detail))
    decreases |records|
  {
    var t := Run(records, process, step).0;
    if records != [] {
      var o := step(records[0], process);
      assert NamesLine(records[0], o, lineOf);
      if !o.stop {
        var rest := Run(records[1..], o.process, step).0;
        DetailNamesRecordFor(records[1..], o.process, step, lineOf);
        ThenConsistent(o.tally, rest);
        if !rest.passed {
          var j :| 0 <= j < |records| - 1 && !records[1..][j].Control?
                   && records[1..][j].lineNumber == lineOf(rest.detail);
          assert records[j + 1] == records[1..][j];
        } else if !t.passed {
          assert records[0].lineNumber == lineOf(t.detail);
        }
      }
    }
  }

  /** A failing file's detail names the line of one of its statements or queries. */
  lemma DetailNamesRecord(records: seq<Record>, process: Option<Process>, failFast: bool,
                          fmt: Comparator.NumericFormat)
    ensures var t := RunRecords(records, process, failFast, fmt).0;
            !t.passed ==> exists k :: 0 <= k < |records| && !records[k].Control?
                                      && records[k].lineNumber == LineOfDetail(t.detail)
  {
    var step := CheckRecord(failFast, fmt);
    forall r, p ensures NamesLine(r, step(r, p), LineOfDetail) {
      FailedStepNamesLine(r, p, failFast, fmt);
    }
    DetailNamesRecordFor(records, process, step, LineOfDetail);
    RunRecordsIsRun(records, process, failFast, fmt);
  }

  // ---------------------------------------------------------------------------
  // The runner

  /** The first failing file: its path, the line its detail names, and the detail. */
  datatype Failure = Failure(path: Path, line: int, detail: string)

  /** The message of a file whose database could not be started. */
  const NotStarted := "Database failed to start"

  class TestRunner {
    /** Whether a file stops at its first failing record. */
    const failFast: bool
    var filesPassed: nat
    var filesFailed: nat
    var totalStatements: nat
    var totalQueries: nat
    var failedStatements: nat
    var failedQueries: nat
    var firstFailure: Option<Failure>

    /** No more statements or queries failed than ran, and a first failure is only
        recorded for a file that failed. */
    predicate Valid()
      reads this
    {
      failedStatements <= totalStatements && failedQueries <= totalQueries
      && (firstFailure.Some? ==> filesFailed > 0)
    }

    constructor (failFast: bool)
      ensures Valid()
      ensures this.failFast == failFast && firstFailure == None
      ensures filesPassed == filesFailed == 0
      ensures totalStatements == totalQueries == failedStatements == failedQueries == 0
    {
      this.failFast := failFast;
      filesPassed, filesFailed := 0, 0;
      totalStatements, totalQueries, failedStatements, failedQueries := 0, 0, 0, 0;
      firstFailure := None;
    }

    /** Runs one record against the database and counts it. */
    method RunRecord(record: Record, db: DatabaseRunner, fmt: Comparator.NumericFormat)
      returns (ok: bool, detail: string, stop: bool)
      modifies this`totalStatements, this`totalQueries, this`failedStatements, this`failedQueries, db
      ensures var o := StepRecord(record, old(db.process), failFast, fmt);
              ok == o.tally.passed && detail == o.tally.detail && stop == o.stop && db.process == o.process
              && totalStatements == old(totalStatements) + o.tally.statements
              && totalQueries == old(totalQueries) + o.tally.queries
              && failedStatements == old(failedStatements) + o.tally.failedStatements
              && failedQueries == old(failedQueries) + o.tally.failedQueries
    {
      match record {
        case Control(directive, _, _) =>
          ok, detail, stop := true, "", directive == "halt";
        case Statement(_, _, _) =>
          ok, detail, stop := RunStatement(record, db);
        case Query(_, _, _, _, _, _) =>
          ok, detail, stop := RunQuery(record, db, fmt);
      }
    }

    /** Executes a statement: it fails when it succeeds though an error was expected,
        or fails though none was. */
    method RunStatement(record: Record, db: DatabaseRunner) returns (ok: bool, detail: string, stop: bool)
      requires record.Statement?
      modifies this`totalStatements, this`failedStatements, db
      ensures var e := ExecuteOn(old(db.process), record.sql);
              var failed := e.0.success == record.expectError;
              ok == !failed && stop == (failed && failFast) && db.process == e.1
              && detail == (if !failed then ""
                            else LinePrefix(record.lineNumber)
                                 + if record.expectError then "Expected error but got success" else e.0.error)
              && totalStatements == old(totalStatements) + 1
              && failedStatements == old(failedStatements) + (if failed then 1 else 0)
    {
      ok, detail, stop := true, "", false;
      totalStatements := totalStatements + 1;
      var success, _, error := db.Execute(record.sql);
      if record.expectError {
        if success {
          ok := false;
          failedStatements := failedStatements + 1;
          detail := LinePrefix(record.lineNumber) + "Expected error but got success";
          stop := failFast;
        }
      } else {
        if !success {
          ok := false;
          failedStatements := failedStatements + 1;
          detail := LinePrefix(record.lineNumber) + error;
          stop := failFast;
        }
      }
    }

    /** Executes a query: it fails when it cannot be executed or its values do not
        match the expected ones. */
    method RunQuery(record: Record, db: DatabaseRunner, fmt: Comparator.NumericFormat)
      returns (ok: bool, detail: string, stop: bool)
      requires record.Query?
      modifies this`totalQueries, this`failedQueries, db
      ensures var e := ExecuteOn(old(db.process), record.sql);
              var verdict := Comparator.Compare(e.0.values, record.expectedValues, record.columnTypes, record.sortMode, fmt);
              var failed := !e.0.success || !verdict.Pass?;
              ok == !failed && stop == (failed && failFast) && db.process == e.1
              && detail == (if !e.0.success then LinePrefix(record.lineNumber) + e.0.error
                            else if verdict.Pass? then "" else LinePrefix(record.lineNumber) + Comparator.Message(verdict))
              && totalQueries == old(totalQueries) + 1
              && failedQueries == old(failedQueries) + (if failed then 1 else 0)
    {
      ok, detail, stop := true, "", false;
      totalQueries := totalQueries + 1;
      var success, results, error := db.Execute(record.sql);
      if !success {
        ok := false;
        failedQueries := failedQueries + 1;
        detail := LinePrefix(record.lineNumber) + error;
        stop := failFast;
      } else {
        var passed, diff := Comparator.CompareResults(results, record.expectedValues, record.columnTypes,
                                                      record.sortMode, fmt);
        if !passed {
          ok := false;
          failedQueries := failedQueries + 1;
          detail := LinePrefix(record.lineNumber) + diff;
          stop := failFast;
        }
      }
    }

    /** Runs the records of a file in order until one stops the run, counting them. */
    method RunRecordsOf(records: seq<Record>, db: DatabaseRunner, fmt: Comparator.NumericFormat)
      returns (passed: bool, detail: string)
      modifies this`totalStatements, this`totalQueries, this`failedStatements, this`failedQueries, db
      ensures var run := RunRecords(records, old(db.process), failFast, fmt);
              passed == run.0.passed && detail == run.0.detail && db.process == run.1
              && totalStatements == old(totalStatements) + run.0.statements
              && totalQueries == old(totalQueries) + run.0.queries
              && failedStatements == old(failedStatements) + run.0.failedStatements
              && failedQueries == old(failedQueries) + run.0.failedQueries
    {
      passed, detail := true, "";
      ghost var full := RunRecords(records, db.process, failFast, fmt);
      ghost var soFar := Empty;
      var i := 0;
      while i < |records|
        invariant i <= |records|
        invariant passed == soFar.passed && detail == soFar.detail
        invariant totalStatements == old(totalStatements) + soFar.statements
        invariant totalQueries == old(totalQueries) + soFar.queries
        invariant failedStatements == old(failedStatements) + soFar.failedStatements
        invariant failedQueries == old(failedQueries) + soFar.failedQueries
        invariant Then(soFar, RunRecords(records[i..], db.process, failFast, fmt).0) == full.0
        invariant RunRecords(records[i..], db.process, failFast, fmt).1 == full.1
      {
        ghost var step := StepRecord(records[i], db.process, failFast, fmt);
        ghost var rest := RunRecords(records[i + 1..], step.process, failFast, fmt);
        RunRecordsFrom(records, i, db.process, failFast, fmt);
        StepConsistent(records[i], db.process, failFast, fmt);
        var ok, message, stop := RunRecord(records[i], db, fmt);
        ThenAssociative(soFar, step.tally, rest.0);
        soFar := Then(soFar, step.tally);
        if !ok {
          passed, detail := false, message;
        }
        if stop {
          break;
        }
        i := i + 1;
      }
    }

    /** Counts a file as passed or failed, and records it as the first failure when
        it failed and none was recorded before. */
    method CountFile(path: Path, passed: bool, detail: string)
      modifies this`filesPassed, this`filesFailed, this`firstFailure
      ensures filesPassed == old(filesPassed) + (if passed then 1 else 0)
      ensures filesFailed == old(filesFailed) + (if passed then 0 else 1)
      ensures firstFailure == if old(firstFailure).None? && !passed
                              then Some(Failure(path, LineOfDetail(detail), detail))
                              else old(firstFailure)
    {
      if passed {
        filesPassed := filesPassed + 1;
      } else {
        filesFailed := filesFailed + 1;
        if firstFailure.None? {
          firstFailure := Some(Failure(path, LineOfDetail(detail), detail));
        }
      }
    }

    /** Runs one test file on a freshly restarted database: `lines` are the file's
        lines, and `binaryExists` and `spawned` say how the restart goes.  Returns
        whether the file passed and the detail of its last failure. */
    method RunFile(path: Path, lines: seq<string>, db: DatabaseRunner, binaryExists: bool,
                   spawned: Option<Process>, fmt: Comparator.NumericFormat)
      returns (passed: bool, detail: string)
      requires Valid()
      modifies this, db
      ensures Valid()
      ensures !(binaryExists && spawned.Some?) ==>
                !passed && detail == NotStarted && db.process == None
                && filesPassed == old(filesPassed) && filesFailed == old(filesFailed)
                && totalStatements == old(totalStatements) && totalQueries == old(totalQueries)
                && failedStatements == old(failedStatements) && failedQueries == old(failedQueries)
                && firstFailure == old(firstFailure)
      ensures binaryExists && spawned.Some? ==>
                var run := RunRecords(Parse(lines, DefaultTarget), spawned, failFast, fmt);
                passed == run.0.passed && detail == run.0.detail && db.process == run.1
                && filesPassed == old(filesPassed) + (if passed then 1 else 0)
                && filesFailed == old(filesFailed) + (if passed then 0 else 1)
                && totalStatements == old(totalStatements) + run.0.statements
                && totalQueries == old(totalQueries) + run.0.queries
                && failedStatements == old(failedStatements) + run.0.failedStatements
                && failedQueries == old(failedQueries) + run.0.failedQueries
                && firstFailure == if old(firstFailure).None? && !passed
                                   then Some(Failure(path, LineOfDetail(detail), detail))
                                   else old(firstFailure)
    {
      var started := db.Restart(binaryExists, spawned);
      if !started {
        return false, NotStarted;
      }
      var records := ParseFile(lines, DefaultTarget);
      RunConsistent(records, spawned, failFast, fmt);
      passed, detail := RunRecordsOf(records, db, fmt);
      CountFile(path, passed, detail);
    }
  }
}
