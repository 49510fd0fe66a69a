/**
  The runner's end of the wire protocol with the database process: how one SQL text is
  framed as a request, how the lines the process prints back are decoded into a reply,
  and the process handle that `start`, `stop` and `restart` replace.
*/
module DbRunner {
  import opened Options
  import opened Strings
  import opened Ordering

  // ---------------------------------------------------------------------------
  // Requests

  /** The SQL as sent: stripped, with `;` appended unless it already ends in one. */
  function CleanSql(sql: string): (r: string)
    ensures r != [] && r[|r| - 1] == ';'
    ensures r == PyStrip(sql) <==> PyStrip(sql) != [] && PyStrip(sql)[|PyStrip(sql)| - 1] == ';'
    ensures r == PyStrip(sql) || r == PyStrip(sql) + ";"
  {
    var s := PyStrip(sql);
    if s != [] && s[|s| - 1] == ';' then s else s + ";"
  }

  /** Cleaning a cleaned request changes nothing. */
  lemma CleanSqlIdempotent(sql: string)
    ensures CleanSql(CleanSql(sql)) == CleanSql(sql)
  {
    var s := PyStrip(sql);
    var c := CleanSql(sql);
    assert !IsPySpace(c[|c| - 1]);
    if s != [] {
      assert s[0] == c[0];
      assert !IsPySpace(s[0]) by {
        assert s == TrimEnd(TrimStart(sql, PySpace), PySpace);
      }
    }
    TrimmedIsFixed(c, PySpace);
  }

  /** Everything written to the process for one SQL text: the cleaned SQL and its
      newline, then the empty line that asks for execution. */
  function Request(sql: string): (r: string)
    ensures |r| >= 3 && r[|r| - 2..] == "\n\n" && r[..|r| - 2] == CleanSql(sql)
  {
    CleanSql(sql) + "\n" + "\n"
  }

  // ---------------------------------------------------------------------------
  // Replies

  /** What `execute` returns: whether the SQL succeeded, the result values (flattened,
      in order), and the error text. */
  datatype Reply = Reply(success: bool, values: seq<string>, error: string)

  const NotRunning: string := "Database process not running"

  function Died(errorText: string): Reply {
    Reply(false, [], "Database process died: " + errorText)
  }

  /** A line the database uses to report an error. */
  predicate IsErrorLine(line: string) {
    "Error:" <= line || "ERROR:" <= line
  }

  /** The values a result line contributes: its tab-separated fields, else its
      `|`-separated fields, else the line itself. */
  function RowValues(line: string): (r: seq<string>)
    ensures |r| >= 1
  {
    if '\t' in line then Split(line, '\t')
    else if '|' in line then Split(line, '|')
    else [line]
  }

  /** The reading loop of `execute` on the lines `out` still to be printed, with the
      values and the error line gathered so far: the reply, and how many lines were
      read.  A line read as empty is the end of the output. */
  function ReadResponse(out: seq<string>, values: seq<string>, err: string, errorText: string): (r: (Reply, nat))
    ensures r.1 <= |out|
    decreases |out|
  {
    if out == [] then (Died(errorText), 0)
    else if out[0] == "" then (Died(errorText), 1)
    else
      var line := StripLineEnd(out[0]);
      if line == "" then
        (if err != "" then Reply(false, [], err) else Reply(true, values, ""), 1)
      else
        var r := if IsErrorLine(line) then ReadResponse(out[1..], values, line, errorText)
                 else ReadResponse(out[1..], values + RowValues(line), err, errorText);
        (r.0, r.1 + 1)
  }

  // ---------------------------------------------------------------------------
  // What a response means

  /** Where the response at the head of the output ends: at the blank line `at`, or
      with the output after `at` lines. */
  datatype Ending = Blank(at: nat) | EndOfOutput(at: nat)

  function EndingOf(out: seq<string>): (e: Ending)
    ensures e.at <= |out|
    ensures e.Blank? ==> e.at < |out| && out[e.at] != "" && StripLineEnd(out[e.at]) == ""
    ensures forall j :: 0 <= j < e.at && j < |out| && (e.Blank? || j < e.at - 1) ==>
              out[j] != "" && StripLineEnd(out[j]) != ""
    decreases |out|
  {
    if out == [] then EndOfOutput(0)
    else if out[0] == "" then EndOfOutput(1)
    else if StripLineEnd(out[0]) == "" then Blank(0)
    else
      match EndingOf(out[1..])
      case Blank(k) => Blank(k + 1)
      case EndOfOutput(k) => EndOfOutput(k + 1)
  }

  /** The last error line of a response body, if it has one. */
  function LastError(body: seq<string>): (r: Option<string>)
    ensures r.None? <==> forall j :: 0 <= j < |body| ==> !IsErrorLine(body[j])
    ensures r.Some? ==> exists j :: 0 <= j < |body| && body[j] == r.value && IsErrorLine(body[j])
                           && forall i :: j < i < |body| ==> !IsErrorLine(body[i])
  {
    if body == [] then None
    else
      match LastError(body[1..])
      case Some(line) =>
        var j :| 0 <= j < |body[1..]| && body[1..][j] == line && IsErrorLine(body[1..][j])
                 && forall i :: j < i < |body[1..]| ==> !IsErrorLine(body[1..][i]);
        assert body[j + 1] == line;
        Some(line)
      case None => if IsErrorLine(body[0]) then Some(body[0]) else None
  }

  /** The values of a response body: those of its lines that are not error lines, in
      order. */
  function BodyValues(body: seq<string>): seq<string> {
    if body == [] then []
    else (if IsErrorLine(body[0]) then [] else RowValues(body[0])) + BodyValues(body[1..])
  }

  /** The reply for a body, given the values and error line gathered before it. */
  function Finish(body: seq<string>, values: seq<string>, err: string): Reply {
    match LastError(body)
    case Some(line) => Reply(false, [], line)
    case None => if err != "" then Reply(false, [], err) else Reply(true, values + BodyValues(body), "")
  }

  /** The reply to one request and the number of lines it takes from the output: up to
      and including the first blank line, failing with the last error line if the body
      has one; a failure when the output ends first. */
  function Decode(out: seq<string>, errorText: string): (Reply, nat) {
    DecodeAfter(out, [], "", errorText)
  }

  /** The same, when `values` and the error line `err` were gathered before `out`. */
  function DecodeAfter(out: seq<string>, values: seq<string>, err: string, errorText: string): (Reply, nat) {
    match EndingOf(out)
    case EndOfOutput(k) => (Died(errorText), k)
    case Blank(k) => (Finish(Map(StripLineEnd, out[..k]), values, err), k + 1)
  }

  /** One line of a body, read before the rest: an error line replaces the error, any
      other line adds its values. */
  lemma FinishStep(line: string, rest: seq<string>, values: seq<string>, err: string)
    ensures Finish([line] + rest, values, err)
         == if IsErrorLine(line) then Finish(rest, values, line)
            else Finish(rest, values + RowValues(line), err)
  {
    var body := [line] + rest;
    assert body[1..] == rest;
    if !IsErrorLine(line) {
      assert BodyValues(body) == RowValues(line) + BodyValues(rest);
      AppendAssociative(values, RowValues(line), BodyValues(rest));
    }
  }

  lemma {:induction false} ReadResponseFinishes(out: seq<string>, values: seq<string>, err: string, errorText: string)
    requires err == "" || IsErrorLine(err)
    ensures ReadResponse(out, values, err, errorText) == DecodeAfter(out, values, err, errorText)
    decreases |out|
  {
    if out == [] || out[0] == "" {
      return;
    }
    var line := StripLineEnd(out[0]);
    if line == "" {
      assert Map(StripLineEnd, out[..0]) == [];
      assert values + BodyValues([]) == values;
      return;
    }
    if IsErrorLine(line) {
      ReadResponseFinishes(out[1..], values, line, errorText);
      ReadLineFinishes(out, values, err, errorText, values, line);
    } else {
      ReadResponseFinishes(out[1..], values + RowValues(line), err, errorText);
      ReadLineFinishes(out, values, err, errorText, values + RowValues(line), err);
    }
  }

  /** One non-blank line read before the rest of the response: what the rest reads to,
      with the line's values or error taken in, is what the whole reads to. */
  lemma ReadLineFinishes(out: seq<string>, values: seq<string>, err: string, errorText: string,
                         values': seq<string>, err': string)
    requires out != [] && out[0] != "" && StripLineEnd(out[0]) != ""
    requires (values', err') == if IsErrorLine(StripLineEnd(out[0])) then (values, StripLineEnd(out[0]))
                                 else (values + RowValues(StripLineEnd(out[0])), err)
    requires ReadResponse(out[1..], values', err', errorText) == DecodeAfter(out[1..], values', err', errorText)
    ensures ReadResponse(out, values, err, errorText) == DecodeAfter(out, values, err, errorText)
  {
    ReadStep(out, values, err, errorText);
    DecodeAfterStep(out, values, err, errorText, values', err');
  }

  /** `DecodeAfter` takes one non-blank line at a time, as the reading loop does. */
  lemma DecodeAfterStep(out: seq<string>, values: seq<string>, err: string, errorText: string,
                        values': seq<string>, err': string)
    requires out != [] && out[0] != "" && StripLineEnd(out[0]) != ""
    requires (values', err') == if IsErrorLine(StripLineEnd(out[0])) then (values, StripLineEnd(out[0]))
                                 else (values + RowValues(StripLineEnd(out[0])), err)
    ensures var d := DecodeAfter(out[1..], values', err', errorText);
            DecodeAfter(out, values, err, errorText) == (d.0, d.1 + 1)
  {
    EndingStep(out);
    var e := EndingOf(out[1..]);
    if e.Blank? {
      BlankAfterStep(out, e.at, values, err);
    }
  }

  lemma BlankAfterStep(out: seq<string>, k: nat, values: seq<string>, err: string)
    requires k < |out| - 1 && out[0] != "" && StripLineEnd(out[0]) != ""
    ensures var line := StripLineEnd(out[0]);
            Finish(Map(StripLineEnd, out[..k + 1]), values, err)
              == if IsErrorLine(line) then Finish(Map(StripLineEnd, out[1..][..k]), values, line)
                 else Finish(Map(StripLineEnd, out[1..][..k]), values + RowValues(line), err)
  {
    StrippedBodyCons(out, k);
    FinishStep(StripLineEnd(out[0]), Map(StripLineEnd, out[1..][..k]), values, err);
  }

  /** The stripped lines of a body are its first line stripped, then the rest stripped. */
  lemma StrippedBodyCons(out: seq<string>, k: nat)
    requires k < |out|
    ensures Map(StripLineEnd, out[..k + 1]) == [StripLineEnd(out[0])] + Map(StripLineEnd, out[1..][..k])
  {
    var body := Map(StripLineEnd, out[..k + 1]);
    var rest := Map(StripLineEnd, out[1..][..k]);
    assert forall j :: 0 <= j < k ==> body[j + 1] == rest[j];
  }

  /** The reading loop computes `Decode`. */
  lemma ReadResponseDecodes(out: seq<string>, errorText: string)
    ensures ReadResponse(out, [], "", errorText) == Decode(out, errorText)
  {
    ReadResponseFinishes(out, [], "", errorText);
  }

  // ---------------------------------------------------------------------------
  // Printed rows read back

  /** A result row as the database prints it: its values separated by tabs. */
  function RowLine(row: seq<string>): string {
    Join(row, "\t")
  }

  /** A row that reads back as itself: no value holds a tab, a lone value holds no `|`,
      and the printed line is not empty, not an error line, and holds no line break. */
  predicate Printable(row: seq<string>) {
    && row != []
    && (forall k :: 0 <= k < |row| ==> '\t' !in row[k])
    && (|row| == 1 ==> '|' !in row[0])
    && RowLine(row) != ""
    && '\n' !in RowLine(row) && '\r' !in RowLine(row)
    && !IsErrorLine(RowLine(row))
  }

  /** The lines a database prints for `rows`, each with its newline. */
  function PrintedLines(rows: seq<seq<string>>): (r: seq<string>)
    ensures |r| == |rows|
  {
    Map((row: seq<string>) => RowLine(row) + "\n", rows)
  }

  lemma RowValuesOfRowLine(row: seq<string>)
    requires Printable(row)
    ensures RowValues(RowLine(row)) == row
  {
    if |row| == 1 {
      assert RowLine(row) == row[0];
    } else {
      assert '\t' in RowLine(row) by {
        assert RowLine(row) == row[0] + "\t" + Join(row[1..], "\t");
        assert RowLine(row)[|row[0]|] == '\t';
      }
      SplitJoin(row, '\t');
    }
  }

  lemma StripPrintedLine(x: string)
    requires x != "" && '\n' !in x && '\r' !in x
    ensures StripLineEnd(x + "\n") == x
  {
    assert (x + "\n")[..|x|] == x;
    assert x[|x| - 1] in x;
  }

  lemma {:induction false} ReadPrintedRows(rows: seq<seq<string>>, more: seq<string>, values: seq<string>, errorText: string)
    requires forall k :: 0 <= k < |rows| ==> Printable(rows[k])
    ensures ReadResponse(PrintedLines(rows) + ["\n"] + more, values, "", errorText)
         == (Reply(true, values + Flatten(rows), ""), |rows| + 1)
  {
    var out := PrintedLines(rows) + ["\n"] + more;
    if rows == [] {
      assert out[0] == "\n";
      assert StripLineEnd("\n") == StripLineEnd("");
      assert values + Flatten(rows) == values;
    } else {
      var line := RowLine(rows[0]);
      assert out[0] == line + "\n";
      StripPrintedLine(line);
      RowValuesOfRowLine(rows[0]);
      assert out[1..] == PrintedLines(rows[1..]) + ["\n"] + more;
      ReadPrintedRows(rows[1..], more, values + rows[0], errorText);
      AppendAssociative(values, rows[0], Flatten(rows[1..]));
    }
  }

  /** Rows printed one per line and closed by a blank line decode as the values of
      those rows, in order, and nothing after the blank line is read. */
  lemma DecodePrintedRows(rows: seq<seq<string>>, more: seq<string>, errorText: string)
    requires forall k :: 0 <= k < |rows| ==> Printable(rows[k])
    ensures Decode(PrintedLines(rows) + ["\n"] + more, errorText) == (Reply(true, Flatten(rows), ""), |rows| + 1)
  {
    var out := PrintedLines(rows) + ["\n"] + more;
    assert ReadResponse(out, [], "", errorText) == (Reply(true, Flatten(rows), ""), |rows| + 1) by {
      ReadPrintedRows(rows, more, [], errorText);
      assert [] + Flatten(rows) == Flatten(rows);
    }
    ReadResponseDecodes(out, errorText);
  }

  // ---------------------------------------------------------------------------
  // The process handle

  /** A line that neither ends the output nor is blank leaves the kind of ending as
      it was. */
  lemma EndingStep(out: seq<string>)
    requires out != [] && out[0] != "" && StripLineEnd(out[0]) != ""
    ensures EndingOf(out).Blank? == EndingOf(out[1..]).Blank?
    ensures EndingOf(out).at == EndingOf(out[1..]).at + 1
  {
  }

  /** One non-blank line read: an error line replaces the error, any other line adds
      its values. */
  lemma ReadStep(out: seq<string>, values: seq<string>, err: string, errorText: string)
    requires out != [] && out[0] != "" && StripLineEnd(out[0]) != ""
    ensures var line := StripLineEnd(out[0]);
            var r := if IsErrorLine(line) then ReadResponse(out[1..], values, line, errorText)
                     else ReadResponse(out[1..], values + RowValues(line), err, errorText);
            ReadResponse(out, values, err, errorText) == (r.0, r.1 + 1)
  {
  }

  /** The database process as the runner sees it: whether it is still running (what
      `poll` reports), the text written to its standard input, the lines it has yet to
      print (each as `readline` returns it, the empty string once the output has
      ended), and what it prints on standard error.  A process whose output has ended
      has exited. */
  datatype Process = Process(running: bool, written: string, pending: seq<string>, errorText: string)

  /** The effect of one `execute` on the process handle: the reply, and the handle
      after.  A response cut short by the end of the output leaves the process exited. */
  function ExecuteOn(process: Option<Process>, sql: string): (Reply, Option<Process>) {
    if process.None? || !process.value.running then (Reply(false, [], NotRunning), process)
    else
      var p := process.value;
      var (reply, used) := Decode(p.pending, p.errorText);
      (reply, Some(p.(running := EndingOf(p.pending).Blank?, written := p.written + Request(sql),
                      pending := p.pending[used..])))
  }

  /** Once the output has ended the process has died: that `execute` reports it, and
      every later one answers that the process is not running and writes nothing. */
  lemma ExitedProcessStaysDown(p: Process, sql: string, sql': string)
    requires p.running && EndingOf(p.pending).EndOfOutput?
    ensures var (reply, after) := ExecuteOn(Some(p), sql);
            && reply == Died(p.errorText)
            && after.Some? && !after.value.running && after.value.written == p.written + Request(sql)
            && ExecuteOn(after, sql') == (Reply(false, [], NotRunning), after)
  {
  }

  /** While the output lasts, the process keeps running. */
  lemma AnsweredProcessKeepsRunning(p: Process, sql: string)
    requires p.running && EndingOf(p.pending).Blank?
    ensures var (reply, after) := ExecuteOn(Some(p), sql);
            after.Some? && after.value.running && reply == Decode(p.pending, p.errorText).0
  {
  }

  class DatabaseRunner {
    /** The running database process, if any. */
    var process: Option<Process>

    constructor ()
      ensures process == None
    {
      process := None;
    }

    /** Starts the database.  `binaryExists` says whether the binary is on disk;
        `spawned` is the new process, or `None` when spawning it fails. */
    method Start(binaryExists: bool, spawned: Option<Process>) returns (ok: bool)
      modifies this
      ensures ok <==> binaryExists && spawned.Some?
      ensures process == if ok then spawned else old(process)
    {
      if !binaryExists {
        return false;
      }
      if spawned.None? {
        return false;
      }
      process := spawned;
      return true;
    }

    /** Stops the database: afterwards there is no process. */
    method Stop()
      modifies this
      ensures process == None
    {
      if process.Some? {
        process := None;
      }
    }

    /** `Stop`, then `Start`: a fresh process, or none at all. */
    method Restart(binaryExists: bool, spawned: Option<Process>) returns (ok: bool)
      modifies this
      ensures ok <==> binaryExists && spawned.Some?
      ensures process == if ok then spawned else None
    {
      Stop();
      ok := Start(binaryExists, spawned);
    }

    /** Sends one SQL text and reads the reply. */
    method Execute(sql: string) returns (success: bool, values: seq<string>, error: string)
      modifies this
      ensures Reply(success, values, error) == ExecuteOn(old(process), sql).0
      ensures process == ExecuteOn(old(process), sql).1
    {
      if process.None? || !process.value.running {
        return false, [], NotRunning;
      }
      var p := process.value;
      var sqlClean := PyStrip(sql);
      if !(sqlClean != [] && sqlClean[|sqlClean| - 1] == ';') {
        sqlClean := sqlClean + ";";
      }
      p := p.(written := p.written + sqlClean + "\n");
      p := p.(written := p.written + "\n");
      ghost var p0 := old(process).value;
      assert p == p0.(written := p0.written + Request(sql)) by {
        assert sqlClean == CleanSql(sql);
        assert p.written == p0.written + sqlClean + "\n" + "\n";
      }
      process := Some(p);
      success, values, error := ReadReply();
    }

    /** The reading loop of `Execute`: lines up to the first blank one, or to the end
        of the output. */
    method ReadReply() returns (success: bool, values: seq<string>, error: string)
      requires process.Some?
      modifies this
      ensures var p := old(process).value;
              var (reply, used) := Decode(p.pending, p.errorText);
              && Reply(success, values, error) == reply
              && process == Some(p.(running := p.running && EndingOf(p.pending).Blank?, pending := p.pending[used..]))
    {
      var p := process.value;
      ghost var p0 := p;
      ghost var out := p.pending;
      ghost var used := 0;
      var results: seq<string> := [];
      var errorMsg := "";
      ghost var total := Decode(out, p.errorText);
      ReadResponseDecodes(out, p.errorText);
      while true
        invariant used <= |out| && p.pending == out[used..]
        invariant p == p0.(pending := p.pending)
        invariant errorMsg == "" || IsErrorLine(errorMsg)
        invariant ReadResponse(p.pending, results, errorMsg, p.errorText).0 == total.0
        invariant ReadResponse(p.pending, results, errorMsg, p.errorText).1 + used == total.1
        invariant EndingOf(p.pending).Blank? == EndingOf(out).Blank?
        decreases |p.pending|
      {
        ghost var current := p.pending;
        var line := "";
        if p.pending != [] {
          line := p.pending[0];
          p := p.(pending := p.pending[1..]);
          used := used + 1;
        }
        if line == "" {
          assert EndingOf(current).EndOfOutput?;
          process := Some(p.(running := false));
          return false, [], "Database process died: " + p.errorText;
        }
        line := StripLineEnd(line);
        if line == "" {
          assert EndingOf(current).Blank?;
          break;
        }
        EndingStep(current);
        ReadStep(current, results, errorMsg, p.errorText);
        if IsErrorLine(line) {
          errorMsg := line;
          continue;
        }
        ghost var before := results;
        if '\t' in line {
          results := results + Split(line, '\t');
        } else if '|' in line {
          results := results + Split(line, '|');
        } else {
          results := results + [line];
        }
        assert results == before + RowValues(line);
      }
      process := Some(p);
      if errorMsg != "" {
        return false, [], errorMsg;
      }
      return true, results, "";
    }
  }
}
