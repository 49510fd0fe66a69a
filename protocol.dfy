/**
  The two ends of the wire protocol put together: the runner writes framed requests
  to the starter REPL's standard input and decodes the lines it prints back.  Each
  request is executed exactly once, each response is read whole and nothing more, so
  a run of requests and replies stays in step.
*/
module Protocol {
  import opened Options
  import opened Strings
  import opened Ordering
  import DbRunner
  import Repl

  /** The lines the REPL prints, each as the runner's `readline` returns it. */
  function ReadBack(lines: seq<string>): (r: seq<string>)
    ensures |r| == |lines|
  {
    Map((line: string) => line + "\n", lines)
  }

  lemma ReadBackAppend(a: seq<string>, b: seq<string>)
    ensures ReadBack(a + b) == ReadBack(a) + ReadBack(b)
  {
  }

  /** The lines of a request's SQL as the REPL reads them. */
  function RequestLines(sql: string): seq<string> {
    Split(DbRunner.CleanSql(sql), '\n')
  }

  /** A request the REPL reads as one statement: every line of its SQL is non-empty
      and reads back as itself. */
  predicate Sendable(sql: string) {
    forall k :: 0 <= k < |RequestLines(sql)| ==> RequestLines(sql)[k] != "" && Repl.PlainLine(RequestLines(sql)[k])
  }

  /** The statement the REPL runs for a request: its lines joined with spaces and
      trimmed. */
  function Statement(sql: string): string {
    RustTrim(Join(RequestLines(sql), " "))
  }

  /** The text of a request is its lines followed by an empty line. */
  lemma RequestText(sql: string)
    ensures DbRunner.Request(sql) == Repl.Text(RequestLines(sql) + [""])
  {
    var parts := RequestLines(sql);
    JoinSplit(DbRunner.CleanSql(sql), '\n');
    Repl.TextJoin(parts);
    Repl.TextJoin(parts + [""]);
    assert Join(parts + [""], "\n") == Join(parts, "\n") + "\n" + "" by {
      JoinAppend(parts, "", "\n");
    }
  }

  /** Joining with one more part at the end adds a separator and the part. */
  lemma {:induction false} JoinAppend(parts: seq<string>, last: string, sep: string)
    requires parts != []
    ensures Join(parts + [last], sep) == Join(parts, sep) + sep + last
  {
    if |parts| > 1 {
      assert (parts + [last])[1..] == parts[1..] + [last];
      JoinAppend(parts[1..], last, sep);
    } else {
      assert (parts + [last])[1..] == [last];
    }
  }

  /** The REPL reads a request as its lines and one empty line, whatever follows. */
  lemma RequestReadAsLines(sql: string, more: string)
    requires Sendable(sql)
    ensures Repl.InputLines(DbRunner.Request(sql) + more) == RequestLines(sql) + [""] + Repl.InputLines(more)
  {
    RequestText(sql);
    Repl.InputLinesOfText(RequestLines(sql) + [""], more);
  }

  /** One request leads to exactly one execution, of the request's statement, and the
      REPL then goes on with what follows as if from the start. */
  lemma OneRequestOneExecution(sql: string, more: string)
    requires Sendable(sql)
    ensures Repl.Session(Repl.InputLines(DbRunner.Request(sql) + more), "")
            == Repl.ExecuteSql(Statement(sql)) + Repl.Session(Repl.InputLines(more), "")
  {
    RequestReadAsLines(sql, more);
    Repl.StatementThenBlank(RequestLines(sql), Repl.InputLines(more));
  }

  /** The reply the runner decodes from the REPL's answer to `statement`. */
  function Answer(statement: string): DbRunner.Reply {
    var clean := Repl.CleanStatement(statement);
    if clean == [] then DbRunner.Reply(true, [], "")
    else DbRunner.Reply(false, [], Repl.NotImplemented + Repl.FirstWord(clean))
  }

  /** The first word holds no line break. */
  lemma FirstWordOnOneLine(s: string)
    ensures '\n' !in Repl.FirstWord(s) && '\r' !in Repl.FirstWord(s)
  {
    var words := Words(s, RustSpace);
    if words != [] {
      WordsAreWords(s, RustSpace);
      assert IsWord(words[0], RustSpace);
    }
  }

  /** The runner decodes every response of the REPL to its answer and reads exactly
      the response's lines, leaving what follows for the next request. */
  lemma ResponseDecodes(statement: string, more: seq<string>, errorText: string)
    ensures DbRunner.Decode(ReadBack(Repl.ExecuteSql(statement)) + more, errorText)
            == (Answer(statement), |Repl.ExecuteSql(statement)|)
    ensures DbRunner.EndingOf(ReadBack(Repl.ExecuteSql(statement)) + more).Blank?
  {
    var clean := Repl.CleanStatement(statement);
    if clean == [] {
      AcknowledgementDecodes(ReadBack(Repl.ExecuteSql(statement)) + more, errorText);
    } else {
      var line := Repl.NotImplemented + Repl.FirstWord(clean);
      FirstWordOnOneLine(clean);
      NotImplementedLine(Repl.FirstWord(clean));
      var out := ReadBack(Repl.ExecuteSql(statement)) + more;
      assert out[0] == line + "\n" && out[1] == "\n";
      ErrorDecodes(line, out, errorText);
    }
  }

  /** The not-implemented line is an error line on one line. */
  lemma NotImplementedLine(word: string)
    requires '\n' !in word && '\r' !in word
    ensures var line := Repl.NotImplemented + word;
            "Error:" <= line && '\n' !in line && '\r' !in line
  {
    var line := Repl.NotImplemented + word;
    assert line[..6] == Repl.NotImplemented[..6];
    forall k | 0 <= k < |line| ensures line[k] != '\n' && line[k] != '\r' {
      if k >= |Repl.NotImplemented| {
        assert line[k] == word[k - |Repl.NotImplemented|];
      }
    }
  }

  /** A lone blank line is a success without values. */
  lemma AcknowledgementDecodes(out: seq<string>, errorText: string)
    requires out != [] && out[0] == "\n"
    ensures DbRunner.Decode(out, errorText) == (DbRunner.Reply(true, [], ""), 1)
    ensures DbRunner.EndingOf(out) == DbRunner.Blank(0)
  {
    assert StripLineEnd(out[0]) == "" by {
      assert out[0][..0] == "";
    }
    assert DbRunner.EndingOf(out) == DbRunner.Blank(0);
    assert out[..0] == [];
    assert Map(StripLineEnd, out[..0]) == [];
    assert DbRunner.LastError([]) == None;
    assert DbRunner.BodyValues([]) == [];
    assert DbRunner.Finish([], [], "") == DbRunner.Reply(true, [], "");
  }

  /** An error line and a blank line are a failure with that error line. */
  lemma ErrorDecodes(line: string, out: seq<string>, errorText: string)
    requires "Error:" <= line && '\n' !in line && '\r' !in line
    requires |out| >= 2 && out[0] == line + "\n" && out[1] == "\n"
    ensures DbRunner.Decode(out, errorText) == (DbRunner.Reply(false, [], line), 2)
    ensures DbRunner.EndingOf(out) == DbRunner.Blank(1)
  {
    DbRunner.StripPrintedLine(line);
    assert DbRunner.EndingOf(out[1..]) == DbRunner.Blank(0);
    assert DbRunner.EndingOf(out) == DbRunner.Blank(1);
    assert Map(StripLineEnd, out[..1]) == [line];
    assert DbRunner.IsErrorLine(line);
    assert DbRunner.LastError([line][1..]) == None;
    assert DbRunner.LastError([line]) == Some(line);
  }

  /** The text of a run of requests. */
  function Requests(sqls: seq<string>): string {
    if sqls == [] then "" else DbRunner.Request(sqls[0]) + Requests(sqls[1..])
  }

  /** The replies to a run of `execute` calls, and the process handle after them. */
  function Converse(process: Option<DbRunner.Process>, sqls: seq<string>): (r: (seq<DbRunner.Reply>, Option<DbRunner.Process>))
    ensures |r.0| == |sqls|
    decreases |sqls|
  {
    if sqls == [] then ([], process)
    else
      var step := DbRunner.ExecuteOn(process, sqls[0]);
      var rest := Converse(step.1, sqls[1..]);
      ([step.0] + rest.0, rest.1)
  }

  /** One `execute` against the REPL: the request's answer is decoded, the request is
      added to the process's input and the response is taken from its output. */
  lemma ExecuteAgainstRepl(sql: string, rest: string, written: string, errorText: string)
    requires Sendable(sql)
    ensures var out := Repl.Session(Repl.InputLines(DbRunner.Request(sql) + rest), "");
            var later := Repl.Session(Repl.InputLines(rest), "");
            DbRunner.ExecuteOn(Some(DbRunner.Process(true, written, ReadBack(out), errorText)), sql)
            == (Answer(Statement(sql)), Some(DbRunner.Process(true, written + DbRunner.Request(sql), ReadBack(later), errorText)))
  {
    var response := Repl.ExecuteSql(Statement(sql));
    var later := Repl.Session(Repl.InputLines(rest), "");
    OneRequestOneExecution(sql, rest);
    ReadBackAppend(response, later);
    ResponseDecodes(Statement(sql), ReadBack(later), errorText);
    var out := ReadBack(response) + ReadBack(later);
    assert out[|response|..] == ReadBack(later);
  }

  lemma RequestsCons(sqls: seq<string>, more: string)
    requires sqls != []
    ensures Requests(sqls) + more == DbRunner.Request(sqls[0]) + (Requests(sqls[1..]) + more)
  {
  }

  /** The answer to each request of a run, in order. */
  function Answers(sqls: seq<string>): (r: seq<DbRunner.Reply>)
    ensures |r| == |sqls|
  {
    if sqls == [] then [] else [Answer(Statement(sqls[0]))] + Answers(sqls[1..])
  }

  /** What the REPL prints for `text`, as the runner reads it line by line. */
  function Printed(text: string): seq<string> {
    ReadBack(Repl.Session(Repl.InputLines(text), ""))
  }

  /** Against the REPL, a run of requests gets one answer each, in order: the process
      prints exactly what the REPL prints for the text it is sent, and after the run
      its input holds the requests and its pending output what the REPL prints for
      the text that follows. */
  lemma {:induction false} ConversationStaysInStep(sqls: seq<string>, more: string, written: string, errorText: string)
    requires forall k :: 0 <= k < |sqls| ==> Sendable(sqls[k])
    ensures var process := DbRunner.Process(true, written, Printed(Requests(sqls) + more), errorText);
            var after := DbRunner.Process(true, written + Requests(sqls), Printed(more), errorText);
            Converse(Some(process), sqls) == (Answers(sqls), Some(after))
  {
    if sqls != [] {
      var sql := sqls[0];
      var rest := Requests(sqls[1..]) + more;
      var first := DbRunner.Process(true, written, Printed(Requests(sqls) + more), errorText);
      var next := DbRunner.Process(true, written + DbRunner.Request(sql), Printed(rest), errorText);
      var last := DbRunner.Process(true, written + Requests(sqls), Printed(more), errorText);
      assert Converse(Some(next), sqls[1..]) == (Answers(sqls[1..]), Some(last)) by {
        ConversationStaysInStep(sqls[1..], more, written + DbRunner.Request(sql), errorText);
        WrittenCons(sqls, written);
      }
      assert DbRunner.ExecuteOn(Some(first), sql) == (Answer(Statement(sql)), Some(next)) by {
        RequestsCons(sqls, more);
        ExecuteAgainstRepl(sql, rest, written, errorText);
      }
      ConverseStep(Some(first), sqls, Some(next));
    } else {
      assert Requests(sqls) + more == more;
      assert written + Requests(sqls) == written;
    }
  }

  /** The input after the first request, then the rest, is the input after all of them. */
  lemma WrittenCons(sqls: seq<string>, written: string)
    requires sqls != []
    ensures written + DbRunner.Request(sqls[0]) + Requests(sqls[1..]) == written + Requests(sqls)
  {
    AppendAssociative(written, DbRunner.Request(sqls[0]), Requests(sqls[1..]));
  }

  /** A run of `execute` calls is the first call, then the run of the rest. */
  lemma ConverseStep(process: Option<DbRunner.Process>, sqls: seq<string>, next: Option<DbRunner.Process>)
    requires sqls != [] && DbRunner.ExecuteOn(process, sqls[0]).1 == next
    ensures Converse(process, sqls)
         == ([DbRunner.ExecuteOn(process, sqls[0]).0] + Converse(next, sqls[1..]).0, Converse(next, sqls[1..]).1)
  {
  }
}
