/**
  The starter database's read-eval-print loop, the far end of the runner's wire
  protocol: it reads its standard input as lines, gathers the non-empty lines of one
  statement into a buffer, and answers each statement with a response that ends in a
  blank line.  Output is modelled as the sequence of lines written, each without its
  `\n`.
*/
module Repl {
  import opened Strings
  import opened Ordering

  // ---------------------------------------------------------------------------
  // Reading lines

  /** A line as `BufRead::lines` yields it once its `\n` is gone: without a `\r` that
      stood just before the `\n`. */
  function DropCarriageReturn(s: string): (r: string)
    ensures r == s || s == r + "\r"
    ensures s == [] || s[|s| - 1] != '\r' ==> r == s
  {
    if s != [] && s[|s| - 1] == '\r' then s[..|s| - 1] else s
  }

  /** The lines of the text on standard input, in the order `stdin.lock().lines()`
      yields them: split at each `\n`; a last line without `\n` is yielded as it
      stands, and nothing follows a final `\n`. */
  function InputLines(text: string): seq<string>
    decreases |text|
  {
    var k := IndexOfChar(text, '\n');
    if k == |text| then (if text == [] then [] else [text])
    else [DropCarriageReturn(text[..k])] + InputLines(text[k + 1..])
  }

  /** The text of `lines` written one per line, as `writeln!` writes them. */
  function Text(lines: seq<string>): string {
    Flatten(Map((line: string) => line + "\n", lines))
  }

  /** A line that reads back as itself: no `\n` inside, no `\r` at its end. */
  predicate PlainLine(line: string) {
    '\n' !in line && (line == [] || line[|line| - 1] != '\r')
  }

  /** Reading back the text of plain lines gives those lines, whatever text follows. */
  lemma {:induction false} InputLinesOfText(lines: seq<string>, more: string)
    requires forall k :: 0 <= k < |lines| ==> PlainLine(lines[k])
    ensures InputLines(Text(lines) + more) == lines + InputLines(more)
  {
    if lines == [] {
      assert Text(lines) + more == more;
    } else {
      var line := lines[0];
      var rest := lines[1..];
      assert InputLines(Text(lines) + more) == [line] + InputLines(Text(rest) + more) by {
        ReadFirstLine(lines, more);
      }
      InputLinesOfText(rest, more);
      assert lines + InputLines(more) == [line] + (rest + InputLines(more)) by {
        assert lines == [line] + rest;
        AppendAssociative([line], rest, InputLines(more));
      }
    }
  }

  /** The first line of the text of plain lines is read back first. */
  lemma ReadFirstLine(lines: seq<string>, more: string)
    requires lines != [] && PlainLine(lines[0])
    ensures var text := Text(lines) + more;
            IndexOfChar(text, '\n') == |lines[0]| && text[..|lines[0]|] == lines[0]
            && text[|lines[0]| + 1..] == Text(lines[1..]) + more
  {
    var line := lines[0];
    var text := Text(lines) + more;
    assert Map((l: string) => l + "\n", lines) == [line + "\n"] + Map((l: string) => l + "\n", lines[1..]);
    assert text == line + "\n" + (Text(lines[1..]) + more);
    forall j | 0 <= j < |line| ensures text[j] != '\n' {
      assert text[j] == line[j];
    }
    IndexOfCharIsFirst(text, '\n', |line|);
  }

  /** The text of plain lines joined with `\n` and ended with `\n`. */
  lemma {:induction false} TextJoin(lines: seq<string>)
    requires lines != []
    ensures Text(lines) == Join(lines, "\n") + "\n"
  {
    assert Map((l: string) => l + "\n", lines) == [lines[0] + "\n"] + Map((l: string) => l + "\n", lines[1..]);
    if |lines| > 1 {
      TextJoin(lines[1..]);
    } else {
      assert Text(lines[1..]) == [];
    }
  }

  // ---------------------------------------------------------------------------
  // Executing one statement

  /** What `execute_sql` runs: the statement trimmed, stripped of all trailing `;`,
      and trimmed again. */
  function CleanStatement(sql: string): string {
    RustTrim(TrimEnd(RustTrim(sql), Semicolon))
  }

  /** The first whitespace-separated token of `sql`, or `unknown` when it has none. */
  function FirstWord(sql: string): (r: string)
    ensures r != []
  {
    var words := Words(sql, RustSpace);
    if words == [] then "unknown"
    else
      WordsAreWords(sql, RustSpace);
      words[0]
  }

  const NotImplemented: string := "Error: not implemented - "

  /** The lines `execute_sql` writes for `sql`: a lone blank line for an empty
      statement, otherwise the not-implemented error line and a blank line. */
  function ExecuteSql(sql: string): (r: seq<string>)
    ensures |r| >= 1 && r[|r| - 1] == ""
    ensures forall k :: 0 <= k < |r| - 1 ==> r[k] != ""
    ensures r == [""] <==> CleanStatement(sql) == ""
    ensures CleanStatement(sql) != "" ==> |r| == 2 && r[0] == NotImplemented + FirstWord(CleanStatement(sql))
  {
    var clean := CleanStatement(sql);
    if clean == [] then [""] else [NotImplemented + FirstWord(clean), ""]
  }

  /** The first word is the word after any leading whitespace, up to the next
      whitespace or the end. */
  lemma FirstWordOf(space: string, w: string, rest: string)
    requires forall k :: 0 <= k < |space| ==> IsRustSpace(space[k])
    requires IsWord(w, RustSpace)
    requires rest == [] || IsRustSpace(rest[0])
    ensures FirstWord(space + w + rest) == w
  {
    var s := space + w + rest;
    assert s == space + (w + rest);
    LeadingCountAppend(space, w + rest, RustSpace);
    assert LeadingCount(w + rest, RustSpace) == 0 by {
      assert (w + rest)[0] == w[0];
    }
    assert TrimStart(s, RustSpace) == w + rest;
    WordLengthOfWord(w, rest, RustSpace);
    assert (w + rest)[..|w|] == w;
  }

  /** A statement of whitespace alone has no first word. */
  lemma FirstWordOfSpace(space: string)
    requires forall k :: 0 <= k < |space| ==> IsRustSpace(space[k])
    ensures FirstWord(space) == "unknown"
  {
    LeadingCountAppend(space, [], RustSpace);
    assert space + [] == space;
  }

  /** The first word of `s` is `s[a..b]` when whitespace comes before `a`, none
      inside, and whitespace or the end at `b`. */
  lemma FirstWordAt(s: string, a: nat, b: nat)
    requires a < b <= |s|
    requires forall k :: 0 <= k < a ==> IsRustSpace(s[k])
    requires forall k :: a <= k < b ==> !IsRustSpace(s[k])
    requires b == |s| || IsRustSpace(s[b])
    ensures FirstWord(s) == s[a..b]
  {
    assert s == s[..a] + s[a..b] + s[b..];
    FirstWordOf(s[..a], s[a..b], s[b..]);
  }

  /** The cases of `first_word`'s unit test. */
  lemma FirstWordOfSelect()
    ensures FirstWord("SELECT 1") == "SELECT"
  {
    FirstWordAt("SELECT 1", 0, 6);
  }

  lemma FirstWordOfCreate()
    ensures FirstWord("CREATE TABLE t1(x INT)") == "CREATE"
  {
    FirstWordAt("CREATE TABLE t1(x INT)", 0, 6);
  }

  lemma FirstWordOfIndentedInsert()
    ensures FirstWord("  INSERT INTO t1 VALUES(1)") == "INSERT"
  {
    var s := "  INSERT INTO t1 VALUES(1)";
    assert IsRustSpace(s[0]) && IsRustSpace(s[1]) && IsRustSpace(s[8]);
    assert s[2..8] == "INSERT" by {
      forall k | 0 <= k < 6 ensures s[2..8][k] == "INSERT"[k] {
        assert s[2..8][k] == s[k + 2];
      }
    }
    FirstWordAt(s, 2, 8);
  }

  /** The statement `execute_sql` runs is trimmed and is the same after a second
      cleaning. */
  lemma CleanStatementIdempotent(sql: string)
    ensures RustTrim(CleanStatement(sql)) == CleanStatement(sql)
  {
    TrimIdempotent(TrimEnd(RustTrim(sql), Semicolon), RustSpace);
  }

  /** A semicolon added after a trimmed statement does not change what is executed. */
  lemma SemicolonIgnored(sql: string)
    requires RustTrim(sql) == sql
    ensures CleanStatement(sql + ";") == CleanStatement(sql)
  {
    assert RustTrim(sql + ";") == sql + ";" by {
      assert !IsRustSpace(';');
      TrimmedAppend(sql, ';', RustSpace);
    }
    assert TrimEnd(sql + ";", Semicolon) == TrimEnd(sql, Semicolon) by {
      TrimEndAppend(sql, ';', Semicolon);
    }
  }

  // ---------------------------------------------------------------------------
  // The accumulation loop

  /** The buffer after the non-empty line `line` is added: separated from what is
      there by one space. */
  function Accumulate(buffer: string, line: string): (r: string)
    ensures line != [] ==> r != []
  {
    if buffer == [] then line else buffer + " " + line
  }

  /** What a non-empty buffer produces when it is executed. */
  function Flush(buffer: string): seq<string> {
    if buffer == [] then [] else ExecuteSql(RustTrim(buffer))
  }

  /** The lines the loop writes for the input lines still to come, with `buffer`
      gathered so far: an empty line executes a non-empty buffer and clears it, any
      other line is added to the buffer, and a buffer left at the end is executed. */
  function Session(lines: seq<string>, buffer: string): seq<string>
    decreases |lines|
  {
    if lines == [] then Flush(buffer)
    else if lines[0] == [] then Flush(buffer) + Session(lines[1..], [])
    else Session(lines[1..], Accumulate(buffer, lines[0]))
  }

  /** One turn of the loop. */
  lemma SessionUnfold(lines: seq<string>, buffer: string)
    requires lines != []
    ensures Session(lines, buffer) == if lines[0] == [] then Flush(buffer) + Session(lines[1..], [])
                                      else Session(lines[1..], Accumulate(buffer, lines[0]))
  {
  }

  /** `main`: read every line of standard input and answer each statement. */
  method Serve(input: string) returns (output: seq<string>)
    ensures output == Session(InputLines(input), "")
  {
    var lines := InputLines(input);
    var buffer := "";
    output := [];
    var i := 0;
    while i < |lines|
      invariant i <= |lines|
      invariant output + Session(lines[i..], buffer) == Session(lines, "")
    {
      var line := lines[i];
      ghost var before, written := buffer, output;
      if line == [] {
        if buffer != [] {
          var sql := RustTrim(buffer);
          output := output + ExecuteSql(sql);
          buffer := "";
        }
      } else {
        if buffer != [] {
          buffer := buffer + " ";
        }
        buffer := buffer + line;
      }
      assert output + Session(lines[i + 1..], buffer) == Session(lines, "") by {
        assert lines[i..][1..] == lines[i + 1..];
        SessionUnfold(lines[i..], before);
        if line == [] {
          assert output == written + Flush(before);
          AppendAssociative(written, Flush(before), Session(lines[i + 1..], []));
        } else {
          assert buffer == Accumulate(before, line);
        }
      }
      i := i + 1;
    }
    if buffer != [] {
      var sql := RustTrim(buffer);
      output := output + ExecuteSql(sql);
    }
  }

  // ---------------------------------------------------------------------------
  // What a session means

  /** The runs of lines between empty lines (the separators dropped), as a split of
      the input at its empty lines. */
  function Groups(lines: seq<string>): (g: seq<seq<string>>)
    ensures |g| >= 1
    ensures forall i, j :: 0 <= i < |g| && 0 <= j < |g[i]| ==> g[i][j] != ""
    decreases |lines|
  {
    if lines == [] then [[]]
    else if lines[0] == "" then [[]] + Groups(lines[1..])
    else
      var g := Groups(lines[1..]);
      assert forall i, j :: 1 <= i < |g| && 0 <= j < |g[i]| ==> g[i][j] != "";
      [[lines[0]] + g[0]] + g[1..]
  }

  /** The statements of the input: its non-empty runs of non-empty lines. */
  function Batches(lines: seq<string>): seq<seq<string>> {
    NonEmpty(Groups(lines))
  }

  function NonEmpty(gs: seq<seq<string>>): (r: seq<seq<string>>)
    ensures forall k :: 0 <= k < |r| ==> r[k] != []
    ensures forall k :: 0 <= k < |r| ==> r[k] in gs
  {
    if gs == [] then []
    else (if gs[0] == [] then [] else [gs[0]]) + NonEmpty(gs[1..])
  }

  /** One statement of lines, joined with spaces, trimmed and executed. */
  function ExecuteBatch(batch: seq<string>): seq<string> {
    ExecuteSql(RustTrim(Join(batch, " ")))
  }

  function ExecuteAll(batches: seq<seq<string>>): seq<string> {
    Flatten(Map(ExecuteBatch, batches))
  }

  /** The buffer after a whole run of non-empty lines is added. */
  function Extend(buffer: string, group: seq<string>): string {
    if group == [] then buffer else Accumulate(buffer, Join(group, " "))
  }

  lemma JoinNonEmpty(parts: seq<string>, sep: string)
    requires parts != [] && parts[0] != []
    ensures Join(parts, sep) != []
  {
  }

  lemma ExecuteAllStep(gs: seq<seq<string>>)
    requires gs != []
    ensures ExecuteAll(NonEmpty(gs)) == (if gs[0] == [] then [] else ExecuteBatch(gs[0])) + ExecuteAll(NonEmpty(gs[1..]))
  {
    var rest := NonEmpty(gs[1..]);
    var head: seq<seq<string>> := if gs[0] == [] then [] else [gs[0]];
    assert NonEmpty(gs) == head + rest;
    FlattenMapAppend(ExecuteBatch, head, rest);
    if gs[0] != [] {
      FlattenMapSingle(ExecuteBatch, gs[0]);
    }
  }

  /** The loop from any buffer: the first run of lines is added to the buffer, which
      is flushed at the first empty line (or the end), and every later run is one
      statement. */
  lemma {:induction false} SessionFromBuffer(lines: seq<string>, buffer: string)
    ensures var g := Groups(lines);
            Session(lines, buffer) == Flush(Extend(buffer, g[0])) + ExecuteAll(NonEmpty(g[1..]))
    decreases |lines|
  {
    var g := Groups(lines);
    if lines == [] {
      assert g[1..] == [];
    } else if lines[0] == "" {
      var h := Groups(lines[1..]);
      assert g[0] == [] && g[1..] == h;
      assert Session(lines, buffer) == Flush(buffer) + Session(lines[1..], "");
      SessionFromBuffer(lines[1..], "");
      FlushFirstGroup(h[0]);
      ExecuteAllStep(h);
      AppendAssociative(Flush(buffer), Flush(Extend("", h[0])), ExecuteAll(NonEmpty(h[1..])));
    } else {
      var line := lines[0];
      var h := Groups(lines[1..]);
      assert g[0] == [line] + h[0] && g[1..] == h[1..];
      assert Session(lines, buffer) == Session(lines[1..], Accumulate(buffer, line));
      SessionFromBuffer(lines[1..], Accumulate(buffer, line));
      ExtendLine(buffer, line, h[0]);
    }
  }

  /** A first run flushed from an empty buffer is that run executed as a statement. */
  lemma FlushFirstGroup(group: seq<string>)
    requires forall j :: 0 <= j < |group| ==> group[j] != ""
    ensures Flush(Extend("", group)) == if group == [] then [] else ExecuteBatch(group)
  {
    if group != [] {
      JoinNonEmpty(group, " ");
    }
  }

  /** Adding one line and then a run is adding the line and the run together. */
  lemma ExtendLine(buffer: string, line: string, group: seq<string>)
    requires line != ""
    ensures Extend(Accumulate(buffer, line), group) == Extend(buffer, [line] + group)
  {
    if group != [] {
      assert Join([line] + group, " ") == line + " " + Join(group, " ") by {
        assert ([line] + group)[1..] == group;
      }
    }
  }

  /** The loop executes exactly the statements of the input, in order: each maximal
      run of non-empty lines, joined with single spaces and trimmed, once. */
  lemma SessionExecutesBatches(lines: seq<string>)
    ensures Session(lines, "") == ExecuteAll(Batches(lines))
  {
    var g := Groups(lines);
    SessionFromBuffer(lines, "");
    ExecuteAllStep(g);
    if g[0] != [] {
      JoinNonEmpty(g[0], " ");
    }
  }

  /** Every statement is answered by exactly one blank line, so the runner reads one
      response per statement. */
  lemma {:induction false} OneBlankLinePerBatch(batches: seq<seq<string>>)
    ensures multiset(ExecuteAll(batches))[""] == |batches|
  {
    if batches != [] {
      ExecuteAllCons(batches);
      OneBlankLine(RustTrim(Join(batches[0], " ")));
      OneBlankLinePerBatch(batches[1..]);
      assert multiset(ExecuteAll(batches)) == multiset(ExecuteBatch(batches[0])) + multiset(ExecuteAll(batches[1..]));
    }
  }

  lemma ExecuteAllCons(batches: seq<seq<string>>)
    requires batches != []
    ensures ExecuteAll(batches) == ExecuteBatch(batches[0]) + ExecuteAll(batches[1..])
  {
    assert Map(ExecuteBatch, batches)[1..] == Map(ExecuteBatch, batches[1..]);
  }

  /** A response holds exactly one blank line, its last. */
  lemma OneBlankLine(sql: string)
    ensures multiset(ExecuteSql(sql))[""] == 1
  {
    var r := ExecuteSql(sql);
    assert r == r[..|r| - 1] + [""];
    assert "" !in r[..|r| - 1];
    assert multiset(r[..|r| - 1])[""] == 0;
  }

  /** A statement of non-empty lines followed by an empty line is executed on its
      own, and empty lines between statements produce nothing. */
  lemma StatementThenBlank(batch: seq<string>, rest: seq<string>)
    requires batch != []
    requires forall k :: 0 <= k < |batch| ==> batch[k] != ""
    ensures Session(batch + [""] + rest, "") == ExecuteBatch(batch) + Session(rest, "")
    ensures Session([""] + rest, "") == Session(rest, "")
  {
    var lines := batch + [""] + rest;
    assert Groups(lines) == [batch] + Groups(rest) by {
      assert lines == batch + ([""] + rest);
      GroupsRun(batch, [""] + rest);
      assert ([""] + rest)[1..] == rest;
    }
    SessionExecutesBatches(lines);
    SessionExecutesBatches(rest);
    ExecuteAllStep([batch] + Groups(rest));
    assert ([batch] + Groups(rest))[1..] == Groups(rest);
    SessionUnfold([""] + rest, "");
    assert ([""] + rest)[1..] == rest;
  }

  /** Lines left in the buffer when the input ends are executed once. */
  lemma LeftoverStatement(batch: seq<string>)
    requires batch != []
    requires forall k :: 0 <= k < |batch| ==> batch[k] != ""
    ensures Session(batch, "") == ExecuteBatch(batch)
  {
    GroupsRun(batch, []);
    assert batch + [] == batch;
    SessionExecutesBatches(batch);
    ExecuteAllStep([batch]);
    assert [batch][1..] == [];
  }

  /** A run of non-empty lines in front of an empty line or the end is the first group. */
  lemma {:induction false} GroupsRun(run: seq<string>, rest: seq<string>)
    requires forall k :: 0 <= k < |run| ==> run[k] != ""
    requires rest == [] || rest[0] == ""
    ensures Groups(run + rest) == [run] + (if rest == [] then [] else Groups(rest[1..]))
  {
    if run == [] {
      assert run + rest == rest;
    } else {
      assert (run + rest)[1..] == run[1..] + rest;
      GroupsRun(run[1..], rest);
      assert [run[0]] + run[1..] == run;
    }
  }
}
