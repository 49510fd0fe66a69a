/**
  What the SQLLogicTest parser guarantees about the records it yields, stated on
  the line views of a script (see `SltParser.ViewsOf`): where each record comes
  from, what each kind of block contains, how the directive test relates to the
  main loop's reading of a line, and how a pending skip interacts with the rest of
  the script.
*/
module ParserProperties {
  import opened Options
  import opened Strings
  import opened SltParser
  import Ordering

  // ---------------------------------------------------------------------------
  // Every record sits at its header line, in order, and `halt` comes last

  /** The record `r` is what the header `kind` announces: a statement header with the
      same error expectation, a query header whose tokens give the column types, sort
      mode and label, or a `halt` line. */
  predicate Announces(kind: LineKind, r: Record) {
    match r
    case Statement(_, expectError, _) => kind == StatementHeader(expectError)
    case Query(_, columnTypes, sortMode, _, queryLabel, _) =>
      && kind.QueryHeader? && kind.tokens != []
      && columnTypes == kind.tokens[0]
      && sortMode == HeaderSortMode(kind.tokens[1..])
      && queryLabel == HeaderLabel(kind.tokens[1..])
    case Control(directive, argument, _) => kind == Halt && directive == "halt" && argument == None
  }

  /** `rs` was read from the lines after position `i`: each record's line number is the
      1-based index of a line past `i` that announces it, the line numbers increase,
      and a `Control` record can only be the last one. */
  ghost predicate Placed(views: seq<LineView>, rs: seq<Record>, i: nat) {
    && (forall k :: 0 <= k < |rs| ==>
          i < rs[k].lineNumber <= |views| && Announces(views[rs[k].lineNumber - 1].kind, rs[k]))
    && (forall a, b :: 0 <= a < b < |rs| ==> rs[a].lineNumber < rs[b].lineNumber)
    && (forall k :: 0 <= k < |rs| - 1 ==> !rs[k].Control?)
  }

  /** A record read at `i` followed by records placed after its block is placed. */
  lemma PlacedCons(views: seq<LineView>, r: Option<Record>, rest: seq<Record>, i: nat, e: nat)
    requires i < e && i < |views|
    requires r.Some? ==> r.value.lineNumber == i + 1 && Announces(views[i].kind, r.value)
                         && !r.value.Control?
    requires Placed(views, rest, e)
    ensures Placed(views, r.Elements() + rest, i)
  {
    if r.Some? {
      var rs := [r.value] + rest;
      forall a, b | 0 <= a < b < |rs| ensures rs[a].lineNumber < rs[b].lineNumber {
        if a > 0 {
          assert rs[a] == rest[a - 1] && rs[b] == rest[b - 1];
        } else {
          assert rs[b] == rest[b - 1];
        }
      }
      forall k | 0 <= k < |rs| - 1 ensures !rs[k].Control? {
        if k > 0 {
          assert rs[k] == rest[k - 1];
        }
      }
    } else {
      assert r.Elements() + rest == rest;
    }
  }

  /** Placed after a later position means placed after an earlier one. */
  lemma PlacedWeaken(views: seq<LineView>, rs: seq<Record>, i: nat, j: nat)
    requires i <= j && Placed(views, rs, j)
    ensures Placed(views, rs, i)
  {
  }

  lemma StatementRecordAnnounced(views: seq<LineView>, h: nat)
    requires h < |views| && views[h].kind.StatementHeader?
    ensures StatementRecordAt(views, h).Some? ==>
              var r := StatementRecordAt(views, h).value;
              r.lineNumber == h + 1 && Announces(views[h].kind, r) && !r.Control?
  {
  }

  lemma QueryRecordAnnounced(views: seq<LineView>, h: nat)
    requires h < |views| && views[h].kind.QueryHeader?
    ensures QueryRecordAt(views, h).Some? ==>
              var r := QueryRecordAt(views, h).value;
              r.lineNumber == h + 1 && Announces(views[h].kind, r) && !r.Control?
  {
  }

  /** One step of the parse from a line that is not `halt`: the record the line yields,
      if any, where the parse goes on and with which skip flag. */
  lemma ParseStepOf(views: seq<LineView>, i: nat, skip: bool, target: string, rule: SkipRule)
    returns (r: Option<Record>, e: nat, skipAfter: bool)
    requires i < |views| && !views[i].kind.Halt?
    ensures i < e
    ensures r.Some? ==> r.value.lineNumber == i + 1 && Announces(views[i].kind, r.value)
                        && !r.value.Control?
    ensures ParseFrom(views, i, skip, target, rule)
         == r.Elements() + ParseFrom(views, e, skipAfter, target, rule)
  {
    match views[i].kind {
    case SkipIf(db) =>
      r, e, skipAfter := None, i + 1, skip || db == target;
      StepSkipIf(views, i, skip, target, rule);
    case OnlyIf(db) =>
      r, e, skipAfter := None, i + 1, skip || db != target;
      StepOnlyIf(views, i, skip, target, rule);
    case StatementHeader(_) =>
      if skip {
        r, e, skipAfter := None, ResumeAfterSkip(views, i, rule), false;
        StepSkippedHeader(views, i, target, rule);
      } else {
        r, e, skipAfter := StatementRecordAt(views, i), StatementEnd(views, i), false;
        StepStatement(views, i, target, rule);
        StatementRecordAnnounced(views, i);
      }
    case QueryHeader(_) =>
      if skip {
        r, e, skipAfter := None, ResumeAfterSkip(views, i, rule), false;
        StepSkippedHeader(views, i, target, rule);
      } else {
        r, e, skipAfter := QueryRecordAt(views, i), QueryEnd(views, i), false;
        StepQuery(views, i, target, rule);
        QueryRecordAnnounced(views, i);
      }
    case Blank | Comment | HashThreshold(_) | Other =>
      r, e, skipAfter := None, i + 1, skip;
      StepPassedOver(views, i, skip, target, rule);
    }
    if r.None? {
      assert r.Elements() == [];
    }
  }

  /** Whatever the skip flag and skip rule, the records parsed from position `i` are
      placed after `i`: at their header lines, in increasing line order, with a `halt`
      record only at the end. */
  lemma {:induction false} ParseFromPlaced(views: seq<LineView>, i: nat, skip: bool, target: string,
                                           rule: SkipRule)
    ensures Placed(views, ParseFrom(views, i, skip, target, rule), i)
    decreases |views| - i
  {
    if i < |views| {
      if views[i].kind.Halt? {
        StepHalt(views, i, skip, target, rule);
      } else {
        var r, e, skipAfter := ParseStepOf(views, i, skip, target, rule);
        ParseFromPlaced(views, e, skipAfter, target, rule);
        PlacedCons(views, r, ParseFrom(views, e, skipAfter, target, rule), i, e);
      }
    }
  }

  /** The records of a whole script sit at their header lines in increasing order, and
      a `halt` record, if any, is the last. */
  lemma ParsePlaced(lines: seq<string>, target: string)
    ensures Placed(Views(lines), Parse(lines, target), 0)
  {
    ParseFromPlaced(Views(lines), 0, false, target, AsWritten);
  }

  /** A `halt` line ends the parse with one `Control` record, whatever lines follow. */
  lemma HaltIgnoresRest(views: seq<LineView>, more: seq<LineView>, i: nat, skip: bool, target: string,
                        rule: SkipRule)
    requires i < |views| && views[i].kind.Halt?
    ensures ParseFrom(views + more, i, skip, target, rule) == [Control("halt", None, i + 1)]
  {
    StepHalt(views + more, i, skip, target, rule);
  }

  /** A line that is exactly `halt` once its line end is removed reads as `halt`. */
  lemma HaltLine(raw: string)
    requires StripLineEnd(raw) == "halt"
    ensures View(raw).kind == Halt && !View(raw).isBody
  {
    assert Classify("halt") == Halt by {
      assert "halt"[0] == 'h' && !("#" <= "halt");
    }
    assert IsDirective("halt") by {
      assert LeadingCount("halt", PySpace) == 0;
    }
  }

  // ---------------------------------------------------------------------------
  // The directive test and the main loop's reading of a line

  /** The kinds of line `_is_directive` is meant to recognise. */
  predicate IsDirectiveKind(kind: LineKind) {
    kind.SkipIf? || kind.OnlyIf? || kind.Halt? || kind.HashThreshold? || kind.StatementHeader?
    || kind.QueryHeader?
  }

  /** On a line without leading whitespace the directive test agrees with the main
      loop: it holds exactly for the lines the loop reads as a directive.  A directive
      indented by whitespace ends a block but is then passed over by the main loop. */
  lemma DirectiveAgreesWithClassify(line: string)
    ensures line == [] || !IsPySpace(line[0]) ==> (IsDirective(line) <==> IsDirectiveKind(Classify(line)))
    ensures line != [] && IsPySpace(line[0]) ==> Classify(line) == Other
  {
    if line == [] || !IsPySpace(line[0]) {
      UnindentedDirective(line);
    } else {
      IndentedLineIsOther(line);
    }
  }

  lemma UnindentedDirective(line: string)
    requires line == [] || !IsPySpace(line[0])
    ensures IsDirective(line) <==> IsDirectiveKind(Classify(line))
  {
    assert PyLStrip(line) == line;
    if line != [] && line[0] == '#' {
      assert Classify(line) == Comment;
    }
  }

  lemma IndentedLineIsOther(line: string)
    requires line != [] && IsPySpace(line[0])
    ensures Classify(line) == Other
  {
  }

  // ---------------------------------------------------------------------------
  // What each kind of block holds

  /** The texts of the lines `views[a..b]`. */
  function Texts(views: seq<LineView>, a: nat, b: nat): (r: seq<string>)
    requires a <= b <= |views|
    ensures |r| == b - a
  {
    seq(b - a, k requires 0 <= k < b - a => views[a + k].text)
  }

  /** The expected values held by each of the lines `views[a..b]`. */
  function ValuesOfLines(views: seq<LineView>, a: nat, b: nat): (r: seq<seq<string>>)
    requires a <= b <= |views|
    ensures |r| == b - a
  {
    seq(b - a, k requires 0 <= k < b - a => views[a + k].values)
  }

  /** The elements of `xs` that are not empty, in order. */
  function NonEmpty(xs: seq<string>): (r: seq<string>)
    ensures forall k :: 0 <= k < |r| ==> r[k] != ""
  {
    if xs == [] then []
    else NonEmpty(xs[..|xs| - 1]) + (if xs[|xs| - 1] != "" then [xs[|xs| - 1]] else [])
  }

  lemma {:induction false} GatherStatementSql(views: seq<LineView>, a: nat, b: nat)
    requires a <= b <= |views|
    ensures Gather(views, a, b, StatementSql) == Texts(views, a, b)
    decreases b - a
  {
    if a < b {
      GatherStatementSql(views, a, b - 1);
      assert Texts(views, a, b) == Texts(views, a, b - 1) + [views[b - 1].text];
    }
  }

  lemma {:induction false} GatherQuerySql(views: seq<LineView>, a: nat, b: nat)
    requires a <= b <= |views|
    ensures Gather(views, a, b, QuerySql) == NonEmpty(Texts(views, a, b))
    decreases b - a
  {
    if a < b {
      GatherQuerySql(views, a, b - 1);
      assert Texts(views, a, b)[..b - a - 1] == Texts(views, a, b - 1);
    }
  }

  lemma {:induction false} GatherResultValues(views: seq<LineView>, a: nat, b: nat)
    requires a <= b <= |views|
    ensures Gather(views, a, b, ResultValues) == Ordering.Flatten(ValuesOfLines(views, a, b))
    decreases b - a
  {
    if a < b {
      GatherResultValues(views, a, b - 1);
      assert ValuesOfLines(views, a, b) == ValuesOfLines(views, a, b - 1) + [views[b - 1].values];
      Ordering.FlattenAppend(ValuesOfLines(views, a, b - 1), [views[b - 1].values]);
      assert Ordering.Flatten([views[b - 1].values]) == views[b - 1].values + Ordering.Flatten([]);
    }
  }

  /** A `statement` block: the body runs over the lines after the header up to the
      first blank line or directive; the record joins their texts with newlines and
      is left out when the body is empty. */
  lemma StatementBlockContents(views: seq<LineView>, h: nat)
    requires h < |views| && views[h].kind.StatementHeader?
    ensures var e := StatementEnd(views, h);
      && (forall k :: h < k < e ==> views[k].isBody)
      && (e < |views| ==> !views[e].isBody)
      && StatementRecordAt(views, h)
         == if e == h + 1 then None
            else Some(Statement(Join(Texts(views, h + 1, e), "\n"), views[h].kind.expectError, h + 1))
  {
    ScanFromStops(views, h + 1, Body);
    GatherStatementSql(views, h + 1, StatementEnd(views, h));
  }

  /** The SQL of a `query` block with a non-empty header runs up to the first line that
      is exactly `----`; without such a line there is no record. */
  lemma QuerySqlRunsToSeparator(views: seq<LineView>, h: nat)
    requires h < |views| && views[h].kind.QueryHeader? && views[h].kind.tokens != []
    ensures var s := SeparatorIndex(views, h);
      && (forall k :: h < k < s ==> views[k].text != "----")
      && (s < |views| ==> views[s].text == "----")
      && (s == |views| ==> QueryRecordAt(views, h) == None)
  {
    ScanFromStops(views, h + 1, NotSeparator);
  }

  /** A `query` block with a non-empty header and a separator: the results run over the
      lines after the separator up to the first blank line or directive, and their
      values are concatenated in order; blank SQL lines are dropped, and without SQL
      there is no record. */
  lemma QueryBlockContents(views: seq<LineView>, h: nat)
    requires h < |views| && views[h].kind.QueryHeader? && views[h].kind.tokens != []
    requires SeparatorIndex(views, h) < |views|
    ensures var s := SeparatorIndex(views, h);
        var e := ResultsEnd(views, s);
        var parts := views[h].kind.tokens;
        var sql := NonEmpty(Texts(views, h + 1, s));
        && (forall k :: s < k < e ==> views[k].isBody)
        && (e < |views| ==> !views[e].isBody)
        && QueryRecordAt(views, h)
           == if sql == [] then None
              else Some(Query(Join(sql, "\n"), parts[0], HeaderSortMode(parts[1..]),
                              Ordering.Flatten(ValuesOfLines(views, s + 1, e)),
                              HeaderLabel(parts[1..]), h + 1))
  {
    var s := SeparatorIndex(views, h);
    var e := ResultsEnd(views, s);
    assert (forall k :: s < k < e ==> views[k].isBody) && (e < |views| ==> !views[e].isBody) by {
      ScanFromStops(views, s + 1, Body);
    }
    var sql := Gather(views, h + 1, s, QuerySql);
    var values := Gather(views, s + 1, e, ResultValues);
    assert sql == NonEmpty(Texts(views, h + 1, s)) by {
      GatherQuerySql(views, h + 1, s);
    }
    assert values == Ordering.Flatten(ValuesOfLines(views, s + 1, e)) by {
      GatherResultValues(views, s + 1, e);
    }
  }

  // ---------------------------------------------------------------------------
  // A pending skip and the rest of the script

  /** Under the aligned rule a pending skip costs at most one record, the one the next
      block would have yielded, and leaves every later record as it was. */
  lemma {:induction false} AlignedSkipDropsAtMostOne(views: seq<LineView>, i: nat, target: string)
    ensures var kept := ParseFrom(views, i, false, target, Aligned);
            var skipped := ParseFrom(views, i, true, target, Aligned);
            kept == skipped || (kept != [] && kept[1..] == skipped)
    decreases |views| - i
  {
    if i < |views| {
      match views[i].kind {
        case SkipIf(db) =>
          StepSkipIf(views, i, false, target, Aligned);
          StepSkipIf(views, i, true, target, Aligned);
          AlignedSkipDropsAtMostOne(views, i + 1, target);
        case OnlyIf(db) =>
          StepOnlyIf(views, i, false, target, Aligned);
          StepOnlyIf(views, i, true, target, Aligned);
          AlignedSkipDropsAtMostOne(views, i + 1, target);
        case Halt =>
          StepHalt(views, i, false, target, Aligned);
          StepHalt(views, i, true, target, Aligned);
        case StatementHeader(_) =>
          StepStatement(views, i, target, Aligned);
          StepSkippedHeader(views, i, target, Aligned);
          var rest := ParseFrom(views, StatementEnd(views, i), false, target, Aligned);
          assert StatementRecordAt(views, i).Elements() + rest == rest
              || (StatementRecordAt(views, i).Elements() + rest)[1..] == rest;
        case QueryHeader(_) =>
          StepQuery(views, i, target, Aligned);
          StepSkippedHeader(views, i, target, Aligned);
          var rest := ParseFrom(views, QueryEnd(views, i), false, target, Aligned);
          assert QueryRecordAt(views, i).Elements() + rest == rest
              || (QueryRecordAt(views, i).Elements() + rest)[1..] == rest;
        case Blank | Comment | HashThreshold(_) | Other =>
          StepPassedOver(views, i, false, target, Aligned);
          StepPassedOver(views, i, true, target, Aligned);
          AlignedSkipDropsAtMostOne(views, i + 1, target);
      }
    }
  }

  /** The line `halt` as `readlines()` returns it when more lines follow, its line end
      still attached: the main loop and the statement loop read it as `halt`, but the
      statement-skipping loop, which tests the line with its line end, reads it as
      SQL. */
  lemma HaltLineWithLineEnd(raw: string)
    requires StripLineEnd(raw) == "halt" && raw != "halt"
    ensures View(raw).kind == Halt && !View(raw).isBody && View(raw).isSkippedBody
  {
    StripLineEndIsPrefix(raw);
    assert raw[0] == 'h' && raw[2] == 'l';
    assert Classify("halt") == Halt by {
      assert "halt"[0] == 'h' && !("#" <= "halt");
    }
    assert IsDirective("halt") by {
      assert LeadingCount("halt", PySpace) == 0;
    }
    assert PyStrip(raw) != "" by {
      assert LeadingCount(raw, PySpace) == 0;
      TrailingCountSuffix(raw, PySpace);
    }
    HaltWithMoreIsNotDirective(raw);
  }

  /** A line that starts with `halt` and goes on is not a directive. */
  lemma HaltWithMoreIsNotDirective(raw: string)
    requires |raw| > 4 && raw[0] == 'h' && raw[2] == 'l'
    ensures !IsDirective(raw)
  {
    assert LeadingCount(raw, PySpace) == 0;
    assert PyLStrip(raw) == raw;
    if |raw| >= 15 {
      assert raw[..15][2] == 'l';
    }
  }

  /** As written, a `halt` line that the statement-skipping loop reads as SQL is lost
      when it directly follows a statement header: without a pending skip the parse
      stops there with its `Control` record, with one the parse passes over it and
      every record it yields lies beyond it. */
  lemma SkipPassesOverHalt(views: seq<LineView>, h: nat, target: string)
    requires h + 1 < |views| && views[h].kind.StatementHeader?
    requires views[h + 1].kind == Halt && !views[h + 1].isBody && views[h + 1].isSkippedBody
    ensures ParseFrom(views, h, false, target, AsWritten) == [Control("halt", None, h + 2)]
    ensures forall r :: r in ParseFrom(views, h, true, target, AsWritten) ==> r.lineNumber > h + 2
  {
    assert ParseFrom(views, h, false, target, AsWritten) == [Control("halt", None, h + 2)] by {
      assert StatementEnd(views, h) == h + 1;
      StepStatement(views, h, target, AsWritten);
      StepHalt(views, h + 1, false, target, AsWritten);
    }
    var e := SkippedStatementEnd(views, h);
    assert ParseFrom(views, h, true, target, AsWritten) == ParseFrom(views, e, false, target, AsWritten) by {
      StepSkippedHeader(views, h, target, AsWritten);
    }
    ParseFromPlaced(views, e, false, target, AsWritten);
  }

  /** `SkipPassesOverHalt` on the lines of a script: a statement header directly
      followed by `halt` with its line end attached. */
  lemma SkippedStatementSwallowsHalt(lines: seq<string>, h: nat, target: string)
    requires h + 1 < |lines| && Views(lines)[h].kind.StatementHeader?
    requires StripLineEnd(lines[h + 1]) == "halt" && lines[h + 1] != "halt"
    ensures ParseFrom(Views(lines), h, false, target, AsWritten) == [Control("halt", None, h + 2)]
    ensures forall r :: r in ParseFrom(Views(lines), h, true, target, AsWritten) ==> r.lineNumber > h + 2
  {
    var views := Views(lines);
    HaltLineWithLineEnd(lines[h + 1]);
    SkipPassesOverHalt(views, h, target);
  }

  /** As written, the query-skipping loop ends a result block only at a blank line: a
      header right after the results, which ends the block on the normal path, is
      passed over as if it were a result line, and the block it starts yields nothing. */
  lemma SkipPassesOverNextBlock(views: seq<LineView>, h: nat, s: nat, target: string)
    requires h < s && s + 2 < |views|
    requires views[h].kind.QueryHeader? && views[h].kind.tokens != []
    requires SeparatorIndex(views, h) == s && SkippedSeparatorIndex(views, h) == s
    requires views[s + 1].isBody && !views[s + 1].isBlank
    requires IsHeader(views[s + 2].kind) && !views[s + 2].isBody && !views[s + 2].isBlank
    ensures QueryEnd(views, h) == s + 2
    ensures ParseFrom(views, h, false, target, AsWritten)
         == QueryRecordAt(views, h).Elements() + ParseFrom(views, s + 2, false, target, AsWritten)
    ensures forall r :: r in ParseFrom(views, h, true, target, AsWritten) ==> r.lineNumber > s + 3
  {
    assert ResultsEnd(views, s) == s + 2 by {
      assert ScanFrom(views, s + 2, Body) == s + 2;
    }
    StepQuery(views, h, target, AsWritten);
    var e := SkippedQueryEnd(views, h);
    assert e > s + 2 by {
      assert SkippedResultsEnd(views, s) == ScanFrom(views, s + 2, NotBlank);
    }
    assert ParseFrom(views, h, true, target, AsWritten) == ParseFrom(views, e, false, target, AsWritten) by {
      StepSkippedHeader(views, h, target, AsWritten);
    }
    ParseFromPlaced(views, e, false, target, AsWritten);
  }

  /** `SkipPassesOverNextBlock` on the lines of a script: a query with one SQL line and
      one result line, followed at once by a `statement ok` header.  Read, the query
      ends at the header and the statement is parsed; skipped, the statement is passed
      over with the query. */
  lemma SkippedQuerySwallowsNextStatement(lines: seq<string>, h: nat, target: string)
    requires h + 4 < |lines| && lines[h] == "query I\n"
    requires lines[h + 1] == "SELECT 1\n" && lines[h + 2] == "----\n" && lines[h + 3] == "1\n"
    requires lines[h + 4] == "statement ok\n"
    ensures var read := ParseFrom(Views(lines), h, false, target, AsWritten);
            var next := ParseFrom(Views(lines), h + 4, false, target, AsWritten);
            |next| <= |read| <= |next| + 1 && read[|read| - |next|..] == next
    ensures forall r :: r in ParseFrom(Views(lines), h, true, target, AsWritten) ==> r.lineNumber > h + 5
  {
    var views := Views(lines);
    QueryLineView(lines[h]);
    SqlLineView(lines[h + 1]);
    SeparatorLineView(lines[h + 2]);
    ResultLineView(lines[h + 3]);
    StatementLineView(lines[h + 4]);
    QueryFollowedByHeader(views, h, target);
  }

  /** `SkipPassesOverNextBlock` with the separator right after one SQL line. */
  lemma QueryFollowedByHeader(views: seq<LineView>, h: nat, target: string)
    requires h + 4 < |views| && views[h].kind.QueryHeader? && views[h].kind.tokens != []
    requires views[h + 1].text != "----" && !views[h + 1].isStrippedSeparator
    requires views[h + 2].text == "----" && views[h + 2].isStrippedSeparator
    requires views[h + 3].isBody && !views[h + 3].isBlank
    requires IsHeader(views[h + 4].kind) && !views[h + 4].isBody && !views[h + 4].isBlank
    ensures ParseFrom(views, h, false, target, AsWritten)
         == QueryRecordAt(views, h).Elements() + ParseFrom(views, h + 4, false, target, AsWritten)
    ensures forall r :: r in ParseFrom(views, h, true, target, AsWritten) ==> r.lineNumber > h + 5
  {
    assert SeparatorIndex(views, h) == h + 2 && SkippedSeparatorIndex(views, h) == h + 2 by {
      assert ScanFrom(views, h + 2, NotSeparator) == h + 2;
      assert ScanFrom(views, h + 2, NotStrippedSeparator) == h + 2;
    }
    SkipPassesOverNextBlock(views, h, h + 2, target);
  }

  /** A line of text without surrounding whitespace, read with its newline. */
  lemma PlainLine(raw: string, line: string)
    requires raw == line + "\n" && line != [] && !IsPySpace(line[0]) && !IsPySpace(line[|line| - 1])
    ensures StripLineEnd(raw) == line && PyStrip(raw) == line && PyLStrip(line) == line
  {
    assert raw[..|raw| - 1] == line;
    assert StripLineEnd(line) == line;
    assert LeadingCount(raw, PySpace) == 0 && LeadingCount(line, PySpace) == 0;
    assert TrailingCount(raw, PySpace) == 1 by {
      assert TrailingCount(line, PySpace) == 0;
    }
  }

  lemma QueryLineView(raw: string)
    requires raw == "query I\n"
    ensures View(raw).kind.QueryHeader? && View(raw).kind.tokens != []
  {
    var line := raw[..|raw| - 1];
    assert raw == line + "\n" && "query " <= line && |line| > 6 && !IsPySpace(line[6]) by {
      assert raw[6] == 'I' && raw[7] == '\n';
      assert line[..6] == raw[..6] == "query ";
    }
    PlainLine(raw, line);
    QueryHeaderLine(line);
  }

  /** A line that starts with `query ` and a word is a query header with tokens. */
  lemma QueryHeaderLine(line: string)
    requires "query " <= line && |line| > 6 && !IsPySpace(line[6])
    ensures Classify(line).QueryHeader? && Classify(line).tokens != []
  {
    assert line[0] == 'q';
    assert Classify(line) == QueryHeader(Words(line[6..], PySpace)) by {
      assert !("#" <= line) && !("skipif " <= line) && !("onlyif " <= line) && line != "halt";
      assert !("hash-threshold " <= line) && !("statement " <= line);
    }
    assert LeadingCount(line[6..], PySpace) == 0;
  }

  lemma SqlLineView(raw: string)
    requires raw == "SELECT 1\n"
    ensures View(raw).text != "----" && !View(raw).isStrippedSeparator
  {
    var line := raw[..|raw| - 1];
    assert raw[0] == 'S' && raw[7] == '1' && raw[8] == '\n';
    PlainLine(raw, line);
    assert line[0] != "----"[0];
  }

  lemma SeparatorLineView(raw: string)
    requires raw == "----\n"
    ensures View(raw).text == "----" && View(raw).isStrippedSeparator
  {
    var line := raw[..|raw| - 1];
    assert line == "----";
    assert raw[4] == '\n';
    PlainLine(raw, line);
  }

  lemma ResultLineView(raw: string)
    requires raw == "1\n"
    ensures View(raw).isBody && !View(raw).isBlank
  {
    var line := raw[..|raw| - 1];
    assert |line| == 1 && line[0] == '1' && raw[1] == '\n';
    PlainLine(raw, line);
    assert !IsDirective(line);
  }

  lemma StatementLineView(raw: string)
    requires raw == "statement ok\n"
    ensures IsHeader(View(raw).kind) && !View(raw).isBody && !View(raw).isBlank
  {
    var line := raw[..|raw| - 1];
    assert raw == line + "\n" && "statement " <= line && !IsPySpace(line[|line| - 1]) by {
      assert raw[11] == 'k' && raw[12] == '\n';
      assert line[..10] == raw[..10] == "statement ";
    }
    HeaderLineView(raw, line);
  }

  /** A `statement` header read with its newline. */
  lemma HeaderLineView(raw: string, line: string)
    requires raw == line + "\n" && "statement " <= line && !IsPySpace(line[|line| - 1])
    ensures IsHeader(View(raw).kind) && !View(raw).isBody && !View(raw).isBlank
  {
    PlainLine(raw, line);
    StatementHeaderLine(line);
  }

  /** A line that starts with `statement ` is a statement header and a directive. */
  lemma StatementHeaderLine(line: string)
    requires "statement " <= line
    ensures Classify(line).StatementHeader? && IsDirective(line)
  {
    assert line[0] == 's' && line[1] == 't';
    assert Classify(line).StatementHeader? by {
      assert !("#" <= line) && !("skipif " <= line) && !("onlyif " <= line) && line != "halt";
      assert !("hash-threshold " <= line);
    }
    assert PyLStrip(line) == line by {
      assert LeadingCount(line, PySpace) == 0;
    }
  }
}
