/** How the parser of SAR.py differs from the one of sar_parser.py, and
    what it keeps. */
module LegacyLemmas {
  import opened Wrappers
  import opened Text
  import opened Calendar
  import opened Timestamps
  import opened Catalog
  import opened Metadata
  import opened Lines
  import opened Report
  import opened Prune
  import opened Queries
  import opened Parser
  import opened ParserLemmas
  import opened Legacy

  /** Without a window every row with a valid timestamp is located. */
  lemma NoWindowLocates(s: Snapshot, stamp: string)
    ensures Locate(s, NoWindow, stamp) != Ok(None)
  {
  }

  /** When SAR.py accepts a row it stores exactly what sar_parser.py
      stores, apart from the duplicate line numbers it never keeps. */
  lemma CheckedStoreAgrees(s: Snapshot, t: Instant, headers: seq<string>, caps: seq<string>, toFloat: FloatParser)
    requires |caps| == |headers| + 1
    requires StoreChecked(s, t, headers, caps, toFloat).Ok?
    ensures StoreChecked(s, t, headers, caps, toFloat).value == Store(s, t, headers, caps, toFloat).(duplicates := s.duplicates)
  {
  }

  /** A key of a 2D row that is already there stops SAR.py, naming the
      first such key. */
  lemma PlainDuplicateFatal(s: Snapshot, t: Instant, headers: seq<string>, caps: seq<string>, toFloat: FloatParser)
    requires |caps| == |headers| + 1 && IndexColumn(headers).None?
    ensures Repeats(RowBefore(s, t), PlainKeys(headers)) ==>
      StoreChecked(s, t, headers, caps, toFloat)
        == Err(DuplicateColumn(s.lineCount, PlainKeys(headers)[FirstRepeat(RowBefore(s, t), PlainKeys(headers)).value]))
    ensures !Repeats(RowBefore(s, t), PlainKeys(headers)) ==> StoreChecked(s, t, headers, caps, toFloat).Ok?
  {
  }

  /** A repeated key of a 3D row stops SAR.py unless the index column is
      `FILESYSTEM`, whose later value overwrites. */
  lemma CompositeDuplicate(s: Snapshot, t: Instant, headers: seq<string>, caps: seq<string>, toFloat: FloatParser)
    requires |caps| == |headers| + 1 && IndexColumn(headers).Some?
    requires caps[IndexColumn(headers).value + 1] !in ["all", "Summary"]
    ensures var c := IndexColumn(headers).value;
      var keys := CompositeKeys(headers, c, caps[c + 1]);
      headers[c] != "FILESYSTEM" && Repeats(RowBefore(s, t), keys) ==>
        StoreChecked(s, t, headers, caps, toFloat)
          == Err(DuplicateColumn(s.lineCount, keys[FirstRepeat(RowBefore(s, t), keys).value]))
    ensures var c := IndexColumn(headers).value;
      headers[c] == "FILESYSTEM" ==> StoreChecked(s, t, headers, caps, toFloat).Ok?
  {
  }

  /** A line holding `LINUX RESTART` where a table header is due:
      sar_parser.py skips it and keeps waiting for the header, while SAR.py
      reads it as the header, so that it ends the table when it is a
      timestamped `LINUX RESTART` header and raises when it is no header. */
  lemma RestartLineDialects(s: Snapshot, raw: string, w: Window, p: Params)
    requires !EmptyLine(StripNewlines(raw)) && !AverageLine(Current, StripNewlines(raw))
    requires Contains(StripNewlines(raw), "LINUX RESTART")
    ensures Transition(s, AfterEmptyLine, raw, w, p) == Ok((Counted(s), TableStart))
    ensures ColumnHeaders(Legacy, StripNewlines(raw)).None? ==>
      LegacyTransition(s, AfterEmptyLine, raw, p) == Err(ExpectedHeader(s.lineCount + 1))
    ensures (ColumnHeaders(Legacy, StripNewlines(raw)).Some?
             && ColumnHeaders(Legacy, StripNewlines(raw)).value.headers == ["LINUX", "RESTART"]) ==>
      LegacyTransition(s, AfterEmptyLine, raw, p).Ok?
      && LegacyTransition(s, AfterEmptyLine, raw, p).value.1 == TableEnd
  {
    AverageLineDialects(StripNewlines(raw));
  }

  /** SAR.py never stays in `table_start`: the line that enters it is read
      as the header at once, so no later line finds it waiting there, as
      sar_parser.py does after a restart line or an empty one. */
  lemma LegacyNeverWaits(s: Snapshot, phase: Phase, raw: string, p: Params)
    requires LegacyTransition(s, phase, raw, p).Ok?
    ensures LegacyTransition(s, phase, raw, p).value.1 != TableStart
  {
    var s1 := Counted(s);
    var line := StripNewlines(raw);
    assert LegacyTransition(s, phase, raw, p) == LegacyOn(s1, phase, line, p);
    match phase
    case TableRow(headers, classes) =>
      assert LegacyOn(s1, phase, line, p) == LegacyRowOn(s1, headers, classes, line, p);
      RowNeverWaits(s1, headers, classes, line, p);
    case TableStart =>
      assert LegacyOn(s1, phase, line, p) == HeaderOn(Legacy, s1, line, p);
      HeaderNeverWaits(Legacy, s1, line, p);
    case AfterEmptyLine =>
      if !EmptyLine(line) && !AverageLine(Legacy, line) {
        assert LegacyOn(s1, phase, line, p) == HeaderOn(Legacy, s1, line, p);
        HeaderNeverWaits(Legacy, s1, line, p);
      }
    case _ =>
  }

  /** A header line leaves `table_start`, whatever it holds. */
  lemma HeaderNeverWaits(d: Dialect, s: Snapshot, line: string, p: Params)
    requires HeaderOn(d, s, line, p).Ok?
    ensures HeaderOn(d, s, line, p).value.1 != TableStart
  {
    var s1 := if s.oldDate.Some? then s.(date := s.oldDate.value) else s;
    var hl := ColumnHeaders(d, line).value;
    if !(hl.headers == ["LINUX", "RESTART"]) && hl.headers[0] !in p.skipTables {
      var classes := RowClasses(hl.headers).value;
      assert HeaderOn(d, s, line, p) == Ok((s1.(prev := None), TableRow(hl.headers, classes)));
    }
  }

  /** A line of a legacy table stays in the table or leaves it, never for
      `table_start`. */
  lemma RowNeverWaits(s: Snapshot, headers: seq<string>, classes: seq<ValueClass>, line: string, p: Params)
    requires LegacyRowOn(s, headers, classes, line, p).Ok?
    ensures LegacyRowOn(s, headers, classes, line, p).value.1 in {TableRow(headers, classes), AfterEmptyLine, TableEnd}
  {
  }


  /** A restart header ends the table in SAR.py. */
  lemma RestartHeaderEndsTable(s: Snapshot, raw: string, p: Params)
    requires ColumnHeaders(Legacy, StripNewlines(raw)).Some?
    requires ColumnHeaders(Legacy, StripNewlines(raw)).value.headers == ["LINUX", "RESTART"]
    ensures LegacyTransition(s, TableStart, raw, p).Ok?
    ensures LegacyTransition(s, TableStart, raw, p).value.1 == TableEnd
  {
  }

  lemma RecordCheckedConsistent(s: Snapshot, headers: seq<string>, caps: seq<string>, toFloat: FloatParser)
    requires Consistent(s) && |caps| == |headers| + 1
    requires RecordChecked(s, headers, caps, toFloat).Ok?
    ensures Consistent(RecordChecked(s, headers, caps, toFloat).value)
  {
    match Locate(s, NoWindow, caps[0])
    case Ok(Some((s1, t))) =>
      LocateKeeps(s, NoWindow, caps[0]);
      var s2 := s1.(prev := Some(t));
      StoreConsistent(s2, t, headers, caps, toFloat);
      CheckedStoreAgrees(s2, t, headers, caps, toFloat);
  }

  lemma LegacyRowConsistent(s: Snapshot, headers: seq<string>, classes: seq<ValueClass>, line: string, p: Params)
    requires Consistent(s)
    requires LegacyRowOn(s, headers, classes, line, p).Ok?
    ensures Consistent(LegacyRowOn(s, headers, classes, line, p).value.0)
  {
    var m := p.matcher(classes, line);
    if !EmptyLine(line) && !AverageLine(Legacy, line) && m.Some? && |m.value| == |headers| + 1 {
      RecordCheckedConsistent(s, headers, m.value, p.toFloat);
    }
  }

  lemma LegacyTransitionConsistent(s: Snapshot, phase: Phase, raw: string, p: Params)
    requires Consistent(s)
    requires LegacyTransition(s, phase, raw, p).Ok?
    ensures Consistent(LegacyTransition(s, phase, raw, p).value.0)
  {
    match phase
    case TableRow(headers, classes) => LegacyRowStepConsistent(s, headers, classes, raw, p);
    case TableStart => LegacyHeaderStepConsistent(s, phase, raw, p);
    case AfterEmptyLine => LegacyHeaderStepConsistent(s, phase, raw, p);
    case _ => LegacyOtherStepConsistent(s, phase, raw, p);
  }

  lemma LegacyRowStep(s: Snapshot, headers: seq<string>, classes: seq<ValueClass>, raw: string, p: Params)
    ensures LegacyTransition(s, TableRow(headers, classes), raw, p)
      == LegacyRowOn(Counted(s), headers, classes, StripNewlines(raw), p)
  {
    var s1 := Counted(s);
    assert LegacyTransition(s, TableRow(headers, classes), raw, p) == LegacyOn(s1, TableRow(headers, classes), StripNewlines(raw), p);
  }

  lemma LegacyRowStepConsistent(s: Snapshot, headers: seq<string>, classes: seq<ValueClass>, raw: string, p: Params)
    requires Consistent(s)
    requires LegacyTransition(s, TableRow(headers, classes), raw, p).Ok?
    ensures Consistent(LegacyTransition(s, TableRow(headers, classes), raw, p).value.0)
  {
    var s1 := Counted(s);
    SameTablesConsistent(s, s1);
    LegacyRowStep(s, headers, classes, raw, p);
    LegacyRowConsistent(s1, headers, classes, StripNewlines(raw), p);
  }

  /** In `table_start`, and after a blank line, SAR.py reads a line as a
      table header unless it is a blank or summary line after a blank line. */
  lemma LegacyHeaderStep(s: Snapshot, phase: Phase, raw: string, p: Params)
    requires phase.TableStart? || phase.AfterEmptyLine?
    ensures var s1 := Counted(s);
      var line := StripNewlines(raw);
      LegacyTransition(s, phase, raw, p) ==
        if phase.AfterEmptyLine? && EmptyLine(line) then Ok((s1, AfterEmptyLine))
        else if phase.AfterEmptyLine? && AverageLine(Legacy, line) then Ok((s1, TableEnd))
        else HeaderOn(Legacy, s1, line, p)
  {
  }

  lemma LegacyHeaderStepConsistent(s: Snapshot, phase: Phase, raw: string, p: Params)
    requires Consistent(s) && (phase.TableStart? || phase.AfterEmptyLine?)
    requires LegacyTransition(s, phase, raw, p).Ok?
    ensures Consistent(LegacyTransition(s, phase, raw, p).value.0)
  {
    var s1 := Counted(s);
    var line := StripNewlines(raw);
    LegacyHeaderStep(s, phase, raw, p);
    SameTablesConsistent(s, s1);
    if phase.AfterEmptyLine? && (EmptyLine(line) || AverageLine(Legacy, line)) {
      SameTablesConsistent(s1, LegacyTransition(s, phase, raw, p).value.0);
    } else {
      HeaderKeeps(Legacy, s1, line, p);
      SameTablesConsistent(s1, HeaderOn(Legacy, s1, line, p).value.0);
    }
  }

  /** In every other state a line changes at most the line count, the
      preamble and the date. */
  lemma LegacyOtherStep(s: Snapshot, phase: Phase, raw: string, p: Params)
    requires !phase.TableRow? && !phase.TableStart? && !phase.AfterEmptyLine?
    requires LegacyTransition(s, phase, raw, p).Ok?
    ensures var r := LegacyTransition(s, phase, raw, p).value.0;
      r.data == s.data && r.order == s.order && r.categories == s.categories
  {
  }

  lemma LegacyOtherStepConsistent(s: Snapshot, phase: Phase, raw: string, p: Params)
    requires Consistent(s) && !phase.TableRow? && !phase.TableStart? && !phase.AfterEmptyLine?
    requires LegacyTransition(s, phase, raw, p).Ok?
    ensures Consistent(LegacyTransition(s, phase, raw, p).value.0)
  {
    LegacyOtherStep(s, phase, raw, p);
    SameTablesConsistent(s, LegacyTransition(s, phase, raw, p).value.0);
  }

  /** SAR.py's parse keeps the data consistent too, although its category
      dictionary is never pruned. */
  lemma LegacyParseConsistent(s: Snapshot, lines: seq<string>, p: Params)
    requires Consistent(s)
    requires LegacyParse(s, lines, p).Ok?
    ensures Consistent(LegacyParse(s, lines, p).value)
    ensures LegacyParse(s, lines, p).value.categories == Steps(LegacyStep(p), s.(prev := None), Start, lines).value.0.categories
  {
    var inv := (x: Snapshot) => Consistent(x);
    forall s1, ph, line | inv(s1) && LegacyStep(p)(s1, ph, line).Ok?
      ensures inv(LegacyStep(p)(s1, ph, line).value.0)
    {
      LegacyTransitionConsistent(s1, ph, line, p);
    }
    StepsKeep(LegacyStep(p), inv, s.(prev := None), Start, lines);
    var s2 := Steps(LegacyStep(p), s.(prev := None), Start, lines).value.0;
    PrunedListed(s2.data, s2.order);
    PrunedCategorisedKeep(s2.data, s2.categories);
  }

  /** The rows left by pruning keep the categories they had. */
  lemma PrunedCategorisedKeep(data: Data, cats: map<string, string>)
    requires Categorised(data, cats)
    ensures Categorised(Pruned(data), cats)
  {
    assert KeysMapped(data, cats, GetCategory);
    PrunedMapped(data, cats, GetCategory);
  }

  /** Once the data is pruned, which timestamp `datanames_per_arg` reads
      does not matter: every choice gives the groups of any one of them. */
  lemma DatanamesAfterPrune(data: Data, category: string, perKey: bool, t: Instant)
    requires t in Pruned(data)
    ensures LegacyDatanames(Pruned(data), category, perKey) == Groups(TypesIn(Pruned(data)[t], category), perKey)
  {
    var d := Pruned(data);
    var u :| u in d && LegacyDatanames(d, category, perKey) == Groups(TypesIn(d[u], category), perKey);
    SameKeysEverywhere(data);
    TypesInByKeys(d[u], d[t], category);
  }

  /** The available types of a row depend only on its keys. */
  lemma TypesInByKeys(a: Row, b: Row, category: string)
    requires a.Keys == b.Keys
    ensures TypesIn(a, category) == TypesIn(b, category)
  {
    assert SortedKeys(a) == SortedKeys(b);
  }
}
