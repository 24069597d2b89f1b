/** What the parser of sar_parser.py promises: its step function keeps the
    data consistent, rows go where `_record_data` puts them, and the
    states of `parse` move as the source moves them. */
module ParserLemmas {
  import opened Wrappers
  import opened Text
  import opened Calendar
  import opened Timestamps
  import opened Catalog
  import opened Metadata
  import opened Lines
  import opened Report
  import opened Prune
  import opened Parser

  // ---- the consistency invariant ----

  lemma InitialConsistent()
    ensures Consistent(Initial())
  {
  }

  /** Writing a row keeps every key's category. */
  lemma PutCategorised(data: Data, cats: map<string, string>, t: Instant, keys: seq<string>, raws: seq<string>,
                       toFloat: FloatParser)
    requires Categorised(data, cats) && t in data && |keys| == |raws|
    ensures Categorised(data[t := Put(data[t], keys, raws, toFloat)], Categorise(cats, keys))
  {
    CategoriseEntries(cats, keys);
    PutMapped(data, cats, Categorise(cats, keys), t, keys, raws, toFloat, GetCategory);
  }

  lemma WriteConsistent(s: Snapshot, t: Instant, keys: seq<string>, raws: seq<string>, toFloat: FloatParser)
    requires Consistent(s) && t in s.data && |keys| == |raws|
    ensures Consistent(Write(s, t, keys, raws, toFloat))
  {
    PutCategorised(s.data, s.categories, t, keys, raws, toFloat);
    assert Write(s, t, keys, raws, toFloat).data.Keys == s.data.Keys;
  }

  lemma StoreConsistent(s: Snapshot, t: Instant, headers: seq<string>, caps: seq<string>, toFloat: FloatParser)
    requires Consistent(s) && ValidInstant(t) && |caps| == |headers| + 1
    ensures Consistent(Store(s, t, headers, caps, toFloat))
  {
    var s1 := WithSlot(s, t);
    assert Consistent(s1);
    match IndexColumn(headers)
    case None =>
      WriteConsistent(s1, t, PlainKeys(headers), caps[1..], toFloat);
    case Some(c) =>
      var v := caps[c + 1];
      if v != "all" && v != "Summary" {
        WriteConsistent(s1, t, CompositeKeys(headers, c, v), Without(caps[1..], c), toFloat);
      }
  }

  /** A located row has a valid instant, and only the date may have moved. */
  lemma LocateKeeps(s: Snapshot, w: Window, stamp: string)
    requires Locate(s, w, stamp).Ok? && Locate(s, w, stamp).value.Some?
    ensures ValidInstant(Locate(s, w, stamp).value.value.1)
    ensures Locate(s, w, stamp).value.value.0
      == s.(date := Locate(s, w, stamp).value.value.0.date, oldDate := Locate(s, w, stamp).value.value.0.oldDate)
  {
  }

  lemma RecordConsistent(s: Snapshot, w: Window, headers: seq<string>, caps: seq<string>, toFloat: FloatParser)
    requires Consistent(s) && |caps| == |headers| + 1
    requires Record(s, w, headers, caps, toFloat).Ok?
    ensures Consistent(Record(s, w, headers, caps, toFloat).value)
  {
    match Locate(s, w, caps[0])
    case Ok(None) =>
    case Ok(Some((s1, t))) =>
      LocateKeeps(s, w, caps[0]);
      StoreConsistent(s1.(prev := Some(t)), t, headers, caps, toFloat);
  }

  /** The data after one line of a table: unchanged unless a row was
      recorded. */
  lemma TableRowConsistent(s: Snapshot, headers: seq<string>, classes: seq<ValueClass>, line: string,
                           w: Window, p: Params)
    requires Consistent(s)
    requires TableRowOn(s, headers, classes, line, w, p).Ok?
    ensures Consistent(TableRowOn(s, headers, classes, line, w, p).value.0)
  {
    var m := p.matcher(classes, line);
    if !EmptyLine(line) && !AverageLine(Current, line) && m.Some? && |m.value| == |headers| + 1 {
      RecordConsistent(s, w, headers, m.value, p.toFloat);
    }
  }

  /** A table header changes only the date and the previous row. */
  lemma TableStartKeeps(s: Snapshot, line: string, p: Params)
    requires TableStartOn(s, line, p).Ok?
    ensures TableStartOn(s, line, p).value.0.data == s.data
    ensures TableStartOn(s, line, p).value.0.order == s.order
    ensures TableStartOn(s, line, p).value.0.categories == s.categories
  {
    if !(Contains(line, "LINUX RESTART") || line == "") {
      HeaderKeeps(Current, s, line, p);
    }
  }

  /** A header line, in either dialect, changes neither the data, nor the
      order, nor the categories. */
  lemma HeaderKeeps(d: Dialect, s: Snapshot, line: string, p: Params)
    requires HeaderOn(d, s, line, p).Ok?
    ensures HeaderOn(d, s, line, p).value.0.data == s.data
    ensures HeaderOn(d, s, line, p).value.0.order == s.order
    ensures HeaderOn(d, s, line, p).value.0.categories == s.categories
  {
    var s1 := if s.oldDate.Some? then s.(date := s.oldDate.value) else s;
    var hl := ColumnHeaders(d, line).value;
    if !(hl.headers == ["LINUX", "RESTART"]) && hl.headers[0] !in p.skipTables {
      var classes := RowClasses(hl.headers).value;
      assert HeaderOn(d, s, line, p) == Ok((s1.(prev := None), TableRow(hl.headers, classes)));
    }
  }

  /** Only a recorded row changes the data; every other line leaves the
      timestamps, rows and categories alone. */
  lemma TransitionConsistent(s: Snapshot, phase: Phase, raw: string, w: Window, p: Params)
    requires Consistent(s)
    requires Transition(s, phase, raw, w, p).Ok?
    ensures Consistent(Transition(s, phase, raw, w, p).value.0)
  {
    match phase
    case TableRow(headers, classes) => RowStepConsistent(s, headers, classes, raw, w, p);
    case TableStart => HeaderStepConsistent(s, phase, raw, w, p);
    case AfterEmptyLine => HeaderStepConsistent(s, phase, raw, w, p);
    case _ => OtherStepConsistent(s, phase, raw, w, p);
  }

  lemma RowStep(s: Snapshot, headers: seq<string>, classes: seq<ValueClass>, raw: string, w: Window, p: Params)
    ensures Transition(s, TableRow(headers, classes), raw, w, p)
      == TableRowOn(Counted(s), headers, classes, StripNewlines(raw), w, p)
  {
  }

  lemma RowStepConsistent(s: Snapshot, headers: seq<string>, classes: seq<ValueClass>, raw: string,
                          w: Window, p: Params)
    requires Consistent(s)
    requires Transition(s, TableRow(headers, classes), raw, w, p).Ok?
    ensures Consistent(Transition(s, TableRow(headers, classes), raw, w, p).value.0)
  {
    var s1 := Counted(s);
    SameTablesConsistent(s, s1);
    RowStep(s, headers, classes, raw, w, p);
    TableRowConsistent(s1, headers, classes, StripNewlines(raw), w, p);
  }

  /** In `table_start`, and after a blank line, a line is read as a table
      start unless it is a blank or summary line after a blank line. */
  lemma HeaderStep(s: Snapshot, phase: Phase, raw: string, w: Window, p: Params)
    requires phase.TableStart? || phase.AfterEmptyLine?
    ensures var s1 := Counted(s);
      var line := StripNewlines(raw);
      Transition(s, phase, raw, w, p) ==
        if phase.AfterEmptyLine? && EmptyLine(line) then Ok((s1, AfterEmptyLine))
        else if phase.AfterEmptyLine? && AverageLine(Current, line) then Ok((s1, TableEnd))
        else TableStartOn(s1, line, p)
  {
  }

  lemma HeaderStepConsistent(s: Snapshot, phase: Phase, raw: string, w: Window, p: Params)
    requires Consistent(s) && (phase.TableStart? || phase.AfterEmptyLine?)
    requires Transition(s, phase, raw, w, p).Ok?
    ensures Consistent(Transition(s, phase, raw, w, p).value.0)
  {
    var s1 := Counted(s);
    var line := StripNewlines(raw);
    HeaderStep(s, phase, raw, w, p);
    SameTablesConsistent(s, s1);
    if phase.AfterEmptyLine? && (EmptyLine(line) || AverageLine(Current, line)) {
      SameTablesConsistent(s1, Transition(s, phase, raw, w, p).value.0);
    } else {
      TableStartKeeps(s1, line, p);
      SameTablesConsistent(s1, TableStartOn(s1, line, p).value.0);
    }
  }

  /** In every other state a line changes at most the line count, the
      preamble and the date. */
  lemma OtherStep(s: Snapshot, phase: Phase, raw: string, w: Window, p: Params)
    requires !phase.TableRow? && !phase.TableStart? && !phase.AfterEmptyLine?
    requires Transition(s, phase, raw, w, p).Ok?
    ensures var r := Transition(s, phase, raw, w, p).value.0;
      r.data == s.data && r.order == s.order && r.categories == s.categories
  {
  }

  lemma OtherStepConsistent(s: Snapshot, phase: Phase, raw: string, w: Window, p: Params)
    requires Consistent(s) && !phase.TableRow? && !phase.TableStart? && !phase.AfterEmptyLine?
    requires Transition(s, phase, raw, w, p).Ok?
    ensures Consistent(Transition(s, phase, raw, w, p).value.0)
  {
    OtherStep(s, phase, raw, w, p);
    SameTablesConsistent(s, Transition(s, phase, raw, w, p).value.0);
  }

  /** A state with the same timestamps, rows and categories as a consistent
      one is consistent. */
  lemma SameTablesConsistent(s: Snapshot, r: Snapshot)
    requires Consistent(s)
    requires r.data == s.data && r.order == s.order && r.categories == s.categories
    ensures Consistent(r)
  {
  }

  /** A property every step keeps holds after any number of lines. */
  lemma {:induction false} StepsKeep(step: Step, inv: Snapshot -> bool, s: Snapshot, phase: Phase, lines: seq<string>)
    requires inv(s)
    requires forall s1, ph, line :: inv(s1) && step(s1, ph, line).Ok? ==> inv(step(s1, ph, line).value.0)
    ensures Steps(step, s, phase, lines).Ok? ==> inv(Steps(step, s, phase, lines).value.0)
    decreases |lines|
  {
    if lines != [] {
      StepsKeep(step, inv, s, phase, lines[..|lines| - 1]);
    }
  }

  lemma RunLinesConsistent(s: Snapshot, phase: Phase, lines: seq<string>, w: Window, p: Params)
    requires Consistent(s)
    ensures RunLines(s, phase, lines, w, p).Ok? ==> Consistent(RunLines(s, phase, lines, w, p).value.0)
  {
    var inv := (x: Snapshot) => Consistent(x);
    forall s1, ph, line | inv(s1) && LineStep(w, p)(s1, ph, line).Ok?
      ensures inv(LineStep(w, p)(s1, ph, line).value.0)
    {
      TransitionConsistent(s1, ph, line, w, p);
    }
    StepsKeep(LineStep(w, p), inv, s, phase, lines);
  }

  lemma {:induction false} RunFilesConsistent(s: Snapshot, files: seq<seq<string>>, w: Window, p: Params)
    requires Consistent(s)
    ensures RunFiles(s, files, w, p).Ok? ==> Consistent(RunFiles(s, files, w, p).value)
    decreases |files|
  {
    if files != [] {
      var n := |files| - 1;
      RunFilesConsistent(s, files[..n], w, p);
      if RunFiles(s, files[..n], w, p).Ok? {
        var s1 := RunFiles(s, files[..n], w, p).value;
        RunLinesConsistent(s1.(prev := None), Start, files[n], w, p);
      }
    }
  }

  /** Every kept key occurred in some row, and so had its category. */
  lemma PrunedCategorised(data: Data, cats: map<string, string>)
    requires Categorised(data, cats)
    ensures Categorised(Pruned(data), PrunedCategories(data, cats))
  {
    var kept := Kept(data);
    forall k | k in kept ensures k in cats && cats[k] == GetCategory(k) {
      var t :| t in data && k in data[t];
    }
    var d := Pruned(data);
    forall t, k | t in d && k in d[t] ensures k in kept {
      assert d[t].Keys == kept;
    }
  }

  lemma PrunedListed(data: Data, order: seq<Instant>)
    requires Listed(data, order)
    ensures Listed(Pruned(data), order)
  {
    assert Pruned(data).Keys == data.Keys;
  }

  lemma FinishConsistent(s: Snapshot)
    requires Consistent(s)
    ensures Consistent(Finish(s))
  {
    PrunedListed(s.data, s.order);
    PrunedCategorised(s.data, s.categories);
  }

  /** What `parse` leaves behind: every timestamp has the same keys, no
      key is zero wherever it was read, every key has its category and no
      category is left for a key that is gone. */
  lemma ParseResult(files: seq<seq<string>>, w: Window, p: Params)
    requires ParseAll(Initial(), files, w, p).Ok?
    ensures Consistent(ParseAll(Initial(), files, w, p).value)
    ensures var r := ParseAll(Initial(), files, w, p).value;
      forall t1, t2 :: t1 in r.data && t2 in r.data ==> r.data[t1].Keys == r.data[t2].Keys
    ensures var r := ParseAll(Initial(), files, w, p).value;
      var read := RunFiles(Initial(), files, w, p).value;
      forall t, k :: t in r.data && k in r.data[t] ==> !ZeroOnly(read.data, k)
    ensures var r := ParseAll(Initial(), files, w, p).value;
      r.data != map[] ==> forall k :: k in r.categories ==> exists t :: t in r.data && k in r.data[t]
  {
    InitialConsistent();
    RunFilesConsistent(Initial(), files, w, p);
    var read := RunFiles(Initial(), files, w, p).value;
    FinishConsistent(read);
    SameKeysEverywhere(read.data);
    NoZeroOnlyKeySurvives(read.data);
    if read.data != map[] {
      CategoriesFollowData(read.data, read.categories);
    }
  }

  // ---- recording a row ----

  /** A row outside the window changes nothing, not even the previous
      timestamp. */
  lemma OutsideWindow(s: Snapshot, w: Window, headers: seq<string>, caps: seq<string>, toFloat: FloatParser)
    requires |caps| == |headers| + 1
    requires Canonicalise(s.date, caps[0]).Ok?
    requires (w.start.Some? && Before(Canonicalise(s.date, caps[0]).value, w.start.value))
      || (w.end.Some? && Before(w.end.value, Canonicalise(s.date, caps[0]).value))
    ensures Record(s, w, headers, caps, toFloat) == Ok(s)
  {
  }

  /** Past 23h into 0h the date moves on a day and the old one is kept;
      past the last representable day the row is refused. */
  lemma Rollover(s: Snapshot, w: Window, headers: seq<string>, caps: seq<string>, toFloat: FloatParser)
    requires |caps| == |headers| + 1
    requires Canonicalise(s.date, caps[0]).Ok?
    requires !(w.start.Some? && Before(Canonicalise(s.date, caps[0]).value, w.start.value))
    requires !(w.end.Some? && Before(w.end.value, Canonicalise(s.date, caps[0]).value))
    requires s.prev.Some? && s.prev.value.hour == 23 && Canonicalise(s.date, caps[0]).value.hour == 0
    ensures ValidDate(s.date)
    ensures NextDay(s.date).None? ==> Record(s, w, headers, caps, toFloat) == Err(DateOverflow(s.lineCount))
    ensures Record(s, w, headers, caps, toFloat).Ok? ==>
      NextDay(s.date).Some?
      && Record(s, w, headers, caps, toFloat).value.date == NextDay(s.date).value
      && Record(s, w, headers, caps, toFloat).value.oldDate == Some(s.date)
      && Record(s, w, headers, caps, toFloat).value.prev.Some?
      && Record(s, w, headers, caps, toFloat).value.prev.value.date == NextDay(s.date).value
  {
    var t0 := Canonicalise(s.date, caps[0]).value;
    assert Locate(s, w, caps[0]) == (match Advance(s, t0, caps[0]) case Err(e) => Err(e) case Ok(x) => Ok(Some(x)));
    if NextDay(s.date).Some? {
      var d := NextDay(s.date).value;
      CanonicaliseOnAnyDate(s.date, d, caps[0]);
      var t := Canonicalise(d, caps[0]).value;
      var s1 := s.(oldDate := Some(s.date), date := d);
      assert Advance(s, t0, caps[0]) == Ok((s1, t));
      assert Record(s, w, headers, caps, toFloat) == Ok(Store(s1.(prev := Some(t)), t, headers, caps, toFloat));
      StoreKeepsDates(s1.(prev := Some(t)), t, headers, caps, toFloat);
    }
  }

  /** Storing a row leaves the dates and the previous timestamp alone. */
  lemma StoreKeepsDates(s: Snapshot, t: Instant, headers: seq<string>, caps: seq<string>, toFloat: FloatParser)
    requires |caps| == |headers| + 1
    ensures var r := Store(s, t, headers, caps, toFloat);
      r.date == s.date && r.oldDate == s.oldDate && r.prev == s.prev && r.lineCount == s.lineCount
  {
    var s1 := WithSlot(s, t);
    assert s1.date == s.date && s1.oldDate == s.oldDate && s1.prev == s.prev && s1.lineCount == s.lineCount;
    match IndexColumn(headers)
    case None =>
      WriteKeepsDates(s1, t, PlainKeys(headers), caps[1..], toFloat);
    case Some(c) =>
      var v := caps[c + 1];
      if !(v == "all" || v == "Summary") {
        WriteKeepsDates(s1, t, CompositeKeys(headers, c, v), Without(caps[1..], c), toFloat);
      }
  }

  lemma WriteKeepsDates(s: Snapshot, t: Instant, keys: seq<string>, raws: seq<string>, toFloat: FloatParser)
    requires t in s.data && |keys| == |raws|
    ensures var r := Write(s, t, keys, raws, toFloat);
      r.date == s.date && r.oldDate == s.oldDate && r.prev == s.prev && r.lineCount == s.lineCount
  {
  }

  /** Any other step back in time is an error. */
  lemma Backwards(s: Snapshot, w: Window, headers: seq<string>, caps: seq<string>, toFloat: FloatParser)
    requires |caps| == |headers| + 1
    requires Canonicalise(s.date, caps[0]).Ok?
    requires !(w.start.Some? && Before(Canonicalise(s.date, caps[0]).value, w.start.value))
    requires !(w.end.Some? && Before(w.end.value, Canonicalise(s.date, caps[0]).value))
    requires s.prev.Some? && !(s.prev.value.hour == 23 && Canonicalise(s.date, caps[0]).value.hour == 0)
    requires Before(Canonicalise(s.date, caps[0]).value, s.prev.value)
    ensures Record(s, w, headers, caps, toFloat) == Err(TimeBackwards(s.lineCount))
  {
  }

  /** The first row after a table header or at the start of a file is not
      compared with anything: it fails only on its own timestamp, and it
      is recorded under the instant its timestamp names. */
  lemma FirstRowNotCompared(s: Snapshot, w: Window, headers: seq<string>, caps: seq<string>, toFloat: FloatParser)
    requires |caps| == |headers| + 1
    requires s.prev.None?
    ensures Record(s, w, headers, caps, toFloat).Err? ==>
      Record(s, w, headers, caps, toFloat).error == BadTimestamp(s.lineCount, Canonicalise(s.date, caps[0]).error)
    ensures Record(s, w, headers, caps, toFloat).Ok? && Record(s, w, headers, caps, toFloat).value != s ==>
      Record(s, w, headers, caps, toFloat).value.prev == Some(Canonicalise(s.date, caps[0]).value)
      && Record(s, w, headers, caps, toFloat).value.date == s.date
  {
  }

  /** Key `i` of a write gets its category, and its value unless a later
      key is the same. */
  lemma WriteStored(s: Snapshot, t: Instant, keys: seq<string>, raws: seq<string>, toFloat: FloatParser, i: nat)
    requires t in s.data && |keys| == |raws| && i < |keys|
    ensures var r := Write(s, t, keys, raws, toFloat);
      t in r.data && keys[i] in r.data[t] && keys[i] in r.categories && r.categories[keys[i]] == GetCategory(keys[i])
    ensures keys[i] !in keys[i + 1..] ==>
      Write(s, t, keys, raws, toFloat).data[t][keys[i]] == ToValue(raws[i], toFloat)
  {
    assert keys[i] in keys;
    PutKeys(s.data[t], keys, raws, toFloat);
    CategoriseEntries(s.categories, keys);
    if keys[i] !in keys[i + 1..] {
      PutWritten(s.data[t], keys, raws, toFloat, i);
    }
  }

  /** A 2D row: header `i` is stored under its (possibly renamed) key with
      the value of capture `i + 1` unless a later header has the same key,
      and the key gets its category. */
  lemma PlainRowStored(s: Snapshot, t: Instant, headers: seq<string>, caps: seq<string>, toFloat: FloatParser, i: nat)
    requires |caps| == |headers| + 1 && IndexColumn(headers).None? && i < |headers|
    ensures var r := Store(s, t, headers, caps, toFloat);
      var k := PlainKeys(headers)[i];
      t in r.data && k in r.data[t] && k in r.categories && r.categories[k] == GetCategory(k)
    ensures var r := Store(s, t, headers, caps, toFloat);
      var k := PlainKeys(headers)[i];
      k !in PlainKeys(headers)[i + 1..] ==> r.data[t][k] == ToValue(caps[i + 1], toFloat)
  {
    var s1 := WithSlot(s, t);
    assert Store(s, t, headers, caps, toFloat) == Write(s1, t, PlainKeys(headers), caps[1..], toFloat);
    WriteStored(s1, t, PlainKeys(headers), caps[1..], toFloat, i);
  }

  /** The line of a 2D row is a duplicate exactly when one of its keys was
      already there. */
  lemma PlainRowDuplicate(s: Snapshot, t: Instant, headers: seq<string>, caps: seq<string>, toFloat: FloatParser)
    requires |caps| == |headers| + 1 && IndexColumn(headers).None?
    ensures Store(s, t, headers, caps, toFloat).duplicates
      == if Repeats(RowBefore(s, t), PlainKeys(headers)) then s.duplicates + {s.lineCount} else s.duplicates
  {
    var s1 := WithSlot(s, t);
    assert Store(s, t, headers, caps, toFloat) == Write(s1, t, PlainKeys(headers), caps[1..], toFloat);
  }

  /** Storing a row touches no other timestamp. */
  lemma StoreOthers(s: Snapshot, t: Instant, headers: seq<string>, caps: seq<string>, toFloat: FloatParser, u: Instant)
    requires |caps| == |headers| + 1 && u in s.data && u != t
    ensures u in Store(s, t, headers, caps, toFloat).data
    ensures Store(s, t, headers, caps, toFloat).data[u] == s.data[u]
  {
    assert Store(s, t, headers, caps, toFloat).data.Keys >= WithSlot(s, t).data.Keys;
  }

  /** The `all` and `Summary` rows of a 3D table only create the row of
      their timestamp. */
  lemma SummaryRowSkipped(s: Snapshot, t: Instant, headers: seq<string>, caps: seq<string>, toFloat: FloatParser)
    requires |caps| == |headers| + 1 && IndexColumn(headers).Some?
    requires caps[IndexColumn(headers).value + 1] in ["all", "Summary"]
    ensures Store(s, t, headers, caps, toFloat).data == s.data[t := RowBefore(s, t)]
    ensures Store(s, t, headers, caps, toFloat).categories == s.categories
    ensures Store(s, t, headers, caps, toFloat).duplicates == s.duplicates
  {
  }

  /** A 3D row: every header but the index column is stored under
      `index#value#header` with its own capture, unless a later header has
      the same key, and gets its category. */
  lemma CompositeRowStored(s: Snapshot, t: Instant, headers: seq<string>, caps: seq<string>, toFloat: FloatParser, j: nat)
    requires |caps| == |headers| + 1 && IndexColumn(headers).Some?
    requires caps[IndexColumn(headers).value + 1] !in ["all", "Summary"]
    requires j < |headers| && j != IndexColumn(headers).value
    ensures var c := IndexColumn(headers).value;
      var r := Store(s, t, headers, caps, toFloat);
      var k := CompositeKey(headers[c], caps[c + 1], headers[j]);
      t in r.data && k in r.data[t] && k in r.categories && r.categories[k] == GetCategory(k)
    ensures var c := IndexColumn(headers).value;
      var r := Store(s, t, headers, caps, toFloat);
      var keys := CompositeKeys(headers, c, caps[c + 1]);
      var i := if j < c then j else j - 1;
      keys[i] == CompositeKey(headers[c], caps[c + 1], headers[j])
      && (keys[i] !in keys[i + 1..] ==> r.data[t][keys[i]] == ToValue(caps[j + 1], toFloat))
  {
    var c := IndexColumn(headers).value;
    var i := if j < c then j else j - 1;
    CompositeKeyAt(headers, caps, c, j);
    StoreComposite(s, t, headers, caps, toFloat);
    WriteStored(WithSlot(s, t), t, CompositeKeys(headers, c, caps[c + 1]), Without(caps[1..], c), toFloat, i);
  }

  /** A 3D row that is not an `all` or `Summary` row is written under the
      composite keys. */
  lemma StoreComposite(s: Snapshot, t: Instant, headers: seq<string>, caps: seq<string>, toFloat: FloatParser)
    requires |caps| == |headers| + 1 && IndexColumn(headers).Some?
    requires caps[IndexColumn(headers).value + 1] !in ["all", "Summary"]
    ensures var c := IndexColumn(headers).value;
      Store(s, t, headers, caps, toFloat)
        == Write(WithSlot(s, t), t, CompositeKeys(headers, c, caps[c + 1]), Without(caps[1..], c), toFloat)
  {
  }

  /** Header `j` of a 3D row is key and value number `j`, or `j - 1`
      past the index column. */
  lemma CompositeKeyAt(headers: seq<string>, caps: seq<string>, c: nat, j: nat)
    requires |caps| == |headers| + 1 && c < |headers| && j < |headers| && j != c
    ensures var i := if j < c then j else j - 1;
      CompositeKeys(headers, c, caps[c + 1])[i] == CompositeKey(headers[c], caps[c + 1], headers[j])
      && Without(caps[1..], c)[i] == caps[j + 1]
  {
  }

  // ---- the states of `parse` ----

  /** After the first line exactly one blank line must follow. */
  lemma BlankAfterFirstLine(s: Snapshot, raw: string, w: Window, p: Params)
    ensures Transition(s, AfterFirstLine, raw, w, p).Ok? <==> EmptyLine(StripNewlines(raw))
    ensures Transition(s, AfterFirstLine, raw, w, p).Ok? ==> Transition(s, AfterFirstLine, raw, w, p).value == (Counted(s), AfterEmptyLine)
  {
  }

  /** After a blank line, blank lines are absorbed, a summary line ends the
      table, and any other line is handled as the start of a table. */
  lemma AfterBlankLine(s: Snapshot, raw: string, w: Window, p: Params)
    ensures EmptyLine(StripNewlines(raw)) ==>
      Transition(s, AfterEmptyLine, raw, w, p) == Ok((Counted(s), AfterEmptyLine))
    ensures !EmptyLine(StripNewlines(raw)) && AverageLine(Current, StripNewlines(raw)) ==>
      Transition(s, AfterEmptyLine, raw, w, p) == Ok((Counted(s), TableEnd))
    ensures !EmptyLine(StripNewlines(raw)) && !AverageLine(Current, StripNewlines(raw)) ==>
      Transition(s, AfterEmptyLine, raw, w, p) == Transition(s, TableStart, raw, w, p)
  {
  }

  /** Restart lines and exactly empty lines do not start a table. */
  lemma RestartLinesSkipped(s: Snapshot, raw: string, w: Window, p: Params)
    requires Contains(StripNewlines(raw), "LINUX RESTART") || StripNewlines(raw) == ""
    ensures Transition(s, TableStart, raw, w, p) == Ok((Counted(s), TableStart))
  {
  }

  /** A table header line (in `table_start`, or re-read after a blank
      line) restores the date from before a rollover and starts a table
      with no previous row; a restart header ends the table and a skipped
      table is passed over. */
  lemma TableHeader(s: Snapshot, line: string, p: Params)
    requires !Contains(line, "LINUX RESTART") && line != ""
    requires TableStartOn(s, line, p).Ok?
    ensures s.oldDate.Some? ==> TableStartOn(s, line, p).value.0.date == s.oldDate.value
    ensures ColumnHeaders(Current, line).Some?
    ensures var h := ColumnHeaders(Current, line).value.headers;
      var ph := TableStartOn(s, line, p).value.1;
      (h == ["LINUX", "RESTART"] ==> ph == TableEnd)
      && (h != ["LINUX", "RESTART"] && h[0] in p.skipTables ==> ph == SkipUntilEot)
      && (h != ["LINUX", "RESTART"] && h[0] !in p.skipTables ==>
            ph == TableRow(h, RowClasses(h).value) && TableStartOn(s, line, p).value.0.prev.None?)
  {
  }

  /** A line in `table_start` that is not a header, or whose columns have
      no pattern, is an error. */
  lemma TableHeaderRefused(s: Snapshot, line: string, p: Params)
    requires !Contains(line, "LINUX RESTART") && line != ""
    ensures ColumnHeaders(Current, line).None? ==> TableStartOn(s, line, p) == Err(ExpectedHeader(s.lineCount))
    ensures ColumnHeaders(Current, line).Some? ==>
      var h := ColumnHeaders(Current, line).value.headers;
      h != ["LINUX", "RESTART"] && h[0] !in p.skipTables && RowClasses(h).Err? ==>
        TableStartOn(s, line, p) == Err(UnknownColumn(s.lineCount, RowClasses(h).error))
  {
  }

  /** In a table, a blank line leaves it, a summary line ends it, and a row
      the pattern does not match is an error. */
  lemma InTable(s: Snapshot, headers: seq<string>, classes: seq<ValueClass>, raw: string, w: Window, p: Params)
    ensures EmptyLine(StripNewlines(raw)) ==>
      Transition(s, TableRow(headers, classes), raw, w, p) == Ok((Counted(s), AfterEmptyLine))
    ensures !EmptyLine(StripNewlines(raw)) && AverageLine(Current, StripNewlines(raw)) ==>
      Transition(s, TableRow(headers, classes), raw, w, p) == Ok((Counted(s), TableEnd))
    ensures (!EmptyLine(StripNewlines(raw)) && !AverageLine(Current, StripNewlines(raw))
             && p.matcher(classes, StripNewlines(raw)).None?) ==>
      Transition(s, TableRow(headers, classes), raw, w, p) == Err(RowMismatch(s.lineCount + 1))
  {
  }

  /** After a table, summary lines are absorbed, a blank line leaves, and
      anything else is an error. */
  lemma AfterTable(s: Snapshot, raw: string, w: Window, p: Params)
    ensures Transition(s, TableEnd, raw, w, p).Ok? <==>
      EmptyLine(StripNewlines(raw)) || AverageLine(Current, StripNewlines(raw))
    ensures Transition(s, TableEnd, raw, w, p).Ok? ==>
      Transition(s, TableEnd, raw, w, p).value
        == (Counted(s), if EmptyLine(StripNewlines(raw)) then AfterEmptyLine else TableEnd)
  {
  }

  /** Every file starts in state `start` with no previous row, so its
      first row is never compared with the last row of the file before.
      Nothing else is reset: the saved date of a day crossing is carried
      into the next file (see `SavedDateRestored`). */
  lemma FilesStartFresh(s: Snapshot, files: seq<seq<string>>, w: Window, p: Params)
    requires files != []
    requires RunFiles(s, files[..|files| - 1], w, p).Ok?
    ensures RunFiles(s, files, w, p)
      == match RunLines(RunFiles(s, files[..|files| - 1], w, p).value.(prev := None), Start, files[|files| - 1], w, p)
         case Err(e) => Err(e)
         case Ok((s2, _)) => Ok(s2)
  {
  }
  /** `_olddate` is never reset between files: once a file has crossed
      midnight, the first table header of any later file moves the date
      back to that saved date, whatever date its own first line gives. */
  lemma SavedDateRestored(s: Snapshot, first: string, blank: string, header: string, w: Window, p: Params)
    requires s.oldDate.Some?
    requires !EmptyLine(StripNewlines(header)) && !AverageLine(Current, StripNewlines(header))
    requires !Contains(StripNewlines(header), "LINUX RESTART")
    requires RunLines(s.(prev := None), Start, [first, blank, header], w, p).Ok?
    ensures ParseFirstLine(StripNewlines(first)).Some?
    ensures RunLines(s.(prev := None), Start, [first, blank, header], w, p).value.0.preamble
      == ParseFirstLine(StripNewlines(first))
    ensures RunLines(s.(prev := None), Start, [first, blank, header], w, p).value.0.date == s.oldDate.value
  {
    var s0 := s.(prev := None);
    StepsThree(LineStep(w, p), s0, Start, first, blank, header);
    StartKeepsSaved(s0, first, w, p);
    var s1 := Transition(s0, Start, first, w, p).value.0;
    BlankAfterFirstLine(s1, blank, w, p);
    var s2 := Transition(s1, AfterFirstLine, blank, w, p).value.0;
    HeaderAfterBlank(s2, header, w, p);
    HeaderRestoresDate(Current, Counted(s2), StripNewlines(header), p);
  }

  /** Three lines through a step, stopping at the first error. */
  lemma StepsThree(step: Step, s: Snapshot, phase: Phase, a: string, b: string, c: string)
    ensures Steps(step, s, phase, [a, b, c])
      == match step(s, phase, a)
         case Err(e) => Err(e)
         case Ok((s1, ph1)) =>
           match step(s1, ph1, b)
           case Err(e) => Err(e)
           case Ok((s2, ph2)) => step(s2, ph2, c)
  {
    assert [a][..0] == [];
    assert Steps(step, s, phase, [a]) == step(s, phase, a);
    assert [a, b][..1] == [a];
    assert [a, b, c][..2] == [a, b];
  }

  /** The first line of a file sets the preamble and the date, and keeps
      the saved date. */
  lemma StartKeepsSaved(s: Snapshot, raw: string, w: Window, p: Params)
    ensures Transition(s, Start, raw, w, p).Ok? <==> ParseFirstLine(StripNewlines(raw)).Some?
    ensures Transition(s, Start, raw, w, p).Ok? ==>
      var (s1, ph) := Transition(s, Start, raw, w, p).value;
      ph == AfterFirstLine && s1.oldDate == s.oldDate && s1.preamble == ParseFirstLine(StripNewlines(raw))
      && s1.date == ParseFirstLine(StripNewlines(raw)).value.date
  {
  }

  /** A line after a blank line that is neither blank, nor a summary, nor a
      restart line is read as a table header. */
  lemma HeaderAfterBlank(s: Snapshot, raw: string, w: Window, p: Params)
    requires !EmptyLine(StripNewlines(raw)) && !AverageLine(Current, StripNewlines(raw))
    requires !Contains(StripNewlines(raw), "LINUX RESTART")
    ensures Transition(s, AfterEmptyLine, raw, w, p) == HeaderOn(Current, Counted(s), StripNewlines(raw), p)
  {
  }

  /** A table header moves the date back to the saved date, if any. */
  lemma HeaderRestoresDate(d: Dialect, s: Snapshot, line: string, p: Params)
    requires HeaderOn(d, s, line, p).Ok?
    ensures HeaderOn(d, s, line, p).value.0.date == if s.oldDate.Some? then s.oldDate.value else s.date
    ensures HeaderOn(d, s, line, p).value.0.oldDate == s.oldDate
    ensures HeaderOn(d, s, line, p).value.0.preamble == s.preamble
  {
    var s1 := if s.oldDate.Some? then s.(date := s.oldDate.value) else s;
    var hl := ColumnHeaders(d, line).value;
    if !(hl.headers == ["LINUX", "RESTART"]) && hl.headers[0] !in p.skipTables {
      var classes := RowClasses(hl.headers).value;
      assert HeaderOn(d, s, line, p) == Ok((s1.(prev := None), TableRow(hl.headers, classes)));
    }
  }


}
