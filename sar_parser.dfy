/** The sar report parser of sar_parser.py: the `SarParser` class, its
    line-driven state machine (`parse`), the row recorder
    (`_record_data`), the clean-up (`_prune_data`) and the queries over
    the finished data. */
module Parser {
  import opened Wrappers
  import opened Text
  import opened Calendar
  import opened Timestamps
  import opened Catalog
  import opened Metadata
  import opened Lines
  import opened Report
  import opened Prune
  import opened Queries

  /** The parser's fields, as one value. */
  datatype Snapshot = Snapshot(
    data: Data,                        // `_data`
    order: seq<Instant>,               // the insertion order of `_data`'s keys
    categories: map<string, string>,   // `_categories`
    date: Date,                        // `_date`
    oldDate: Option<Date>,             // `_olddate`
    prev: Option<Instant>,             // `_prev_timestamp` (None and False alike)
    duplicates: set<nat>,              // the line numbers in `_duplicate_timestamps`
    lineCount: nat,                    // `_linecount`
    preamble: Option<Preamble>)        // kernel, version, hostname of the last first line

  /** The snapshot once `_linecount` is incremented for a new line. */
  function Counted(s: Snapshot): Snapshot {
    s.(lineCount := s.lineCount + 1)
  }

  /** `starttime` and `endtime`, already parsed. */
  datatype Window = Window(start: Option<Instant>, end: Option<Instant>)

  /** What `parse` is given besides the files: the tables to skip, and the
      two parts of Python the model takes as given (`float()` and the
      compiled row pattern). */
  datatype Params = Params(skipTables: seq<string>, toFloat: FloatParser, matcher: Matcher)

  /** Every timestamp of `_data` is listed once in `order`, and each is a
      valid datetime. */
  ghost predicate Listed(data: Data, order: seq<Instant>) {
    (forall t :: t in data <==> t in order)
    && (forall i, j :: 0 <= i < j < |order| ==> order[i] != order[j])
    && (forall i :: 0 <= i < |order| ==> ValidInstant(order[i]))
  }

  /** Every key of every row has its category. */
  ghost predicate Categorised(data: Data, categories: map<string, string>) {
    forall t, k :: t in data && k in data[t] ==> k in categories && categories[k] == GetCategory(k)
  }

  /** The invariant of the parser's fields. */
  ghost predicate Consistent(s: Snapshot) {
    Listed(s.data, s.order) && Categorised(s.data, s.categories)
  }

  // ---- recording one row ----

  /** The row of `t` before a row is stored there. */
  function RowBefore(s: Snapshot, t: Instant): Row {
    if t in s.data then s.data[t] else map[]
  }

  /** The state once the row of `t` exists: a new timestamp is appended
      to the order. */
  function WithSlot(s: Snapshot, t: Instant): (r: Snapshot)
    ensures t in r.data && r.data[t] == RowBefore(s, t)
  {
    if t in s.data then s else s.(data := s.data[t := map[]], order := s.order + [t])
  }

  /** Write `raws` under `keys` into the row of `t`: each key gets its
      category, and a key already there marks the line as a duplicate. */
  function Write(s: Snapshot, t: Instant, keys: seq<string>, raws: seq<string>, toFloat: FloatParser): Snapshot
    requires t in s.data && |keys| == |raws|
  {
    var row := s.data[t];
    s.(data := s.data[t := Put(row, keys, raws, toFloat)],
       categories := Categorise(s.categories, keys),
       duplicates := if Repeats(row, keys) then s.duplicates + {s.lineCount} else s.duplicates)
  }

  /** The row of `t` is created if new; a 2D table writes every header
      (with the retransmission rename), a 3D table writes every header but
      the index column under a composite key, and the `all` and `Summary`
      rows of a 3D table write nothing. */
  function Store(s: Snapshot, t: Instant, headers: seq<string>, caps: seq<string>, toFloat: FloatParser): Snapshot
    requires |caps| == |headers| + 1
  {
    var s1 := WithSlot(s, t);
    match IndexColumn(headers)
    case None => Write(s1, t, PlainKeys(headers), caps[1..], toFloat)
    case Some(c) =>
      var v := caps[c + 1];
      if v == "all" || v == "Summary" then s1
      else Write(s1, t, CompositeKeys(headers, c, v), Without(caps[1..], c), toFloat)
  }

  /** The instant a row is recorded under, given the previous row's: past
      23h into 0h the date moves on a day (remembering the old one), and any
      other step back in time is an error. */
  function Advance(s: Snapshot, t0: Instant, stamp: string): Result<(Snapshot, Instant), ParseError>
    requires ValidInstant(t0) && t0.date == s.date
  {
    if s.prev.None? then Ok((s, t0))
    else if s.prev.value.hour == 23 && t0.hour == 0 then
      match NextDay(s.date)
      case None => Err(DateOverflow(s.lineCount))
      case Some(d) =>
        match Canonicalise(d, stamp)
        case Err(e) => Err(BadTimestamp(s.lineCount, e))
        case Ok(t) => Ok((s.(oldDate := Some(s.date), date := d), t))
    else if Before(t0, s.prev.value) then Err(TimeBackwards(s.lineCount))
    else Ok((s, t0))
  }

  /** Where a row with timestamp text `stamp` goes: an error, `None` when
      it lies outside the window, or the instant (and the state with the
      date moved on, if it was). */
  function Locate(s: Snapshot, w: Window, stamp: string): Result<Option<(Snapshot, Instant)>, ParseError> {
    match Canonicalise(s.date, stamp)
    case Err(e) => Err(BadTimestamp(s.lineCount, e))
    case Ok(t0) =>
      if w.start.Some? && Before(t0, w.start.value) then Ok(None)
      else if w.end.Some? && Before(w.end.value, t0) then Ok(None)
      else match Advance(s, t0, stamp)
        case Err(e) => Err(e)
        case Ok(x) => Ok(Some(x))
  }

  /** `_record_data(headers, matches)`; `caps[0]` is the timestamp text and
      `caps[i + 1]` the value under `headers[i]`. */
  function Record(s: Snapshot, w: Window, headers: seq<string>, caps: seq<string>, toFloat: FloatParser)
    : Result<Snapshot, ParseError>
    requires |caps| == |headers| + 1
  {
    match Locate(s, w, caps[0])
    case Err(e) => Err(e)
    case Ok(None) => Ok(s)
    case Ok(Some((s1, t))) => Ok(Store(s1.(prev := Some(t)), t, headers, caps, toFloat))
  }

  // ---- the state machine ----

  /** A line read as a table header: the date goes back to the one before
      a rollover, a restart header ends the table, a table to skip is
      skipped, and otherwise the row pattern is built from the headers. */
  function HeaderOn(d: Dialect, s: Snapshot, line: string, p: Params): Result<(Snapshot, Phase), ParseError> {
    var s1 := if s.oldDate.Some? then s.(date := s.oldDate.value) else s;
    match ColumnHeaders(d, line)
    case None => Err(ExpectedHeader(s.lineCount))
    case Some(hl) =>
      if hl.headers == ["LINUX", "RESTART"] then Ok((s1, TableEnd))
      else if hl.headers[0] in p.skipTables then Ok((s1, SkipUntilEot))
      else match RowClasses(hl.headers)
        case Err(e) => Err(UnknownColumn(s.lineCount, e))
        case Ok(classes) => Ok((s1.(prev := None), TableRow(hl.headers, classes)))
  }

  /** A line in state `table_start`: restart lines and empty lines are
      skipped, anything else is a table header. */
  function TableStartOn(s: Snapshot, line: string, p: Params): Result<(Snapshot, Phase), ParseError> {
    if Contains(line, "LINUX RESTART") || line == "" then Ok((s, TableStart))
    else HeaderOn(Current, s, line, p)
  }

  /** The first line of a file: kernel, version, hostname and date. */
  function StartOn(s: Snapshot, line: string): Result<(Snapshot, Phase), ParseError> {
    StartWith(s, ParseFirstLine(line))
  }

  /** The first line once it has been parsed into `pre`. */
  function StartWith(s: Snapshot, pre: Option<Preamble>): Result<(Snapshot, Phase), ParseError> {
    match pre
    case None => Err(BadFirstLine(s.lineCount))
    case Some(p) => Ok((s.(preamble := Some(p), date := p.date), AfterFirstLine))
  }

  /** A line in state `table_row`. */
  function TableRowOn(s: Snapshot, headers: seq<string>, classes: seq<ValueClass>, line: string,
                      w: Window, p: Params): Result<(Snapshot, Phase), ParseError> {
    if EmptyLine(line) then Ok((s, AfterEmptyLine))
    else if AverageLine(Current, line) then Ok((s, TableEnd))
    else match p.matcher(classes, line)
      case None => Err(RowMismatch(s.lineCount))
      case Some(caps) =>
        if |caps| != |headers| + 1 then Err(RowMismatch(s.lineCount))
        else match Record(s, w, headers, caps, p.toFloat)
          case Err(e) => Err(e)
          case Ok(s1) => Ok((s1, TableRow(headers, classes)))
  }

  /** One line of `parse`: count it, drop its newline, and act on it in
      the current state. */
  function Transition(s: Snapshot, phase: Phase, raw: string, w: Window, p: Params)
    : Result<(Snapshot, Phase), ParseError>
  {
    var s := Counted(s);
    var line := StripNewlines(raw);
    match phase
    case Start => StartOn(s, line)
    case AfterFirstLine =>
      if EmptyLine(line) then Ok((s, AfterEmptyLine)) else Err(ExpectedEmptyLine(s.lineCount))
    case AfterEmptyLine =>
      if EmptyLine(line) then Ok((s, AfterEmptyLine))
      else if AverageLine(Current, line) then Ok((s, TableEnd))
      else TableStartOn(s, line, p)
    case SkipUntilEot =>
      if EmptyLine(line) then Ok((s, AfterEmptyLine)) else Ok((s, SkipUntilEot))
    case TableStart => TableStartOn(s, line, p)
    case TableRow(headers, classes) => TableRowOn(s, headers, classes, line, w, p)
    case TableEnd =>
      if EmptyLine(line) then Ok((s, AfterEmptyLine))
      else if AverageLine(Current, line) then Ok((s, TableEnd))
      else Err(ExpectedTableEnd(s.lineCount))
  }

  /** What happens to the state on one line. */
  type Step = (Snapshot, Phase, string) -> Result<(Snapshot, Phase), ParseError>

  /** Lines through a step, stopping at the first error. */
  function Steps(step: Step, s: Snapshot, phase: Phase, lines: seq<string>): Result<(Snapshot, Phase), ParseError>
    decreases |lines|
  {
    if lines == [] then Ok((s, phase))
    else
      var n := |lines| - 1;
      match Steps(step, s, phase, lines[..n])
      case Err(e) => Err(e)
      case Ok((s1, ph1)) => step(s1, ph1, lines[n])
  }

  /** The step of `parse` for a window and its parameters. */
  function LineStep(w: Window, p: Params): Step {
    (s, phase, line) => Transition(s, phase, line, w, p)
  }

  /** The lines of one file, from a state, stopping at the first error. */
  function RunLines(s: Snapshot, phase: Phase, lines: seq<string>, w: Window, p: Params)
    : Result<(Snapshot, Phase), ParseError>
  {
    Steps(LineStep(w, p), s, phase, lines)
  }

  /** The files in turn; each starts in state `start` with no previous row. */
  function RunFiles(s: Snapshot, files: seq<seq<string>>, w: Window, p: Params): Result<Snapshot, ParseError>
    decreases |files|
  {
    if files == [] then Ok(s)
    else
      var n := |files| - 1;
      match RunFiles(s, files[..n], w, p)
      case Err(e) => Err(e)
      case Ok(s1) =>
        match RunLines(s1.(prev := None), Start, files[n], w, p)
        case Err(e) => Err(e)
        case Ok((s2, _)) => Ok(s2)
  }

  /** The state after `_prune_data`. */
  function Finish(s: Snapshot): Snapshot {
    s.(data := Pruned(s.data), categories := PrunedCategories(s.data, s.categories))
  }

  /** `parse()`: every file, then the clean-up. */
  function ParseAll(s: Snapshot, files: seq<seq<string>>, w: Window, p: Params): Result<Snapshot, ParseError> {
    match RunFiles(s, files, w, p)
    case Err(e) => Err(e)
    case Ok(s1) => Ok(Finish(s1))
  }

  /** The parser as constructed: no data, no line read. */
  function Initial(): Snapshot {
    Snapshot(map[], [], map[], Date(1, 1, 1), None, None, {}, 0, None)
  }

  // ---- the class ----

  class SarParser {
    var data: Data
    var order: seq<Instant>
    var categories: map<string, string>
    var date: Date
    var oldDate: Option<Date>
    var prev: Option<Instant>
    var duplicates: set<nat>
    var lineCount: nat
    var preamble: Option<Preamble>
    const files: seq<seq<string>>
    const window: Window

    function Contents(): Snapshot
      reads this
    {
      Snapshot(data, order, categories, date, oldDate, prev, duplicates, lineCount, preamble)
    }

    /** `SarParser(fnames, starttime, endtime)`, with the files given as
        their lines and the window already parsed. The date is a
        placeholder until a first line is read. */
    constructor(files: seq<seq<string>>, window: Window)
      ensures Contents() == Initial()
      ensures this.files == files && this.window == window
    {
      data := map[];
      order := [];
      categories := map[];
      date := Date(1, 1, 1);
      oldDate := None;
      prev := None;
      duplicates := {};
      lineCount := 0;
      preamble := None;
      this.files := files;
      this.window := window;
    }

    /** Write `raws` under `keys` into the row of `t`, one key after the
        other, as the loops of `_record_data` do. */
    method WriteRow(t: Instant, keys: seq<string>, raws: seq<string>, toFloat: FloatParser)
      requires t in data && |keys| == |raws|
      modifies this
      ensures data == old(data)[t := Put(old(data)[t], keys, raws, toFloat)]
      ensures categories == Categorise(old(categories), keys)
      ensures duplicates == if Repeats(old(data)[t], keys) then old(duplicates) + {lineCount} else old(duplicates)
      ensures order == old(order) && date == old(date) && oldDate == old(oldDate) && prev == old(prev)
      ensures lineCount == old(lineCount) && preamble == old(preamble)
    {
      ghost var s0 := Contents();
      ghost var row0 := data[t];
      var i := 0;
      while i < |keys|
        invariant i <= |keys|
        invariant Written(s0, t, row0, keys, raws, i, toFloat)
      {
        WriteKey(s0, t, row0, keys, raws, i, toFloat);
        i := i + 1;
      }
      assert keys[..i] == keys && raws[..i] == raws;
    }

    /** The fields once the first `i` keys of a row are written over the
        fields `s0`. */
    ghost predicate Written(s0: Snapshot, t: Instant, row0: Row, keys: seq<string>, raws: seq<string>, i: nat,
                            toFloat: FloatParser)
      reads this
      requires |keys| == |raws| && i <= |keys|
    {
      Contents() == s0.(data := s0.data[t := Put(row0, keys[..i], raws[..i], toFloat)],
                        categories := Categorise(s0.categories, keys[..i]),
                        duplicates := if Repeats(row0, keys[..i]) then s0.duplicates + {s0.lineCount} else s0.duplicates)
    }

    /** One key of `_record_data`'s loop. */
    method WriteKey(ghost s0: Snapshot, t: Instant, ghost row0: Row, keys: seq<string>, raws: seq<string>, i: nat,
                    toFloat: FloatParser)
      requires |keys| == |raws| && i < |keys|
      requires Written(s0, t, row0, keys, raws, i, toFloat)
      modifies this
      ensures Written(s0, t, row0, keys, raws, i + 1, toFloat)
    {
      RepeatsStep(row0, keys, raws, i, toFloat);
      WriteStep(row0, s0.categories, keys, raws, i, toFloat);
      assert t in data;
      PutValue(t, keys[i], raws[i], toFloat);
    }

    /** `self._data[t][k] = value` and `self._categories[k] = ...` for one
        key, noting a key the row already holds as a duplicate. */
    method PutValue(t: Instant, k: string, raw: string, toFloat: FloatParser)
      requires t in data
      modifies this
      ensures data == old(data)[t := old(data)[t][k := ToValue(raw, toFloat)]]
      ensures categories == old(categories)[k := GetCategory(k)]
      ensures duplicates == if k in old(data)[t] then old(duplicates) + {lineCount} else old(duplicates)
      ensures order == old(order) && date == old(date) && oldDate == old(oldDate) && prev == old(prev)
      ensures lineCount == old(lineCount) && preamble == old(preamble)
    {
      if k in data[t] {
        duplicates := duplicates + {lineCount};
      }
      data := data[t := data[t][k := ToValue(raw, toFloat)]];
      categories := categories[k := GetCategory(k)];
    }

    /** The timestamp part of `_record_data`: canonicalise, check the
        window, roll the date over or refuse a step back. */
    method LocateRow(stamp: string) returns (r: Result<Option<Instant>, ParseError>)
      modifies this
      ensures Locate(old(Contents()), window, stamp).Err? ==>
        r == Err(Locate(old(Contents()), window, stamp).error) && Contents() == old(Contents())
      ensures Locate(old(Contents()), window, stamp) == Ok(None) ==> r == Ok(None) && Contents() == old(Contents())
      ensures Locate(old(Contents()), window, stamp).Ok? && Locate(old(Contents()), window, stamp).value.Some? ==>
        r == Ok(Some(Locate(old(Contents()), window, stamp).value.value.1))
        && Contents() == Locate(old(Contents()), window, stamp).value.value.0
    {
      var c := Canonicalise(date, stamp);
      if c.Err? {
        return Err(BadTimestamp(lineCount, c.error));
      }
      var t := c.value;
      if window.start.Some? && Before(t, window.start.value) {
        return Ok(None);
      }
      if window.end.Some? && Before(window.end.value, t) {
        return Ok(None);
      }
      if prev.Some? {
        if prev.value.hour == 23 && t.hour == 0 {
          var next := NextDay(date);
          if next.None? {
            return Err(DateOverflow(lineCount));
          }
          CanonicaliseOnAnyDate(date, next.value, stamp);
          var c2 := Canonicalise(next.value, stamp);
          oldDate := Some(date);
          date := next.value;
          t := c2.value;
        } else if Before(t, prev.value) {
          return Err(TimeBackwards(lineCount));
        }
      }
      return Ok(Some(t));
    }

    /** The writing part of `_record_data`: create the row of `t` if new,
        find the index column, and write the values. */
    method StoreRow(t: Instant, headers: seq<string>, caps: seq<string>, toFloat: FloatParser)
      requires |caps| == |headers| + 1
      modifies this
      ensures Contents() == Store(old(Contents()), t, headers, caps, toFloat)
    {
      if t !in data {
        data := data[t := map[]];
        order := order + [t];
      }
      var column := 0;
      while column < |headers| && headers[column] !in IndexColumns
        invariant column <= |headers|
        invariant forall i :: 0 <= i < column ==> headers[i] !in IndexColumns
      {
        column := column + 1;
      }
      if column >= |headers| {
        assert IndexColumn(headers).None?;
        var keys := PlainKeysOf(headers);
        WriteRow(t, keys, caps[1..], toFloat);
        return;
      }
      assert IndexColumn(headers) == Some(column);
      var indexVal := caps[column + 1];
      if indexVal == "all" || indexVal == "Summary" {
        return;
      }
      var keys, raws := CompositeKeysOf(headers, caps[1..], column, indexVal);
      WriteRow(t, keys, raws, toFloat);
    }

    /** `_record_data(headers, matches)`. On an error nothing has changed. */
    method RecordData(headers: seq<string>, caps: seq<string>, toFloat: FloatParser) returns (err: Option<ParseError>)
      requires |caps| == |headers| + 1
      modifies this
      ensures Record(old(Contents()), window, headers, caps, toFloat).Ok? ==>
        err.None? && Contents() == Record(old(Contents()), window, headers, caps, toFloat).value
      ensures Record(old(Contents()), window, headers, caps, toFloat).Err? ==>
        err == Some(Record(old(Contents()), window, headers, caps, toFloat).error) && Contents() == old(Contents())
    {
      var loc := LocateRow(caps[0]);
      if loc.Err? {
        return Some(loc.error);
      }
      if loc.value.None? {
        return None;
      }
      prev := loc.value;
      StoreRow(loc.value.value, headers, caps, toFloat);
      return None;
    }

    /** The line in state `start`. */
    method FirstLine(line: string) returns (r: Result<Phase, ParseError>)
      modifies this
      ensures StartOn(old(Contents()), line).Ok? ==>
        r == Ok(StartOn(old(Contents()), line).value.1) && Contents() == StartOn(old(Contents()), line).value.0
      ensures StartOn(old(Contents()), line).Err? ==> r == Err(StartOn(old(Contents()), line).error)
    {
      var pre := ParseFirstLine(line);
      ghost var s0 := Contents();
      assert StartOn(s0, line) == StartWith(s0, pre);
      if pre.None? {
        return Err(BadFirstLine(lineCount));
      }
      SetPreamble(pre.value);
      return Ok(AfterFirstLine);
    }

    /** Records the kernel, release, host and date of a first line. */
    method SetPreamble(pre: Preamble)
      modifies this
      ensures Contents() == old(Contents()).(preamble := Some(pre), date := pre.date)
    {
      preamble := Some(pre);
      date := pre.date;
    }

    /** A line in state `table_start`. */
    method TableStartLine(line: string, p: Params) returns (r: Result<Phase, ParseError>)
      modifies this
      ensures TableStartOn(old(Contents()), line, p).Ok? ==>
        r == Ok(TableStartOn(old(Contents()), line, p).value.1) && Contents() == TableStartOn(old(Contents()), line, p).value.0
      ensures TableStartOn(old(Contents()), line, p).Err? ==> r == Err(TableStartOn(old(Contents()), line, p).error)
    {
      if Contains(line, "LINUX RESTART") || line == "" {
        return Ok(TableStart);
      }
      var hl := ColumnHeaders(Current, line);
      if oldDate.Some? {
        date := oldDate.value;
      }
      if hl.None? {
        return Err(ExpectedHeader(lineCount));
      }
      var headers := hl.value.headers;
      if headers == ["LINUX", "RESTART"] {
        return Ok(TableEnd);
      } else if headers[0] in p.skipTables {
        return Ok(SkipUntilEot);
      }
      var classes := RowClasses(headers);
      if classes.Err? {
        return Err(UnknownColumn(lineCount, classes.error));
      }
      prev := None;
      return Ok(TableRow(headers, classes.value));
    }

    /** A line in state `table_row`. */
    method TableRowLine(headers: seq<string>, classes: seq<ValueClass>, line: string, p: Params)
      returns (r: Result<Phase, ParseError>)
      modifies this
      ensures TableRowOn(old(Contents()), headers, classes, line, window, p).Ok? ==>
        r == Ok(TableRowOn(old(Contents()), headers, classes, line, window, p).value.1)
        && Contents() == TableRowOn(old(Contents()), headers, classes, line, window, p).value.0
      ensures TableRowOn(old(Contents()), headers, classes, line, window, p).Err? ==>
        r == Err(TableRowOn(old(Contents()), headers, classes, line, window, p).error)
    {
      if EmptyLine(line) {
        return Ok(AfterEmptyLine);
      }
      if AverageLine(Current, line) {
        return Ok(TableEnd);
      }
      var matches := p.matcher(classes, line);
      if matches.None? || |matches.value| != |headers| + 1 {
        return Err(RowMismatch(lineCount));
      }
      var err := RecordData(headers, matches.value, p.toFloat);
      if err.Some? {
        return Err(err.value);
      }
      return Ok(TableRow(headers, classes));
    }

    /** One iteration of the loop of `parse`. */
    method ParseLine(phase: Phase, raw: string, p: Params) returns (r: Result<Phase, ParseError>)
      modifies this
      ensures Transition(old(Contents()), phase, raw, window, p).Ok? ==>
        r == Ok(Transition(old(Contents()), phase, raw, window, p).value.1)
        && Contents() == Transition(old(Contents()), phase, raw, window, p).value.0
      ensures Transition(old(Contents()), phase, raw, window, p).Err? ==>
        r == Err(Transition(old(Contents()), phase, raw, window, p).error)
    {
      ghost var s := Counted(Contents());
      lineCount := lineCount + 1;
      var line := StripNewlines(raw);
      assert Contents() == s;
      match phase
      case Start =>
        assert Transition(old(Contents()), phase, raw, window, p) == StartOn(s, line);
        r := FirstLine(line);
      case AfterFirstLine =>
        if !EmptyLine(line) {
          return Err(ExpectedEmptyLine(lineCount));
        }
        return Ok(AfterEmptyLine);
      case AfterEmptyLine =>
        if EmptyLine(line) {
          return Ok(AfterEmptyLine);
        }
        if AverageLine(Current, line) {
          return Ok(TableEnd);
        }
        assert Transition(old(Contents()), phase, raw, window, p) == TableStartOn(s, line, p);
        r := TableStartLine(line, p);
      case SkipUntilEot =>
        if !EmptyLine(line) {
          return Ok(SkipUntilEot);
        }
        return Ok(AfterEmptyLine);
      case TableStart =>
        assert Transition(old(Contents()), phase, raw, window, p) == TableStartOn(s, line, p);
        r := TableStartLine(line, p);
      case TableRow(headers, classes) =>
        assert Transition(old(Contents()), phase, raw, window, p) == TableRowOn(s, headers, classes, line, window, p);
        r := TableRowLine(headers, classes, line, p);
      case TableEnd =>
        if EmptyLine(line) {
          return Ok(AfterEmptyLine);
        }
        if AverageLine(Current, line) {
          return Ok(TableEnd);
        }
        return Err(ExpectedTableEnd(lineCount));
    }

    /** `_prune_data()`. */
    method PruneData()
      modifies this
      ensures Contents() == Finish(old(Contents()))
    {
      var pruned, keys := PruneRows(data);
      data := pruned;
      categories := DropCategories(categories, keys);
    }

    /** `parse(skip_tables)`: the files one after the other, then the
        clean-up; the first error stops everything. */
    method Parse(p: Params) returns (err: Option<ParseError>)
      modifies this
      ensures ParseAll(old(Contents()), files, window, p).Ok? ==>
        err.None? && Contents() == ParseAll(old(Contents()), files, window, p).value
      ensures ParseAll(old(Contents()), files, window, p).Err? ==>
        err == Some(ParseAll(old(Contents()), files, window, p).error)
    {
      ghost var s0 := Contents();
      var f := 0;
      while f < |files|
        invariant f <= |files|
        invariant RunFiles(s0, files[..f], window, p) == Ok(Contents())
      {
        assert files[..f + 1][..f] == files[..f];
        prev := None;
        ghost var start := Contents();
        var phase := Start;
        var lines := files[f];
        var i := 0;
        while i < |lines|
          invariant i <= |lines|
          invariant RunLines(start, Start, lines[..i], window, p) == Ok((Contents(), phase))
        {
          StepsNext(LineStep(window, p), start, Start, lines, i);
          var r := ParseLine(phase, lines[i], p);
          if r.Err? {
            RunLinesStops(start, Start, lines, i + 1, window, p);
            RunFilesStops(s0, files, f + 1, window, p);
            return Some(r.error);
          }
          phase := r.value;
          i := i + 1;
        }
        assert lines[..i] == lines;
        f := f + 1;
      }
      assert files[..f] == files;
      PruneData();
      return None;
    }

    // ---- queries ----

    /** `available_types(category)`: the sorted keys of the first
        timestamp that start with `category`. */
    ghost function AvailableTypes(category: string): (r: Result<seq<string>, QueryError>)
      requires Consistent(Contents())
      reads this
      ensures order == [] <==> r == Err(NoData)
      ensures r.Ok? ==> forall x :: x in r.value <==> x in data[order[0]] && StartsWith(x, category)
    {
      if order == [] then Err(NoData) else Ok(TypesIn(data[order[0]], category))
    }

    /** `datanames_per_arg(category, per_key)`. */
    ghost function DatanamesPerArg(category: string, perKey: bool): (r: Result<seq<seq<string>>, QueryError>)
      requires Consistent(Contents())
      reads this
      ensures order == [] ==> r == Err(NoData)
      ensures r.Ok? ==> forall g, x :: g in r.value && x in g ==>
        x in data[order[0]] && StartsWith(x, category)
    {
      match AvailableTypes(category)
      case Err(e) => Err(e)
      case Ok(names) =>
        if AllComposite(names) then
          GroupsCover(names, perKey);
          Groups(names, perKey)
        else Groups(names, perKey)
    }

    /** `find_max(timestamp, datanames)`: the largest value of the names
        at the timestamp nearest to `t`, starting from -1; a name missing
        there or holding no float raises. */
    function FindMax(t: Instant, names: seq<string>): (r: Result<Number, QueryError>)
      requires Consistent(Contents()) && ValidDate(t.date)
      reads this
      ensures order == [] ==> r == Err(NoData)
      ensures order != [] ==>
        (r.Err? <==> (exists i :: 0 <= i < |names| &&
                       (names[i] !in data[order[Nearest(order, t)]] || !data[order[Nearest(order, t)]][names[i]].Float?)))
      ensures r.Ok? ==> forall i :: 0 <= i < |names| ==>
        names[i] in data[order[Nearest(order, t)]]
        && data[order[Nearest(order, t)]][names[i]].Float?
        && !Greater(data[order[Nearest(order, t)]][names[i]].n, r.value)
      ensures r.Ok? ==> !Greater(Finite(-1.0), r.value)
      ensures r.Ok? ==>
        r.value == Finite(-1.0)
        || exists i :: 0 <= i < |names| &&
             names[i] in data[order[Nearest(order, t)]] && data[order[Nearest(order, t)]][names[i]] == Float(r.value)
    {
      if order == [] then Err(NoData)
      else
        var row := data[order[Nearest(order, t)]];
        var r := MaxFrom(row, names, Finite(-1.0));
        MaxFromErrors(row, names, Finite(-1.0));
        if r.Ok? then
          MaxFromIsMax(row, names, Finite(-1.0));
          r
        else r
    }

    /** `find_data_gaps()`, with `int(sample_frequency * 1.1)` given as
        `limit`. */
    function FindDataGaps(limit: int): (r: seq<(Instant, Instant)>)
      requires Consistent(Contents())
      reads this
      ensures forall g :: g in r ==>
        (g.0 in data && g.1 in data && NotAfter(g.0, g.1) && Seconds(g.1) - Seconds(g.0) > limit)
      ensures |order| < 2 ==> r == []
    {
      DataGapsForward(order, limit);
      DataGaps(order, limit)
    }
  }

  /** One more line is one more step from where the earlier lines left off. */
  lemma StepsNext(step: Step, s: Snapshot, phase: Phase, lines: seq<string>, i: nat)
    requires i < |lines| && Steps(step, s, phase, lines[..i]).Ok?
    ensures Steps(step, s, phase, lines[..i + 1])
      == step(Steps(step, s, phase, lines[..i]).value.0, Steps(step, s, phase, lines[..i]).value.1, lines[i])
  {
    assert lines[..i + 1][..i] == lines[..i];
  }

  /** Once a step fails, the remaining lines do not matter. */
  lemma {:induction false} StepsStop(step: Step, s: Snapshot, phase: Phase, lines: seq<string>, i: nat)
    requires 0 < i <= |lines|
    requires Steps(step, s, phase, lines[..i]).Err?
    ensures Steps(step, s, phase, lines) == Steps(step, s, phase, lines[..i])
    decreases |lines|
  {
    if i < |lines| {
      var n := |lines| - 1;
      assert lines[..n][..i] == lines[..i];
      StepsStop(step, s, phase, lines[..n], i);
    } else {
      assert lines[..i] == lines;
    }
  }

  /** Once a line fails, the rest of the file does not matter. */
  lemma RunLinesStops(s: Snapshot, phase: Phase, lines: seq<string>, i: nat, w: Window, p: Params)
    requires 0 < i <= |lines|
    requires RunLines(s, phase, lines[..i], w, p).Err?
    ensures RunLines(s, phase, lines, w, p) == RunLines(s, phase, lines[..i], w, p)
  {
    StepsStop(LineStep(w, p), s, phase, lines, i);
  }

  /** Once a file fails, the later files are not read. */
  lemma {:induction false} RunFilesStops(s: Snapshot, files: seq<seq<string>>, f: nat, w: Window, p: Params)
    requires 0 < f <= |files|
    requires RunFiles(s, files[..f], w, p).Err?
    ensures RunFiles(s, files, w, p) == RunFiles(s, files[..f], w, p)
    decreases |files|
  {
    if f < |files| {
      var n := |files| - 1;
      assert files[..n][..f] == files[..f];
      RunFilesStops(s, files[..n], f, w, p);
      var e := RunFiles(s, files[..n], w, p).error;
      assert RunFiles(s, files, w, p) == Err(e);
    } else {
      assert files[..f] == files;
    }
  }
}
