/** The earlier parser of SAR.py (class `SAR`). It reads one file, has no
    time window, does not skip restart lines before a table header, stops
    on a key written twice for one timestamp (except for file systems),
    and keeps its rows and categories in dictionaries shared by every
    instance of the class. */
module Legacy {
  import opened Wrappers
  import opened Text
  import opened Calendar
  import opened Timestamps
  import opened Catalog
  import opened Metadata
  import opened Lines
  import opened Report
  import opened Prune
  import opened Queries
  import opened Parser

  /** SAR.py reads every row: no start or end time. */
  const NoWindow := Window(None, None)

  lemma {:induction false} RepeatsLast(row: Row, keys: seq<string>)
    requires keys != []
    ensures Repeats(row, keys) <==>
      Repeats(row, keys[..|keys| - 1]) || keys[|keys| - 1] in row || keys[|keys| - 1] in keys[..|keys| - 1]
  {
    var n := |keys| - 1;
    var p := keys[..n];
    if Repeats(row, p) {
      var j :| 0 <= j < n && (p[j] in row || p[j] in p[..j]);
      assert keys[j] == p[j] && keys[..j] == p[..j];
    }
    if Repeats(row, keys) {
      var j :| 0 <= j < |keys| && (keys[j] in row || keys[j] in keys[..j]);
      if j < n {
        assert keys[j] == p[j] && keys[..j] == p[..j];
      }
    }
  }

  /** The first write that finds its key already there: in the row as it
      was, or written earlier in the same row. */
  function FirstRepeat(row: Row, keys: seq<string>): (r: Option<nat>)
    ensures r.None? <==> !Repeats(row, keys)
    ensures r.Some? ==> r.value < |keys| && (keys[r.value] in row || keys[r.value] in keys[..r.value])
    ensures r.Some? ==> !Repeats(row, keys[..r.value])
    decreases |keys|
  {
    if keys == [] then None
    else
      var n := |keys| - 1;
      RepeatsLast(row, keys);
      match FirstRepeat(row, keys[..n])
      case Some(i) =>
        assert keys[..n][..i] == keys[..i];
        Some(i)
      case None =>
        if keys[n] in row || keys[n] in keys[..n] then
          assert keys[..n] == keys[..n];
          Some(n)
        else None
  }

  /** The writes of SAR.py's `_record_data`: the first key found already
      in the row is an error unless `overwrite` holds; the line number is
      never recorded as a duplicate. */
  function WriteChecked(s: Snapshot, t: Instant, keys: seq<string>, raws: seq<string>, toFloat: FloatParser,
                        overwrite: bool): Result<Snapshot, ParseError>
    requires t in s.data && |keys| == |raws|
  {
    match FirstRepeat(s.data[t], keys)
    case Some(i) =>
      if overwrite then Ok(s.(data := s.data[t := Put(s.data[t], keys, raws, toFloat)],
                              categories := Categorise(s.categories, keys)))
      else Err(DuplicateColumn(s.lineCount, keys[i]))
    case None =>
      Ok(s.(data := s.data[t := Put(s.data[t], keys, raws, toFloat)], categories := Categorise(s.categories, keys)))
  }

  /** The row of `t` is created if new; a 2D row must not repeat a key; a
      3D row may repeat one only when its index column is `FILESYSTEM`. */
  function StoreChecked(s: Snapshot, t: Instant, headers: seq<string>, caps: seq<string>, toFloat: FloatParser)
    : Result<Snapshot, ParseError>
    requires |caps| == |headers| + 1
  {
    var s1 := WithSlot(s, t);
    match IndexColumn(headers)
    case None => WriteChecked(s1, t, PlainKeys(headers), caps[1..], toFloat, false)
    case Some(c) =>
      var v := caps[c + 1];
      if v == "all" || v == "Summary" then Ok(s1)
      else WriteChecked(s1, t, CompositeKeys(headers, c, v), Without(caps[1..], c), toFloat, headers[c] == "FILESYSTEM")
  }

  /** SAR.py's `_record_data(headers, matches)`. */
  function RecordChecked(s: Snapshot, headers: seq<string>, caps: seq<string>, toFloat: FloatParser)
    : Result<Snapshot, ParseError>
    requires |caps| == |headers| + 1
  {
    match Locate(s, NoWindow, caps[0])
    case Err(e) => Err(e)
    case Ok(None) => Ok(s)
    case Ok(Some((s1, t))) => StoreChecked(s1.(prev := Some(t)), t, headers, caps, toFloat)
  }

  /** A line in state `table_row`. */
  function LegacyRowOn(s: Snapshot, headers: seq<string>, classes: seq<ValueClass>, line: string, p: Params)
    : Result<(Snapshot, Phase), ParseError>
  {
    if EmptyLine(line) then Ok((s, AfterEmptyLine))
    else if AverageLine(Legacy, line) then Ok((s, TableEnd))
    else match p.matcher(classes, line)
      case None => Err(RowMismatch(s.lineCount))
      case Some(caps) =>
        if |caps| != |headers| + 1 then Err(RowMismatch(s.lineCount))
        else match RecordChecked(s, headers, caps, p.toFloat)
          case Err(e) => Err(e)
          case Ok(s1) => Ok((s1, TableRow(headers, classes)))
  }

  /** One line of SAR.py's `parse`. */
  function LegacyTransition(s: Snapshot, phase: Phase, raw: string, p: Params): Result<(Snapshot, Phase), ParseError> {
    LegacyOn(Counted(s), phase, StripNewlines(raw), p)
  }

  /** The same step once the line is counted and its newlines stripped. */
  function LegacyOn(s: Snapshot, phase: Phase, line: string, p: Params): Result<(Snapshot, Phase), ParseError> {
    match phase
    case Start => StartOn(s, line)
    case AfterFirstLine =>
      if EmptyLine(line) then Ok((s, AfterEmptyLine)) else Err(ExpectedEmptyLine(s.lineCount))
    case AfterEmptyLine =>
      if EmptyLine(line) then Ok((s, AfterEmptyLine))
      else if AverageLine(Legacy, line) then Ok((s, TableEnd))
      else HeaderOn(Legacy, s, line, p)
    case SkipUntilEot =>
      if EmptyLine(line) then Ok((s, AfterEmptyLine)) else Ok((s, SkipUntilEot))
    case TableStart => HeaderOn(Legacy, s, line, p)
    case TableRow(headers, classes) => LegacyRowOn(s, headers, classes, line, p)
    case TableEnd =>
      if EmptyLine(line) then Ok((s, AfterEmptyLine))
      else if AverageLine(Legacy, line) then Ok((s, TableEnd))
      else Err(ExpectedTableEnd(s.lineCount))
  }

  function LegacyStep(p: Params): Step {
    (s, phase, line) => LegacyTransition(s, phase, line, p)
  }

  /** SAR.py's `_prune_data`: the rows are pruned, the categories are not. */
  function LegacyFinish(s: Snapshot): Snapshot {
    s.(data := Pruned(s.data))
  }

  /** SAR.py's `parse()` over the lines of its one file. */
  function LegacyParse(s: Snapshot, lines: seq<string>, p: Params): Result<Snapshot, ParseError> {
    match Steps(LegacyStep(p), s.(prev := None), Start, lines)
    case Err(e) => Err(e)
    case Ok((s1, _)) => Ok(LegacyFinish(s1))
  }

  /** SAR.py's `datanames_per_arg` reads the keys of whichever timestamp
      its dictionary lists first; the model lets that be any of them. */
  ghost function LegacyDatanames(data: Data, category: string, perKey: bool): Result<seq<seq<string>>, QueryError> {
    if data == map[] then Err(NoData)
    else
      var t :| t in data;
      Groups(TypesIn(data[t], category), perKey)
  }

  // ---- the class ----

  /** The class attributes `SAR._data` and `SAR._categories`: one pair of
      dictionaries for every instance. The timestamp order is kept with
      them. */
  class SharedTables {
    var data: Data
    var order: seq<Instant>
    var categories: map<string, string>

    constructor()
      ensures data == map[] && order == [] && categories == map[]
    {
      data := map[];
      order := [];
      categories := map[];
    }

    /** `SAR._data[t][k] = value` and `SAR._categories[k] = ...` for one key. */
    method PutValue(t: Instant, k: string, raw: string, toFloat: FloatParser)
      requires t in data
      modifies this
      ensures data == old(data)[t := old(data)[t][k := ToValue(raw, toFloat)]]
      ensures categories == old(categories)[k := GetCategory(k)]
      ensures order == old(order)
    {
      data := data[t := data[t][k := ToValue(raw, toFloat)]];
      categories := categories[k := GetCategory(k)];
    }
  }

  class Sar {
    const shared: SharedTables
    const lines: seq<string>
    var date: Date
    var oldDate: Option<Date>
    var prev: Option<Instant>
    var lineCount: nat
    var preamble: Option<Preamble>

    function Contents(): Snapshot
      reads this, shared
    {
      Snapshot(shared.data, shared.order, shared.categories, date, oldDate, prev, {}, lineCount, preamble)
    }

    /** `SAR(fname)`, with the file given as its lines and the shared
        dictionaries as `shared`. */
    constructor(shared: SharedTables, lines: seq<string>)
      ensures this.shared == shared && this.lines == lines
      ensures Contents() == Initial().(data := shared.data, order := shared.order, categories := shared.categories)
    {
      this.shared := shared;
      this.lines := lines;
      date := Date(1, 1, 1);
      oldDate := None;
      prev := None;
      lineCount := 0;
      preamble := None;
    }

    /** The timestamp part of `_record_data`. */
    method LocateRow(stamp: string) returns (r: Result<Instant, ParseError>)
      modifies this
      ensures Locate(old(Contents()), NoWindow, stamp).Err? ==>
        r == Err(Locate(old(Contents()), NoWindow, stamp).error)
      ensures Locate(old(Contents()), NoWindow, stamp).Ok? ==>
        Locate(old(Contents()), NoWindow, stamp).value.Some?
        && r == Ok(Locate(old(Contents()), NoWindow, stamp).value.value.1)
        && Contents() == Locate(old(Contents()), NoWindow, stamp).value.value.0
    {
      var c := Canonicalise(date, stamp);
      if c.Err? {
        return Err(BadTimestamp(lineCount, c.error));
      }
      var t := c.value;
      if prev.Some? {
        if prev.value.hour == 23 && t.hour == 0 {
          var next := NextDay(date);
          if next.None? {
            return Err(DateOverflow(lineCount));
          }
          CanonicaliseOnAnyDate(date, next.value, stamp);
          var c2 := Canonicalise(next.value, stamp);
          oldDate := Some(date);
          date := next.value;
          t := c2.value;
        } else if Before(t, prev.value) {
          return Err(TimeBackwards(lineCount));
        }
      }
      return Ok(t);
    }

    /** Write one row's keys in turn, stopping at a key already there
        unless `overwrite` holds; the keys before that one stay written in
        the shared tables. */
    method WriteRow(t: Instant, keys: seq<string>, raws: seq<string>, toFloat: FloatParser, overwrite: bool)
      returns (err: Option<ParseError>)
      requires t in shared.data && |keys| == |raws|
      modifies shared
      ensures !overwrite && Repeats(old(shared.data[t]), keys) ==>
        var k := FirstRepeat(old(shared.data[t]), keys).value;
        err == Some(DuplicateColumn(lineCount, keys[k]))
        && shared.data == old(shared.data)[t := Put(old(shared.data[t]), keys[..k], raws[..k], toFloat)]
        && shared.categories == Categorise(old(shared.categories), keys[..k])
        && shared.order == old(shared.order)
      ensures overwrite || !Repeats(old(shared.data[t]), keys) ==>
        err.None?
        && shared.data == old(shared.data)[t := Put(old(shared.data[t]), keys, raws, toFloat)]
        && shared.categories == Categorise(old(shared.categories), keys)
        && shared.order == old(shared.order)
    {
      ghost var row0 := shared.data[t];
      ghost var data0 := shared.data;
      ghost var cats0 := shared.categories;
      var i := 0;
      while i < |keys|
        invariant i <= |keys|
        invariant Written(data0, t, row0, cats0, keys, raws, i, toFloat, overwrite)
        invariant shared.order == old(shared.order)
      {
        var dup := WriteKey(t, data0, row0, cats0, keys, raws, i, toFloat, overwrite);
        if dup {
          err := Some(DuplicateColumn(lineCount, keys[i]));
          return;
        }
        i := i + 1;
      }
      assert keys[..i] == keys && raws[..i] == raws;
      err := None;
    }

    /** The tables after the first `i` keys of a row are written over the
        tables `data0` and `cats0`, none of them repeating unless
        `overwrite` is set. */
    ghost predicate Written(data0: Data, t: Instant, row0: Row, cats0: map<string, string>, keys: seq<string>,
                            raws: seq<string>, i: nat, toFloat: FloatParser, overwrite: bool)
      reads this, shared
      requires |keys| == |raws| && i <= |keys|
    {
      shared.data == data0[t := Put(row0, keys[..i], raws[..i], toFloat)]
      && shared.categories == Categorise(cats0, keys[..i])
      && (!overwrite ==> !Repeats(row0, keys[..i]))
    }

    /** One key of `_record_data`'s loop: a key the row already holds
        stops the loop unless `overwrite` is set, any other is written. */
    method WriteKey(t: Instant, ghost data0: Data, ghost row0: Row, ghost cats0: map<string, string>,
                    keys: seq<string>, raws: seq<string>, i: nat, toFloat: FloatParser, overwrite: bool)
      returns (dup: bool)
      requires |keys| == |raws| && i < |keys|
      requires Written(data0, t, row0, cats0, keys, raws, i, toFloat, overwrite)
      modifies shared
      ensures dup ==> !overwrite && Repeats(row0, keys) && FirstRepeat(row0, keys) == Some(i)
      ensures dup ==> Written(data0, t, row0, cats0, keys, raws, i, toFloat, overwrite)
      ensures !dup ==> Written(data0, t, row0, cats0, keys, raws, i + 1, toFloat, overwrite)
      ensures shared.order == old(shared.order)
    {
      RepeatsStep(row0, keys, raws, i, toFloat);
      WriteStep(row0, cats0, keys, raws, i, toFloat);
      assert t in shared.data;
      if keys[i] in shared.data[t] && !overwrite {
        FirstRepeatIn(row0, keys, raws, i, toFloat);
        return true;
      }
      shared.PutValue(t, keys[i], raws[i], toFloat);
      return false;
    }

    /** The writing part of `_record_data`. */
    method StoreRow(t: Instant, headers: seq<string>, caps: seq<string>, toFloat: FloatParser)
      returns (err: Option<ParseError>)
      requires |caps| == |headers| + 1
      modifies shared
      ensures StoreChecked(old(Contents()), t, headers, caps, toFloat).Ok? ==>
        err.None? && Contents() == StoreChecked(old(Contents()), t, headers, caps, toFloat).value
      ensures StoreChecked(old(Contents()), t, headers, caps, toFloat).Err? ==>
        err == Some(StoreChecked(old(Contents()), t, headers, caps, toFloat).error)
    {
      if t !in shared.data {
        shared.data := shared.data[t := map[]];
        shared.order := shared.order + [t];
      }
      var column := 0;
      while column < |headers| && headers[column] !in IndexColumns
        invariant column <= |headers|
        invariant forall i :: 0 <= i < column ==> headers[i] !in IndexColumns
      {
        column := column + 1;
      }
      if column >= |headers| {
        assert IndexColumn(headers).None?;
        var keys := PlainKeysOf(headers);
        err := WriteRow(t, keys, caps[1..], toFloat, false);
        return;
      }
      assert IndexColumn(headers) == Some(column);
      var indexVal := caps[column + 1];
      if indexVal == "all" || indexVal == "Summary" {
        return None;
      }
      var keys, raws := CompositeKeysOf(headers, caps[1..], column, indexVal);
      err := WriteRow(t, keys, raws, toFloat, headers[column] == "FILESYSTEM");
    }

    /** SAR.py's `_record_data(headers, matches)`. */
    method RecordData(headers: seq<string>, caps: seq<string>, toFloat: FloatParser) returns (err: Option<ParseError>)
      requires |caps| == |headers| + 1
      modifies this, shared
      ensures RecordChecked(old(Contents()), headers, caps, toFloat).Ok? ==>
        err.None? && Contents() == RecordChecked(old(Contents()), headers, caps, toFloat).value
      ensures RecordChecked(old(Contents()), headers, caps, toFloat).Err? ==>
        err == Some(RecordChecked(old(Contents()), headers, caps, toFloat).error)
    {
      var loc := LocateRow(caps[0]);
      if loc.Err? {
        return Some(loc.error);
      }
      prev := Some(loc.value);
      err := StoreRow(loc.value, headers, caps, toFloat);
    }

    /** A line read as a table header. */
    method HeaderLine(line: string, p: Params) returns (r: Result<Phase, ParseError>)
      modifies this
      ensures HeaderOn(Legacy, old(Contents()), line, p).Ok? ==>
        r == Ok(HeaderOn(Legacy, old(Contents()), line, p).value.1)
        && Contents() == HeaderOn(Legacy, old(Contents()), line, p).value.0
      ensures HeaderOn(Legacy, old(Contents()), line, p).Err? ==> r == Err(HeaderOn(Legacy, old(Contents()), line, p).error)
    {
      var hl := ColumnHeaders(Legacy, line);
      if oldDate.Some? {
        date := oldDate.value;
      }
      if hl.None? {
        return Err(ExpectedHeader(lineCount));
      }
      var headers := hl.value.headers;
      if headers == ["LINUX", "RESTART"] {
        return Ok(TableEnd);
      } else if headers[0] in p.skipTables {
        return Ok(SkipUntilEot);
      }
      var classes := RowClasses(headers);
      if classes.Err? {
        return Err(UnknownColumn(lineCount, classes.error));
      }
      prev := None;
      return Ok(TableRow(headers, classes.value));
    }

    /** A line in state `table_row`. */
    method RowLine(headers: seq<string>, classes: seq<ValueClass>, line: string, p: Params)
      returns (r: Result<Phase, ParseError>)
      modifies this, shared
      ensures LegacyRowOn(old(Contents()), headers, classes, line, p).Ok? ==>
        r == Ok(LegacyRowOn(old(Contents()), headers, classes, line, p).value.1)
        && Contents() == LegacyRowOn(old(Contents()), headers, classes, line, p).value.0
      ensures LegacyRowOn(old(Contents()), headers, classes, line, p).Err? ==>
        r == Err(LegacyRowOn(old(Contents()), headers, classes, line, p).error)
    {
      if EmptyLine(line) {
        return Ok(AfterEmptyLine);
      }
      if AverageLine(Legacy, line) {
        return Ok(TableEnd);
      }
      var matches := p.matcher(classes, line);
      if matches.None? || |matches.value| != |headers| + 1 {
        return Err(RowMismatch(lineCount));
      }
      var err := RecordData(headers, matches.value, p.toFloat);
      if err.Some? {
        return Err(err.value);
      }
      return Ok(TableRow(headers, classes));
    }

    /** The first line of the file. */
    method FirstLine(line: string) returns (r: Result<Phase, ParseError>)
      modifies this
      ensures StartOn(old(Contents()), line).Ok? ==>
        r == Ok(StartOn(old(Contents()), line).value.1) && Contents() == StartOn(old(Contents()), line).value.0
      ensures StartOn(old(Contents()), line).Err? ==> r == Err(StartOn(old(Contents()), line).error)
    {
      var pre := ParseFirstLine(line);
      ghost var s0 := Contents();
      assert StartOn(s0, line) == StartWith(s0, pre);
      if pre.None? {
        return Err(BadFirstLine(lineCount));
      }
      SetPreamble(pre.value);
      return Ok(AfterFirstLine);
    }

    /** Records the kernel, release, host and date of a first line. */
    method SetPreamble(pre: Preamble)
      modifies this
      ensures Contents() == old(Contents()).(preamble := Some(pre), date := pre.date)
    {
      preamble := Some(pre);
      date := pre.date;
    }

    /** One iteration of the loop of SAR.py's `parse`. */
    method ParseLine(phase: Phase, raw: string, p: Params) returns (r: Result<Phase, ParseError>)
      modifies this, shared
      ensures LegacyTransition(old(Contents()), phase, raw, p).Ok? ==>
        r == Ok(LegacyTransition(old(Contents()), phase, raw, p).value.1)
        && Contents() == LegacyTransition(old(Contents()), phase, raw, p).value.0
      ensures LegacyTransition(old(Contents()), phase, raw, p).Err? ==>
        r == Err(LegacyTransition(old(Contents()), phase, raw, p).error)
    {
      ghost var s := Counted(Contents());
      lineCount := lineCount + 1;
      var line := StripNewlines(raw);
      assert Contents() == s;
      assert LegacyTransition(old(Contents()), phase, raw, p) == LegacyOn(s, phase, line, p);
      match phase
      case Start =>
        assert LegacyOn(s, phase, line, p) == StartOn(s, line);
        r := FirstLine(line);
      case AfterFirstLine =>
        if !EmptyLine(line) {
          return Err(ExpectedEmptyLine(lineCount));
        }
        return Ok(AfterEmptyLine);
      case AfterEmptyLine =>
        if EmptyLine(line) {
          return Ok(AfterEmptyLine);
        }
        if AverageLine(Legacy, line) {
          return Ok(TableEnd);
        }
        assert LegacyOn(s, phase, line, p) == HeaderOn(Legacy, s, line, p);
        r := HeaderLine(line, p);
      case SkipUntilEot =>
        if !EmptyLine(line) {
          return Ok(SkipUntilEot);
        }
        return Ok(AfterEmptyLine);
      case TableStart =>
        assert LegacyOn(s, phase, line, p) == HeaderOn(Legacy, s, line, p);
        r := HeaderLine(line, p);
      case TableRow(headers, classes) =>
        assert LegacyOn(s, phase, line, p) == LegacyRowOn(s, headers, classes, line, p);
        r := RowLine(headers, classes, line, p);
      case TableEnd =>
        if EmptyLine(line) {
          return Ok(AfterEmptyLine);
        }
        if AverageLine(Legacy, line) {
          return Ok(TableEnd);
        }
        return Err(ExpectedTableEnd(lineCount));
    }

    /** SAR.py's `_prune_data()`: the category dictionary is left as it is. */
    method PruneData()
      modifies shared
      ensures Contents() == LegacyFinish(old(Contents()))
    {
      var pruned, _ := PruneRows(shared.data);
      shared.data := pruned;
    }

    /** SAR.py's `parse(skip_tables)`. */
    method Parse(p: Params) returns (err: Option<ParseError>)
      modifies this, shared
      ensures LegacyParse(old(Contents()), lines, p).Ok? ==>
        err.None? && Contents() == LegacyParse(old(Contents()), lines, p).value
      ensures LegacyParse(old(Contents()), lines, p).Err? ==>
        err == Some(LegacyParse(old(Contents()), lines, p).error)
    {
      prev := None;
      ghost var start := Contents();
      var phase := Start;
      var i := 0;
      while i < |lines|
        invariant i <= |lines|
        invariant Steps(LegacyStep(p), start, Start, lines[..i]) == Ok((Contents(), phase))
      {
        StepsNext(LegacyStep(p), start, Start, lines, i);
        var r := ParseLine(phase, lines[i], p);
        if r.Err? {
          StepsStop(LegacyStep(p), start, Start, lines, i + 1);
          return Some(r.error);
        }
        phase := r.value;
        i := i + 1;
      }
      assert lines[..i] == lines;
      PruneData();
      return None;
    }

    /** SAR.py's `datanames_per_arg(category, per_key)`. */
    ghost function DatanamesPerArg(category: string, perKey: bool): (r: Result<seq<seq<string>>, QueryError>)
      reads this, shared
      ensures shared.data == map[] <==> r == Err(NoData)
    {
      LegacyDatanames(shared.data, category, perKey)
    }
  }

  /** The first key already written, to the row or earlier in the line,
      is the repeat `FirstRepeat` finds. */
  lemma FirstRepeatIn(row: Row, keys: seq<string>, raws: seq<string>, i: nat, toFloat: FloatParser)
    requires |keys| == |raws| && i < |keys| && !Repeats(row, keys[..i])
    requires keys[i] in Put(row, keys[..i], raws[..i], toFloat)
    ensures FirstRepeat(row, keys) == Some(i)
  {
    PutKeys(row, keys[..i], raws[..i], toFloat);
    FirstRepeatAt(row, keys, i);
  }

  /** A key that repeats, with none before it repeating, is the first
      repeat. */
  lemma FirstRepeatAt(row: Row, keys: seq<string>, i: nat)
    requires i < |keys| && !Repeats(row, keys[..i]) && (keys[i] in row || keys[i] in keys[..i])
    ensures FirstRepeat(row, keys) == Some(i)
  {
    assert Repeats(row, keys);
  }
}
