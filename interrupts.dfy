/** The /proc/interrupts reader of sos_report.py (`SosReport`) and of its
    older copy in sosreport.py (`SOSReport`). The two are the same code
    except for an `int(irq)` attempt in the older one whose outcome is
    thrown away, so one class models both. */
module Interrupts {
  import opened Wrappers
  import opened Text

  /** The dict `_parse_int_entry` returns: `cpu` always, `type` and `users`
      only when the line has enough fields. */
  datatype IntEntry = IntEntry(cpu: seq<int>, kind: Option<string>, users: Option<seq<string>>)

  /** The `{}` stored under the IRQ before its entry is computed; it stays
      there when computing the entry raises. */
  const Blank := IntEntry([], None, None)

  /** The exceptions the reader can raise. */
  datatype InterruptError =
    | EmptyLine                 // `fields[0]` of a line without fields
    | MissingCount              // `fields[0]` of an IRQ line with nothing after the IRQ
    | NotAnInteger(text: string)
    | NoCpuHeader               // `self.nr_cpus` read before a CPU line set it
    | NotInLine(text: string)   // `line.index` not finding the field

  /** The tokens `int()` accepts: ASCII digits after an optional sign. */
  predicate IntText(s: string) {
    (|s| >= 1 && AllDigits(s)) || (|s| >= 2 && (s[0] == '+' || s[0] == '-') && AllDigits(s[1..]))
  }

  /** `int(s)` for a whitespace-free token. */
  function ParseInt(s: string): (r: Option<int>)
    ensures r.Some? <==> IntText(s)
  {
    if |s| >= 1 && AllDigits(s) then Some(DigitsValue(s))
    else if |s| >= 2 && s[0] == '-' && AllDigits(s[1..]) then Some(0 - DigitsValue(s[1..]))
    else if |s| >= 2 && s[0] == '+' && AllDigits(s[1..]) then Some(DigitsValue(s[1..]))
    else None
  }

  /** `[int(i) for i in texts]`, raising on the first token that is not a
      number. */
  function ParseInts(texts: seq<string>): (r: Result<seq<int>, InterruptError>)
    ensures r.Ok? ==> |r.value| == |texts| && forall i :: 0 <= i < |texts| ==> ParseInt(texts[i]) == Some(r.value[i])
    ensures r.Err? ==> exists i :: (0 <= i < |texts| && r.error == NotAnInteger(texts[i]) && !IntText(texts[i])
      && forall j :: 0 <= j < i ==> IntText(texts[j]))
  {
    if texts == [] then Ok([])
    else match ParseInt(texts[0])
      case None => Err(NotAnInteger(texts[0]))
      case Some(v) =>
        match ParseInts(texts[1..])
        case Err(e) => Err(e)
        case Ok(rest) => Ok([v] + rest)
  }

  /** `[a.strip() for a in parts]`. */
  function StripAll(parts: seq<string>): seq<string> {
    seq(|parts|, i requires 0 <= i < |parts| => Strip(parts[i]))
  }

  /** The cpu counts `_parse_int_entry` reads after the first one: the
      slice `fields[1:nr_cpus]`. */
  function CountFields(fields: seq<string>, n: nat): seq<string>
    requires |fields| >= n
  {
    if n <= 1 then [] else fields[1..n]
  }

  /** `_parse_int_entry(fields, line)` with `self.nr_cpus` as `nrCpus`
      (`None` while no CPU line has set it). */
  function EntryOf(fields: seq<string>, line: string, nrCpus: Option<nat>): Result<IntEntry, InterruptError> {
    if fields == [] then Err(MissingCount)
    else match ParseInt(fields[0])
      case None => Err(NotAnInteger(fields[0]))
      case Some(first) =>
        if nrCpus.None? then Err(NoCpuHeader)
        else if |fields| < nrCpus.value then Ok(IntEntry([first], None, None))
        else match ParseInts(CountFields(fields, nrCpus.value))
          case Err(e) => Err(e)
          case Ok(counts) => Described([first] + counts, fields, line, nrCpus.value)
  }

  /** The part of `_parse_int_entry` after the cpu counts: `type` and
      `users`, when the line has more than `n` fields. */
  function Described(cpu: seq<int>, fields: seq<string>, line: string, n: nat): Result<IntEntry, InterruptError>
    requires |fields| >= n
  {
    if |fields| == n then Ok(IntEntry(cpu, None, None))
    else if |fields| == n + 1 then Ok(IntEntry(cpu, Some(fields[n]), Some([])))
    else match Find(line, fields[n + 1])
      case None => Err(NotInLine(fields[n + 1]))
      case Some(at) => Ok(IntEntry(cpu, Some(fields[n]), Some(StripAll(Split(line[at..], ',')))))
  }

  /** The reader's state: `nr_cpus` and the `interrupts` dict. */
  datatype Scan = Scan(nrCpus: Option<nat>, table: map<string, IntEntry>)

  /** The IRQ a line is filed under; `None` for the CPU header line and
      for a line without fields. */
  function KeyOf(raw: string): Option<string> {
    var fields := Fields(Strip(raw));
    if fields == [] || StartsWith(fields[0], "CPU") then None
    else Some(StripChar(fields[0], ':'))
  }

  /** One line of `_parse_interrupts`: the new state, and the exception
      raised, if any. */
  function ScanLine(st: Scan, raw: string): (Scan, Option<InterruptError>) {
    var line := Strip(raw);
    var fields := Fields(line);
    if fields == [] then (st, Some(EmptyLine))
    else if StartsWith(fields[0], "CPU") then (st.(nrCpus := Some(|fields|)), None)
    else FileLine(st, fields, line)
  }

  /** An IRQ line: its entry, or the `{}` placeholder when computing the
      entry raises, goes under the IRQ stripped of ':'. */
  function FileLine(st: Scan, fields: seq<string>, line: string): (Scan, Option<InterruptError>)
    requires fields != []
  {
    var irq := StripChar(fields[0], ':');
    var e := EntryOf(fields[1..], line, st.nrCpus);
    if e.Ok? then (st.(table := st.table[irq := e.value]), None)
    else (st.(table := st.table[irq := Blank]), Some(e.error))
  }

  type ScanStep = (Scan, string) -> (Scan, Option<InterruptError>)

  /** Lines through a step, stopping at the first exception. */
  function Scanned(step: ScanStep, st: Scan, lines: seq<string>): (Scan, Option<InterruptError>)
    decreases |lines|
  {
    if lines == [] then (st, None)
    else
      var r := Scanned(step, st, lines[..|lines| - 1]);
      if r.1.Some? then r else step(r.0, lines[|lines| - 1])
  }

  function LineScan(): ScanStep {
    (st, raw) => ScanLine(st, raw)
  }

  /** `_parse_interrupts` over the lines of the file, stopping at the
      first exception. */
  function ScanLines(st: Scan, lines: seq<string>): (Scan, Option<InterruptError>) {
    Scanned(LineScan(), st, lines)
  }

  class SosReport {
    var nrCpus: Option<nat>
    var interrupts: map<string, IntEntry>

    /** The fields `__init__` sets; `nr_cpus` is not one of them. */
    constructor()
      ensures nrCpus == None && interrupts == map[]
    {
      nrCpus := None;
      interrupts := map[];
    }

    function State(): Scan
      reads this
    {
      Scan(nrCpus, interrupts)
    }

    /** `_parse_int_entry`, building the entry field by field. */
    method ParseIntEntry(fields: seq<string>, line: string) returns (r: Result<IntEntry, InterruptError>)
      ensures r == EntryOf(fields, line, nrCpus)
    {
      if fields == [] {
        return Err(MissingCount);
      }
      var first := ParseInt(fields[0]);
      if first.None? {
        return Err(NotAnInteger(fields[0]));
      }
      var cpu := [first.value];
      if nrCpus.None? {
        return Err(NoCpuHeader);
      }
      var n := nrCpus.value;
      var kind: Option<string> := None;
      var users: Option<seq<string>> := None;
      if |fields| >= n {
        var counts := ParseInts(CountFields(fields, n));
        if counts.Err? {
          return Err(counts.error);
        }
        cpu := cpu + counts.value;
        if |fields| > n {
          kind := Some(fields[n]);
          if |fields| > n + 1 {
            var at := Find(line, fields[n + 1]);
            if at.None? {
              return Err(NotInLine(fields[n + 1]));
            }
            users := Some(StripAll(Split(line[at.value..], ',')));
          } else {
            users := Some([]);
          }
        }
      }
      r := Ok(IntEntry(cpu, kind, users));
    }

    /** One line of `_parse_interrupts`. */
    method ParseLine(raw: string) returns (err: Option<InterruptError>)
      modifies this
      ensures (State(), err) == ScanLine(old(State()), raw)
    {
      var line := Strip(raw);
      var fields := Fields(line);
      if fields == [] {
        return Some(EmptyLine);
      }
      if StartsWith(fields[0], "CPU") {
        nrCpus := Some(|fields|);
        return None;
      }
      err := FileEntry(fields, line);
    }

    /** The IRQ line branch of `_parse_interrupts`: the `{}` placeholder,
        then the computed entry over it. */
    method FileEntry(fields: seq<string>, line: string) returns (err: Option<InterruptError>)
      requires fields != []
      modifies this
      ensures nrCpus == old(nrCpus)
      ensures var e := EntryOf(fields[1..], line, old(nrCpus));
        interrupts == old(interrupts)[StripChar(fields[0], ':') := if e.Ok? then e.value else Blank]
        && err == (if e.Ok? then None else Some(e.error))
    {
      var irq := StripChar(fields[0], ':');
      interrupts := interrupts[irq := Blank];
      var entry := ParseIntEntry(fields[1..], line);
      if entry.Err? {
        return Some(entry.error);
      }
      interrupts := interrupts[irq := entry.value];
      assert interrupts == old(interrupts)[irq := entry.value];
      err := None;
    }

    /** `_parse_interrupts` over the given lines of the file. */
    method ParseInterrupts(lines: seq<string>) returns (err: Option<InterruptError>)
      modifies this
      ensures (State(), err) == ScanLines(old(State()), lines)
    {
      ghost var st0 := State();
      var i := 0;
      while i < |lines|
        invariant 0 <= i <= |lines|
        invariant ScanLines(st0, lines[..i]) == (State(), None)
      {
        ScanLinesNext(st0, lines, i);
        err := ParseLine(lines[i]);
        if err.Some? {
          if i + 1 < |lines| {
            ScanLinesStop(st0, lines, i + 1);
          } else {
            assert lines[..i + 1] == lines;
          }
          return;
        }
        i := i + 1;
      }
      assert lines[..i] == lines;
      err := None;
    }
  }

  /** `_parse_interrupts` reads one more line when none has raised. */
  lemma ScanLinesNext(st: Scan, lines: seq<string>, i: nat)
    requires i < |lines| && ScanLines(st, lines[..i]).1.None?
    ensures ScanLines(st, lines[..i + 1]) == ScanLine(ScanLines(st, lines[..i]).0, lines[i])
  {
    ScanExtend(LineScan(), st, lines, i);
  }

  /** `_parse_interrupts` stops at the first line that raises. */
  lemma ScanLinesStop(st: Scan, lines: seq<string>, m: nat)
    requires 0 < m <= |lines| && ScanLines(st, lines[..m]).1.Some?
    ensures ScanLines(st, lines) == ScanLines(st, lines[..m])
  {
    ScanStops(LineScan(), st, lines, m);
  }

  /** One more line: the run so far, then that line unless the run has
      already raised. */
  lemma ScanExtend(step: ScanStep, st: Scan, lines: seq<string>, m: nat)
    requires m < |lines|
    ensures Scanned(step, st, lines[..m + 1])
      == (var r := Scanned(step, st, lines[..m]); if r.1.Some? then r else step(r.0, lines[m]))
  {
    assert lines[..m + 1][..m] == lines[..m];
  }

  /** Once a line raises, the remaining lines are not read. */
  lemma {:induction false} ScanStops(step: ScanStep, st: Scan, lines: seq<string>, m: nat)
    requires 0 < m <= |lines| && Scanned(step, st, lines[..m]).1.Some?
    ensures Scanned(step, st, lines) == Scanned(step, st, lines[..m])
    decreases |lines| - m
  {
    if m == |lines| {
      assert lines[..m] == lines;
    } else {
      ScanExtend(step, st, lines, m);
      ScanStops(step, st, lines, m + 1);
    }
  }

  /** `int(str(n)) == n`. */
  lemma IntOfNatString(n: nat)
    ensures ParseInt(NatToString(n)) == Some(n)
  {
  }

  /** The shape of an entry: the cpu counts, then `type` and `users` only
      when the line has more than `nr_cpus` fields. */
  lemma EntryShape(fields: seq<string>, line: string, n: nat)
    requires EntryOf(fields, line, Some(n)).Ok?
    ensures var e := EntryOf(fields, line, Some(n)).value;
      |fields| >= 1 && |e.cpu| >= 1 && ParseInt(fields[0]) == Some(e.cpu[0])
    ensures var e := EntryOf(fields, line, Some(n)).value;
      |fields| < n ==> e.cpu == [ParseInt(fields[0]).value] && e.kind.None? && e.users.None?
    ensures var e := EntryOf(fields, line, Some(n)).value;
      |fields| >= n ==> (|e.cpu| == (if n <= 1 then 1 else n)
        && forall i :: 0 <= i < |e.cpu| ==> ParseInt(fields[i]) == Some(e.cpu[i]))
    ensures var e := EntryOf(fields, line, Some(n)).value;
      (e.kind.Some? <==> |fields| > n) && (e.kind.Some? ==> e.kind.value == fields[n])
    ensures var e := EntryOf(fields, line, Some(n)).value;
      (e.users.Some? <==> |fields| > n) && (e.users == Some([]) <==> |fields| == n + 1)
  {
    if |fields| > n + 1 {
      var at := Find(line, fields[n + 1]).value;
      assert |Split(line[at..], ',')| >= 1;
    }
  }

  /** `sub` occurs at `at` and nowhere before. */
  predicate FirstOccurrence(s: string, sub: string, at: nat) {
    OccursAt(s, sub, at) && forall j: nat :: j < at ==> !OccursAt(s, sub, j)
  }

  /** With more than `nr_cpus + 1` fields, `users` is the rest of the line
      from the first place the next field occurs, split on ',' and
      stripped. */
  lemma UsersFromFirstOccurrence(fields: seq<string>, line: string, n: nat)
    requires |fields| > n + 1
    requires EntryOf(fields, line, Some(n)).Ok?
    ensures exists at: nat :: (FirstOccurrence(line, fields[n + 1], at)
      && EntryOf(fields, line, Some(n)).value.users == Some(StripAll(Split(line[at..], ','))))
  {
    var at := Find(line, fields[n + 1]).value;
    assert OccursAt(line, fields[n + 1], at);
  }

  /** The exceptions, in the order the code meets them. */
  lemma EntryErrors(fields: seq<string>, line: string, nrCpus: Option<nat>)
    ensures fields == [] ==> EntryOf(fields, line, nrCpus) == Err(MissingCount)
    ensures fields != [] && !IntText(fields[0]) ==> EntryOf(fields, line, nrCpus) == Err(NotAnInteger(fields[0]))
    ensures fields != [] && IntText(fields[0]) && nrCpus.None? ==> EntryOf(fields, line, nrCpus) == Err(NoCpuHeader)
  {
  }

  /** The fields of a line all occur in it, so `line.index` never fails
      on them. */
  lemma FieldsFound(line: string, nrCpus: Option<nat>)
    requires Fields(line) != []
    ensures EntryOf(Fields(line)[1..], line, nrCpus).Err? ==> !EntryOf(Fields(line)[1..], line, nrCpus).error.NotInLine?
  {
    FieldsOccur(line);
    var fields := Fields(line)[1..];
    forall k | 0 <= k < |fields| ensures Contains(line, fields[k]) {
      assert fields[k] in Fields(line);
    }
    EntryFound(fields, line, nrCpus);
  }

  /** Fields that all occur in the line never make the entry fail for
      want of one. */
  lemma EntryFound(fields: seq<string>, line: string, nrCpus: Option<nat>)
    requires forall k :: 0 <= k < |fields| ==> Contains(line, fields[k])
    ensures EntryOf(fields, line, nrCpus).Err? ==> !EntryOf(fields, line, nrCpus).error.NotInLine?
  {
    if fields != [] && ParseInt(fields[0]).Some? && nrCpus.Some? && |fields| >= nrCpus.value {
      var n := nrCpus.value;
      var counts := ParseInts(CountFields(fields, n));
      if counts.Ok? {
        DescribedFound([ParseInt(fields[0]).value] + counts.value, fields, line, n);
      }
    }
  }

  lemma DescribedFound(cpu: seq<int>, fields: seq<string>, line: string, n: nat)
    requires |fields| >= n
    requires |fields| > n + 1 ==> Contains(line, fields[n + 1])
    ensures Described(cpu, fields, line, n).Ok?
  {
  }

  /** A CPU header line sets `nr_cpus` to its number of fields and files
      nothing. */
  lemma HeaderLine(st: Scan, raw: string)
    requires Fields(Strip(raw)) != [] && StartsWith(Fields(Strip(raw))[0], "CPU")
    ensures ScanLine(st, raw) == (st.(nrCpus := Some(|Fields(Strip(raw))|)), None)
    ensures KeyOf(raw).None?
  {
  }

  /** Any other line files its entry under the IRQ stripped of ':', over
      whatever was there, and leaves `nr_cpus` alone. */
  lemma EntryLine(st: Scan, raw: string)
    requires KeyOf(raw).Some?
    ensures var fields := Fields(Strip(raw));
      var e := EntryOf(fields[1..], Strip(raw), st.nrCpus);
      ScanLine(st, raw) == (st.(table := st.table[KeyOf(raw).value := if e.Ok? then e.value else Blank]),
                            if e.Ok? then None else Some(e.error))
    ensures var irq := KeyOf(raw).value;
      irq == [] || (irq[0] != ':' && irq[|irq| - 1] != ':')
  {
    assert ScanLine(st, raw) == FileLine(st, Fields(Strip(raw)), Strip(raw));
  }

  /** A run without exceptions has no exception in any of its prefixes. */
  lemma {:induction false} ScanPrefix(step: ScanStep, st: Scan, lines: seq<string>, m: nat)
    requires m <= |lines| && Scanned(step, st, lines).1.None?
    ensures Scanned(step, st, lines[..m]).1.None?
    decreases |lines|
  {
    if m < |lines| {
      assert lines[..|lines| - 1][..m] == lines[..m];
      ScanPrefix(step, st, lines[..|lines| - 1], m);
    } else {
      assert lines[..m] == lines;
    }
  }

  /** A line filed under another IRQ, or not filed at all, leaves the
      entry of `k` as it was. */
  lemma OtherLineKeeps(st: Scan, raw: string, k: string)
    requires KeyOf(raw) != Some(k) && k in st.table
    ensures k in ScanLine(st, raw).0.table && ScanLine(st, raw).0.table[k] == st.table[k]
  {
    if KeyOf(raw).Some? {
      EntryLine(st, raw);
    }
  }

  /** A step that leaves `k` alone on lines not naming it. */
  ghost predicate KeepsKey(step: ScanStep, k: string) {
    forall st: Scan, raw: string :: KeyOf(raw) != Some(k) && k in st.table ==>
      k in step(st, raw).0.table && step(st, raw).0.table[k] == st.table[k]
  }

  lemma LineScanKeeps(k: string)
    ensures KeepsKey(LineScan(), k)
  {
    forall st: Scan, raw: string | KeyOf(raw) != Some(k) && k in st.table
      ensures k in LineScan()(st, raw).0.table && LineScan()(st, raw).0.table[k] == st.table[k]
    {
      OtherLineKeeps(st, raw, k);
    }
  }

  /** Lines that do not name an IRQ leave its entry as it was. */
  lemma {:induction false} KeyKept(step: ScanStep, st: Scan, lines: seq<string>, i: nat, m: nat, k: string)
    requires KeepsKey(step, k)
    requires i < m <= |lines|
    requires k in Scanned(step, st, lines[..i + 1]).0.table
    requires forall j :: i < j < m ==> KeyOf(lines[j]) != Some(k)
    ensures k in Scanned(step, st, lines[..m]).0.table
    ensures Scanned(step, st, lines[..m]).0.table[k] == Scanned(step, st, lines[..i + 1]).0.table[k]
    decreases m
  {
    if m > i + 1 {
      ScanExtend(step, st, lines, m - 1);
      KeyKept(step, st, lines, i, m - 1, k);
      var r := Scanned(step, st, lines[..m - 1]);
      var raw := lines[m - 1];
      assert KeyOf(raw) != Some(k);
      assert k in step(r.0, raw).0.table && step(r.0, raw).0.table[k] == r.0.table[k];
    }
  }

  /** After a run without exceptions, each IRQ holds the entry computed
      from the last line that named it: later lines overwrite earlier
      ones. */
  lemma LastLineWins(st: Scan, lines: seq<string>, i: nat, k: string)
    requires ScanLines(st, lines).1.None?
    requires i < |lines| && KeyOf(lines[i]) == Some(k)
    requires forall j :: i < j < |lines| ==> KeyOf(lines[j]) != Some(k)
    ensures var line := Strip(lines[i]);
      var before := ScanLines(st, lines[..i]).0;
      var e := EntryOf(Fields(line)[1..], line, before.nrCpus);
      e.Ok? && k in ScanLines(st, lines).0.table && ScanLines(st, lines).0.table[k] == e.value
  {
    ScanPrefix(LineScan(), st, lines, i + 1);
    FiledAt(st, lines, i, k);
    KeptAfter(st, lines, i, k);
  }

  /** The lines after the last one naming `k` leave its entry alone. */
  lemma KeptAfter(st: Scan, lines: seq<string>, i: nat, k: string)
    requires i < |lines| && k in ScanLines(st, lines[..i + 1]).0.table
    requires forall j :: i < j < |lines| ==> KeyOf(lines[j]) != Some(k)
    ensures k in ScanLines(st, lines).0.table
    ensures ScanLines(st, lines).0.table[k] == ScanLines(st, lines[..i + 1]).0.table[k]
  {
    LineScanKeeps(k);
    KeyKept(LineScan(), st, lines, i, |lines|, k);
    assert lines[..|lines|] == lines;
  }

  /** A line naming IRQ `k`, read without an exception, files its entry
      under `k`. */
  lemma FiledAt(st: Scan, lines: seq<string>, i: nat, k: string)
    requires i < |lines| && KeyOf(lines[i]) == Some(k)
    requires ScanLines(st, lines[..i + 1]).1.None?
    ensures var line := Strip(lines[i]);
      var before := ScanLines(st, lines[..i]).0;
      var e := EntryOf(Fields(line)[1..], line, before.nrCpus);
      e.Ok? && k in ScanLines(st, lines[..i + 1]).0.table && ScanLines(st, lines[..i + 1]).0.table[k] == e.value
  {
    ScanExtend(LineScan(), st, lines, i);
    EntryLine(ScanLines(st, lines[..i]).0, lines[i]);
  }
}
