/** The lookups over the counter catalog (sar_metadata.py): the value
    pattern of a column, the category of a data key, the title and labels
    of a graph, the descriptions shown under a graph and the set of all
    categories. */
module Metadata {
  import opened Wrappers
  import opened Text
  import opened Catalog

  datatype MetaError =
    | NoPattern(name: string)     // get_regexp: no pattern for the column
    | MixedCategories             // get_labels_title: keys from several index columns
    | MixedColumns                // get_labels_title: not exactly one sub-column
    | UnknownGraph(name: string)  // get_desc: a name with no description

  /** The columns whose pattern is fixed by their role rather than by the
      catalog; `get_regexp` consults these first. */
  function Structural(name: string): Option<ValueClass> {
    match name
    case "IFACE" => Some(Iface)
    case "DEV" => Some(Iface)
    case "CPU" => Some(Cpu)
    case "INTR" => Some(Intr)
    case "iNNN/s" => Some(Interrupts)
    case "BUS" => Some(Integer)
    case "FAN" => Some(Integer)
    case "DEVICE" => Some(Iface)
    case "TEMP" => Some(Integer)
    case "TTY" => Some(Integer)
    case "idvendor" => Some(Hex)
    case "idprod" => Some(Hex)
    case "manufact" => Some(UsbName)
    case "product" => Some(UsbName)
    case "MHz" => Some(Decimal)
    case "FILESYSTEM" => Some(FsName)
    case _ => None
  }

  /** A run of digits and then `/s` starts `s`. */
  predicate DigitsThenRate(s: string) {
    StartsWith(s, "/s") || (s != [] && IsDigit(s[0]) && DigitsThenRate(s[1..]))
  }

  /** The pattern `i`, digits, `/s` matches at the start of `s` (`re.match`
      in `get_regexp`): an interrupt counter name such as
      `i012/s` starts `s`. */
  predicate InterruptPrefix(s: string) {
    s != [] && s[0] == 'i' && DigitsThenRate(s[1..])
  }

  /** The same pattern anywhere in `s` (`re.match` with a leading `.*` in
      `get_desc`): an interrupt counter name occurs
      somewhere in `s`. */
  predicate MentionsInterrupt(s: string) {
    exists p: nat :: p <= |s| && InterruptPrefix(s[p..])
  }

  /** The recursive recogniser agrees with the direct reading of the
      pattern: `i`, a run of digits, then `/s`. */
  lemma DigitsThenRateIff(s: string)
    ensures DigitsThenRate(s) <==> exists k: nat :: k <= |s| && AllDigits(s[..k]) && OccursAt(s, "/s", k)
  {
    if DigitsThenRate(s) {
      RateAfterDigits(s);
    } else {
      forall k: nat | k <= |s| && AllDigits(s[..k]) ensures !OccursAt(s, "/s", k) {
        if OccursAt(s, "/s", k) {
          RateOnlyAfterDigits(s, k);
        }
      }
    }
  }

  lemma {:induction false} RateAfterDigits(s: string)
    requires DigitsThenRate(s)
    ensures exists k: nat :: k <= |s| && AllDigits(s[..k]) && OccursAt(s, "/s", k)
    decreases |s|
  {
    if StartsWith(s, "/s") {
      assert AllDigits(s[..0]) && OccursAt(s, "/s", 0);
    } else {
      RateAfterDigits(s[1..]);
      var k: nat :| k <= |s[1..]| && AllDigits(s[1..][..k]) && OccursAt(s[1..], "/s", k);
      assert s[..k + 1] == [s[0]] + s[1..][..k];
      assert s[k + 1..k + 3] == s[1..][k..k + 2];
      assert AllDigits(s[..k + 1]) && OccursAt(s, "/s", k + 1);
    }
  }

  lemma {:induction false} RateOnlyAfterDigits(s: string, k: nat)
    requires k <= |s| && AllDigits(s[..k]) && OccursAt(s, "/s", k)
    ensures DigitsThenRate(s)
    decreases k
  {
    if k == 0 {
      assert s[..2] == "/s";
    } else {
      assert s[..k][0] == s[0];
      var rest := s[1..];
      var digits := rest[..k - 1];
      forall i | 0 <= i < |digits| ensures IsDigit(digits[i]) {
        assert digits[i] == s[..k][i + 1];
      }
      assert rest[k - 1..k + 1] == s[k..k + 2];
      RateOnlyAfterDigits(s[1..], k - 1);
    }
  }

  /** `get_regexp(name)`: the structural table first, then the catalog
      entry's pattern, then the interrupt pattern for `i<digits>/s`. */
  function GetRegexp(name: string): (r: Result<ValueClass, MetaError>)
    ensures Structural(name).Some? ==> r == Ok(Structural(name).value)
    ensures Structural(name).None? && BaseGraph(name).Some? && BaseGraph(name).value.regexp.Some?
      ==> r == Ok(BaseGraph(name).value.regexp.value)
    ensures r.Err? <==>
      Structural(name).None?
      && (BaseGraph(name).None? || BaseGraph(name).value.regexp.None?)
      && !InterruptPrefix(name)
    ensures r.Err? ==> r.error == NoPattern(name)
  {
    match Structural(name)
    case Some(c) => Ok(c)
    case None =>
      if BaseGraph(name).Some? && BaseGraph(name).value.regexp.Some? then
        Ok(BaseGraph(name).value.regexp.value)
      else if InterruptPrefix(name) then Ok(Interrupts)
      else Err(NoPattern(name))
  }

  /** The structural table wins: `MHz` is listed with the integer pattern
      in the catalog but reads as a decimal. */
  lemma MHzIsDecimal()
    ensures BaseGraph("MHz").value.regexp == Some(Integer)
    ensures GetRegexp("MHz") == Ok(Decimal)
  {
  }

  /** `txbyt/s` carries the decimal pattern like the other byte rates. */
  lemma TxBytesIsDecimal()
    ensures GetRegexp("txbyt/s") == Ok(Decimal)
  {
  }

  /** A per-interrupt column `i<digits>/s` that the catalog does not list
      takes the interrupt pattern. */
  lemma InterruptColumnPattern(digits: string)
    requires AllDigits(digits)
    requires BaseGraph("i" + digits + "/s").None?
    ensures GetRegexp("i" + digits + "/s") == Ok(Interrupts)
  {
    var name := "i" + digits + "/s";
    NotStructural(digits);
    assert InterruptPrefix(name) by {
      assert name[1..] == digits + "/s";
      DigitsThenRateIff(name[1..]);
      assert (digits + "/s")[..|digits|] == digits;
      assert OccursAt(digits + "/s", "/s", |digits|);
    }
  }

  /** No structural column is an `i<digits>/s` name: the only one
      starting with `i` and then a digit or `/` would be `iNNN/s`. */
  lemma NotStructural(digits: string)
    requires AllDigits(digits)
    ensures Structural("i" + digits + "/s").None?
  {
    var name := "i" + digits + "/s";
    assert name[0] == 'i';
    assert name[1] == if digits == [] then '/' else digits[0];
    assert name[1] != 'N' && name[1] != 'd';
  }

  /** `get_category(name)`: a fixed category for keys of the index
      columns, recognised by prefix in this order, then the catalog's
      category, and `Interrupts` for everything else. */
  function GetCategory(name: string): (r: string)
    ensures r == "Interrupts" <== !StartsWith(name, "CPU#") && !StartsWith(name, "FILESYSTEM#")
      && !StartsWith(name, "DEV#") && !StartsWith(name, "TTY") && !StartsWith(name, "IFACE")
      && !StartsWith(name, "TEMP#") && !StartsWith(name, "FAN#") && !StartsWith(name, "INTR#")
      && BaseGraph(name).None?
  {
    if StartsWith(name, "CPU#") then "Load"
    else if StartsWith(name, "FILESYSTEM#") then "Files"
    else if StartsWith(name, "DEV#") then "I/O"
    else if StartsWith(name, "TTY") then "TTY"
    else if StartsWith(name, "IFACE") then "Network"
    else if StartsWith(name, "TEMP#") then "Power"
    else if StartsWith(name, "FAN#") then "Power"
    else if StartsWith(name, "INTR#") then "Intr"
    else match BaseGraph(name)
      case Some(e) => e.cat
      case None => "Interrupts"
  }

  /** The category a composite key `idx#value#column` receives from its
      index column. */
  function IndexCategory(idx: string): string {
    match idx
    case "CPU" => "Load"
    case "FILESYSTEM" => "Files"
    case "DEV" => "I/O"
    case "TTY" => "TTY"
    case "IFACE" => "Network"
    case "TEMP" => "Power"
    case "FAN" => "Power"
    case "INTR" => "Intr"
    case _ => "Interrupts"
  }

  /** Every composite key takes the category of its index column,
      whatever its value and sub-column. */
  lemma CompositeCategory(idx: string, value: string, column: string)
    requires idx in IndexColumns && idx != "BUS"
    ensures GetCategory(idx + "#" + value + "#" + column) == IndexCategory(idx)
  {
    var key := idx + "#" + value + "#" + column;
    assert key[..|idx| + 1] == idx + "#";
    if idx == "CPU" {
      assert StartsWith(key, "CPU#");
    } else if idx == "FILESYSTEM" {
      assert StartsWith(key, "FILESYSTEM#") && key[0] == 'F';
    } else if idx == "DEV" {
      assert StartsWith(key, "DEV#") && key[0] == 'D';
    } else if idx == "TTY" {
      assert key[..3] == "TTY" && key[0] == 'T';
    } else if idx == "IFACE" {
      assert key[..5] == "IFACE" && key[0] == 'I';
    } else if idx == "TEMP" {
      assert StartsWith(key, "TEMP#") && key[0] == 'T' && key[1] == 'E';
    } else if idx == "FAN" {
      assert StartsWith(key, "FAN#") && key[0] == 'F' && key[1] == 'A';
    } else {
      assert StartsWith(key, "INTR#") && key[0] == 'I' && key[1] == 'N';
    }
  }

  /** Keys of the `BUS` index column have no prefix rule; as no catalog
      name contains '#', they fall through to `Interrupts`. */
  lemma BusCategory(value: string, column: string)
    requires BaseGraph("BUS#" + value + "#" + column).None?
    ensures GetCategory("BUS#" + value + "#" + column) == "Interrupts"
  {
    var key := "BUS#" + value + "#" + column;
    assert key[..4] == "BUS#";
  }

  /** A name without '#' that does not start with `TTY` or `IFACE` is
      categorised by the catalog alone. */
  lemma {:induction false} NoIndexPrefix(name: string)
    requires !StartsWith(name, "TTY") && !StartsWith(name, "IFACE") && '#' !in name
    ensures GetCategory(name) == match BaseGraph(name) case Some(e) => e.cat case None => "Interrupts"
  {
    HashBlocksPrefix(name, "CPU#", 3);
    HashBlocksPrefix(name, "FILESYSTEM#", 10);
    HashBlocksPrefix(name, "DEV#", 3);
    HashBlocksPrefix(name, "TEMP#", 4);
    HashBlocksPrefix(name, "FAN#", 3);
    HashBlocksPrefix(name, "INTR#", 4);
  }

  /** A name without '#' cannot start with a prefix that contains one. */
  lemma HashBlocksPrefix(name: string, prefix: string, k: nat)
    requires '#' !in name && k < |prefix| && prefix[k] == '#'
    ensures !StartsWith(name, prefix)
  {
    if k < |name| {
      assert name[k] in name;
    }
  }

  /** A catalog name without an index prefix takes its catalog category. */
  lemma CatalogCategory(name: string)
    requires BaseGraph(name).Some?
    requires !StartsWith(name, "TTY") && !StartsWith(name, "IFACE") && '#' !in name
    ensures GetCategory(name) == BaseGraph(name).value.cat
  {
    NoIndexPrefix(name);
  }

  /** `(c, k, p) = name.split('#')` succeeds. */
  predicate IsComposite(name: string) {
    |Split(name, '#')| == 3
  }

  function Part(name: string, i: nat): string
    requires IsComposite(name) && i < 3
  {
    Split(name, '#')[i]
  }

  /** The labels of a graph: one label, or one per plotted key. */
  datatype Labels = One(text: string) | Many(labels: seq<string>)

  datatype Heading = Heading(title: string, labels: Labels)

  /** The heading of a single plain name: its catalog label if it has one,
      otherwise the name itself. */
  function PlainHeading(name: string): Heading {
    match BaseGraph(name)
    case Some(Entry(_, _, Some(s))) => Heading(s, One(s))
    case _ => Heading(name, One(name))
  }

  function IndexValues(names: seq<string>): (r: seq<string>)
    requires forall n :: n in names ==> IsComposite(n)
    ensures |r| == |names|
    ensures forall i :: 0 <= i < |names| ==> r[i] == Part(names[i], 1)
  {
    if names == [] then [] else [Part(names[0], 1)] + IndexValues(names[1..])
  }

  function CategoriesOf(names: seq<string>): set<string> {
    set n | n in names && IsComposite(n) :: Part(n, 0)
  }

  function ColumnsOf(names: seq<string>): set<string> {
    set n | n in names && IsComposite(n) :: Part(n, 2)
  }

  /** What `get_labels_title(names)` returns. A plain name among several
      makes the title the names joined by blanks; otherwise every key must
      share one index column and one sub-column, and the labels are the
      index values. */
  function LabelsTitle(names: seq<string>): Result<Heading, MetaError> {
    if exists i :: 0 <= i < |names| && !IsComposite(names[i]) then
      if |names| != 1 then Ok(Heading(JoinWith(names, " "), Many(names)))
      else Ok(PlainHeading(names[0]))
    else if |CategoriesOf(names)| > 1 then Err(MixedCategories)
    else if |ColumnsOf(names)| == 1 then
      Ok(Heading(Part(names[0], 2), Many(IndexValues(names))))
    else Err(MixedColumns)
  }

  /** `get_labels_title(names)`: one pass collecting the categories and
      sub-columns seen, returning early at the first plain name. */
  method GetLabelsTitle(names: seq<string>) returns (r: Result<Heading, MetaError>)
    ensures r == LabelsTitle(names)
  {
    var cats: set<string> := {};
    var columns: set<string> := {};
    var i := 0;
    while i < |names|
      invariant 0 <= i <= |names|
      invariant forall j :: 0 <= j < i ==> IsComposite(names[j])
      invariant cats == CategoriesOf(names[..i])
      invariant columns == ColumnsOf(names[..i])
    {
      var n := names[i];
      if !IsComposite(n) {
        if |names| != 1 {
          return Ok(Heading(JoinWith(names, " "), Many(names)));
        }
        return Ok(PlainHeading(names[0]));
      }
      assert names[..i + 1] == names[..i] + [n];
      cats := cats + {Part(n, 0)};
      columns := columns + {Part(n, 2)};
      i := i + 1;
    }
    assert names[..i] == names;
    if |cats| > 1 {
      return Err(MixedCategories);
    }
    if |columns| == 1 {
      return Ok(Heading(Part(names[0], 2), Many(IndexValues(names))));
    }
    return Err(MixedColumns);
  }

  lemma CompositeParts(idx: string, value: string, column: string)
    requires '#' !in idx && '#' !in value && '#' !in column
    ensures IsComposite(idx + "#" + value + "#" + column)
    ensures Part(idx + "#" + value + "#" + column, 0) == idx
    ensures Part(idx + "#" + value + "#" + column, 1) == value
    ensures Part(idx + "#" + value + "#" + column, 2) == column
  {
    SplitJoin([idx, value, column], '#');
    assert [idx, value, column][1..] == [value, column];
    assert Join([value, column], '#') == value + "#" + column;
    assert Join([idx, value, column], '#') == idx + "#" + value + "#" + column;
  }

  /** Keys of one index column and one sub-column, as in
      `['CPU#0#%idle', 'CPU#1#%idle']`: the sub-column is the title and the
      index values, in input order, are the labels. */
  lemma {:induction false} OneColumnHeading(names: seq<string>, idx: string, column: string)
    requires names != []
    requires forall n :: n in names ==> IsComposite(n) && Part(n, 0) == idx && Part(n, 2) == column
    ensures LabelsTitle(names) == Ok(Heading(column, Many(IndexValues(names))))
  {
    assert names[0] in names;
    assert CategoriesOf(names) == {idx};
    assert ColumnsOf(names) == {column};
  }

  /** Keys of two different index columns are refused. */
  lemma {:induction false} MixedCategoriesRefused(names: seq<string>, i: nat, j: nat)
    requires forall n :: n in names ==> IsComposite(n)
    requires i < |names| && j < |names| && Part(names[i], 0) != Part(names[j], 0)
    ensures LabelsTitle(names) == Err(MixedCategories)
  {
    var a, b := Part(names[i], 0), Part(names[j], 0);
    assert names[i] in names && names[j] in names;
    var rest := CategoriesOf(names) - {a, b};
    assert CategoriesOf(names) == {a, b} + rest;
    assert |{a, b}| == 2;
  }

  /** Several plain names, such as the load averages, are graphed together
      under their joined names. */
  lemma PlainGroupHeading(names: seq<string>, i: nat)
    requires |names| >= 2 && i < |names| && !IsComposite(names[i])
    ensures LabelsTitle(names) == Ok(Heading(JoinWith(names, " "), Many(names)))
  {
  }

  // ---- descriptions ----

  predicate IsBreak(c: char) {
    c == ' ' || c == '\n'
  }

  function DropBreaks(s: string): (r: string)
    ensures |r| <= |s|
    ensures r != [] ==> !IsBreak(r[0])
  {
    if s != [] && IsBreak(s[0]) then DropBreaks(s[1..]) else s
  }

  /** `re.sub('[\n ]+', ' ', s)`: every run of blanks and newlines becomes
      one blank. */
  function Collapse(s: string): (r: string)
    ensures r == [] <==> s == []
    ensures s != [] && !IsBreak(s[0]) ==> r[0] == s[0]
    ensures '\n' !in r
    ensures forall i :: 0 <= i < |r| - 1 ==> !(r[i] == ' ' && r[i + 1] == ' ')
    decreases |s|
  {
    if s == [] then []
    else if IsBreak(s[0]) then
      var rest := Collapse(DropBreaks(s[1..]));
      assert rest != [] ==> rest[0] != ' ';
      [' '] + rest
    else [s[0]] + Collapse(s[1..])
  }

  /** Text without blanks or newlines is kept as it is. */
  lemma {:induction false} CollapseKeepsText(a: string, t: string)
    requires forall i :: 0 <= i < |a| ==> !IsBreak(a[i])
    ensures Collapse(a + t) == a + Collapse(t)
    decreases |a|
  {
    if a == [] {
      assert a + t == t;
    } else {
      assert (a + t)[0] == a[0];
      assert (a + t)[1..] == a[1..] + t;
      CollapseKeepsText(a[1..], t);
    }
  }

  /** A run of blanks and newlines is dropped up to the text after it. */
  lemma {:induction false} DropBreaksRun(d: string, t: string)
    requires forall i :: 0 <= i < |d| ==> IsBreak(d[i])
    requires t == [] || !IsBreak(t[0])
    ensures DropBreaks(d + t) == t
    decreases |d|
  {
    if d == [] {
      assert d + t == t;
    } else {
      assert (d + t)[0] == d[0];
      assert (d + t)[1..] == d[1..] + t;
      DropBreaksRun(d[1..], t);
    }
  }

  /** A whole run of blanks and newlines becomes one blank. */
  lemma CollapseRun(d: string, t: string)
    requires d != [] && forall i :: 0 <= i < |d| ==> IsBreak(d[i])
    requires t == [] || !IsBreak(t[0])
    ensures Collapse(d + t) == " " + Collapse(t)
  {
    assert (d + t)[0] == d[0];
    assert (d + t)[1..] == d[1..] + t;
    DropBreaksRun(d[1..], t);
  }

  /** One line of the description table under a graph. */
  datatype DescEntry = DescEntry(name: string, text: string)

  const InterruptsEntry := DescEntry("int/s", "Interrupts per second")

  function Describe(name: string, descOf: string -> string): DescEntry {
    DescEntry(name, Collapse(descOf(name)))
  }

  /** The description of a single name: its own entry, the entry of its
      sub-column, or the interrupt entry. */
  function DescOne(name: string, descOf: string -> string): Result<seq<DescEntry>, MetaError> {
    if BaseGraph(name).Some? then Ok([Describe(name, descOf)])
    else if IsComposite(name) && BaseGraph(Part(name, 2)).Some? then Ok([Describe(Part(name, 2), descOf)])
    else if MentionsInterrupt(name) then Ok([InterruptsEntry])
    else Err(UnknownGraph(name))
  }

  function Cons(e: DescEntry, r: Result<seq<DescEntry>, MetaError>): Result<seq<DescEntry>, MetaError> {
    match r
    case Ok(es) => Ok([e] + es)
    case Err(x) => Err(x)
  }

  /** The description of a name that is not read as a composite key: the
      catalog entry of the whole name, or an error. */
  function DescPlain(n: string, rest: seq<string>, previous: Option<string>, descOf: string -> string)
    : Result<seq<DescEntry>, MetaError>
    decreases |rest| + 1, 0
  {
    if BaseGraph(n).Some? then Cons(Describe(n, descOf), DescRun(rest, previous, descOf))
    else Err(UnknownGraph(n))
  }

  /** The entries for several names: a composite key contributes its
      sub-column's entry unless the previous entry was for the same
      sub-column, interrupt sub-columns share one entry, and plain names
      contribute their own entry without touching `previous`. */
  function DescRun(names: seq<string>, previous: Option<string>, descOf: string -> string)
    : Result<seq<DescEntry>, MetaError>
    decreases |names|, 1
  {
    if names == [] then Ok([])
    else
      var n := names[0];
      var rest := names[1..];
      if IsComposite(n) then
        var p := Part(n, 2);
        if MentionsInterrupt(p) then
          if previous == Some("int/s") then DescRun(rest, previous, descOf)
          else Cons(InterruptsEntry, DescRun(rest, Some("int/s"), descOf))
        else if BaseGraph(p).Some? then
          if previous == Some(p) then DescRun(rest, previous, descOf)
          else Cons(Describe(p, descOf), DescRun(rest, Some(p), descOf))
        else DescPlain(n, rest, previous, descOf)
      else DescPlain(n, rest, previous, descOf)
  }

  /** What `get_desc(names)` returns, given the catalog's description text
      `descOf`. */
  function Desc(names: seq<string>, descOf: string -> string): Result<seq<DescEntry>, MetaError> {
    if |names| == 1 then DescOne(names[0], descOf) else DescRun(names, None, descOf)
  }

  function Append(done: seq<DescEntry>, r: Result<seq<DescEntry>, MetaError>): Result<seq<DescEntry>, MetaError> {
    match r
    case Ok(es) => Ok(done + es)
    case Err(x) => Err(x)
  }

  /** `get_desc(names)`: the single-name lookups, or one pass over the
      names that remembers the last sub-column described. */
  method GetDesc(names: seq<string>, descOf: string -> string) returns (r: Result<seq<DescEntry>, MetaError>)
    ensures r == Desc(names, descOf)
  {
    if |names| == 1 {
      return DescOne(names[0], descOf);
    }
    r := DescLoop(names, descOf);
  }

  /** The loop of `get_desc` over several names. */
  method DescLoop(names: seq<string>, descOf: string -> string) returns (r: Result<seq<DescEntry>, MetaError>)
    ensures r == DescRun(names, None, descOf)
  {
    var ret: seq<DescEntry> := [];
    var previous: Option<string> := None;
    var i := 0;
    assert names[i..] == names;
    AppendEmpty(DescRun(names, None, descOf));
    while i < |names|
      invariant 0 <= i <= |names|
      invariant Append(ret, DescRun(names[i..], previous, descOf)) == DescRun(names, None, descOf)
    {
      var e, next, ok := DescStep(names, i, previous, descOf);
      if !ok {
        return Err(UnknownGraph(names[i]));
      }
      if e.Some? {
        AppendCons(ret, e.value, DescRun(names[i + 1..], next, descOf));
        ret := ret + [e.value];
      }
      previous := next;
      i := i + 1;
    }
    assert names[i..] == [];
    return Append(ret, Ok([]));
  }

  /** One name of `get_desc`'s loop: the entry it adds, if any, and the
      sub-column remembered afterwards; `ok` is false where the name is
      not in the catalog. */
  method DescStep(names: seq<string>, i: nat, previous: Option<string>, descOf: string -> string)
    returns (e: Option<DescEntry>, next: Option<string>, ok: bool)
    requires i < |names|
    ensures ok && e.Some? ==> DescRun(names[i..], previous, descOf) == Cons(e.value, DescRun(names[i + 1..], next, descOf))
    ensures ok && e.None? ==> DescRun(names[i..], previous, descOf) == DescRun(names[i + 1..], next, descOf)
    ensures !ok ==> DescRun(names[i..], previous, descOf) == Err(UnknownGraph(names[i]))
  {
    var n := names[i];
    assert names[i..][0] == n && names[i..][1..] == names[i + 1..];
    if IsComposite(n) {
      var p := Part(n, 2);
      if MentionsInterrupt(p) {
        if previous == Some("int/s") {
          return None, previous, true;
        }
        return Some(InterruptsEntry), Some("int/s"), true;
      }
      if BaseGraph(p).Some? {
        if previous == Some(p) {
          return None, previous, true;
        }
        return Some(Describe(p, descOf)), Some(p), true;
      }
    }
    if BaseGraph(n).None? {
      return None, previous, false;
    }
    return Some(Describe(n, descOf)), previous, true;
  }

  lemma AppendEmpty(r: Result<seq<DescEntry>, MetaError>)
    ensures Append([], r) == r
  {
    if r.Ok? {
      assert [] + r.value == r.value;
    }
  }

  lemma AppendCons(done: seq<DescEntry>, e: DescEntry, r: Result<seq<DescEntry>, MetaError>)
    ensures Append(done, Cons(e, r)) == Append(done + [e], r)
  {
    if r.Ok? {
      assert done + ([e] + r.value) == (done + [e]) + r.value;
    }
  }

  /** Keys that share one described sub-column yield a single entry. */
  lemma {:induction false} SameColumnOnce(names: seq<string>, column: string, descOf: string -> string)
    requires forall n :: n in names ==> IsComposite(n) && Part(n, 2) == column
    requires BaseGraph(column).Some? && !MentionsInterrupt(column)
    ensures DescRun(names, Some(column), descOf) == Ok([])
  {
    if names != [] {
      assert names[0] in names;
      SameColumnOnce(names[1..], column, descOf);
    }
  }

  /** Adjacent composite keys of one sub-column, as several CPUs of
      `%idle`, are described once. */
  lemma AdjacentColumnsDescribedOnce(names: seq<string>, column: string, descOf: string -> string)
    requires |names| >= 2
    requires forall n :: n in names ==> IsComposite(n) && Part(n, 2) == column
    requires BaseGraph(column).Some? && !MentionsInterrupt(column)
    ensures Desc(names, descOf) == Ok([Describe(column, descOf)])
  {
    assert names[0] in names;
    SameColumnOnce(names[1..], column, descOf);
    assert IsComposite(names[0]) && Part(names[0], 2) == column;
    assert DescRun(names, None, descOf) == Cons(Describe(column, descOf), DescRun(names[1..], Some(column), descOf));
    assert [Describe(column, descOf)] + [] == [Describe(column, descOf)];
  }

  lemma {:induction false} InterruptsOnceRun(names: seq<string>, descOf: string -> string)
    requires forall n :: n in names ==> IsComposite(n) && MentionsInterrupt(Part(n, 2))
    ensures DescRun(names, Some("int/s"), descOf) == Ok([])
  {
    if names != [] {
      assert names[0] in names;
      InterruptsOnceRun(names[1..], descOf);
    }
  }

  /** All interrupt sub-columns share the one `int/s` entry. */
  lemma InterruptsDescribedOnce(names: seq<string>, descOf: string -> string)
    requires |names| >= 2
    requires forall n :: n in names ==> IsComposite(n) && MentionsInterrupt(Part(n, 2))
    ensures Desc(names, descOf) == Ok([InterruptsEntry])
  {
    assert names[0] in names;
    InterruptsOnceRun(names[1..], descOf);
    assert IsComposite(names[0]) && MentionsInterrupt(Part(names[0], 2));
    assert DescRun(names, None, descOf) == Cons(InterruptsEntry, DescRun(names[1..], Some("int/s"), descOf));
    assert [InterruptsEntry] + [] == [InterruptsEntry];
  }

  /** A single catalog name is described by its own collapsed text; a
      single name that is nothing known is an error. */
  lemma SingleDesc(name: string, descOf: string -> string)
    ensures BaseGraph(name).Some? ==> Desc([name], descOf) == Ok([DescEntry(name, Collapse(descOf(name)))])
    ensures BaseGraph(name).None? && !IsComposite(name) && !MentionsInterrupt(name)
      ==> Desc([name], descOf) == Err(UnknownGraph(name))
  {
  }

  // ---- categories ----

  /** The categories that are always present. */
  const FixedCategories: set<string> := {"Load", "Files", "I/O", "TTY", "Network", "Power", "Intr"}

  /** `list_all_categories()`: the fixed categories and the category of
      every catalog entry, and nothing else. */
  method ListAllCategories() returns (cats: set<string>)
    ensures FixedCategories <= cats
    ensures forall n :: n in BaseGraphNames && BaseGraph(n).Some? ==> BaseGraph(n).value.cat in cats
    ensures forall c :: c in cats ==>
      (c in FixedCategories || exists n :: n in BaseGraphNames && BaseGraph(n).Some? && BaseGraph(n).value.cat == c)
  {
    cats := AddCategories(FixedCategories, BaseGraphNames, BaseGraph);
  }

  /** The loop of `list_all_categories`: adds the category of every name
      that has an entry under `entry`. */
  method AddCategories(start: set<string>, names: seq<string>, entry: string -> Option<Entry>)
    returns (cats: set<string>)
    ensures start <= cats
    ensures forall n :: n in names && entry(n).Some? ==> entry(n).value.cat in cats
    ensures forall c :: c in cats ==>
      (c in start || exists n :: n in names && entry(n).Some? && entry(n).value.cat == c)
  {
    cats := start;
    var i := 0;
    while i < |names|
      invariant 0 <= i <= |names|
      invariant start <= cats
      invariant forall j :: 0 <= j < i && entry(names[j]).Some? ==> entry(names[j]).value.cat in cats
      invariant forall c :: c in cats ==>
        (c in start || exists j :: 0 <= j < i && entry(names[j]).Some? && entry(names[j]).value.cat == c)
    {
      match entry(names[i]) {
        case Some(e) => cats := cats + {e.cat};
        case None =>
      }
      i := i + 1;
    }
  }
}
