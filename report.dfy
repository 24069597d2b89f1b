/** What the two sar parsers store for one row of a table: the values,
    the keys a row is written under, and the writes themselves
    (`_record_data` in sar_parser.py and SAR.py); the parser states and
    errors both parsers share. */
module Report {
  import opened Wrappers
  import opened Text
  import opened Calendar
  import opened Timestamps
  import opened Catalog
  import opened Metadata

  /** What Python's `float()` can return. */
  datatype Number = Finite(x: real) | PosInf | NegInf | NaN

  /** A stored value: a float, the raw text when `float()` refuses it, or
      the `None` that pruning fills in for a missing key. */
  datatype Value = Float(n: Number) | Raw(text: string) | Null

  /** `float(s)`, which the model does not define: `None` stands for the
      `ValueError` the parsers catch. */
  type FloatParser = string -> Option<Number>

  /** `try: v = float(s) except ValueError: v = s`. */
  function ToValue(raw: string, toFloat: FloatParser): Value {
    match toFloat(raw)
    case Some(n) => Float(n)
    case None => Raw(raw)
  }

  /** `v != 0` is false: the only value pruning treats as zero. */
  predicate IsZero(v: Value) {
    v == Float(Finite(0.0))
  }

  /** Column key to value, for one timestamp. */
  type Row = map<string, Value>

  /** The position of the first header that is an index column (CPU,
      IFACE, DEV, ...), if any: such a table is "3D". */
  function IndexColumn(headers: seq<string>): (r: Option<nat>)
    ensures r.None? <==> forall i :: 0 <= i < |headers| ==> headers[i] !in IndexColumns
    ensures r.Some? ==> r.value < |headers| && headers[r.value] in IndexColumns
    ensures r.Some? ==> forall i :: 0 <= i < r.value ==> headers[i] !in IndexColumns
  {
    if headers == [] then None
    else if headers[0] in IndexColumns then Some(0)
    else match IndexColumn(headers[1..])
      case None => None
      case Some(k) => Some(k + 1)
  }

  /** The key a plain header is stored under: TCP's `retrans/s` right
      after `estres/s` is renamed `retrant/s`, because NFS has a
      `retrans/s` of its own. */
  function PlainKey(headers: seq<string>, i: nat): string
    requires i < |headers|
  {
    if headers[i] == "retrans/s" && i > 0 && headers[i - 1] == "estres/s" then "retrant/s"
    else headers[i]
  }

  function PlainKeys(headers: seq<string>): (r: seq<string>)
    ensures |r| == |headers|
  {
    seq(|headers|, i requires 0 <= i < |headers| => PlainKey(headers, i))
  }

  /** The loop in `_record_data` compares each header with the key the
      previous one was stored under, not with the previous header; the
      two agree, since a renamed key is never `estres/s`. */
  lemma PlainKeyByPrevious(headers: seq<string>, i: nat)
    requires 0 < i < |headers|
    ensures PlainKey(headers, i) ==
      (if headers[i] == "retrans/s" && PlainKey(headers, i - 1) == "estres/s"
       then "retrant/s" else headers[i])
  {
  }

  /** The retransmission rename is the only change to a plain header. */
  lemma PlainKeysRename(headers: seq<string>)
    ensures forall i :: 0 <= i < |headers| ==>
      (PlainKeys(headers)[i] != headers[i] <==>
       headers[i] == "retrans/s" && i > 0 && headers[i - 1] == "estres/s")
    ensures forall i :: 0 <= i < |headers| && PlainKeys(headers)[i] != headers[i] ==>
      PlainKeys(headers)[i] == "retrant/s"
  {
    assert "retrans/s"[6] != "retrant/s"[6];
    forall i | 0 <= i < |headers| ensures PlainKeys(headers)[i] == PlainKey(headers, i) {
    }
  }

  /** `'{0}#{1}#{2}'.format(indexcol, indexval, column)`. */
  function CompositeKey(indexCol: string, indexVal: string, column: string): string {
    indexCol + "#" + indexVal + "#" + column
  }

  /** The sequence without its element at `k`. */
  function Without<T>(s: seq<T>, k: nat): (r: seq<T>)
    requires k < |s|
    ensures |r| == |s| - 1
    ensures forall j :: 0 <= j < |r| ==> r[j] == (if j < k then s[j] else s[j + 1])
  {
    s[..k] + s[k + 1..]
  }

  /** The keys of a 3D row: one per header other than the index column. */
  function CompositeKeys(headers: seq<string>, column: nat, indexVal: string): (r: seq<string>)
    requires column < |headers|
    ensures |r| == |headers| - 1
  {
    var others := Without(headers, column);
    seq(|others|, j requires 0 <= j < |others| => CompositeKey(headers[column], indexVal, others[j]))
  }

  /** The keys of a 2D row, built as `_record_data` builds them: each
      header is compared with the key the previous header was stored
      under. */
  method PlainKeysOf(headers: seq<string>) returns (keys: seq<string>)
    ensures keys == PlainKeys(headers)
  {
    keys := [];
    var previous := "";
    var counter := 0;
    while counter < |headers|
      invariant counter <= |headers|
      invariant keys == PlainKeys(headers)[..counter]
      invariant previous == if counter == 0 then "" else PlainKey(headers, counter - 1)
    {
      var key := headers[counter];
      if key == "retrans/s" && previous == "estres/s" {
        key := "retrant/s";
      }
      if counter > 0 {
        PlainKeyByPrevious(headers, counter);
      }
      assert key == PlainKey(headers, counter);
      keys := keys + [key];
      previous := key;
      counter := counter + 1;
    }
  }

  /** The keys and raw values of a 3D row, built as `_record_data` builds
      them: a counter runs over the headers and skips the index column. */
  method CompositeKeysOf(headers: seq<string>, values: seq<string>, column: nat, indexVal: string)
    returns (keys: seq<string>, raws: seq<string>)
    requires |values| == |headers| && column < |headers|
    ensures keys == CompositeKeys(headers, column, indexVal)
    ensures raws == Without(values, column)
  {
    keys := [];
    raws := [];
    var counter := 0;
    while counter < |headers|
      invariant counter <= |headers|
      invariant |keys| == |raws| == if counter <= column then counter else counter - 1
      invariant keys == CompositeKeys(headers, column, indexVal)[..|keys|]
      invariant raws == Without(values, column)[..|raws|]
    {
      if counter == column {
        counter := counter + 1;
        continue;
      }
      keys := keys + [CompositeKey(headers[column], indexVal, headers[counter])];
      raws := raws + [values[counter]];
      counter := counter + 1;
    }
  }

  /** Each 3D key splits back, on '#', into the index column, the index
      value and its own header, when none of the three holds a '#'. */
  lemma CompositeKeysSplit(headers: seq<string>, column: nat, indexVal: string, j: nat)
    requires column < |headers| && j < |headers| - 1
    requires '#' !in headers[column] && '#' !in indexVal
    requires '#' !in Without(headers, column)[j]
    ensures IsComposite(CompositeKeys(headers, column, indexVal)[j])
    ensures Split(CompositeKeys(headers, column, indexVal)[j], '#')
      == [headers[column], indexVal, Without(headers, column)[j]]
  {
    CompositeParts(headers[column], indexVal, Without(headers, column)[j]);
  }

  /** The row after writing `raws[i]` under `keys[i]`, one after the other. */
  function Put(row: Row, keys: seq<string>, raws: seq<string>, toFloat: FloatParser): Row
    requires |keys| == |raws|
    decreases |keys|
  {
    if keys == [] then row
    else
      var n := |keys| - 1;
      Put(row, keys[..n], raws[..n], toFloat)[keys[n] := ToValue(raws[n], toFloat)]
  }

  /** Writing adds exactly the written keys. */
  lemma {:induction false} PutKeys(row: Row, keys: seq<string>, raws: seq<string>, toFloat: FloatParser)
    requires |keys| == |raws|
    ensures Put(row, keys, raws, toFloat).Keys == row.Keys + set k | k in keys
    decreases |keys|
  {
    if keys != [] {
      var n := |keys| - 1;
      PutKeys(row, keys[..n], raws[..n], toFloat);
      assert keys == keys[..n] + [keys[n]];
    }
  }

  /** The last write of a key wins. */
  lemma {:induction false} PutWritten(row: Row, keys: seq<string>, raws: seq<string>, toFloat: FloatParser, i: nat)
    requires |keys| == |raws| && i < |keys| && keys[i] !in keys[i + 1..]
    ensures keys[i] in Put(row, keys, raws, toFloat)
    ensures Put(row, keys, raws, toFloat)[keys[i]] == ToValue(raws[i], toFloat)
    decreases |keys|
  {
    var n := |keys| - 1;
    if i < n {
      assert keys[n] in keys[i + 1..];
      assert keys[..n][i + 1..] == keys[i + 1..n];
      PutWritten(row, keys[..n], raws[..n], toFloat, i);
    }
  }

  /** Keys not written keep their value. */
  lemma {:induction false} PutUntouched(row: Row, keys: seq<string>, raws: seq<string>, toFloat: FloatParser, k: string)
    requires |keys| == |raws| && k in row && k !in keys
    ensures k in Put(row, keys, raws, toFloat)
    ensures Put(row, keys, raws, toFloat)[k] == row[k]
    decreases |keys|
  {
    if keys != [] {
      var n := |keys| - 1;
      assert keys == keys[..n] + [keys[n]];
      PutUntouched(row, keys[..n], raws[..n], toFloat, k);
    }
  }

  /** The category map after `_categories[k] = get_category(k)` for each
      written key in turn. */
  function Categorise(cats: map<string, string>, keys: seq<string>): map<string, string>
    decreases |keys|
  {
    if keys == [] then cats
    else
      var n := |keys| - 1;
      Categorise(cats, keys[..n])[keys[n] := GetCategory(keys[n])]
  }

  /** Every key of every row of `data` has its category `f(key)` in `cats`. */
  predicate KeysMapped(data: map<Instant, Row>, cats: map<string, string>, f: string -> string) {
    forall u, k :: u in data && k in data[u] ==> k in cats && cats[k] == f(k)
  }

  /** Writing a row into a table keeps every key's category, for any
      categorising function `f` the new map agrees with on the written keys. */
  lemma PutMapped(data: map<Instant, Row>, cats: map<string, string>, newCats: map<string, string>, t: Instant,
                  keys: seq<string>, raws: seq<string>, toFloat: FloatParser, f: string -> string)
    requires t in data && |keys| == |raws|
    requires KeysMapped(data, cats, f)
    requires forall k :: k in keys ==> k in newCats && newCats[k] == f(k)
    requires forall k :: k in cats && k !in keys ==> k in newCats && newCats[k] == cats[k]
    ensures KeysMapped(data[t := Put(data[t], keys, raws, toFloat)], newCats, f)
  {
    var d := data[t := Put(data[t], keys, raws, toFloat)];
    PutKeys(data[t], keys, raws, toFloat);
    forall u, k | u in d && k in d[u] ensures k in newCats && newCats[k] == f(k) {
      if k !in keys {
        assert k in data[u];
      }
    }
  }

  /** Every written key gets its category; nothing else changes. */
  lemma {:induction false} CategoriseEntries(cats: map<string, string>, keys: seq<string>)
    ensures Categorise(cats, keys).Keys == cats.Keys + set k | k in keys
    ensures forall k :: k in keys ==> Categorise(cats, keys)[k] == GetCategory(k)
    ensures forall k :: k in cats && k !in keys ==> Categorise(cats, keys)[k] == cats[k]
    decreases |keys|
  {
    CategoriseBy(cats, keys);
    LabelledEntries(cats, keys, GetCategory);
  }

  /** `cats` with each of `keys` in turn set to `f` of it. */
  ghost function Labelled(cats: map<string, string>, keys: seq<string>, f: string -> string): map<string, string>
    decreases |keys|
  {
    if keys == [] then cats
    else
      var n := |keys| - 1;
      Labelled(cats, keys[..n], f)[keys[n] := f(keys[n])]
  }

  lemma {:induction false} CategoriseBy(cats: map<string, string>, keys: seq<string>)
    ensures Categorise(cats, keys) == Labelled(cats, keys, GetCategory)
    decreases |keys|
  {
    if keys != [] {
      CategoriseBy(cats, keys[..|keys| - 1]);
    }
  }

  lemma {:induction false} LabelledEntries(cats: map<string, string>, keys: seq<string>, f: string -> string)
    ensures Labelled(cats, keys, f).Keys == cats.Keys + set k | k in keys
    ensures forall k :: k in keys ==> Labelled(cats, keys, f)[k] == f(k)
    ensures forall k :: k in cats && k !in keys ==> Labelled(cats, keys, f)[k] == cats[k]
    decreases |keys|
  {
    if keys != [] {
      var n := |keys| - 1;
      LabelledEntries(cats, keys[..n], f);
      assert keys == keys[..n] + [keys[n]];
    }
  }

  /** Some write finds its key already there: in the row as it was, or
      written earlier in the same row. */
  predicate Repeats(row: Row, keys: seq<string>) {
    exists i :: 0 <= i < |keys| && (keys[i] in row || keys[i] in keys[..i])
  }

  lemma RepeatsStep(row: Row, keys: seq<string>, raws: seq<string>, i: nat, toFloat: FloatParser)
    requires |keys| == |raws| && i < |keys|
    ensures Repeats(row, keys[..i + 1]) <==>
      Repeats(row, keys[..i]) || keys[i] in Put(row, keys[..i], raws[..i], toFloat)
  {
    PutKeys(row, keys[..i], raws[..i], toFloat);
    var p := keys[..i + 1];
    assert p[..i] == keys[..i];
    if Repeats(row, keys[..i]) {
      var j :| 0 <= j < i && (keys[..i][j] in row || keys[..i][j] in keys[..i][..j]);
      assert p[j] == keys[..i][j] && p[..j] == keys[..i][..j];
    }
    if Repeats(row, p) {
      var j :| 0 <= j < i + 1 && (p[j] in row || p[j] in p[..j]);
      if j < i {
        assert keys[..i][j] == p[j] && keys[..i][..j] == p[..j];
      }
    }
    if keys[i] in Put(row, keys[..i], raws[..i], toFloat) {
      assert p[i] == keys[i] && p[..i] == keys[..i];
    }
  }

  /** One more written key: the row gets its value and the key its category. */
  lemma WriteStep(row: Row, cats: map<string, string>, keys: seq<string>, raws: seq<string>, i: nat,
                  toFloat: FloatParser)
    requires |keys| == |raws| && i < |keys|
    ensures Put(row, keys[..i + 1], raws[..i + 1], toFloat)
      == Put(row, keys[..i], raws[..i], toFloat)[keys[i] := ToValue(raws[i], toFloat)]
    ensures Categorise(cats, keys[..i + 1]) == Categorise(cats, keys[..i])[keys[i] := GetCategory(keys[i])]
  {
    assert keys[..i + 1][..i] == keys[..i] && raws[..i + 1][..i] == raws[..i];
  }

  /** The patterns of a table's columns (`_build_data_line_regexp`): the
      first header without one stops the table. */
  function RowClasses(headers: seq<string>): (r: Result<seq<ValueClass>, MetaError>)
    ensures r.Ok? <==> forall i :: 0 <= i < |headers| ==> GetRegexp(headers[i]).Ok?
    ensures r.Ok? ==> |r.value| == |headers|
    ensures r.Ok? ==> forall i :: 0 <= i < |headers| ==> r.value[i] == GetRegexp(headers[i]).value
    ensures r.Err? ==>
      exists i :: (0 <= i < |headers| && r.error == NoPattern(headers[i])
                   && GetRegexp(headers[i]).Err?
                   && forall j :: 0 <= j < i ==> GetRegexp(headers[j]).Ok?)
  {
    LookupAll(headers, GetRegexp)
  }

  /** `f` of each of `xs` in order, stopping at the first error. */
  function LookupAll<T, E>(xs: seq<string>, f: string -> Result<T, E>): (r: Result<seq<T>, E>)
    ensures r.Ok? <==> forall i :: 0 <= i < |xs| ==> f(xs[i]).Ok?
    ensures r.Ok? ==> |r.value| == |xs|
    ensures r.Ok? ==> forall i :: 0 <= i < |xs| ==> r.value[i] == f(xs[i]).value
    ensures r.Err? ==>
      exists i :: (0 <= i < |xs| && f(xs[i]).Err? && r.error == f(xs[i]).error
                   && forall j :: 0 <= j < i ==> f(xs[j]).Ok?)
  {
    if xs == [] then Ok([])
    else match f(xs[0])
      case Err(e) => Err(e)
      case Ok(c) =>
        match LookupAll(xs[1..], f)
        case Err(e) =>
          ghost var i :| 0 <= i < |xs| - 1 && f(xs[1..][i]).Err? && e == f(xs[1..][i]).error
            && forall j :: 0 <= j < i ==> f(xs[1..][j]).Ok?;
          assert forall j :: 0 <= j < i + 1 ==> f(xs[j]).Ok? by {
            forall j | 0 <= j < i + 1 ensures f(xs[j]).Ok? {
              if j > 0 {
                assert xs[j] == xs[1..][j - 1];
              }
            }
          }
          assert xs[i + 1] == xs[1..][i];
          Err(e)
        case Ok(cs) =>
          assert forall i :: 0 <= i < |xs| ==> f(xs[i]).Ok? by {
            forall i | 0 <= i < |xs| ensures f(xs[i]).Ok? {
              if i > 0 {
                assert xs[i] == xs[1..][i - 1];
              }
            }
          }
          Ok([c] + cs)
  }

  /** The states of the line-driven parser (`state` in `parse`). A table
      row remembers its headers and the patterns built from them. */
  datatype Phase =
    | Start
    | AfterFirstLine
    | AfterEmptyLine
    | TableStart
    | TableRow(headers: seq<string>, classes: seq<ValueClass>)
    | TableEnd
    | SkipUntilEot

  /** Why parsing stops; `line` is the running line count. */
  datatype ParseError =
    | BadFirstLine(line: nat)
    | ExpectedEmptyLine(line: nat)
    | ExpectedHeader(line: nat)
    | UnknownColumn(line: nat, cause: MetaError)
    | RowMismatch(line: nat)
    | ExpectedTableEnd(line: nat)
    | BadTimestamp(line: nat, why: TimeError)
    | TimeBackwards(line: nat)
    | DateOverflow(line: nat)
    | DuplicateColumn(line: nat, key: string)

  /** The compiled row pattern applied to a line: the timestamp text and
      one capture per column, or `None` when the line does not match. The
      model does not define the regular-expression engine. */
  type Matcher = (seq<ValueClass>, string) -> Option<seq<string>>
}
