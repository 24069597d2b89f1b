/** The questions asked of a parsed report (`available_types`,
    `datanames_per_arg`, `find_max` and `find_data_gaps` in sar_parser.py,
    and `available_types` and `datanames_per_arg` in SAR.py), on the
    values they read. */
module Queries {
  import opened Wrappers
  import opened Text
  import opened Sorting
  import opened NaturalSort
  import opened Calendar
  import opened Metadata
  import opened Report

  datatype QueryError =
    | NoData                  // the report has no timestamp (IndexError, ValueError)
    | NotComposite(name: string)
    | MissingKey(name: string)
    | Incomparable(name: string)  // `>` between a float and a str or None (TypeError)

  /** The elements of a set in some order. */
  ghost function SetToSeq(s: set<string>): (r: seq<string>)
    ensures forall x :: x in r <==> x in s
    decreases s
  {
    if s == {} then []
    else
      var x :| x in s;
      [x] + SetToSeq(s - {x})
  }

  /** `sorted(row.keys())`. */
  ghost function SortedKeys(row: Row): (r: seq<string>)
    ensures SortedBy(r, StrLe)
    ensures forall x :: x in r <==> x in row
  {
    var s := SetToSeq(row.Keys);
    StrLePreorder();
    SortBySorted(s, StrLe);
    var r := SortBy(s, StrLe);
    assert forall x :: x in r <==> x in multiset(r);
    assert forall x :: x in s <==> x in multiset(s);
    r
  }

  /** The names that start with `category`, in their order. */
  function WithPrefix(names: seq<string>, category: string): (r: seq<string>)
    ensures forall x :: x in r <==> x in names && StartsWith(x, category)
    ensures SortedBy(names, StrLe) ==> SortedBy(r, StrLe)
  {
    if names == [] then []
    else
      var rest := WithPrefix(names[1..], category);
      assert forall x :: x in names[1..] ==> x in names;
      if StartsWith(names[0], category) then
        assert SortedBy(names, StrLe) ==> forall y :: y in rest ==> StrLe(names[0], y) by {
          if SortedBy(names, StrLe) {
            forall y | y in rest ensures StrLe(names[0], y) {
              var j :| 0 <= j < |names[1..]| && names[1..][j] == y;
              assert names[j + 1] == y;
            }
          }
        }
        [names[0]] + rest
      else rest
  }

  /** `[i for i in sorted(row.keys()) if i.startswith(category)]`. */
  ghost function TypesIn(row: Row, category: string): (r: seq<string>)
    ensures SortedBy(r, StrLe)
    ensures forall x :: x in r <==> x in row && StartsWith(x, category)
  {
    WithPrefix(SortedKeys(row), category)
  }

  /** The distinct elements in order of first occurrence (the keys of the
      dict `datanames_per_arg` fills). */
  function Distinct(s: seq<string>): (r: seq<string>)
    ensures forall x :: x in r <==> x in s
    ensures forall i, j :: 0 <= i < j < |r| ==> r[i] != r[j]
  {
    if s == [] then []
    else
      var n := |s| - 1;
      var p := Distinct(s[..n]);
      assert s == s[..n] + [s[n]];
      if s[n] in p then p else p + [s[n]]
  }

  predicate AllComposite(names: seq<string>) {
    forall i :: 0 <= i < |names| ==> IsComposite(names[i])
  }

  /** The part a name is grouped by: the index value (`per_key`) or the
      sub-column. */
  function GroupPart(name: string, perKey: bool): string
    requires IsComposite(name)
  {
    Part(name, if perKey then 1 else 2)
  }

  /** The parts of the names, in order. */
  function GroupParts(names: seq<string>, perKey: bool): (r: seq<string>)
    requires AllComposite(names)
    ensures |r| == |names|
    ensures forall i :: 0 <= i < |names| ==> r[i] == GroupPart(names[i], perKey)
  {
    seq(|names|, i requires 0 <= i < |names| => GroupPart(names[i], perKey))
  }

  /** A name is plotted in a group unless its sub-column ends in `DEVICE`. */
  predicate InGroup(name: string, part: string, perKey: bool)
    requires IsComposite(name)
  {
    GroupPart(name, perKey) == part && !EndsWith(Part(name, 2), "DEVICE")
  }

  /** The names of one group, in the order of `names`. */
  function Members(names: seq<string>, part: string, perKey: bool): (r: seq<string>)
    requires AllComposite(names)
    ensures forall x :: x in r ==> IsComposite(x)
    ensures forall x :: x in r <==> x in names && InGroup(x, part, perKey)
  {
    if names == [] then []
    else
      var rest := Members(names[1..], part, perKey);
      assert forall x :: x in names <==> x == names[0] || x in names[1..];
      if InGroup(names[0], part, perKey) then [names[0]] + rest else rest
  }

  /** One group per part, in the given order, leaving out the empty ones. */
  function GroupsOf(parts: seq<string>, names: seq<string>, perKey: bool): (r: seq<seq<string>>)
    requires AllComposite(names)
    ensures forall g :: g in r ==> g != [] && exists p :: p in parts && g == Members(names, p, perKey)
    ensures forall i, x :: 0 <= i < |r| && x in r[i] ==> IsComposite(x)
  {
    if parts == [] then []
    else
      var m := Members(names, parts[0], perKey);
      var rest := GroupsOf(parts[1..], names, perKey);
      assert forall p :: p in parts[1..] ==> p in parts;
      assert parts[0] in parts;
      if m == [] then rest else [m] + rest
  }

  /** The position of the first name that does not split into three parts. */
  function FirstNotComposite(names: seq<string>): (r: Option<nat>)
    ensures r.None? <==> AllComposite(names)
    ensures r.Some? ==> r.value < |names| && !IsComposite(names[r.value])
  {
    if names == [] then None
    else if !IsComposite(names[0]) then Some(0)
    else match FirstNotComposite(names[1..])
      case None => None
      case Some(i) => Some(i + 1)
  }

  /** The body of `datanames_per_arg` after `available_types`: the parts
      in order of first occurrence, sorted by `natural_sort_key`, one
      group per part. */
  function Groups(names: seq<string>, perKey: bool): (r: Result<seq<seq<string>>, QueryError>)
    ensures r.Err? <==> !AllComposite(names)
    ensures r.Err? ==> exists i :: 0 <= i < |names| && r.error == NotComposite(names[i])
    ensures r.Ok? ==> forall i, x :: 0 <= i < |r.value| && x in r.value[i] ==> IsComposite(x)
  {
    match FirstNotComposite(names)
    case Some(i) => Err(NotComposite(names[i]))
    case None => Ok(GroupsOf(NaturalSorted(Distinct(GroupParts(names, perKey))), names, perKey))
  }

  /** Every group is non-empty, its members share their part and none is a
      `DEVICE` sub-column; every other name is in some group. */
  lemma GroupsCover(names: seq<string>, perKey: bool)
    requires AllComposite(names)
    ensures Groups(names, perKey).Ok?
    ensures forall g :: g in Groups(names, perKey).value ==> g != []
    ensures forall g, x, y :: g in Groups(names, perKey).value && x in g && y in g ==>
      IsComposite(x) && IsComposite(y) && GroupPart(x, perKey) == GroupPart(y, perKey)
      && !EndsWith(Part(x, 2), "DEVICE") && x in names
    ensures forall x :: x in names && !EndsWith(Part(x, 2), "DEVICE") ==>
      exists g :: g in Groups(names, perKey).value && x in g
  {
    var parts := NaturalSorted(Distinct(GroupParts(names, perKey)));
    var gs := GroupsOf(parts, names, perKey);
    forall x | x in names && !EndsWith(Part(x, 2), "DEVICE")
      ensures exists g :: g in gs && x in g
    {
      var i :| 0 <= i < |names| && names[i] == x;
      var p := GroupPart(x, perKey);
      assert p in GroupParts(names, perKey);
      assert p in multiset(parts);
      GroupsOfHas(parts, names, perKey, p, x);
    }
  }

  lemma {:induction false} GroupsOfHas(parts: seq<string>, names: seq<string>, perKey: bool, p: string, x: string)
    requires AllComposite(names)
    requires p in parts && x in names && InGroup(x, p, perKey)
    ensures exists g :: g in GroupsOf(parts, names, perKey) && x in g
  {
    if parts[0] == p {
      assert x in Members(names, p, perKey);
    } else {
      GroupsOfHas(parts[1..], names, perKey, p, x);
    }
  }

  /** The groups come in `natural_sort_key` order of their parts. */
  lemma GroupsOrdered(names: seq<string>, perKey: bool)
    requires AllComposite(names)
    ensures forall i, j :: 0 <= i < j < |Groups(names, perKey).value| ==>
      (forall x, y :: x in Groups(names, perKey).value[i] && y in Groups(names, perKey).value[j] ==>
       NaturalLe(GroupPart(x, perKey), GroupPart(y, perKey)))
  {
    var parts := NaturalSorted(Distinct(GroupParts(names, perKey)));
    GroupsOfOrdered(parts, names, perKey);
    var gs := Groups(names, perKey).value;
    assert gs == GroupsOf(parts, names, perKey);
    forall i, j, x, y | 0 <= i < j < |gs| && x in gs[i] && y in gs[j]
      ensures NaturalLe(GroupPart(x, perKey), GroupPart(y, perKey))
    {
      assert GroupRel(perKey)(x, y);
    }
  }

  lemma {:induction false} GroupsOfOrdered(parts: seq<string>, names: seq<string>, perKey: bool)
    requires AllComposite(names)
    requires SortedBy(parts, NaturalLe)
    ensures OrderedGroups(GroupsOf(parts, names, perKey), perKey)
  {
    if parts != [] {
      var m := Members(names, parts[0], perKey);
      var rest := GroupsOf(parts[1..], names, perKey);
      assert SortedBy(parts[1..], NaturalLe) by {
        forall a, b | 0 <= a < b < |parts[1..]| ensures NaturalLe(parts[1..][a], parts[1..][b]) {
          assert parts[1..][a] == parts[a + 1] && parts[1..][b] == parts[b + 1];
        }
      }
      GroupsOfOrdered(parts[1..], names, perKey);
      if m != [] {
        forall x, g, y | x in m && g in rest && y in g ensures GroupRel(perKey)(x, y) {
          LaterGroupPart(parts, names, perKey, g, y);
          assert GroupPart(x, perKey) == parts[0];
        }
        ConsOrdered(m, rest, GroupRel(perKey));
      }
    }
  }

  /** Groups whose members' parts never decrease from one group to a later one. */
  ghost predicate OrderedGroups(gs: seq<seq<string>>, perKey: bool) {
    OrderedBy(gs, GroupRel(perKey))
  }

  /** `x` may be listed in a group before `y`. */
  predicate GroupLe(x: string, y: string, perKey: bool) {
    IsComposite(x) && IsComposite(y) && NaturalLe(GroupPart(x, perKey), GroupPart(y, perKey))
  }

  function GroupRel(perKey: bool): (string, string) -> bool {
    (x, y) => GroupLe(x, y, perKey)
  }

  /** Every member of a group is related to every member of each later group. */
  ghost predicate OrderedBy<T>(gs: seq<seq<T>>, rel: (T, T) -> bool) {
    forall i, j, x, y :: 0 <= i < j < |gs| && x in gs[i] && y in gs[j] ==> rel(x, y)
  }

  /** A group in front of ordered groups, related to all their members,
      keeps them ordered. */
  lemma ConsOrdered<T>(m: seq<T>, rest: seq<seq<T>>, rel: (T, T) -> bool)
    requires OrderedBy(rest, rel)
    requires forall x, g, y :: x in m && g in rest && y in g ==> rel(x, y)
    ensures OrderedBy([m] + rest, rel)
  {
    var r := [m] + rest;
    forall i, j, x, y | 0 <= i < j < |r| && x in r[i] && y in r[j] ensures rel(x, y) {
      if i == 0 {
        assert x in m && r[j] in rest;
      } else {
        assert x in rest[i - 1] && y in rest[j - 1];
      }
    }
  }

  /** A member of a group built from the later parts has a part no less
      than the first one. */
  lemma LaterGroupPart(parts: seq<string>, names: seq<string>, perKey: bool, g: seq<string>, y: string)
    requires AllComposite(names) && parts != [] && SortedBy(parts, NaturalLe)
    requires g in GroupsOf(parts[1..], names, perKey) && y in g
    ensures IsComposite(y) && NaturalLe(parts[0], GroupPart(y, perKey))
  {
    var q :| q in parts[1..] && g == Members(names, q, perKey);
    var k :| 0 <= k < |parts[1..]| && parts[1..][k] == q;
    assert parts[k + 1] == q;
  }

  /** Python's `a > b` on floats: nothing compares with NaN. */
  predicate Greater(a: Number, b: Number) {
    match (a, b)
    case (NaN, _) => false
    case (_, NaN) => false
    case (PosInf, _) => b != PosInf
    case (NegInf, _) => false
    case (Finite(x), Finite(y)) => x > y
    case (Finite(_), PosInf) => false
    case (Finite(_), NegInf) => true
  }

  /** The loop of `find_max` from the running maximum `acc`. */
  function MaxFrom(row: Row, names: seq<string>, acc: Number): (r: Result<Number, QueryError>)
  {
    if names == [] then Ok(acc)
    else if names[0] !in row then Err(MissingKey(names[0]))
    else match row[names[0]]
      case Float(n) => MaxFrom(row, names[1..], if Greater(n, acc) then n else acc)
      case _ => Err(Incomparable(names[0]))
  }

  /** The error cases of `find_max`: a name the row lacks, or a value that
      is not a float. */
  lemma {:induction false} MaxFromErrors(row: Row, names: seq<string>, acc: Number)
    ensures MaxFrom(row, names, acc).Err? <==>
      exists i :: 0 <= i < |names| && (names[i] !in row || !row[names[i]].Float?)
  {
    if names != [] {
      MaxFromErrors(row, names[1..], if names[0] in row && row[names[0]].Float? && Greater(row[names[0]].n, acc) then row[names[0]].n else acc);
      if exists i :: 0 <= i < |names[1..]| && (names[1..][i] !in row || !row[names[1..][i]].Float?) {
        var i :| 0 <= i < |names[1..]| && (names[1..][i] !in row || !row[names[1..][i]].Float?);
        assert names[i + 1] == names[1..][i];
      }
      if exists i :: 0 <= i < |names| && (names[i] !in row || !row[names[i]].Float?) {
        var i :| 0 <= i < |names| && (names[i] !in row || !row[names[i]].Float?);
        if i > 0 {
          assert names[1..][i - 1] == names[i];
        }
      }
    }
  }

  /** The maximum is the starting value or one of the values, and no value
      is greater than it. */
  lemma {:induction false} MaxFromIsMax(row: Row, names: seq<string>, acc: Number)
    requires acc != NaN
    requires MaxFrom(row, names, acc).Ok?
    ensures var m := MaxFrom(row, names, acc).value;
      (m == acc || exists i :: 0 <= i < |names| && names[i] in row && row[names[i]] == Float(m))
      && (forall i :: 0 <= i < |names| && names[i] in row && row[names[i]].Float? ==> !Greater(row[names[i]].n, m))
      && !Greater(acc, m)
  {
    if names != [] {
      var n := row[names[0]].n;
      var next := if Greater(n, acc) then n else acc;
      MaxFromIsMax(row, names[1..], next);
      var m := MaxFrom(row, names, acc).value;
      assert !Greater(next, m);
      forall i | 0 <= i < |names| && names[i] in row && row[names[i]].Float?
        ensures !Greater(row[names[i]].n, m)
      {
        if i > 0 {
          assert names[1..][i - 1] == names[i];
        }
      }
      if m != next {
        var i :| 0 <= i < |names[1..]| && names[1..][i] in row && row[names[1..][i]] == Float(m);
        assert names[i + 1] == names[1..][i];
      } else if next == n {
        assert names[0] in row && row[names[0]] == Float(m);
      }
    }
  }

  /** `abs(a - b)` in seconds. */
  function Distance(a: Instant, b: Instant): nat
    requires ValidDate(a.date) && ValidDate(b.date)
  {
    if Seconds(a) <= Seconds(b) then Seconds(b) - Seconds(a) else Seconds(a) - Seconds(b)
  }

  predicate AllValid(ts: seq<Instant>) {
    forall i :: 0 <= i < |ts| ==> ValidInstant(ts[i])
  }

  /** `min(ts, key=lambda d: abs(t - d))`: the first timestamp nearest to `t`. */
  function Nearest(ts: seq<Instant>, t: Instant): (i: nat)
    requires |ts| > 0 && AllValid(ts) && ValidDate(t.date)
    ensures i < |ts|
    ensures forall j :: 0 <= j < |ts| ==> Distance(ts[i], t) <= Distance(ts[j], t)
    ensures forall j :: 0 <= j < i ==> Distance(ts[i], t) < Distance(ts[j], t)
  {
    var n := |ts| - 1;
    if n == 0 then 0
    else
      var k := Nearest(ts[..n], t);
      assert ts[..n][k] == ts[k];
      assert forall j :: 0 <= j < n ==> ts[..n][j] == ts[j];
      if Distance(ts[n], t) < Distance(ts[k], t) then n else k
  }

  /** The gaps between consecutive timestamps longer than `limit` seconds. */
  function Gaps(ts: seq<Instant>, limit: int): (r: seq<(Instant, Instant)>)
    requires AllValid(ts)
    ensures forall p :: p in r <==>
      exists i :: 0 <= i < |ts| - 1 && p == (ts[i], ts[i + 1]) && Seconds(ts[i + 1]) - Seconds(ts[i]) > limit
    ensures |ts| < 2 ==> r == []
  {
    if |ts| < 2 then []
    else
      var rest := Gaps(ts[1..], limit);
      assert forall i | 0 <= i < |ts| - 1 :: ts[1..][i] == ts[i + 1];
      var here := if Seconds(ts[1]) - Seconds(ts[0]) > limit then [(ts[0], ts[1])] else [];
      assert forall p :: p in rest <==>
        exists i :: 1 <= i < |ts| - 1 && p == (ts[i], ts[i + 1]) && Seconds(ts[i + 1]) - Seconds(ts[i]) > limit
      by {
        forall p | p in rest ensures
          exists i :: 1 <= i < |ts| - 1 && p == (ts[i], ts[i + 1]) && Seconds(ts[i + 1]) - Seconds(ts[i]) > limit
        {
          var i :| 0 <= i < |ts| - 2 && p == (ts[1..][i], ts[1..][i + 1]) && Seconds(ts[1..][i + 1]) - Seconds(ts[1..][i]) > limit;
          assert p == (ts[i + 1], ts[i + 2]);
        }
      }
      here + rest
  }

  /** `find_data_gaps` on the timestamps: sorted first, so every gap runs
      forward in time. */
  function DataGaps(ts: seq<Instant>, limit: int): (r: seq<(Instant, Instant)>)
    requires AllValid(ts)
  {
    var sorted := SortBy(ts, NotAfter);
    assert forall i :: 0 <= i < |sorted| ==> sorted[i] in multiset(ts);
    Gaps(sorted, limit)
  }

  /** Each gap is a pair of timestamps of the report, the first no later
      than the second, more than `limit` seconds apart, with no timestamp
      strictly between them. */
  lemma DataGapsForward(ts: seq<Instant>, limit: int)
    requires AllValid(ts)
    ensures forall p :: p in DataGaps(ts, limit) ==>
      p.0 in ts && p.1 in ts && NotAfter(p.0, p.1) && Seconds(p.1) - Seconds(p.0) > limit
      && forall u :: u in ts ==> !(Before(p.0, u) && Before(u, p.1))
    ensures |ts| < 2 ==> DataGaps(ts, limit) == []
  {
    var sorted := SortBy(ts, NotAfter);
    NotAfterPreorder();
    SortBySorted(ts, NotAfter);
    assert forall u :: u in ts <==> u in multiset(ts);
    assert forall u :: u in sorted <==> u in multiset(sorted);
    forall i | 0 <= i < |sorted| ensures ValidInstant(sorted[i]) {
      assert sorted[i] in sorted;
      var j :| 0 <= j < |ts| && ts[j] == sorted[i];
    }
    SortedGaps(sorted, limit);
  }

  lemma SortedGaps(sorted: seq<Instant>, limit: int)
    requires AllValid(sorted) && SortedBy(sorted, NotAfter)
    ensures forall p :: p in Gaps(sorted, limit) ==>
      p.0 in sorted && p.1 in sorted && NotAfter(p.0, p.1)
      && forall u :: u in sorted ==> !(Before(p.0, u) && Before(u, p.1))
  {
    forall p | p in Gaps(sorted, limit)
      ensures p.0 in sorted && p.1 in sorted && NotAfter(p.0, p.1)
      ensures forall u :: u in sorted ==> !(Before(p.0, u) && Before(u, p.1))
    {
      var i :| 0 <= i < |sorted| - 1 && p == (sorted[i], sorted[i + 1]) && Seconds(sorted[i + 1]) - Seconds(sorted[i]) > limit;
      forall u | u in sorted ensures !(Before(p.0, u) && Before(u, p.1)) {
        var j :| 0 <= j < |sorted| && sorted[j] == u;
        if j <= i {
          assert NotAfter(sorted[j], sorted[i]);
        } else {
          assert NotAfter(sorted[i + 1], sorted[j]);
        }
      }
    }
  }
}
