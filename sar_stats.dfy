/** The list and string work of sar_stats.py: `split_chunks`, the order and
    chunking of the graphs in `graphs_order`, the custom graph
    specifications read in `graph`, and `parse_labels`. */
module Stats {
  import opened Wrappers
  import opened Text
  import opened Catalog
  import opened Metadata
  import opened NaturalSort
  import opened Queries

  /** The exceptions raised on the paths modelled here. */
  datatype StatsError =
    | ZeroStep                       // `range()` with a step of 0
    | QueryFailed(cause: QueryError) // `datanames_per_arg` raising
    | BadCustomGraphs                // a custom graph without ':'
    | BadTime(text: string)          // the date parser refusing a label's time

  // ----- split_chunks -----

  /** The chunks of `l` for a positive size: the slices starting at 0, n,
      2n, ... */
  function Chunks<T>(l: seq<T>, n: nat): seq<seq<T>>
    requires n > 0
    decreases |l|
  {
    if l == [] then []
    else if |l| <= n then [l]
    else [l[..n]] + Chunks(l[n..], n)
  }

  /** `split_chunks(l, n)`: `range(0, len(l), n)` raises for a step of 0
      and is empty for a negative step. */
  function SplitChunks<T>(l: seq<T>, n: int): Result<seq<seq<T>>, StatsError> {
    if n == 0 then Err(ZeroStep)
    else if n < 0 then Ok([])
    else Ok(Chunks(l, n))
  }

  function Flatten<T>(ls: seq<seq<T>>): seq<T> {
    if ls == [] then [] else ls[0] + Flatten(ls[1..])
  }

  function Min(a: int, b: int): int {
    if a <= b then a else b
  }

  /** Concatenating the chunks gives back the list. */
  lemma {:induction false} ChunksFlatten<T>(l: seq<T>, n: nat)
    requires n > 0
    ensures Flatten(Chunks(l, n)) == l
    decreases |l|
  {
    if |l| > n {
      var c := Chunks(l, n);
      assert c == [l[..n]] + Chunks(l[n..], n);
      assert c[0] == l[..n] && c[1..] == Chunks(l[n..], n);
      ChunksFlatten(l[n..], n);
      assert Flatten(c) == l[..n] + l[n..];
      assert l[..n] + l[n..] == l;
    } else if l != [] {
      assert Flatten(Chunks(l, n)) == l + Flatten([]);
    }
  }

  /** Every chunk is non-empty and at most `n` long, every chunk but the
      last is exactly `n` long, and there are `ceil(|l| / n)` of them. */
  lemma {:induction false} ChunkSizes<T>(l: seq<T>, n: nat)
    requires n > 0
    ensures var c := Chunks(l, n);
      (forall i :: 0 <= i < |c| ==> 1 <= |c[i]| <= n)
      && (forall i :: 0 <= i < |c| - 1 ==> |c[i]| == n)
      && |c| * n >= |l| > (|c| - 1) * n
    decreases |l|
  {
    if |l| > n {
      var c := Chunks(l, n);
      var rest := Chunks(l[n..], n);
      ChunkSizes(l[n..], n);
      assert c == [l[..n]] + rest;
      assert forall i :: 1 <= i < |c| ==> c[i] == rest[i - 1];
      assert |c| * n == |rest| * n + n;
    }
  }

  /** The `i`th chunk is the slice `l[i*n : i*n + n]` the comprehension
      takes. */
  lemma {:induction false} ChunkAt<T>(l: seq<T>, n: nat, i: nat)
    requires n > 0 && i < |Chunks(l, n)|
    ensures i * n < |l|
    ensures Chunks(l, n)[i] == l[i * n..Min(i * n + n, |l|)]
    decreases |l|
  {
    if i > 0 {
      var rest := l[n..];
      assert Chunks(l, n)[i] == Chunks(rest, n)[i - 1];
      ChunkAt(rest, n, i - 1);
      assert (i - 1) * n + n == i * n;
      assert rest[(i - 1) * n..Min((i - 1) * n + n, |rest|)] == l[i * n..Min(i * n + n, |l|)];
    }
  }

  // ----- graphs_order -----

  /** What `graph_info` returns for a list of columns: a title and the
      rest of its tuple, kept as it is. */
  datatype Info<D> = Info(title: string, details: D)

  /** One element of the list `graphs_order` returns: the entry and the
      columns it plots. */
  datatype Graph<D> = Graph(info: Info<D>, columns: seq<string>)

  /** `"{0} {1}/{2}".format(title, i, k)`. */
  function ChunkTitle(title: string, i: nat, k: nat): string {
    title + " " + NatToString(i) + "/" + NatToString(k)
  }

  /** A plain column is drawn in category `cat` when `base_graphs` files
      it there and the skip list does not name it. */
  predicate Shown(name: string, cat: string, skip: seq<string>) {
    BaseGraph(name).Some? && BaseGraph(name).value.cat == cat && name !in skip
  }

  /** A composite column is drawn when none of its '#'-parts is skipped. */
  predicate Unskipped(name: string, skip: seq<string>) {
    forall p :: p in Split(name, '#') ==> p !in skip
  }

  /** The columns of a group that survive the skip list, in their order. */
  function Unskip(group: seq<string>, skip: seq<string>): (r: seq<string>)
    ensures forall x :: x in r <==> x in group && Unskipped(x, skip)
  {
    if group == [] then []
    else
      var rest := Unskip(group[1..], skip);
      assert forall x :: x in group <==> x == group[0] || x in group[1..];
      if Unskipped(group[0], skip) then [group[0]] + rest else rest
  }

  /** The plain graphs of one category: one per shown column, in the
      order of `names`. */
  function PlainGraphs<D>(cat: string, names: seq<string>, skip: seq<string>, info: seq<string> -> Info<D>): seq<Graph<D>>
    decreases |names|
  {
    if names == [] then []
    else
      var j := names[|names| - 1];
      PlainGraphs(cat, names[..|names| - 1], skip, info) + (if Shown(j, cat, skip) then [Graph(info([j]), [j])] else [])
  }

  /** Chunked graphs: each chunk's entry with "i/k" added to its title. */
  function Titled<D>(chunks: seq<seq<string>>, info: seq<string> -> Info<D>): (r: seq<Graph<D>>)
    ensures |r| == |chunks|
  {
    seq(|chunks|, i requires 0 <= i < |chunks| =>
      Graph(Info(ChunkTitle(info(chunks[i]).title, i + 1, |chunks|), info(chunks[i]).details), chunks[i]))
  }

  /** The graphs of one group of columns (already filtered and sorted):
      one graph, or one per chunk when there are more than `maxgraphs`
      columns. */
  function GroupGraphs<D>(b: seq<string>, maxgraphs: int, info: seq<string> -> Info<D>): Result<seq<Graph<D>>, StatsError> {
    if |b| > maxgraphs then
      match SplitChunks(b, maxgraphs)
      case Err(e) => Err(e)
      case Ok(chunks) => Ok(Titled(chunks, info))
    else Ok([Graph(info(b), b)])
  }

  /** The composite graphs of one category, group after group. */
  function CompositeGraphs<D>(groups: seq<seq<string>>, skip: seq<string>, maxgraphs: int, info: seq<string> -> Info<D>)
    : Result<seq<Graph<D>>, StatsError>
    decreases |groups|
  {
    if groups == [] then Ok([])
    else
      match CompositeGraphs(groups[..|groups| - 1], skip, maxgraphs, info)
      case Err(e) => Err(e)
      case Ok(done) =>
        match GroupGraphs(NaturalSorted(Unskip(groups[|groups| - 1], skip)), maxgraphs, info)
        case Err(e) => Err(e)
        case Ok(gs) => Ok(done + gs)
  }

  /** The graphs of one category: its plain graphs, then its composite
      ones. */
  function CategoryGraphs<D>(cat: string, names: seq<string>, composite: map<string, seq<seq<string>>>,
                             skip: seq<string>, maxgraphs: int, info: seq<string> -> Info<D>)
    : Result<seq<Graph<D>>, StatsError>
  {
    var plain := PlainGraphs(cat, names, skip, info);
    if cat in composite then
      match CompositeGraphs(composite[cat], skip, maxgraphs, info)
      case Err(e) => Err(e)
      case Ok(gs) => Ok(plain + gs)
    else Ok(plain)
  }

  /** The final list of `graphs_order`, category after category. */
  function AllGraphs<D>(cats: seq<string>, names: seq<string>, composite: map<string, seq<seq<string>>>,
                        skip: seq<string>, maxgraphs: int, info: seq<string> -> Info<D>)
    : Result<seq<Graph<D>>, StatsError>
    decreases |cats|
  {
    if cats == [] then Ok([])
    else
      match AllGraphs(cats[..|cats| - 1], names, composite, skip, maxgraphs, info)
      case Err(e) => Err(e)
      case Ok(done) =>
        match CategoryGraphs(cats[|cats| - 1], names, composite, skip, maxgraphs, info)
        case Err(e) => Err(e)
        case Ok(gs) => Ok(done + gs)
  }

  /** The composite groups by category: for each index column in turn,
      the groups `datanames_per_arg` gives are added under the category
      of their first column; an index column without groups is passed
      over. */
  function ByCategory(indexOrder: seq<string>, groupsOf: string -> Result<seq<seq<string>>, QueryError>)
    : Result<map<string, seq<seq<string>>>, StatsError>
    decreases |indexOrder|
  {
    if indexOrder == [] then Ok(map[])
    else
      match ByCategory(indexOrder[..|indexOrder| - 1], groupsOf)
      case Err(e) => Err(e)
      case Ok(c) => AddGroups(c, groupsOf(indexOrder[|indexOrder| - 1]))
  }

  /** One index column's groups added to the map built so far. */
  function AddGroups(c: map<string, seq<seq<string>>>, groups: Result<seq<seq<string>>, QueryError>)
    : Result<map<string, seq<seq<string>>>, StatsError>
  {
    match groups
    case Err(e) => Err(QueryFailed(e))
    case Ok(s) =>
      if s == [] || s[0] == [] then Ok(c)
      else
        var key := GetCategory(s[0][0]);
        Ok(c[key := if key in c then c[key] + s else s])
  }

  /** The first half of `graphs_order`: the composite groups by category. */
  method GroupByCategory(indexOrder: seq<string>, groupsOf: string -> Result<seq<seq<string>>, QueryError>)
    returns (r: Result<map<string, seq<seq<string>>>, StatsError>)
    ensures r == ByCategory(indexOrder, groupsOf)
  {
    var c: map<string, seq<seq<string>>> := map[];
    var i := 0;
    while i < |indexOrder|
      invariant 0 <= i <= |indexOrder|
      invariant ByCategory(indexOrder[..i], groupsOf) == Ok(c)
    {
      ByCategoryNext(indexOrder, groupsOf, i, c);
      var s := groupsOf(indexOrder[i]);
      if s.Err? {
        if i + 1 < |indexOrder| {
          ByCategoryStops(indexOrder, groupsOf, i + 1);
        } else {
          assert indexOrder[..i + 1] == indexOrder;
        }
        return Err(QueryFailed(s.error));
      }
      var groups := s.value;
      if groups != [] && groups[0] != [] {
        var key := GetCategory(groups[0][0]);
        if key !in c {
          c := c[key := groups];
        } else {
          c := c[key := c[key] + groups];
        }
      }
      i := i + 1;
    }
    assert indexOrder[..i] == indexOrder;
    r := Ok(c);
  }

  lemma ByCategoryNext(indexOrder: seq<string>, groupsOf: string -> Result<seq<seq<string>>, QueryError>,
                       i: nat, c: map<string, seq<seq<string>>>)
    requires i < |indexOrder| && ByCategory(indexOrder[..i], groupsOf) == Ok(c)
    ensures ByCategory(indexOrder[..i + 1], groupsOf) == AddGroups(c, groupsOf(indexOrder[i]))
  {
    assert indexOrder[..i + 1][..i] == indexOrder[..i];
  }

  lemma {:induction false} ByCategoryStops(indexOrder: seq<string>, groupsOf: string -> Result<seq<seq<string>>, QueryError>, m: nat)
    requires 0 < m <= |indexOrder| && ByCategory(indexOrder[..m], groupsOf).Err?
    ensures ByCategory(indexOrder, groupsOf) == ByCategory(indexOrder[..m], groupsOf)
    decreases |indexOrder| - m
  {
    if m == |indexOrder| {
      assert indexOrder[..m] == indexOrder;
    } else {
      assert indexOrder[..m + 1][..m] == indexOrder[..m];
      ByCategoryStops(indexOrder, groupsOf, m + 1);
    }
  }

  /** The plain graphs of one category, appended column by column. */
  method AddPlainGraphs<D>(cat: string, names: seq<string>, skip: seq<string>, info: seq<string> -> Info<D>)
    returns (r: seq<Graph<D>>)
    ensures r == PlainGraphs(cat, names, skip, info)
  {
    r := [];
    var i := 0;
    while i < |names|
      invariant 0 <= i <= |names|
      invariant r == PlainGraphs(cat, names[..i], skip, info)
    {
      assert names[..i + 1][..i] == names[..i];
      var j := names[i];
      if BaseGraph(j).Some? && BaseGraph(j).value.cat == cat && j !in skip {
        r := r + [Graph(info([j]), [j])];
      }
      i := i + 1;
    }
    assert names[..i] == names;
  }

  /** The chunks of a group, numbered from 1 in their titles. */
  method TitleChunks<D>(chunks: seq<seq<string>>, info: seq<string> -> Info<D>) returns (out: seq<Graph<D>>)
    ensures out == Titled(chunks, info)
  {
    out := [];
    var counter := 1;
    while counter <= |chunks|
      invariant 1 <= counter <= |chunks| + 1
      invariant |out| == counter - 1
      invariant forall k :: 0 <= k < counter - 1 ==> out[k] == Titled(chunks, info)[k]
    {
      var chunk := chunks[counter - 1];
      var entry := info(chunk);
      var s := ChunkTitle(entry.title, counter, |chunks|);
      out := out + [Graph(Info(s, entry.details), chunk)];
      counter := counter + 1;
    }
  }

  /** One group of a category: filtered, sorted, and split when it has
      more than `maxgraphs` columns, each chunk titled with its number. */
  method AddGroupGraphs<D>(group: seq<string>, skip: seq<string>, maxgraphs: int, info: seq<string> -> Info<D>)
    returns (r: Result<seq<Graph<D>>, StatsError>)
    ensures r == GroupGraphs(NaturalSorted(Unskip(group, skip)), maxgraphs, info)
  {
    var b := NaturalSorted(Unskip(group, skip));
    if |b| > maxgraphs {
      var chunks := SplitChunks(b, maxgraphs);
      if chunks.Err? {
        return Err(chunks.error);
      }
      var out := TitleChunks(chunks.value, info);
      r := Ok(out);
    } else {
      r := Ok([Graph(info(b), b)]);
    }
  }

  /** The composite graphs of one category, group by group. */
  method AddCompositeGraphs<D>(groups: seq<seq<string>>, skip: seq<string>, maxgraphs: int, info: seq<string> -> Info<D>)
    returns (r: Result<seq<Graph<D>>, StatsError>)
    ensures r == CompositeGraphs(groups, skip, maxgraphs, info)
  {
    var out: seq<Graph<D>> := [];
    var i := 0;
    while i < |groups|
      invariant 0 <= i <= |groups|
      invariant CompositeGraphs(groups[..i], skip, maxgraphs, info) == Ok(out)
    {
      assert groups[..i + 1][..i] == groups[..i];
      var gs := AddGroupGraphs(groups[i], skip, maxgraphs, info);
      if gs.Err? {
        if i + 1 < |groups| {
          CompositeStops(groups, skip, maxgraphs, info, i + 1);
        } else {
          assert groups[..i + 1] == groups;
        }
        return Err(gs.error);
      }
      out := out + gs.value;
      i := i + 1;
    }
    assert groups[..i] == groups;
    r := Ok(out);
  }

  lemma {:induction false} CompositeStops<D>(groups: seq<seq<string>>, skip: seq<string>, maxgraphs: int,
                                             info: seq<string> -> Info<D>, m: nat)
    requires 0 < m <= |groups| && CompositeGraphs(groups[..m], skip, maxgraphs, info).Err?
    ensures CompositeGraphs(groups, skip, maxgraphs, info) == CompositeGraphs(groups[..m], skip, maxgraphs, info)
    decreases |groups| - m
  {
    if m == |groups| {
      assert groups[..m] == groups;
    } else {
      assert groups[..m + 1][..m] == groups[..m];
      CompositeStops(groups, skip, maxgraphs, info, m + 1);
    }
  }

  /** The graphs of one category of the loop of `graphs_order`. */
  method AddCategoryGraphs<D>(cat: string, names: seq<string>, composite: map<string, seq<seq<string>>>,
                              skip: seq<string>, maxgraphs: int, info: seq<string> -> Info<D>)
    returns (r: Result<seq<Graph<D>>, StatsError>)
    ensures r == CategoryGraphs(cat, names, composite, skip, maxgraphs, info)
  {
    var plain := AddPlainGraphs(cat, names, skip, info);
    if cat in composite {
      var more := AddCompositeGraphs(composite[cat], skip, maxgraphs, info);
      if more.Err? {
        return Err(more.error);
      }
      return Ok(plain + more.value);
    }
    r := Ok(plain);
  }

  /** `graphs_order(cat, skip_list)`: `available` is what the parser's
      `available_data_types` lists, `indexOrder` the order in which the
      set of index columns is walked, `groupsOf` the parser's
      `datanames_per_arg(_, False)` and `info` the `graph_info` lookup. */
  method GraphsOrder<D>(cats: seq<string>, skipList: Option<seq<string>>, available: seq<string>,
                        indexOrder: seq<string>, groupsOf: string -> Result<seq<seq<string>>, QueryError>,
                        maxgraphs: int, info: seq<string> -> Info<D>)
    returns (r: Result<seq<Graph<D>>, StatsError>)
    ensures var skip := if skipList.Some? then skipList.value else [];
      r == match ByCategory(indexOrder, groupsOf)
        case Err(e) => Err(e)
        case Ok(c) => AllGraphs(cats, NaturalSorted(available), c, skip, maxgraphs, info)
  {
    var skip := if skipList.Some? then skipList.value else [];
    var composite := GroupByCategory(indexOrder, groupsOf);
    if composite.Err? {
      return Err(composite.error);
    }
    r := AddAllGraphs(cats, NaturalSorted(available), composite.value, skip, maxgraphs, info);
  }

  /** The final loop of `graphs_order`, category after category. */
  method AddAllGraphs<D>(cats: seq<string>, names: seq<string>, c: map<string, seq<seq<string>>>,
                         skip: seq<string>, maxgraphs: int, info: seq<string> -> Info<D>)
    returns (r: Result<seq<Graph<D>>, StatsError>)
    ensures r == AllGraphs(cats, names, c, skip, maxgraphs, info)
  {
    var out: seq<Graph<D>> := [];
    var i := 0;
    while i < |cats|
      invariant 0 <= i <= |cats|
      invariant AllGraphs(cats[..i], names, c, skip, maxgraphs, info) == Ok(out)
    {
      assert cats[..i + 1][..i] == cats[..i];
      var gs := AddCategoryGraphs(cats[i], names, c, skip, maxgraphs, info);
      if gs.Err? {
        if i + 1 < |cats| {
          AllGraphsStop(cats, names, c, skip, maxgraphs, info, i + 1);
        } else {
          assert cats[..i + 1] == cats;
        }
        return Err(gs.error);
      }
      out := out + gs.value;
      i := i + 1;
    }
    assert cats[..i] == cats;
    r := Ok(out);
  }

  lemma {:induction false} AllGraphsStop<D>(cats: seq<string>, names: seq<string>, c: map<string, seq<seq<string>>>,
                                            skip: seq<string>, maxgraphs: int, info: seq<string> -> Info<D>, m: nat)
    requires 0 < m <= |cats| && AllGraphs(cats[..m], names, c, skip, maxgraphs, info).Err?
    ensures AllGraphs(cats, names, c, skip, maxgraphs, info) == AllGraphs(cats[..m], names, c, skip, maxgraphs, info)
    decreases |cats| - m
  {
    if m == |cats| {
      assert cats[..m] == cats;
    } else {
      assert cats[..m + 1][..m] == cats[..m];
      AllGraphsStop(cats, names, c, skip, maxgraphs, info, m + 1);
    }
  }

  /** A plain graph is drawn exactly for the columns `base_graphs` files in
      the category and the skip list does not name, one column each. */
  lemma {:induction false} PlainGraphsMembers<D>(cat: string, names: seq<string>, skip: seq<string>,
                                                 info: seq<string> -> Info<D>, g: Graph<D>)
    ensures g in PlainGraphs(cat, names, skip, info) <==>
      exists j :: j in names && Shown(j, cat, skip) && g == Graph(info([j]), [j])
    decreases |names|
  {
    if names != [] {
      var front := names[..|names| - 1];
      PlainGraphsMembers(cat, front, skip, info, g);
      assert forall j :: j in names <==> j in front || j == names[|names| - 1];
    }
  }

  /** Splitting a group loses no column and adds none: the chunks' columns,
      in order, are the group's; a negative `maxgraphs` drops the group. */
  lemma GroupGraphsColumns<D>(b: seq<string>, maxgraphs: int, info: seq<string> -> Info<D>)
    requires GroupGraphs(b, maxgraphs, info).Ok?
    ensures var gs := GroupGraphs(b, maxgraphs, info).value;
      maxgraphs >= 0 ==> Flatten(seq(|gs|, i requires 0 <= i < |gs| => gs[i].columns)) == b
    ensures maxgraphs < 0 ==> GroupGraphs(b, maxgraphs, info).value == []
    ensures maxgraphs == 0 ==> b == []
  {
    var gs := GroupGraphs(b, maxgraphs, info).value;
    var cols := seq(|gs|, i requires 0 <= i < |gs| => gs[i].columns);
    if |b| > maxgraphs && maxgraphs > 0 {
      var chunks := Chunks(b, maxgraphs);
      assert cols == chunks;
      ChunksFlatten(b, maxgraphs);
    } else if maxgraphs >= 0 {
      assert cols == [b];
      assert Flatten(cols) == b + Flatten([]);
    }
  }

  /** A group with more than `maxgraphs` columns becomes `k` graphs of at
      most `maxgraphs` columns, the `i`th titled "{title} i/k" after the
      entry of its own columns. */
  lemma ChunkedTitles<D>(b: seq<string>, maxgraphs: int, info: seq<string> -> Info<D>)
    requires |b| > maxgraphs > 0
    ensures GroupGraphs(b, maxgraphs, info).Ok?
    ensures var gs := GroupGraphs(b, maxgraphs, info).value;
      forall i :: 0 <= i < |gs| ==>
        1 <= |gs[i].columns| <= maxgraphs
        && gs[i].info == Info(ChunkTitle(info(gs[i].columns).title, i + 1, |gs|), info(gs[i].columns).details)
  {
    ChunkSizes(b, maxgraphs);
  }

  /** No composite graph draws a column one of whose '#'-parts is in the
      skip list, and every column it draws is in one of the groups. */
  lemma {:induction false} CompositeUnskipped<D>(groups: seq<seq<string>>, skip: seq<string>, maxgraphs: int,
                                                 info: seq<string> -> Info<D>, g: Graph<D>, x: string)
    requires CompositeGraphs(groups, skip, maxgraphs, info).Ok?
    requires g in CompositeGraphs(groups, skip, maxgraphs, info).value && x in g.columns
    ensures Unskipped(x, skip)
    ensures exists k :: 0 <= k < |groups| && x in groups[k]
    decreases |groups|
  {
    var n := |groups| - 1;
    var front := groups[..n];
    var done := CompositeGraphs(front, skip, maxgraphs, info).value;
    var b := NaturalSorted(Unskip(groups[n], skip));
    var gs := GroupGraphs(b, maxgraphs, info).value;
    assert CompositeGraphs(groups, skip, maxgraphs, info).value == done + gs;
    if g in done {
      CompositeUnskipped(front, skip, maxgraphs, info, g, x);
      var k :| 0 <= k < n && x in front[k];
      assert groups[k] == front[k];
    } else {
      GroupColumnsFrom(b, maxgraphs, info, g, x);
      assert x in multiset(Unskip(groups[n], skip));
    }
  }

  /** Every column of a graph of a group is one of the group's columns. */
  lemma GroupColumnsFrom<D>(b: seq<string>, maxgraphs: int, info: seq<string> -> Info<D>, g: Graph<D>, x: string)
    requires GroupGraphs(b, maxgraphs, info).Ok?
    requires g in GroupGraphs(b, maxgraphs, info).value && x in g.columns
    ensures x in b
  {
    if |b| > maxgraphs && maxgraphs > 0 {
      var chunks := Chunks(b, maxgraphs);
      var gs := Titled(chunks, info);
      assert GroupGraphs(b, maxgraphs, info).value == gs;
      var i :| 0 <= i < |gs| && g == gs[i];
      assert g.columns == chunks[i];
      ChunkMembers(b, maxgraphs, i, x);
    }
  }

  /** A chunk holds only elements of the list. */
  lemma {:induction false} ChunkMembers<T>(l: seq<T>, n: nat, i: nat, x: T)
    requires n > 0 && i < |Chunks(l, n)| && x in Chunks(l, n)[i]
    ensures x in l
    decreases |l|
  {
    if |l| > n {
      if i == 0 {
        assert x in l[..n];
      } else {
        assert Chunks(l, n)[i] == Chunks(l[n..], n)[i - 1];
        ChunkMembers(l[n..], n, i - 1, x);
      }
    }
  }

  // ----- custom graphs -----

  /** One custom graph specification "label:a,b": the text before the
      first ':' and the second ':'-field split on ','. */
  function CustomGraph(spec: string): Result<(string, seq<string>), StatsError> {
    var parts := Split(spec, ':');
    if |parts| < 2 then Err(BadCustomGraphs)
    else Ok((parts[0], Split(parts[1], ',')))
  }

  /** The `custom_graph_list` dict; a later label replaces an earlier one. */
  function CustomGraphs(specs: seq<string>): Result<map<string, seq<string>>, StatsError>
    decreases |specs|
  {
    if specs == [] then Ok(map[])
    else
      match CustomGraphs(specs[..|specs| - 1])
      case Err(e) => Err(e)
      case Ok(m) =>
        match CustomGraph(specs[|specs| - 1])
        case Err(e) => Err(e)
        case Ok(p) => Ok(m[p.0 := p.1])
  }

  /** The loop of `graph` that reads the custom graph specifications. */
  method ParseCustomGraphs(customGraphs: Option<seq<string>>) returns (r: Result<map<string, seq<string>>, StatsError>)
    ensures customGraphs.None? ==> r == Ok(map[])
    ensures customGraphs.Some? ==> r == CustomGraphs(customGraphs.value)
  {
    if customGraphs.None? {
      return Ok(map[]);
    }
    var specs := customGraphs.value;
    var m: map<string, seq<string>> := map[];
    var i := 0;
    while i < |specs|
      invariant 0 <= i <= |specs|
      invariant CustomGraphs(specs[..i]) == Ok(m)
    {
      assert specs[..i + 1][..i] == specs[..i];
      var parts := Split(specs[i], ':');
      if |parts| < 2 {
        if i + 1 < |specs| {
          CustomStops(specs, i + 1);
        } else {
          assert specs[..i + 1] == specs;
        }
        return Err(BadCustomGraphs);
      }
      m := m[parts[0] := Split(parts[1], ',')];
      i := i + 1;
    }
    assert specs[..i] == specs;
    r := Ok(m);
  }

  lemma {:induction false} CustomStops(specs: seq<string>, m: nat)
    requires 0 < m <= |specs| && CustomGraphs(specs[..m]).Err?
    ensures CustomGraphs(specs) == CustomGraphs(specs[..m])
    decreases |specs| - m
  {
    if m == |specs| {
      assert specs[..m] == specs;
    } else {
      assert specs[..m + 1][..m] == specs[..m];
      CustomStops(specs, m + 1);
    }
  }

  /** "label:a,b" gives the label and the values a, b. */
  lemma CustomGraphParts(tag: string, values: seq<string>)
    requires ':' !in tag && |values| >= 1 && forall v :: v in values ==> ':' !in v && ',' !in v
    ensures CustomGraph(tag + ":" + Join(values, ',')) == Ok((tag, values))
  {
    var body := Join(values, ',');
    JoinNoSep(values, ',', ':');
    SplitNoSep(body, ':');
    SplitPrefix(tag, body, ':');
    assert tag + ":" + body == tag + [':'] + body;
    SplitJoin(values, ',');
  }

  /** Text after a second ':' is dropped. */
  lemma CustomGraphTail(tag: string, body: string, tail: string)
    requires ':' !in tag && ':' !in body
    ensures CustomGraph(tag + ":" + body + ":" + tail) == Ok((tag, Split(body, ',')))
  {
    SplitPrefix(body, tail, ':');
    SplitPrefix(tag, body + ":" + tail, ':');
    assert tag + ":" + body + ":" + tail == tag + [':'] + (body + [':'] + tail);
  }

  /** A specification without ':' is refused. */
  lemma CustomGraphNoColon(spec: string)
    requires ':' !in spec
    ensures CustomGraph(spec) == Err(BadCustomGraphs)
  {
    SplitNoSep(spec, ':');
  }

  /** Joining pieces without `c` on a separator other than `c` gives a
      string without `c`. */
  lemma {:induction false} JoinNoSep(parts: seq<string>, sep: char, c: char)
    requires |parts| >= 1 && c != sep && forall p :: p in parts ==> c !in p
    ensures c !in Join(parts, sep)
    decreases |parts|
  {
    if |parts| > 1 {
      JoinNoSep(parts[1..], sep, c);
      assert parts[0] in parts;
    }
  }

  /** The custom graphs map each label to the values of the last
      specification that names it. */
  lemma {:induction false} LastCustomGraphWins(specs: seq<string>, i: nat)
    requires CustomGraphs(specs).Ok? && i < |specs| && CustomGraph(specs[i]).Ok?
    requires forall j :: i < j < |specs| ==> CustomGraph(specs[j]).Ok? && CustomGraph(specs[j]).value.0 != CustomGraph(specs[i]).value.0
    ensures var (tag, values) := CustomGraph(specs[i]).value;
      tag in CustomGraphs(specs).value && CustomGraphs(specs).value[tag] == values
    decreases |specs|
  {
    var n := |specs| - 1;
    if i < n {
      assert specs[..n][i] == specs[i];
      assert CustomGraphs(specs[..n]).Ok?;
      LastCustomGraphWins(specs[..n], i);
    }
  }

  // ----- parse_labels -----

  /** `s` without its ':' characters. */
  function DropColons(s: string): (r: string)
    ensures ':' !in r
  {
    if s == [] then [] else (if s[0] == ':' then [] else [s[0]]) + DropColons(s[1..])
  }

  /** The label of "foo:2014-01-01 13:45:03" and the text its time is read
      from: the part before the first ':', and the rest joined without
      its ':'. */
  function LabelParts(s: string): (string, string) {
    var parts := Split(s, ':');
    (parts[0], Concat(parts[1..]))
  }

  /** `parse_labels(labels)` with the date parser as `parseTime`. */
  function Labels<T>(labels: seq<string>, parseTime: string -> Option<T>): Result<seq<(T, string)>, StatsError>
    decreases |labels|
  {
    if labels == [] then Ok([])
    else
      match Labels(labels[..|labels| - 1], parseTime)
      case Err(e) => Err(e)
      case Ok(done) =>
        var (tag, time) := LabelParts(labels[|labels| - 1]);
        match parseTime(time)
        case None => Err(BadTime(time))
        case Some(t) => Ok(done + [(t, tag)])
  }

  method ParseLabels<T>(labels: Option<seq<string>>, parseTime: string -> Option<T>) returns (r: Result<seq<(T, string)>, StatsError>)
    ensures labels.None? ==> r == Ok([])
    ensures labels.Some? ==> r == Labels(labels.value, parseTime)
  {
    if labels.None? {
      return Ok([]);
    }
    var ls := labels.value;
    var out: seq<(T, string)> := [];
    var i := 0;
    while i < |ls|
      invariant 0 <= i <= |ls|
      invariant Labels(ls[..i], parseTime) == Ok(out)
    {
      assert ls[..i + 1][..i] == ls[..i];
      var parts := Split(ls[i], ':');
      var tag := parts[0];
      var time := Concat(parts[1..]);
      var t := parseTime(time);
      if t.None? {
        if i + 1 < |ls| {
          LabelsStop(ls, parseTime, i + 1);
        } else {
          assert ls[..i + 1] == ls;
        }
        return Err(BadTime(time));
      }
      out := out + [(t.value, tag)];
      i := i + 1;
    }
    assert ls[..i] == ls;
    r := Ok(out);
  }

  lemma {:induction false} LabelsStop<T>(ls: seq<string>, parseTime: string -> Option<T>, m: nat)
    requires 0 < m <= |ls| && Labels(ls[..m], parseTime).Err?
    ensures Labels(ls, parseTime) == Labels(ls[..m], parseTime)
    decreases |ls| - m
  {
    if m == |ls| {
      assert ls[..m] == ls;
    } else {
      assert ls[..m + 1][..m] == ls[..m];
      LabelsStop(ls, parseTime, m + 1);
    }
  }

  /** The label is the text before the first ':'; the time text is the
      rest of the string with every ':' removed (so "13:45:03" is read as
      "134503"). */
  lemma {:induction false} LabelPartsMeaning(s: string)
    ensures var (tag, time) := LabelParts(s);
      ':' !in tag && StartsWith(s, tag)
      && time == (if |tag| < |s| then DropColons(s[|tag| + 1..]) else "")
      && (|tag| < |s| ==> s[|tag|] == ':')
    decreases |s|
  {
    if s != [] {
      var rest := Split(s[1..], ':');
      LabelPartsMeaning(s[1..]);
      var (label1, time1) := LabelParts(s[1..]);
      if s[0] == ':' {
        assert Split(s, ':') == [""] + rest;
        ConcatDrops(rest);
        JoinSplit(s[1..], ':');
      } else {
        assert Split(s, ':')[1..] == rest[1..];
        assert [s[0]] + label1 == Split(s, ':')[0];
      }
    }
  }

  /** Gluing the pieces of a split on ':' is dropping the ':'s. */
  lemma {:induction false} ConcatDrops(parts: seq<string>)
    requires |parts| >= 1 && forall p :: p in parts ==> ':' !in p
    ensures Concat(parts) == DropColons(Join(parts, ':'))
    decreases |parts|
  {
    NoColonKept(parts[0]);
    if |parts| > 1 {
      ConcatDrops(parts[1..]);
      DropColonsAppend(parts[0] + [':'], Join(parts[1..], ':'));
      DropColonsAppend(parts[0], [':']);
    } else {
      assert Concat(parts) == parts[0] + Concat([]);
    }
  }

  lemma {:induction false} NoColonKept(s: string)
    requires ':' !in s
    ensures DropColons(s) == s
  {
    if s != [] {
      NoColonKept(s[1..]);
      assert [s[0]] + s[1..] == s;
    }
  }

  lemma {:induction false} DropColonsAppend(a: string, b: string)
    ensures DropColons(a + b) == DropColons(a) + DropColons(b)
  {
    if a != [] {
      assert (a + b)[1..] == a[1..] + b;
      DropColonsAppend(a[1..], b);
    } else {
      assert a + b == b;
    }
  }
}
