/** The clean-up after parsing (`_prune_data` in both parsers): keys that
    are zero wherever they occur are dropped, and every timestamp is given
    every remaining key, `None` where it had no value. */
module Prune {
  import opened Calendar
  import opened Report

  /** Timestamp to row: the parsers' `_data`. */
  type Data = map<Instant, Row>

  /** Every key of every row. */
  function AllKeys(data: Data): set<string> {
    set t, k | t in data && k in data[t] :: k
  }

  /** `k` is zero at every timestamp where it has a value. */
  predicate ZeroOnly(data: Data, k: string) {
    forall t :: t in data && k in data[t] ==> IsZero(data[t][k])
  }

  /** The keys that survive pruning. */
  function Kept(data: Data): set<string> {
    set k | k in AllKeys(data) && !ZeroOnly(data, k)
  }

  /** The data after pruning: each row holds exactly the surviving keys,
      with its own value where it had one and `None` elsewhere. */
  function Pruned(data: Data): Data {
    map t | t in data :: map k | k in Kept(data) :: if k in data[t] then data[t][k] else Null
  }

  /** Pruning adds no key: every categorisation of the data's keys still
      covers the pruned data. */
  lemma PrunedMapped(data: Data, cats: map<string, string>, f: string -> string)
    requires KeysMapped(data, cats, f)
    ensures KeysMapped(Pruned(data), cats, f)
  {
    var d := Pruned(data);
    forall t, k | t in d && k in d[t] ensures k in cats && cats[k] == f(k) {
      assert k in Kept(data) by {
        assert d[t] == map k | k in Kept(data) :: if k in data[t] then data[t][k] else Null;
      }
      assert k in AllKeys(data);
      var t2 :| t2 in data && k in data[t2];
      assert k in cats && cats[k] == f(k);
    }
  }

  /** The category map after pruning: the entries of surviving keys. */
  function PrunedCategories(data: Data, categories: map<string, string>): map<string, string> {
    map k | k in categories && k in Kept(data) :: categories[k]
  }

  /** Fill the missing `keys` of a row with `None`. */
  function Fill(row: Row, keys: set<string>): Row {
    map k | k in row.Keys + keys :: if k in row then row[k] else Null
  }

  /** The first and fourth passes: collect the keys of all rows. */
  method CollectKeys(data: Data) returns (keys: set<string>)
    ensures keys == AllKeys(data)
  {
    keys := {};
    var pending := data.Keys;
    while pending != {}
      invariant pending <= data.Keys
      invariant keys == set t, k | t in data.Keys - pending && k in data[t] :: k
      decreases |pending|
    {
      var t :| t in pending;
      keys := keys + data[t].Keys;
      pending := pending - {t};
    }
  }

  /** The second pass: is `k` zero wherever it has a value? The scan stops
      at the first non-zero value. */
  method AllZero(data: Data, k: string) returns (remove: bool)
    ensures remove <==> ZeroOnly(data, k)
  {
    remove := true;
    var pending := data.Keys;
    while pending != {} && remove
      invariant pending <= data.Keys
      invariant remove ==> forall t :: t in data.Keys - pending && k in data[t] ==> IsZero(data[t][k])
      invariant !remove ==> !ZeroOnly(data, k)
      decreases |pending|
    {
      var t :| t in pending;
      if k in data[t] && !IsZero(data[t][k]) {
        remove := false;
      }
      pending := pending - {t};
    }
  }

  /** The keys among `allKeys` that are zero wherever they occur. */
  method ZeroOnlyKeys(data: Data, allKeys: set<string>) returns (toRemove: set<string>)
    ensures toRemove == set k | k in allKeys && ZeroOnly(data, k)
  {
    toRemove := {};
    var pending := allKeys;
    while pending != {}
      invariant pending <= allKeys
      invariant toRemove == set k | k in allKeys - pending && ZeroOnly(data, k)
      decreases |pending|
    {
      var k :| k in pending;
      var remove := AllZero(data, k);
      if remove {
        toRemove := toRemove + {k};
      }
      pending := pending - {k};
    }
  }

  /** The third pass: pop the given keys from every row. */
  method DropKeys(data: Data, toRemove: set<string>) returns (r: Data)
    ensures r.Keys == data.Keys
    ensures forall t :: t in r ==> r[t] == data[t] - toRemove
  {
    r := data;
    var rows := data.Keys;
    while rows != {}
      invariant rows <= data.Keys && r.Keys == data.Keys
      invariant forall t :: t in r ==> r[t] == if t in rows then data[t] else data[t] - toRemove
      decreases |rows|
    {
      var t :| t in rows;
      r := r[t := r[t] - toRemove];
      rows := rows - {t};
    }
  }

  /** The fifth pass: give every row the missing keys, as `None`. */
  method FillRows(data: Data, keys: set<string>) returns (r: Data)
    ensures r.Keys == data.Keys
    ensures forall t :: t in r ==> r[t] == Fill(data[t], keys)
  {
    r := data;
    var rows := data.Keys;
    while rows != {}
      invariant rows <= data.Keys && r.Keys == data.Keys
      invariant forall t :: t in r ==> r[t] == if t in rows then data[t] else Fill(data[t], keys)
      decreases |rows|
    {
      var t :| t in rows;
      r := r[t := Fill(r[t], keys)];
      rows := rows - {t};
    }
  }

  /** `_prune_data` on the rows: find the keys that are zero everywhere,
      drop them from every row, collect the keys again and fill the gaps
      with `None`. */
  method PruneRows(data: Data) returns (r: Data, remaining: set<string>)
    ensures r == Pruned(data)
    ensures remaining == Kept(data)
  {
    var allKeys := CollectKeys(data);
    var toRemove := ZeroOnlyKeys(data, allKeys);
    var removed := DropKeys(data, toRemove);
    remaining := CollectKeys(removed);
    RemovedKeys(data, toRemove, removed);
    r := FillRows(removed, remaining);
    forall t | t in data ensures r[t] == Pruned(data)[t] {
      FilledRow(data, toRemove, t);
    }
  }

  /** The last pass of sar_parser.py's `_prune_data`: collect the category
      entries whose key is gone, then pop them. */
  method DropCategories(categories: map<string, string>, keys: set<string>) returns (r: map<string, string>)
    ensures r == map k | k in categories && k in keys :: categories[k]
  {
    var toPrune: set<string> := {};
    var pending := categories.Keys;
    while pending != {}
      invariant pending <= categories.Keys
      invariant toPrune == set k | k in categories.Keys - pending && k !in keys
      decreases |pending|
    {
      var k :| k in pending;
      if k !in keys {
        toPrune := toPrune + {k};
      }
      pending := pending - {k};
    }
    r := categories;
    pending := toPrune;
    while pending != {}
      invariant pending <= toPrune
      invariant r == map k | k in categories && (k !in toPrune || k in pending) :: categories[k]
      decreases |pending|
    {
      var k :| k in pending;
      r := r - {k};
      pending := pending - {k};
    }
    forall k | k in categories ensures k in toPrune <==> k !in keys {
    }
  }

  /** The keys left in the pruned data are the surviving keys. */
  lemma PrunedKeys(data: Data)
    ensures AllKeys(Pruned(data)) == Kept(data)
  {
    if data != map[] {
      var t :| t in data;
      assert Pruned(data)[t].Keys == Kept(data);
    }
  }

  /** After the zero-only keys are dropped, the keys left are the ones
      that survive. */
  lemma RemovedKeys(data: Data, toRemove: set<string>, removed: Data)
    requires toRemove == set k | k in AllKeys(data) && ZeroOnly(data, k)
    requires removed.Keys == data.Keys
    requires forall t :: t in removed ==> removed[t] == data[t] - toRemove
    ensures AllKeys(removed) == Kept(data)
  {
    forall k | k in Kept(data) ensures k in AllKeys(removed) {
      var t :| t in data && k in data[t] && !IsZero(data[t][k]);
      assert k in removed[t];
    }
  }

  lemma FilledRow(data: Data, toRemove: set<string>, t: Instant)
    requires toRemove == set k | k in AllKeys(data) && ZeroOnly(data, k)
    requires t in data
    ensures Fill(data[t] - toRemove, Kept(data)) == Pruned(data)[t]
  {
    var row := data[t] - toRemove;
    assert row.Keys <= Kept(data);
  }

  /** No surviving key was zero at every timestamp where it occurred. */
  lemma NoZeroOnlyKeySurvives(data: Data)
    ensures forall t, k :: t in Pruned(data) && k in Pruned(data)[t] ==> !ZeroOnly(data, k)
  {
  }

  /** After pruning every timestamp has the same key set. */
  lemma SameKeysEverywhere(data: Data)
    ensures forall t1, t2 :: t1 in Pruned(data) && t2 in Pruned(data) ==>
      Pruned(data)[t1].Keys == Pruned(data)[t2].Keys
  {
  }

  /** A non-zero value is kept where it was; a surviving key a row lacked
      is `None` there. */
  lemma ValuesKept(data: Data, t: Instant, k: string)
    requires t in data
    ensures k in data[t] && !IsZero(data[t][k]) ==> k in Pruned(data)[t] && Pruned(data)[t][k] == data[t][k]
    ensures k in Pruned(data)[t] && k !in data[t] ==> Pruned(data)[t][k] == Null
  {
  }

  /** Pruning twice is pruning once: the surviving keys keep a non-zero
      value somewhere, and `None` is not zero. */
  lemma PruneIdempotent(data: Data)
    ensures Pruned(Pruned(data)) == Pruned(data)
  {
    KeptOfPruned(data);
    PruneFixed(Pruned(data));
  }

  /** Data whose every row holds exactly the surviving keys is left alone. */
  lemma PruneFixed(p: Data)
    requires forall t :: t in p ==> p[t].Keys == Kept(p)
    ensures Pruned(p) == p
  {
    assert Pruned(p).Keys == p.Keys;
    forall t | t in p ensures Pruned(p)[t] == p[t] {
      RowFixed(p, t, Kept(p));
    }
  }

  lemma RowFixed(p: Data, t: Instant, kept: set<string>)
    requires kept == Kept(p) && t in p && p[t].Keys == kept
    ensures Pruned(p)[t] == p[t]
  {
    var row := map k | k in kept :: if k in p[t] then p[t][k] else Null;
    assert Pruned(p)[t] == row;
    assert row.Keys == p[t].Keys;
    forall k | k in row ensures row[k] == p[t][k] {
    }
  }

  lemma KeptOfPruned(data: Data)
    ensures Kept(Pruned(data)) == Kept(data)
  {
    var p := Pruned(data);
    forall k | k in Kept(data) ensures k in Kept(p) {
      var t :| t in data && k in data[t] && !IsZero(data[t][k]);
      assert k in p[t] && p[t][k] == data[t][k];
      assert k in AllKeys(p);
    }
    forall k | k in Kept(p) ensures k in Kept(data) {
      var t :| t in p && k in p[t];
    }
  }

  /** The pruned category map names only keys that are still in the data. */
  lemma CategoriesFollowData(data: Data, categories: map<string, string>)
    requires data != map[]
    ensures PrunedCategories(data, categories).Keys <= AllKeys(Pruned(data))
  {
    var t :| t in data;
    forall k | k in PrunedCategories(data, categories) ensures k in AllKeys(Pruned(data)) {
      assert k in Pruned(data)[t];
    }
  }
}
