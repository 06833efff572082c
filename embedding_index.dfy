/** The market embedding index (src/matching/embeddings.py): a list of
    markets and a row-aligned list of embedding vectors, kept in step with
    the incoming market set by reusing cached rows, encoding only new
    markets and pruning markets that have gone away; and the similarity
    query over it. The sentence encoder and the cosine similarity are
    opaque functions. */
module Embeddings {
  import opened Common
  import opened Records
  import opened Sorting

  /** An embedding vector; its contents are never inspected. */
  type Vector = seq<real>

  /** `_market_id`: the id, else the condition id, else "". */
  function MarketKey(m: Market): string
  {
    MarketIdOr(m, "")
  }

  /** The text that is encoded for a market: question, a space and
      description, stripped. */
  function MarketText(m: Market): (t: string)
    ensures t == [] || (!IsSpace(t[0]) && !IsSpace(t[|t| - 1]))
  {
    Strip(m.question + " " + m.description)
  }

  /** The two cache files: the embedding rows and the market list. */
  datatype Cache = Cache(rows: seq<Vector>, index: seq<Market>)

  /** Row `i` of `rows` is the encoding of `sources[i]`, a market with the
      same id as `index[i]`: the alignment the index keeps. */
  ghost predicate Consistent(rows: seq<Vector>, index: seq<Market>, sources: seq<Market>, encode: string -> Vector)
  {
    |rows| == |index| == |sources|
    && forall i :: 0 <= i < |rows| ==>
      rows[i] == encode(MarketText(sources[i])) && MarketKey(sources[i]) == MarketKey(index[i])
  }

  /** `cached_id_to_row`: each non-empty cached id mapped to its row; a
      repeated id maps to its last row. */
  function RowOf(index: seq<Market>): (r: map<string, nat>)
    decreases |index|
    ensures forall k :: k in r ==> k != "" && r[k] < |index| && MarketKey(index[r[k]]) == k
    ensures forall i :: 0 <= i < |index| && MarketKey(index[i]) != "" ==> MarketKey(index[i]) in r
  {
    if index == [] then map[]
    else
      var n := |index| - 1;
      var rest := RowOf(index[..n]);
      var k := MarketKey(index[n]);
      if k != "" then rest[k := n] else rest
  }

  /** The incoming markets whose id has a cached row, in input order. */
  function Reused(markets: seq<Market>, rowOf: map<string, nat>): seq<Market>
  {
    if markets == [] then []
    else
      var rest := Reused(markets[..|markets| - 1], rowOf);
      if MarketKey(markets[|markets| - 1]) in rowOf then rest + [markets[|markets| - 1]] else rest
  }

  /** The incoming markets without a cached row, in input order. */
  function Fresh(markets: seq<Market>, rowOf: map<string, nat>): seq<Market>
  {
    if markets == [] then []
    else
      var rest := Fresh(markets[..|markets| - 1], rowOf);
      if MarketKey(markets[|markets| - 1]) in rowOf then rest else rest + [markets[|markets| - 1]]
  }

  /** The three lists the partition loop builds. */
  datatype Split = Split(reuseRows: seq<nat>, reuseMarkets: seq<Market>, newMarkets: seq<Market>)

  /** The partition loop of `build_market_index`: a market whose id has a
      cached row reuses that row; every other market (an empty id
      included) is new. */
  function Partition(markets: seq<Market>, rowOf: map<string, nat>): (p: Split)
    ensures |p.reuseRows| == |p.reuseMarkets| && |p.reuseMarkets| + |p.newMarkets| == |markets|
    ensures p.reuseMarkets == Reused(markets, rowOf) && p.newMarkets == Fresh(markets, rowOf)
  {
    if markets == [] then Split([], [], [])
    else
      var n := |markets| - 1;
      var m := markets[n];
      var p := Partition(markets[..n], rowOf);
      var key := MarketKey(m);
      if key in rowOf then Split(p.reuseRows + [rowOf[key]], p.reuseMarkets + [m], p.newMarkets)
      else Split(p.reuseRows, p.reuseMarkets, p.newMarkets + [m])
  }

  /** Each reused market comes with the cached row of its id, a new
      market's id has no cached row, and both lists hold input markets. */
  lemma {:induction false} PartitionFacts(markets: seq<Market>, rowOf: map<string, nat>)
    decreases |markets|
    ensures var p := Partition(markets, rowOf);
      && (forall k :: 0 <= k < |p.reuseRows| ==>
            MarketKey(p.reuseMarkets[k]) in rowOf && p.reuseRows[k] == rowOf[MarketKey(p.reuseMarkets[k])])
      && (forall m :: m in p.newMarkets ==> MarketKey(m) !in rowOf && m in markets)
      && (forall m :: m in p.reuseMarkets ==> m in markets)
  {
    if markets != [] {
      var n := |markets| - 1;
      PartitionFacts(markets[..n], rowOf);
      assert forall m :: m in markets[..n] ==> m in markets;
    }
  }

  /** `RowOf` over one more cached market. */
  lemma RowOfSnoc(index: seq<Market>, i: nat)
    requires i < |index|
    ensures RowOf(index[..i + 1]) ==
      if MarketKey(index[i]) != "" then RowOf(index[..i])[MarketKey(index[i]) := i] else RowOf(index[..i])
  {
    assert index[..i + 1][..i] == index[..i];
  }

  /** `Partition` over one more incoming market. */
  lemma PartitionSnoc(markets: seq<Market>, i: nat, rowOf: map<string, nat>)
    requires i < |markets|
    ensures var p := Partition(markets[..i], rowOf);
      var m := markets[i];
      Partition(markets[..i + 1], rowOf) ==
        if MarketKey(m) in rowOf then Split(p.reuseRows + [rowOf[MarketKey(m)]], p.reuseMarkets + [m], p.newMarkets)
        else Split(p.reuseRows, p.reuseMarkets, p.newMarkets + [m])
  {
    assert markets[..i + 1][..i] == markets[..i];
  }

  /** `embeddings[rows]`: the rows at the given positions, in that order. */
  function Select<T>(rows: seq<T>, picks: seq<nat>): (r: seq<T>)
    requires forall k :: 0 <= k < |picks| ==> picks[k] < |rows|
    ensures |r| == |picks| && forall k :: 0 <= k < |picks| ==> r[k] == rows[picks[k]]
  {
    seq(|picks|, k requires 0 <= k < |picks| && picks[k] < |rows| => rows[picks[k]])
  }

  function EncodeAll(encode: string -> Vector, markets: seq<Market>): (rows: seq<Vector>)
    ensures |rows| == |markets| && forall i :: 0 <= i < |markets| ==> rows[i] == encode(MarketText(markets[i]))
  {
    seq(|markets|, i requires 0 <= i < |markets| => encode(MarketText(markets[i])))
  }

  /** What `build_market_index` writes when a cache exists: nothing when no
      market is new and as many rows are reused as there are cached ids;
      otherwise the reused rows followed by the encodings of the new
      markets. */
  function Upkeep(c: Cache, markets: seq<Market>, encode: string -> Vector): Option<Cache>
    requires |c.rows| == |c.index|
  {
    var rowOf := RowOf(c.index);
    var p := Partition(markets, rowOf);
    PartitionFacts(markets, rowOf);
    if p.newMarkets == [] && |p.reuseRows| == |rowOf| then None
    else if p.newMarkets == [] then Some(Cache(Select(c.rows, p.reuseRows), p.reuseMarkets))
    else Some(Cache(Select(c.rows, p.reuseRows) + EncodeAll(encode, p.newMarkets), p.reuseMarkets + p.newMarkets))
  }

  /** The rows and market list `build_market_index` leaves, given the
      cache file before the call: every market encoded when there is no
      cache, the cache as it is when `Upkeep` finds nothing to do, and the
      rewritten cache otherwise. The cache file holds the same afterwards. */
  function Rebuilt(disk: Option<Cache>, markets: seq<Market>, encode: string -> Vector): Cache
    requires disk.Some? ==> |disk.value.rows| == |disk.value.index|
  {
    if disk.None? then Cache(EncodeAll(encode, markets), markets)
    else
      match Upkeep(disk.value, markets, encode)
      case None => disk.value
      case Some(update) => update
  }

  /** The sources of the rows `Upkeep` writes. */
  function UpkeepSources(c: Cache, sources: seq<Market>, markets: seq<Market>): seq<Market>
    requires |c.rows| == |c.index| == |sources|
  {
    var p := Partition(markets, RowOf(c.index));
    PartitionFacts(markets, RowOf(c.index));
    Select(sources, p.reuseRows) + p.newMarkets
  }

  /** Reused rows stay aligned: the selected row of a cached market with
      the same id as the incoming one. */
  lemma SelectedConsistent(c: Cache, sources: seq<Market>, p: Split, encode: string -> Vector)
    requires Consistent(c.rows, c.index, sources, encode)
    requires |p.reuseRows| == |p.reuseMarkets|
    requires forall k :: 0 <= k < |p.reuseRows| ==>
      p.reuseRows[k] < |c.index| && MarketKey(c.index[p.reuseRows[k]]) == MarketKey(p.reuseMarkets[k])
    ensures Consistent(Select(c.rows, p.reuseRows), p.reuseMarkets, Select(sources, p.reuseRows), encode)
  {
  }

  /** Aligned lists stay aligned when concatenated. */
  lemma ConsistentConcat(rows: seq<Vector>, index: seq<Market>, sources: seq<Market>,
                         rows2: seq<Vector>, index2: seq<Market>, sources2: seq<Market>, encode: string -> Vector)
    requires Consistent(rows, index, sources, encode) && Consistent(rows2, index2, sources2, encode)
    ensures Consistent(rows + rows2, index + index2, sources + sources2, encode)
  {
    var r, x, s := rows + rows2, index + index2, sources + sources2;
    forall i | 0 <= i < |r|
      ensures r[i] == encode(MarketText(s[i])) && MarketKey(s[i]) == MarketKey(x[i])
    {
      if i < |rows| {
        assert r[i] == rows[i] && s[i] == sources[i] && x[i] == index[i];
      } else {
        var j := i - |rows|;
        assert r[i] == rows2[j] && s[i] == sources2[j] && x[i] == index2[j];
      }
    }
  }

  /** Every rewrite keeps the rows aligned with the markets: a reused row
      still encodes a market with the same id, a new row encodes its own
      market. */
  lemma UpkeepAligned(c: Cache, sources: seq<Market>, markets: seq<Market>, encode: string -> Vector)
    requires Consistent(c.rows, c.index, sources, encode)
    ensures Upkeep(c, markets, encode).Some? ==>
      Consistent(Upkeep(c, markets, encode).value.rows, Upkeep(c, markets, encode).value.index,
                 UpkeepSources(c, sources, markets), encode)
  {
    var rowOf := RowOf(c.index);
    var p := Partition(markets, rowOf);
    PartitionFacts(markets, rowOf);
    SelectedConsistent(c, sources, p, encode);
    var encoded := EncodeAll(encode, p.newMarkets);
    assert Consistent(encoded, p.newMarkets, p.newMarkets, encode);
    ConsistentConcat(Select(c.rows, p.reuseRows), p.reuseMarkets, Select(sources, p.reuseRows),
                     encoded, p.newMarkets, p.newMarkets, encode);
    assert p.newMarkets == [] ==> Select(sources, p.reuseRows) + p.newMarkets == Select(sources, p.reuseRows);
  }

  /** The rewritten market list is the reused markets then the new ones,
      each in input order, so every cached market whose id is absent from
      the input is gone; only new markets are encoded, and a market with
      an empty id is always new. */
  lemma UpkeepPrunesAndMerges(c: Cache, markets: seq<Market>, encode: string -> Vector)
    requires |c.rows| == |c.index|
    ensures var rowOf := RowOf(c.index);
      Upkeep(c, markets, encode).Some? ==>
        && Upkeep(c, markets, encode).value.index == Reused(markets, rowOf) + Fresh(markets, rowOf)
        && (forall m :: m in Upkeep(c, markets, encode).value.index ==> m in markets)
        && |Upkeep(c, markets, encode).value.rows| == |Reused(markets, rowOf)| + |Fresh(markets, rowOf)|
        && Upkeep(c, markets, encode).value.rows[|Reused(markets, rowOf)|..] == EncodeAll(encode, Fresh(markets, rowOf))
    ensures forall m :: m in Fresh(markets, RowOf(c.index)) ==>
      forall i :: 0 <= i < |c.index| && MarketKey(c.index[i]) != "" ==> MarketKey(c.index[i]) != MarketKey(m)
    ensures forall m :: m in markets && MarketKey(m) == "" ==> m in Fresh(markets, RowOf(c.index))
  {
    var rowOf := RowOf(c.index);
    var p := Partition(markets, rowOf);
    PartitionFacts(markets, rowOf);
    FreshHoldsUnkeyed(markets, rowOf);
    if Upkeep(c, markets, encode).Some? && p.newMarkets != [] {
      var kept := Select(c.rows, p.reuseRows);
      assert (kept + EncodeAll(encode, p.newMarkets))[|kept|..] == EncodeAll(encode, p.newMarkets);
    }
  }

  /** A market whose id has no cached row (an empty id never has one)
      lands in `Fresh`. */
  lemma {:induction false} FreshHoldsUnkeyed(markets: seq<Market>, rowOf: map<string, nat>)
    requires "" !in rowOf
    decreases |markets|
    ensures forall m :: m in markets && MarketKey(m) !in rowOf ==> m in Fresh(markets, rowOf)
  {
    if markets != [] {
      var n := |markets| - 1;
      FreshHoldsUnkeyed(markets[..n], rowOf);
      forall m | m in markets && MarketKey(m) !in rowOf
        ensures m in Fresh(markets, rowOf)
      {
        if m != markets[n] {
          var i :| 0 <= i < |markets| && markets[i] == m;
          assert markets[..n][i] == m;
        }
      }
    }
  }

  /** The ids of `index` are non-empty and pairwise distinct. */
  ghost predicate DistinctKeys(index: seq<Market>)
  {
    (forall i :: 0 <= i < |index| ==> MarketKey(index[i]) != "")
    && forall i, j :: 0 <= i < j < |index| ==> MarketKey(index[i]) != MarketKey(index[j])
  }

  lemma {:induction false} RowOfDistinct(index: seq<Market>)
    requires DistinctKeys(index)
    decreases |index|
    ensures |RowOf(index)| == |index|
    ensures forall i :: 0 <= i < |index| ==> RowOf(index)[MarketKey(index[i])] == i
  {
    if index != [] {
      var n := |index| - 1;
      RowOfDistinct(index[..n]);
      assert MarketKey(index[n]) !in RowOf(index[..n]);
    }
  }

  lemma {:induction false} PartitionOfCached(index: seq<Market>, rowOf: map<string, nat>)
    requires forall i :: 0 <= i < |index| ==> MarketKey(index[i]) in rowOf
    decreases |index|
    ensures Partition(index, rowOf).newMarkets == [] && |Partition(index, rowOf).reuseRows| == |index|
  {
    if index != [] {
      PartitionOfCached(index[..|index| - 1], rowOf);
    }
  }

  /** Offering exactly the cached markets again (with distinct, non-empty
      ids) changes nothing. */
  lemma UnchangedSetIsNoOp(c: Cache, encode: string -> Vector)
    requires |c.rows| == |c.index| && DistinctKeys(c.index)
    ensures Upkeep(c, c.index, encode) == None
  {
    RowOfDistinct(c.index);
    PartitionOfCached(c.index, RowOf(c.index));
  }

  /** Two cached markets, "a" and "b". */
  function MarketA(): Market
  {
    Market(Some("a"), None, "A?", "", [], [], [])
  }

  function MarketB(): Market
  {
    Market(Some("b"), None, "B?", "", [], [], [])
  }

  lemma ExampleRowOf()
    ensures RowOf([MarketA(), MarketB()]) == map["a" := 0, "b" := 1]
  {
    assert [MarketA(), MarketB()][..1] == [MarketA()];
    assert [MarketA()][..0] == [];
  }

  lemma ExamplePartition(rowOf: map<string, nat>)
    requires rowOf == map["a" := 0, "b" := 1]
    ensures Partition([MarketA(), MarketA()], rowOf) == Split([0, 0], [MarketA(), MarketA()], [])
  {
    assert [MarketA(), MarketA()][..1] == [MarketA()];
    assert [MarketA()][..0] == [];
  }

  /** The up-to-date test compares counts, not id sets: offering the first
      cached market twice matches the count of two cached ids, so nothing
      is rewritten and the second cached market, no longer offered, stays
      in the index. */
  lemma CountTestKeepsStaleMarket(encode: string -> Vector)
    ensures var c := Cache([encode("A?"), encode("B?")], [MarketA(), MarketB()]);
      Upkeep(c, [MarketA(), MarketA()], encode) == None && MarketB() in c.index && MarketB() !in [MarketA(), MarketA()]
  {
    ExampleRowOf();
    ExamplePartition(RowOf([MarketA(), MarketB()]));
  }

  /** The scored positions of the index at or above the threshold, in index
      order: the `np.where` loop of `find_matches`. */
  function Hits(index: seq<Market>, scores: seq<real>, threshold: real): (r: seq<(Market, real)>)
    requires |index| == |scores|
    decreases |index|
    ensures forall x :: x in r <==> exists i :: 0 <= i < |index| && x == (index[i], scores[i]) && scores[i] >= threshold
    ensures |r| <= |index|
  {
    if index == [] then []
    else
      var n := |index| - 1;
      var rest := Hits(index[..n], scores[..n], threshold);
      assert forall i :: 0 <= i < n ==> index[..n][i] == index[i] && scores[..n][i] == scores[i];
      if scores[n] >= threshold then rest + [(index[n], scores[n])] else rest
  }

  function ByScore(x: (Market, real)): real
  {
    -x.1
  }

  /** The similarity of `h` to each of the first `n` rows; a position
      without a row scores 0. */
  function Scores(rows: seq<Vector>, n: nat, h: Vector, similarity: (Vector, Vector) -> real): (scores: seq<real>)
    ensures |scores| == n && forall i :: 0 <= i < n && i < |rows| ==> scores[i] == similarity(h, rows[i])
  {
    seq(n, i requires 0 <= i < n => if i < |rows| then similarity(h, rows[i]) else 0.0)
  }

  /** `find_matches` as a function of the index's contents: nothing before
      the index is built; otherwise the hits, highest score first. (A
      position without a row scores 0; under the alignment invariant there
      is none.) */
  function Matches(rows: Option<seq<Vector>>, index: seq<Market>, encode: string -> Vector,
                   similarity: (Vector, Vector) -> real, text: string, threshold: real): seq<(Market, real)>
  {
    if rows.None? || |index| == 0 then []
    else
      SortByKey(Hits(index, Scores(rows.value, |index|, encode(text), similarity), threshold), ByScore)
  }

  /** Sorting the hits by negated score keeps exactly the hits and puts
      them in non-increasing score order. */
  lemma SortByScore(found: seq<(Market, real)>)
    ensures forall x :: x in SortByKey(found, ByScore) <==> x in found
    ensures forall i, j :: 0 <= i < j < |SortByKey(found, ByScore)| ==>
      SortByKey(found, ByScore)[i].1 >= SortByKey(found, ByScore)[j].1
    ensures |SortByKey(found, ByScore)| == |found|
  {
    var sorted := SortByKey(found, ByScore);
    forall x
      ensures x in sorted <==> x in found
    {
      assert x in sorted <==> x in multiset(sorted);
    }
    forall i, j | 0 <= i < j < |sorted|
      ensures sorted[i].1 >= sorted[j].1
    {
      assert ByScore(sorted[i]) <= ByScore(sorted[j]);
    }
  }

  /** Over an aligned index, the query result holds exactly the indexed
      markets scoring at least the threshold against the text, each with
      its score. */
  lemma MatchesMembers(rows: seq<Vector>, index: seq<Market>, encode: string -> Vector,
                       similarity: (Vector, Vector) -> real, text: string, threshold: real)
    requires |rows| == |index| > 0
    ensures var r := Matches(Some(rows), index, encode, similarity, text, threshold);
      var h := encode(text);
      forall x :: x in r <==>
        exists i :: 0 <= i < |index| && x == (index[i], similarity(h, rows[i])) && x.1 >= threshold
  {
    var h := encode(text);
    var scores := Scores(rows, |index|, h, similarity);
    var found := Hits(index, scores, threshold);
    SortByScore(found);
    forall x
      ensures x in found <==>
        exists i :: 0 <= i < |index| && x == (index[i], similarity(h, rows[i])) && x.1 >= threshold
    {
      if x in found {
        var i :| 0 <= i < |index| && x == (index[i], scores[i]) && scores[i] >= threshold;
        assert scores[i] == similarity(h, rows[i]);
      }
    }
  }

  /** The query result is in non-increasing score order and no longer than
      the index. */
  lemma MatchesOrdered(rows: seq<Vector>, index: seq<Market>, encode: string -> Vector,
                       similarity: (Vector, Vector) -> real, text: string, threshold: real)
    requires |rows| == |index| > 0
    ensures var r := Matches(Some(rows), index, encode, similarity, text, threshold);
      (forall i, j :: 0 <= i < j < |r| ==> r[i].1 >= r[j].1) && |r| <= |index|
  {
    SortByScore(Hits(index, Scores(rows, |index|, encode(text), similarity), threshold));
  }

  /** The index: the market list, the row-aligned embeddings (None until
      built or loaded) and the cache files. `sources` and `diskSources`
      record, for the proof only, the market each row was encoded from. */
  class EmbeddingIndex {
    const encode: string -> Vector
    const similarity: (Vector, Vector) -> real
    var embeddings: Option<seq<Vector>>
    var indexMap: seq<Market>
    ghost var sources: seq<Market>
    var disk: Option<Cache>
    ghost var diskSources: seq<Market>

    ghost predicate Valid()
      reads this
    {
      (embeddings.Some? ==> Consistent(embeddings.value, indexMap, sources, encode))
      && (disk.Some? ==> Consistent(disk.value.rows, disk.value.index, diskSources, encode))
    }

    /** A new index over the cache files `stored`, written by this code
        with the same encoder. */
    constructor(encoder: string -> Vector, sim: (Vector, Vector) -> real, stored: Option<Cache>, ghost storedSources: seq<Market>)
      requires stored.Some? ==> Consistent(stored.value.rows, stored.value.index, storedSources, encoder)
      ensures Valid()
      ensures encode == encoder && similarity == sim
      ensures embeddings == None && indexMap == [] && disk == stored
    {
      encode := encoder;
      similarity := sim;
      embeddings := None;
      indexMap := [];
      sources := [];
      disk := stored;
      diskSources := storedSources;
    }

    /** `_load_cache`: reads both files when they exist. */
    method LoadCache() returns (hasCache: bool)
      requires Valid()
      modifies this
      ensures Valid()
      ensures hasCache == disk.Some? && disk == old(disk)
      ensures hasCache ==> embeddings == Some(disk.value.rows) && indexMap == disk.value.index
      ensures !hasCache ==> embeddings == old(embeddings) && indexMap == old(indexMap)
    {
      if disk.Some? {
        embeddings := Some(disk.value.rows);
        indexMap := disk.value.index;
        sources := diskSources;
        return true;
      }
      return false;
    }

    /** `_save_cache`: writes both files. */
    method SaveCache()
      requires Valid() && embeddings.Some?
      modifies this
      ensures Valid()
      ensures embeddings == old(embeddings) && indexMap == old(indexMap)
      ensures disk == Some(Cache(embeddings.value, indexMap))
    {
      disk := Some(Cache(embeddings.value, indexMap));
      diskSources := sources;
    }

    /** `build_market_index`: with no cache, encodes every market; with a
        cache, does what `Upkeep` says and, when that is nothing, leaves
        the loaded cache as it is. */
    method BuildMarketIndex(markets: seq<Market>)
      requires Valid()
      modifies this
      ensures Valid()
      ensures old(disk).None? ==>
        embeddings == Some(EncodeAll(encode, markets)) && indexMap == markets && disk == Some(Cache(embeddings.value, indexMap))
      ensures old(disk).Some? && Upkeep(old(disk).value, markets, encode).None? ==>
        embeddings == Some(old(disk).value.rows) && indexMap == old(disk).value.index && disk == old(disk)
      ensures old(disk).Some? && Upkeep(old(disk).value, markets, encode).Some? ==>
        embeddings == Some(Upkeep(old(disk).value, markets, encode).value.rows)
        && indexMap == Upkeep(old(disk).value, markets, encode).value.index
        && disk == Upkeep(old(disk).value, markets, encode)
      ensures disk == Some(Rebuilt(old(disk), markets, encode))
      ensures embeddings == Some(disk.value.rows) && indexMap == disk.value.index
    {
      var hasCache := LoadCache();
      if hasCache {
        ghost var cache := disk.value;
        var update := UpdateCache(embeddings.value, indexMap, markets);
        if update.None? {
          return;
        }
        UpkeepAligned(cache, sources, markets, encode);
        embeddings := Some(update.value.rows);
        indexMap := update.value.index;
        sources := UpkeepSources(cache, sources, markets);
        SaveCache();
        return;
      }
      embeddings := Some(EncodeAll(encode, markets));
      indexMap := markets;
      sources := markets;
      SaveCache();
    }

    /** The cache branch of `build_market_index` over the cached rows and
        market list: nothing when the cache is up to date, otherwise the
        reused rows (then the encodings of the new markets) and the
        matching market list. */
    method UpdateCache(rows: seq<Vector>, index: seq<Market>, markets: seq<Market>) returns (update: Option<Cache>)
      requires |rows| == |index|
      ensures update == Upkeep(Cache(rows, index), markets, encode)
    {
      var rowOf := CachedRows(index);
      var reuseRows, reuseMarkets, newMarkets := PartitionMarkets(markets, rowOf);
      PartitionFacts(markets, rowOf);
      if newMarkets == [] && |reuseRows| == |rowOf| {
        return None;
      }
      if newMarkets == [] {
        return Some(Cache(Select(rows, reuseRows), reuseMarkets));
      }
      var newEmbeddings := EncodeAll(encode, newMarkets);
      return Some(Cache(Select(rows, reuseRows) + newEmbeddings, reuseMarkets + newMarkets));
    }

    /** The `cached_id_to_row` loop. */
    static method CachedRows(index: seq<Market>) returns (rowOf: map<string, nat>)
      ensures rowOf == RowOf(index)
    {
      rowOf := map[];
      var i := 0;
      while i < |index|
        invariant 0 <= i <= |index|
        invariant rowOf == RowOf(index[..i])
      {
        var mid := MarketKey(index[i]);
        if mid != "" {
          rowOf := rowOf[mid := i];
        }
        RowOfSnoc(index, i);
        i := i + 1;
      }
      assert index[..i] == index;
    }

    /** The loop splitting the incoming markets into reused and new. */
    static method PartitionMarkets(markets: seq<Market>, rowOf: map<string, nat>)
      returns (reuseRows: seq<nat>, reuseMarkets: seq<Market>, newMarkets: seq<Market>)
      ensures Split(reuseRows, reuseMarkets, newMarkets) == Partition(markets, rowOf)
    {
      reuseRows, reuseMarkets, newMarkets := [], [], [];
      var i := 0;
      while i < |markets|
        invariant 0 <= i <= |markets|
        invariant Split(reuseRows, reuseMarkets, newMarkets) == Partition(markets[..i], rowOf)
      {
        var m := markets[i];
        var mid := MarketKey(m);
        if mid in rowOf {
          reuseRows := reuseRows + [rowOf[mid]];
          reuseMarkets := reuseMarkets + [m];
        } else {
          newMarkets := newMarkets + [m];
        }
        PartitionSnoc(markets, i, rowOf);
        i := i + 1;
      }
      assert markets[..i] == markets;
    }

    /** `find_matches`: nothing before the index is built; otherwise every
        indexed market scoring at least `threshold` against the headline,
        with its score, highest score first (ties in index order). */
    method FindMatches(headlineText: string, threshold: real) returns (matches: seq<(Market, real)>)
      requires Valid()
      ensures embeddings.None? || |indexMap| == 0 ==> matches == []
      ensures matches == Matches(embeddings, indexMap, encode, similarity, headlineText, threshold)
    {
      if embeddings.None? || |indexMap| == 0 {
        return [];
      }
      var rows := embeddings.value;
      var h := encode(headlineText);
      var scores := seq(|rows|, i requires 0 <= i < |rows| => similarity(h, rows[i]));
      var markets := indexMap;
      assert scores == Scores(rows, |markets|, h, similarity);
      var found := CollectHits(markets, scores, threshold);
      matches := SortByKey(found, ByScore);
    }

    /** The loop over the positions scoring at least `threshold`. */
    static method CollectHits(index: seq<Market>, scores: seq<real>, threshold: real) returns (found: seq<(Market, real)>)
      requires |index| == |scores|
      ensures found == Hits(index, scores, threshold)
    {
      found := [];
      var idx := 0;
      while idx < |scores|
        invariant 0 <= idx <= |scores|
        invariant found == Hits(index[..idx], scores[..idx], threshold)
      {
        if scores[idx] >= threshold {
          found := found + [(index[idx], scores[idx])];
        }
        assert index[..idx + 1][..idx] == index[..idx];
        assert scores[..idx + 1][..idx] == scores[..idx];
        idx := idx + 1;
      }
      assert index[..idx] == index && scores[..idx] == scores;
    }
  }
}
