/** The headline store (src/signals/store.py): a dictionary from url to
    headline, insertion-ordered as Python dictionaries are, persisted as
    one headline file. `refresh` adds unseen urls only (first seen wins);
    `load` merges the file in, a later entry for a url replacing an
    earlier one. */
module Signals {
  import opened Common
  import opened Records
  import opened Sorting

  /** The dictionary as a value: its keys in insertion order and its entries. */
  datatype UrlDict = UrlDict(order: seq<string>, table: map<string, Headline>)

  /** The shape every dictionary of the store keeps: keys listed once, the
      listed keys are the stored ones, and each headline sits under its own
      non-empty url. */
  ghost predicate WellFormed(d: UrlDict)
  {
    (forall i, j :: 0 <= i < j < |d.order| ==> d.order[i] != d.order[j])
    && (forall u :: u in d.table <==> u in d.order)
    && (forall u :: u in d.table ==> u != "" && d.table[u].url == u)
  }

  /** `d[url] = h`: a new key goes to the end, an existing key keeps its place. */
  function Put(d: UrlDict, url: string, h: Headline): UrlDict
  {
    if url in d.table then UrlDict(d.order, d.table[url := h])
    else UrlDict(d.order + [url], d.table[url := h])
  }

  /** The merge loop of `load`: every headline with a url is stored under it. */
  function Merge(d: UrlDict, hs: seq<Headline>): UrlDict
    decreases |hs|
  {
    if hs == [] then d
    else Merge(if hs[0].url != "" then Put(d, hs[0].url, hs[0]) else d, hs[1..])
  }

  /** The inner loop of `refresh` over one source's headlines: a headline
      with no url or with a url already stored is ignored; an accepted one
      is stamped with the fetch time. */
  function AddNew(d: UrlDict, hs: seq<Headline>, now: int): UrlDict
    decreases |hs|
  {
    if hs == [] then d
    else
      var h := hs[0];
      var next := if h.url == "" || h.url in d.table then d else Put(d, h.url, h.(fetchedAt := Some(now)));
      AddNew(next, hs[1..], now)
  }

  /** The outer loop of `refresh`, one batch of headlines per source. */
  function AddAll(d: UrlDict, batches: seq<seq<Headline>>, now: int): UrlDict
    decreases |batches|
  {
    if batches == [] then d else AddAll(AddNew(d, batches[0], now), batches[1..], now)
  }

  /** The dictionary after `load` from the headline file (none: unchanged). */
  function Loaded(d: UrlDict, file: Option<seq<Headline>>): UrlDict
  {
    match file
    case None => d
    case Some(hs) => Merge(d, hs)
  }

  /** The urls of `hs` that a refresh of `d` adds. */
  function NewUrls(d: UrlDict, hs: seq<Headline>): set<string>
  {
    set h | h in hs && h.url != "" && h.url !in d.table :: h.url
  }

  lemma PutWellFormed(d: UrlDict, url: string, h: Headline)
    requires WellFormed(d) && url != "" && h.url == url
    ensures WellFormed(Put(d, url, h))
    ensures forall u :: u in Put(d, url, h).table <==> u in d.table || u == url
    ensures d.order <= Put(d, url, h).order
  {
  }

  lemma {:induction false} MergeWellFormed(d: UrlDict, hs: seq<Headline>)
    requires WellFormed(d)
    decreases |hs|
    ensures WellFormed(Merge(d, hs))
  {
    if hs != [] {
      if hs[0].url != "" {
        PutWellFormed(d, hs[0].url, hs[0]);
      }
      MergeWellFormed(if hs[0].url != "" then Put(d, hs[0].url, hs[0]) else d, hs[1..]);
    }
  }

  /** `i` is the last position in `hs` of a headline with url `u`. */
  ghost predicate LastWithUrl(hs: seq<Headline>, u: string, i: int)
  {
    0 <= i < |hs| && hs[i].url == u && forall j :: i < j < |hs| ==> hs[j].url != u
  }

  /** `load` never removes a url; a url the file mentions ends up holding
      the file's last headline for it; any other url keeps its entry. */
  lemma {:induction false} MergeLastWins(d: UrlDict, hs: seq<Headline>)
    decreases |hs|
    ensures forall u :: u in d.table ==> u in Merge(d, hs).table
    ensures forall u, i :: u != "" && LastWithUrl(hs, u, i) ==> u in Merge(d, hs).table && Merge(d, hs).table[u] == hs[i]
    ensures forall u :: u in d.table && (forall j :: 0 <= j < |hs| ==> hs[j].url != u) ==> Merge(d, hs).table[u] == d.table[u]
  {
    if hs != [] {
      var next := if hs[0].url != "" then Put(d, hs[0].url, hs[0]) else d;
      var rest := hs[1..];
      MergeLastWins(next, rest);
      forall u, i | u != "" && LastWithUrl(hs, u, i)
        ensures u in Merge(d, hs).table && Merge(d, hs).table[u] == hs[i]
      {
        if i > 0 {
          assert LastWithUrl(rest, u, i - 1);
        } else {
          assert forall j :: 0 <= j < |rest| ==> rest[j].url != u by {
            forall j | 0 <= j < |rest|
              ensures rest[j].url != u
            {
              assert rest[j] == hs[j + 1];
            }
          }
        }
      }
      forall u | u in d.table && (forall j :: 0 <= j < |hs| ==> hs[j].url != u)
        ensures u in Merge(d, hs).table && Merge(d, hs).table[u] == d.table[u]
      {
        assert hs[0].url != u;
        assert forall j :: 0 <= j < |rest| ==> rest[j].url != u by {
          forall j | 0 <= j < |rest|
            ensures rest[j].url != u
          {
            assert rest[j] == hs[j + 1];
          }
        }
      }
    }
  }

  lemma {:induction false} AddNewWellFormed(d: UrlDict, hs: seq<Headline>, now: int)
    requires WellFormed(d)
    decreases |hs|
    ensures WellFormed(AddNew(d, hs, now))
  {
    if hs != [] {
      var h := hs[0];
      if !(h.url == "" || h.url in d.table) {
        PutWellFormed(d, h.url, h.(fetchedAt := Some(now)));
      }
      AddNewWellFormed(if h.url == "" || h.url in d.table then d else Put(d, h.url, h.(fetchedAt := Some(now))), hs[1..], now);
    }
  }

  /** A refresh never overwrites or reorders what is stored (first seen
      wins), and it adds exactly the new urls of the batch, so the size grows
      by their number. */
  lemma {:induction false} AddNewFirstSeenWins(d: UrlDict, hs: seq<Headline>, now: int)
    decreases |hs|
    ensures forall u :: u in d.table ==> u in AddNew(d, hs, now).table && AddNew(d, hs, now).table[u] == d.table[u]
    ensures d.order <= AddNew(d, hs, now).order
    ensures forall u :: u in AddNew(d, hs, now).table <==> u in d.table || u in NewUrls(d, hs)
  {
    if hs != [] {
      var h := hs[0];
      var next := if h.url == "" || h.url in d.table then d else Put(d, h.url, h.(fetchedAt := Some(now)));
      AddNewFirstSeenWins(next, hs[1..], now);
      forall u
        ensures u in AddNew(d, hs, now).table <==> u in d.table || u in NewUrls(d, hs)
      {
        if u in NewUrls(d, hs) && u != h.url {
          var g :| g in hs && g.url != "" && g.url !in d.table && g.url == u;
          assert g in hs[1..];
          assert u in NewUrls(next, hs[1..]);
        }
        if u in NewUrls(next, hs[1..]) {
          var g :| g in hs[1..] && g.url != "" && g.url !in next.table && g.url == u;
          assert g in hs;
        }
      }
    }
  }

  /** `i` is the first position in `hs` of a headline with url `u`. */
  ghost predicate FirstWithUrl(hs: seq<Headline>, u: string, i: int)
  {
    0 <= i < |hs| && hs[i].url == u && forall j :: 0 <= j < i ==> hs[j].url != u
  }

  /** A url new to the store ends up holding the first headline of the
      batch carrying it, stamped with the fetch time; later headlines with
      the same url are ignored. */
  lemma {:induction false} AddNewFirstWins(d: UrlDict, hs: seq<Headline>, now: int)
    decreases |hs|
    ensures forall u, i :: u != "" && u !in d.table && FirstWithUrl(hs, u, i) ==>
      u in AddNew(d, hs, now).table && AddNew(d, hs, now).table[u] == hs[i].(fetchedAt := Some(now))
  {
    if hs != [] {
      var h := hs[0];
      var rest := hs[1..];
      var next := if h.url == "" || h.url in d.table then d else Put(d, h.url, h.(fetchedAt := Some(now)));
      AddNewFirstWins(next, rest, now);
      AddNewFirstSeenWins(next, rest, now);
      forall u, i | u != "" && u !in d.table && FirstWithUrl(hs, u, i)
        ensures u in AddNew(d, hs, now).table && AddNew(d, hs, now).table[u] == hs[i].(fetchedAt := Some(now))
      {
        if i > 0 {
          assert h.url != u && u !in next.table;
          assert FirstWithUrl(rest, u, i - 1) by {
            forall j | 0 <= j < i - 1
              ensures rest[j].url != u
            {
              assert rest[j] == hs[j + 1];
            }
          }
        }
      }
    }
  }

  /** A refresh of `d` by `hs` adds `|NewUrls(d, hs)|` entries. */
  lemma AddNewCount(d: UrlDict, hs: seq<Headline>, now: int)
    ensures |AddNew(d, hs, now).table| == |d.table| + |NewUrls(d, hs)|
  {
    AddNewFirstSeenWins(d, hs, now);
    var r := AddNew(d, hs, now);
    assert r.table.Keys == d.table.Keys + NewUrls(d, hs);
    assert d.table.Keys * NewUrls(d, hs) == {};
  }

  lemma {:induction false} AddAllWellFormed(d: UrlDict, batches: seq<seq<Headline>>, now: int)
    requires WellFormed(d)
    decreases |batches|
    ensures WellFormed(AddAll(d, batches, now))
    ensures forall u :: u in d.table ==> u in AddAll(d, batches, now).table && AddAll(d, batches, now).table[u] == d.table[u]
    ensures |AddAll(d, batches, now).table| >= |d.table|
  {
    if batches != [] {
      AddNewWellFormed(d, batches[0], now);
      AddNewFirstSeenWins(d, batches[0], now);
      AddNewCount(d, batches[0], now);
      AddAllWellFormed(AddNew(d, batches[0], now), batches[1..], now);
    }
  }

  /** Some batch holds a headline with url `u`. */
  ghost predicate InSomeBatch(batches: seq<seq<Headline>>, u: string)
  {
    exists b, j :: 0 <= b < |batches| && 0 <= j < |batches[b]| && batches[b][j].url == u
  }

  /** A full refresh stores exactly the urls stored before plus every
      non-empty url of any batch. */
  lemma {:induction false} AddAllKeys(d: UrlDict, batches: seq<seq<Headline>>, now: int)
    decreases |batches|
    ensures forall u :: u in AddAll(d, batches, now).table <==> u in d.table || (u != "" && InSomeBatch(batches, u))
  {
    if batches != [] {
      var first := batches[0];
      var rest := batches[1..];
      var d1 := AddNew(d, first, now);
      AddNewFirstSeenWins(d, first, now);
      AddAllKeys(d1, rest, now);
      forall u
        ensures u in AddAll(d, batches, now).table <==> u in d.table || (u != "" && InSomeBatch(batches, u))
      {
        if u in NewUrls(d, first) {
          var h :| h in first && h.url != "" && h.url !in d.table && h.url == u;
          var j :| 0 <= j < |first| && first[j] == h;
          assert batches[0][j].url == u;
        }
        if InSomeBatch(rest, u) {
          var b, j :| 0 <= b < |rest| && 0 <= j < |rest[b]| && rest[b][j].url == u;
          assert batches[b + 1][j].url == u;
        }
        if u != "" && u !in d.table && InSomeBatch(batches, u) {
          var b, j :| 0 <= b < |batches| && 0 <= j < |batches[b]| && batches[b][j].url == u;
          if b == 0 {
            assert first[j] in first;
            assert u in NewUrls(d, first);
          } else {
            assert rest[b - 1][j].url == u;
          }
        }
      }
    }
  }

  /** `i` in batch `b` is the first headline with url `u` over all batches. */
  ghost predicate FirstInBatches(batches: seq<seq<Headline>>, u: string, b: int, i: int)
  {
    0 <= b < |batches| && FirstWithUrl(batches[b], u, i)
    && forall c, j :: 0 <= c < b && 0 <= j < |batches[c]| ==> batches[c][j].url != u
  }

  /** An entry stored before a refresh is kept. */
  lemma {:induction false} AddAllKeeps(d: UrlDict, batches: seq<seq<Headline>>, now: int)
    decreases |batches|
    ensures forall u :: u in d.table ==> u in AddAll(d, batches, now).table && AddAll(d, batches, now).table[u] == d.table[u]
  {
    if batches != [] {
      AddNewFirstSeenWins(d, batches[0], now);
      AddAllKeeps(AddNew(d, batches[0], now), batches[1..], now);
    }
  }

  /** Over a full refresh, a url new to the store holds the first headline
      carrying it, source by source, stamped with the fetch time. */
  lemma {:induction false} AddAllFirstWins(d: UrlDict, batches: seq<seq<Headline>>, now: int)
    decreases |batches|
    ensures forall u, b, i :: u != "" && u !in d.table && FirstInBatches(batches, u, b, i) ==>
      u in AddAll(d, batches, now).table && AddAll(d, batches, now).table[u] == batches[b][i].(fetchedAt := Some(now))
  {
    if batches != [] {
      var first := batches[0];
      var rest := batches[1..];
      var d1 := AddNew(d, first, now);
      AddNewFirstWins(d, first, now);
      AddNewFirstSeenWins(d, first, now);
      AddAllKeeps(d1, rest, now);
      AddAllFirstWins(d1, rest, now);
      forall u, b, i | u != "" && u !in d.table && FirstInBatches(batches, u, b, i)
        ensures u in AddAll(d, batches, now).table && AddAll(d, batches, now).table[u] == batches[b][i].(fetchedAt := Some(now))
      {
        if b > 0 {
          assert u !in NewUrls(d, first) by {
            forall h | h in first
              ensures h.url != u
            {
              var j :| 0 <= j < |first| && first[j] == h;
              assert batches[0][j] == h;
            }
          }
          assert FirstInBatches(rest, u, b - 1, i) by {
            forall c, j | 0 <= c < b - 1 && 0 <= j < |rest[c]|
              ensures rest[c][j].url != u
            {
              assert rest[c] == batches[c + 1];
            }
          }
        }
      }
    }
  }

  /** A sequence without repeats has as many distinct elements as entries. */
  lemma {:induction false} DistinctCount(s: seq<string>)
    requires forall i, j :: 0 <= i < j < |s| ==> s[i] != s[j]
    decreases |s|
    ensures |set x | x in s| == |s|
  {
    if s != [] {
      var rest := s[1..];
      DistinctCount(rest);
      assert (set x | x in s) == (set x | x in rest) + {s[0]};
      assert s[0] !in rest by {
        forall k | 0 <= k < |rest|
          ensures rest[k] != s[0]
        {
          assert rest[k] == s[k + 1];
        }
      }
    }
  }

  /** In a well-formed dictionary the number of entries is the number of
      distinct urls listed. */
  lemma CountIsDistinctUrls(d: UrlDict)
    requires WellFormed(d)
    ensures |d.table| == |d.order|
  {
    DistinctCount(d.order);
    assert d.table.Keys == set x | x in d.order;
  }

  /** The headline store: the dictionary (`order` and `table`) and the
      headline file (`file`, None while it does not exist). The sources'
      fetched headlines and the clock are passed in. */
  class SignalStore {
    var order: seq<string>
    var table: map<string, Headline>
    var file: Option<seq<Headline>>

    function Dict(): UrlDict
      reads this
    {
      UrlDict(order, table)
    }

    ghost predicate Valid()
      reads this
    {
      WellFormed(Dict())
    }

    constructor(stored: Option<seq<Headline>>)
      ensures Valid() && order == [] && table == map[] && file == stored
    {
      order := [];
      table := map[];
      file := stored;
    }

    /** `count`: the number of stored urls. */
    function Count(): (n: nat)
      reads this
      requires Valid()
      ensures n == |order| == |table|
    {
      CountIsDistinctUrls(Dict());
      |table|
    }

    /** `headlines`: the stored headlines in insertion order. */
    function Headlines(): (hs: seq<Headline>)
      reads this
      requires Valid()
      ensures |hs| == |order|
      ensures forall i :: 0 <= i < |hs| ==> hs[i] == table[order[i]] && hs[i].url == order[i]
    {
      var keys, entries := order, table;
      seq(|keys|, i requires 0 <= i < |keys| && keys[i] in entries => entries[keys[i]])
    }

    /** `get_most_recent(n)`: the n (or all, when fewer) stored headlines
        with the latest publication instants, latest first; ties keep
        insertion order. */
    function GetMostRecent(n: nat): (r: seq<Headline>)
      reads this
      requires Valid()
      ensures |r| == if n < Count() then n else Count()
      ensures forall i, j :: 0 <= i < j < |r| ==> r[i].published >= r[j].published
      ensures multiset(r) <= multiset(Headlines())
      ensures forall x, y :: x in r && y in multiset(Headlines()) - multiset(r) ==> x.published >= y.published
    {
      Top(Headlines(), (h: Headline) => -(h.published as real), n)
    }

    /** `load`: merges the file's headlines in without clearing. */
    method Load()
      requires Valid()
      modifies this
      ensures Valid()
      ensures Dict() == Loaded(old(Dict()), old(file)) && file == old(file)
    {
      if file.None? {
        return;
      }
      var hs := file.value;
      ghost var start := Dict();
      var i := 0;
      while i < |hs|
        invariant 0 <= i <= |hs|
        invariant Valid() && file == old(file)
        invariant Merge(start, hs) == Merge(Dict(), hs[i..])
      {
        var h := hs[i];
        assert hs[i..][0] == h && hs[i..][1..] == hs[i + 1..];
        var url := h.url;
        if url != "" {
          PutWellFormed(Dict(), url, h);
          if url !in table {
            order := order + [url];
          }
          table := table[url := h];
        }
        i := i + 1;
      }
    }

    /** `_save`: writes the stored headlines, in insertion order. */
    method Save()
      requires Valid()
      modifies this
      ensures Valid() && file == Some(Headlines())
      ensures order == old(order) && table == old(table)
    {
      file := Some(Headlines());
    }

    /** `refresh`: loads the file, adds the unseen urls of every source's
        batch, saves, and returns how many urls were added. */
    method Refresh(fetched: seq<seq<Headline>>, now: int) returns (newCount: int)
      requires Valid()
      modifies this
      ensures Valid()
      ensures Dict() == AddAll(Loaded(old(Dict()), old(file)), fetched, now)
      ensures newCount == Count() - |Loaded(old(Dict()), old(file)).table| && newCount >= 0
      ensures file == Some(Headlines())
    {
      Load();
      var before := |table|;
      ghost var start := Dict();
      var s := 0;
      while s < |fetched|
        invariant 0 <= s <= |fetched|
        invariant Valid()
        invariant AddAll(start, fetched, now) == AddAll(Dict(), fetched[s..], now)
      {
        var batch := fetched[s];
        assert fetched[s..][0] == batch && fetched[s..][1..] == fetched[s + 1..];
        ghost var atBatch := Dict();
        var k := 0;
        while k < |batch|
          invariant 0 <= k <= |batch|
          invariant Valid()
          invariant AddNew(atBatch, batch, now) == AddNew(Dict(), batch[k..], now)
        {
          var h := batch[k];
          assert batch[k..][0] == h && batch[k..][1..] == batch[k + 1..];
          var url := h.url;
          if url != "" && url !in table {
            var stamped := h.(fetchedAt := Some(now));
            PutWellFormed(Dict(), url, stamped);
            order := order + [url];
            table := table[url := stamped];
          }
          k := k + 1;
        }
        assert batch[k..] == [];
        s := s + 1;
      }
      assert fetched[s..] == [];
      AddAllWellFormed(start, fetched, now);
      CountIsDistinctUrls(Dict());
      newCount := |table| - before;
      Save();
    }
  }
}
