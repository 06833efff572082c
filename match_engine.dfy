/** The match engine (src/matching/engine.py): for every headline, the
    markets the embedding index finds similar, each paired with the
    judgment service's verdict when a credential is configured; the
    results are written to the match log. The judgment service is an
    opaque function that may fail (None). */
module Matching {
  import opened Common
  import opened Records
  import opened Signals
  import opened Embeddings

  /** How many of the most recent headlines a run uses by default. */
  const RecentCount: nat := 20

  /** The market cache as the engine uses it: the list in memory and the
      cache file (None while it does not exist). */
  class MarketStore {
    var markets: seq<Market>
    var file: Option<seq<Market>>

    constructor(stored: Option<seq<Market>>)
      ensures markets == [] && file == stored
    {
      markets := [];
      file := stored;
    }

    /** `load`: replaces the list by the file's, when there is a file. */
    method Load()
      modifies this
      ensures markets == (if old(file).Some? then old(file).value else old(markets))
      ensures file == old(file)
    {
      if file.Some? {
        markets := file.value;
      }
    }
  }

  /** Whether a verdict is requested, and the judgment service. */
  datatype Judging = Judging(hasKey: bool, judge: (Headline, Market) -> Option<Assessment>)

  /** The `llm_assessment` of a pair: None without a credential, otherwise
      the service's answer as it is. */
  function Verdict(j: Judging, h: Headline, m: Market): Option<Assessment>
  {
    if j.hasKey then j.judge(h, m) else None
  }

  /** The results for one headline: one per candidate, in candidate order. */
  function PairsFor(h: Headline, cands: seq<(Market, real)>, j: Judging): (rs: seq<MatchResult>)
    ensures |rs| == |cands|
    ensures forall k :: 0 <= k < |cands| ==>
      rs[k] == MatchResult(h, cands[k].0, cands[k].1, Verdict(j, h, cands[k].0))
  {
    seq(|cands|, k requires 0 <= k < |cands| => MatchResult(h, cands[k].0, cands[k].1, Verdict(j, h, cands[k].0)))
  }

  /** The nested loop of `run`: headline by headline, in order. */
  function RunResults(hs: seq<Headline>, query: string -> seq<(Market, real)>, j: Judging): seq<MatchResult>
    decreases |hs|
  {
    if hs == [] then [] else PairsFor(hs[0], query(hs[0].title), j) + RunResults(hs[1..], query, j)
  }

  /** `total_candidates`. */
  function TotalCandidates(hs: seq<Headline>, query: string -> seq<(Market, real)>): nat
    decreases |hs|
  {
    if hs == [] then 0 else |query(hs[0].title)| + TotalCandidates(hs[1..], query)
  }

  /** The results of a run over `a + b` are those over `a` followed by
      those over `b`: results are grouped headline by headline. */
  lemma {:induction false} RunResultsConcat(a: seq<Headline>, b: seq<Headline>, query: string -> seq<(Market, real)>, j: Judging)
    decreases |a|
    ensures RunResults(a + b, query, j) == RunResults(a, query, j) + RunResults(b, query, j)
  {
    if a != [] {
      assert (a + b)[0] == a[0] && (a + b)[1..] == a[1..] + b;
      RunResultsConcat(a[1..], b, query, j);
    } else {
      assert a + b == b;
    }
  }

  /** Every candidate yields exactly one result, judged or not; each result
      pairs a headline of the run with one of its candidates; without a
      credential no result carries a verdict, and with one every result
      carries the service's answer for its pair. */
  lemma {:induction false} RunResultsShape(hs: seq<Headline>, query: string -> seq<(Market, real)>, j: Judging)
    decreases |hs|
    ensures |RunResults(hs, query, j)| == TotalCandidates(hs, query)
    ensures forall r :: r in RunResults(hs, query, j) ==>
      r.headline in hs && (r.market, r.score) in query(r.headline.title) && r.assessment == Verdict(j, r.headline, r.market)
  {
    if hs != [] {
      RunResultsShape(hs[1..], query, j);
      forall r | r in RunResults(hs, query, j)
        ensures r.headline in hs && (r.market, r.score) in query(r.headline.title)
        ensures r.assessment == Verdict(j, r.headline, r.market)
      {
        var first := PairsFor(hs[0], query(hs[0].title), j);
        if r in first {
          var k :| 0 <= k < |first| && first[k] == r;
          assert query(hs[0].title)[k] == (r.market, r.score);
        } else {
          assert r in RunResults(hs[1..], query, j);
        }
      }
    }
  }

  /** Without a credential no result carries a verdict. */
  lemma NoCredentialNoVerdict(hs: seq<Headline>, query: string -> seq<(Market, real)>, judge: (Headline, Market) -> Option<Assessment>)
    ensures forall r :: r in RunResults(hs, query, Judging(false, judge)) ==> r.assessment.None?
  {
    RunResultsShape(hs, query, Judging(false, judge));
  }

  /** The similarity query of a built index, as a function of the text. */
  function QueryOf(rows: Option<seq<Vector>>, index: seq<Market>, encode: string -> Vector,
                   similarity: (Vector, Vector) -> real, threshold: real): string -> seq<(Market, real)>
  {
    text => Matches(rows, index, encode, similarity, text, threshold)
  }

  /** The saved match log: its count and the results. */
  datatype MatchLog = MatchLog(count: nat, matches: seq<MatchResult>)

  /** The engine, over the market cache, the headline store and the
      embedding index it owns; `apiKey` is the credential found in the
      environment (None or empty: none). */
  class MatchEngine {
    const markets: MarketStore
    const signals: SignalStore
    const index: EmbeddingIndex
    const threshold: real
    const apiKey: Option<string>
    const judge: (Headline, Market) -> Option<Assessment>
    var matchLog: Option<MatchLog>

    /** The engine and its three stores are distinct objects, and each
        store keeps its own invariant. */
    ghost predicate Valid()
      reads signals, index
    {
      (this as object) != (markets as object) && (this as object) != (signals as object)
      && (this as object) != (index as object)
      && (markets as object) != (signals as object) && (markets as object) != (index as object)
      && (signals as object) != (index as object)
      && signals.Valid() && index.Valid()
    }

    function Judgment(): Judging
    {
      Judging(apiKey.Some? && apiKey.value != "", judge)
    }

    /** `find_matches` on the engine's index with the engine's threshold. */
    function Query(): string -> seq<(Market, real)>
      reads index
    {
      QueryOf(index.embeddings, index.indexMap, index.encode, index.similarity, threshold)
    }

    constructor(marketStore: MarketStore, signalStore: SignalStore, embeddingIndex: EmbeddingIndex,
                similarityThreshold: real, key: Option<string>, service: (Headline, Market) -> Option<Assessment>)
      requires signalStore.Valid() && embeddingIndex.Valid()
      ensures Valid() && matchLog == None
      ensures markets == marketStore && signals == signalStore && index == embeddingIndex
      ensures threshold == similarityThreshold && apiKey == key && judge == service
    {
      markets := marketStore;
      signals := signalStore;
      index := embeddingIndex;
      threshold := similarityThreshold;
      apiKey := key;
      judge := service;
      matchLog := None;
    }

    /** `run(headlines)`: the market list is reloaded only when empty; with
        no headlines given, the headline store is loaded when empty and
        its 20 most recent headlines are used; the index is built once;
        then one result per (headline, candidate) pair, and the log holds
        exactly these results. */
    method Run(given: Option<seq<Headline>>) returns (results: seq<MatchResult>)
      requires Valid()
      modifies this, markets, signals, index
      ensures Valid()
      ensures markets.markets == if old(markets.markets) == [] && old(markets.file).Some? then old(markets.file).value else old(markets.markets)
      ensures given.Some? || old(signals.order) != [] ==> signals.Dict() == old(signals.Dict())
      ensures given.None? && old(signals.order) == [] ==> signals.Dict() == Loaded(old(signals.Dict()), old(signals.file))
      ensures old(index.disk).None? ==> index.indexMap == markets.markets
      ensures index.disk == Some(Rebuilt(old(index.disk), markets.markets, index.encode))
      ensures index.embeddings == Some(index.disk.value.rows) && index.indexMap == index.disk.value.index
      ensures markets.file == old(markets.file) && signals.file == old(signals.file)
      ensures var hs := if given.Some? then given.value else signals.GetMostRecent(RecentCount);
        results == RunResults(hs, Query(), Judgment())
      ensures matchLog == Some(MatchLog(|results|, results))
    {
      if markets.markets == [] {
        markets.Load();
      }
      var headlines := ChooseHeadlines(given);
      index.BuildMarketIndex(markets.markets);
      results := MatchAll(headlines);
      matchLog := Some(MatchLog(|results|, results));
    }

    /** The headlines of a run: those given, else the 20 most recent in
        the headline store, which is loaded first when empty. */
    method ChooseHeadlines(given: Option<seq<Headline>>) returns (headlines: seq<Headline>)
      requires signals.Valid()
      modifies signals
      ensures signals.Valid() && signals.file == old(signals.file)
      ensures given.Some? || old(signals.order) != [] ==> signals.Dict() == old(signals.Dict())
      ensures given.None? && old(signals.order) == [] ==> signals.Dict() == Loaded(old(signals.Dict()), old(signals.file))
      ensures headlines == if given.Some? then given.value else signals.GetMostRecent(RecentCount)
    {
      if given.Some? {
        return given.value;
      }
      if signals.Headlines() == [] {
        signals.Load();
      }
      headlines := signals.GetMostRecent(RecentCount);
    }

    /** The headline loop of `run`, over the built index. */
    method MatchAll(headlines: seq<Headline>) returns (results: seq<MatchResult>)
      requires index.Valid()
      ensures results == RunResults(headlines, Query(), Judgment())
      ensures |results| == TotalCandidates(headlines, Query())
    {
      ghost var query := Query();
      results := [];
      var totalCandidates := 0;
      var i := 0;
      while i < |headlines|
        invariant 0 <= i <= |headlines|
        invariant results == RunResults(headlines[..i], query, Judgment())
        invariant totalCandidates == TotalCandidates(headlines[..i], query) == |results|
      {
        var headline := headlines[i];
        var candidates := index.FindMatches(headline.title, threshold);
        assert candidates == query(headline.title);
        totalCandidates := totalCandidates + |candidates|;
        var judged := JudgeAll(headline, candidates);
        results := results + judged;
        RunSnoc(headlines, i, query, Judgment());
        i := i + 1;
      }
      assert headlines[..i] == headlines;
    }

    /** The candidate loop of `run` for one headline. */
    method JudgeAll(headline: Headline, candidates: seq<(Market, real)>) returns (results: seq<MatchResult>)
      ensures results == PairsFor(headline, candidates, Judgment())
    {
      results := [];
      var k := 0;
      while k < |candidates|
        invariant 0 <= k <= |candidates|
        invariant results == PairsFor(headline, candidates[..k], Judgment())
      {
        var (market, score) := candidates[k];
        var assessment: Option<Assessment> := None;
        if apiKey.Some? && apiKey.value != "" {
          assessment := judge(headline, market);
        }
        results := results + [MatchResult(headline, market, score, assessment)];
        k := k + 1;
      }
      assert candidates[..k] == candidates;
    }
  }

  /** The run over one more headline adds that headline's results. */
  lemma RunSnoc(hs: seq<Headline>, i: nat, query: string -> seq<(Market, real)>, j: Judging)
    requires i < |hs|
    ensures RunResults(hs[..i + 1], query, j) == RunResults(hs[..i], query, j) + PairsFor(hs[i], query(hs[i].title), j)
    ensures TotalCandidates(hs[..i + 1], query) == TotalCandidates(hs[..i], query) + |query(hs[i].title)|
  {
    assert hs[..i + 1] == hs[..i] + [hs[i]];
    RunResultsConcat(hs[..i], [hs[i]], query, j);
    RunTotalConcat(hs[..i], [hs[i]], query);
  }

  lemma {:induction false} RunTotalConcat(a: seq<Headline>, b: seq<Headline>, query: string -> seq<(Market, real)>)
    decreases |a|
    ensures TotalCandidates(a + b, query) == TotalCandidates(a, query) + TotalCandidates(b, query)
  {
    if a != [] {
      assert (a + b)[0] == a[0] && (a + b)[1..] == a[1..] + b;
      RunTotalConcat(a[1..], b, query);
    } else {
      assert a + b == b;
    }
  }
}
