/** The counting logic of the three report programs: the P&L check
    (src/paper_trading/check.py), the CSV export (src/export/__main__.py)
    and the dashboard (src/dashboard/__main__.py). Their duration
    formatter is the Durations module; printing and CSV writing are not
    modelled. */
module Reports {
  import opened Common
  import opened Records
  import opened Sorting
  import opened OrderBook
  import opened Trader

  /** The label of a result: WIN, LOSS or FLAT by the sign of its P&L. */
  datatype Outcome = Win | Loss | Flat

  function OutcomeOf(pnlUsd: real): (o: Outcome)
    ensures o == Win <==> pnlUsd > 0.0
    ensures o == Loss <==> pnlUsd < 0.0
    ensures o == Flat <==> pnlUsd == 0.0
  {
    if pnlUsd > 0.0 then Win else if pnlUsd < 0.0 then Loss else Flat
  }

  /** `sum(1 for r in results if r.pnl_usd > 0)`. */
  function Wins(rs: seq<CheckResult>): (n: nat)
    ensures n <= |rs|
  {
    if rs == [] then 0 else Wins(rs[..|rs| - 1]) + (if rs[|rs| - 1].pnlUsd > 0.0 then 1 else 0)
  }

  /** `sum(1 for r in results if r.pnl_usd < 0)`. */
  function Losses(rs: seq<CheckResult>): (n: nat)
    ensures n <= |rs|
  {
    if rs == [] then 0 else Losses(rs[..|rs| - 1]) + (if rs[|rs| - 1].pnlUsd < 0.0 then 1 else 0)
  }

  /** The results whose P&L is exactly zero. */
  function BreakEven(rs: seq<CheckResult>): nat
  {
    if rs == [] then 0 else BreakEven(rs[..|rs| - 1]) + (if rs[|rs| - 1].pnlUsd == 0.0 then 1 else 0)
  }

  /** `flat = total - wins - losses`. */
  function FlatCount(rs: seq<CheckResult>): int
  {
    |rs| - Wins(rs) - Losses(rs)
  }

  /** The flat count, computed by subtraction, is exactly the number of
      results with zero P&L, so it is never negative and the three counts
      add up to the total; all three are 0 without results. */
  lemma {:induction false} FlatIsBreakEven(rs: seq<CheckResult>)
    decreases |rs|
    ensures FlatCount(rs) == BreakEven(rs) >= 0
    ensures Wins(rs) + Losses(rs) + FlatCount(rs) == |rs|
    ensures rs == [] ==> Wins(rs) == Losses(rs) == FlatCount(rs) == 0
  {
    if rs != [] {
      FlatIsBreakEven(rs[..|rs| - 1]);
    }
  }

  /** The open and the closed results, each in order. */
  function WithStatus(rs: seq<CheckResult>, s: Status): (r: seq<CheckResult>)
    ensures forall x :: x in r <==> x in rs && x.trade.status == s
  {
    if rs == [] then []
    else
      var n := |rs| - 1;
      WithStatus(rs[..n], s) + (if rs[n].trade.status == s then [rs[n]] else [])
  }

  /** Every result is either open or closed. */
  lemma {:induction false} OpenClosedPartition(rs: seq<CheckResult>)
    decreases |rs|
    ensures |WithStatus(rs, Open)| + |WithStatus(rs, Closed)| == |rs|
  {
    if rs != [] {
      OpenClosedPartition(rs[..|rs| - 1]);
    }
  }

  /** `trade.get("exit_reason", "unknown")`. */
  function ReasonName(t: Trade): string
  {
    match t.exit
    case None => "unknown"
    case Some(e) =>
      match e.reason
      case StopLoss => "stop_loss"
      case TakeProfit => "take_profit"
      case TimeExpired => "time_expired"
  }

  /** The names a tally can hold. */
  const ReasonNames: seq<string> := ["stop_loss", "take_profit", "time_expired", "unknown"]

  /** How many of `rs` have reason `k`. */
  function ReasonCount(rs: seq<CheckResult>, k: string): nat
  {
    if rs == [] then 0 else ReasonCount(rs[..|rs| - 1], k) + (if ReasonName(rs[|rs| - 1].trade) == k then 1 else 0)
  }

  /** The exit-reason tally loop: `reasons[k] = reasons.get(k, 0) + 1`. */
  function Tally(rs: seq<CheckResult>): map<string, nat>
  {
    if rs == [] then map[]
    else
      var m := Tally(rs[..|rs| - 1]);
      var k := ReasonName(rs[|rs| - 1].trade);
      m[k := (if k in m then m[k] else 0) + 1]
  }

  /** The total of a tally over the four names. */
  function TallyTotal(reasons: map<string, nat>): nat
  {
    (if "stop_loss" in reasons then reasons["stop_loss"] else 0)
    + (if "take_profit" in reasons then reasons["take_profit"] else 0)
    + (if "time_expired" in reasons then reasons["time_expired"] else 0)
    + (if "unknown" in reasons then reasons["unknown"] else 0)
  }

  /** The tally holds exactly the reasons that occur, each with its number
      of occurrences, and only the four names. */
  lemma {:induction false} TallyCounts(rs: seq<CheckResult>)
    decreases |rs|
    ensures forall k :: k in Tally(rs) <==> ReasonCount(rs, k) > 0
    ensures forall k :: k in Tally(rs) ==> Tally(rs)[k] == ReasonCount(rs, k)
    ensures forall k :: k in Tally(rs) ==> k in ReasonNames
  {
    if rs != [] {
      TallyCounts(rs[..|rs| - 1]);
    }
  }

  /** The tally adds up to the number of results it counts. */
  lemma {:induction false} TallySumsToCount(rs: seq<CheckResult>)
    decreases |rs|
    ensures TallyTotal(Tally(rs)) == |rs|
  {
    if rs != [] {
      TallySumsToCount(rs[..|rs| - 1]);
    }
  }

  /** The exit-reason loop over the closed results. */
  method TallyExitReasons(closed: seq<CheckResult>) returns (reasons: map<string, nat>)
    ensures reasons == Tally(closed)
    ensures TallyTotal(reasons) == |closed|
    ensures forall k :: k in reasons ==> k in ReasonNames && reasons[k] == ReasonCount(closed, k) > 0
  {
    reasons := map[];
    var i := 0;
    while i < |closed|
      invariant 0 <= i <= |closed|
      invariant reasons == Tally(closed[..i])
    {
      var reason := ReasonName(closed[i].trade);
      reasons := reasons[reason := (if reason in reasons then reasons[reason] else 0) + 1];
      assert closed[..i + 1][..i] == closed[..i];
      i := i + 1;
    }
    assert closed[..i] == closed;
    TallyCounts(closed);
    TallySumsToCount(closed);
  }

  /** `became_trade`: an admitted verdict whose (market id, with "" as the
      fallback, headline) key is among the trades' keys. */
  function BecameTrade(m: MatchResult, tradeKeys: set<Key>): bool
  {
    Admitted(m.assessment) && Key(MarketIdOr(m.market, ""), m.headline.title) in tradeKeys
  }

  /** A match whose step of `log_trades` created a trade counts as having
      become a trade, provided its market has an id; a match with no
      admitted verdict never does. A market with neither id nor condition
      id is logged under "unknown" but looked up under "", so its trade is
      never counted. */
  lemma BecameTradeAfterLogging(l: Ledger, r: MatchResult, id: string, ex: Exchange, now: int)
    ensures var after := Step(l, r, id, ex, now);
      |after.trades| > |l.trades| && (r.market.id.Some? || r.market.conditionId.Some?) ==>
        BecameTrade(r, TradeKeys(after.trades))
    ensures !Admitted(r.assessment) ==> forall keys :: !BecameTrade(r, keys)
    ensures r.market.id.None? && r.market.conditionId.None? ==>
      forall ts: seq<Trade> :: (forall t :: t in ts ==> t.marketId == "unknown") ==> !BecameTrade(r, TradeKeys(ts))
  {
    var after := Step(l, r, id, ex, now);
    if |after.trades| > |l.trades| && (r.market.id.Some? || r.market.conditionId.Some?) {
      StepAdds(l, r, id, ex, now);
      var t := after.trades[|after.trades| - 1];
      assert t in after.trades;
    }
  }

  /** The dashboard's match classification loop. */
  method ClassifyMatches(matches: seq<MatchResult>, tradeKeys: set<Key>) returns (withTrade: nat, withoutTrade: nat)
    ensures withTrade == |set i | 0 <= i < |matches| && BecameTrade(matches[i], tradeKeys)|
    ensures withTrade + withoutTrade == |matches|
  {
    withTrade, withoutTrade := 0, 0;
    var i := 0;
    while i < |matches|
      invariant 0 <= i <= |matches|
      invariant withTrade == |set j | 0 <= j < i && BecameTrade(matches[j], tradeKeys)|
      invariant withTrade + withoutTrade == i
    {
      var m := matches[i];
      var counted := set j | 0 <= j < i && BecameTrade(matches[j], tradeKeys);
      var llm := m.assessment;
      if llm.None? || !llm.value.relevant || ConfidenceOf(llm.value) < ConfidenceThreshold {
        withoutTrade := withoutTrade + 1;
        assert (set j | 0 <= j < i + 1 && BecameTrade(matches[j], tradeKeys)) == counted;
      } else {
        var mid := MarketIdOr(m.market, "");
        var headline := m.headline.title;
        if Key(mid, headline) in tradeKeys {
          withTrade := withTrade + 1;
          assert (set j | 0 <= j < i + 1 && BecameTrade(matches[j], tradeKeys)) == counted + {i};
        } else {
          withoutTrade := withoutTrade + 1;
          assert (set j | 0 <= j < i + 1 && BecameTrade(matches[j], tradeKeys)) == counted;
        }
      }
      i := i + 1;
    }
  }

  /** The trade ids the check reported. */
  function CheckedIds(results: seq<CheckResult>): set<string>
  {
    set r | r in results :: r.trade.tradeId
  }

  /** `extra`: the logged trades whose id the check did not report, in log order. */
  function Extra(trades: seq<Trade>, results: seq<CheckResult>): (extra: seq<Trade>)
    ensures forall t :: t in extra <==> t in trades && t.tradeId !in CheckedIds(results)
    ensures |extra| <= |trades|
  {
    if trades == [] then []
    else
      var n := |trades| - 1;
      Extra(trades[..n], results) + (if trades[n].tradeId in CheckedIds(results) then [] else [trades[n]])
  }

  /** No trade is extra when every trade id was reported. */
  lemma {:induction false} NoExtraWhenAllChecked(trades: seq<Trade>, results: seq<CheckResult>)
    requires forall t :: t in trades ==> t.tradeId in CheckedIds(results)
    decreases |trades|
    ensures Extra(trades, results) == []
  {
    if trades != [] {
      var n := |trades| - 1;
      assert trades[n] in trades;
      forall t | t in trades[..n]
        ensures t.tradeId in CheckedIds(results)
      {
        assert t in trades;
      }
      NoExtraWhenAllChecked(trades[..n], results);
    }
  }

  /** The number of rows the export reports for trades. */
  function TradeRowCount(trades: seq<Trade>, results: seq<CheckResult>): nat
  {
    |results| + |Extra(trades, results)|
  }

  /** The export compares the check's results with the trade list the
      check itself leaves behind; every trade there was reported, so
      `extra` is always empty and the row count is the number of results. */
  lemma ExtraIsEmptyAfterCheck(trades: seq<Trade>, lookup: map<string, Market>, ex: Exchange, now: int)
    ensures var results := CheckAll(trades, lookup, ex, now);
      Extra(TradesOf(results), results) == [] && TradeRowCount(TradesOf(results), results) == |results|
  {
    var results := CheckAll(trades, lookup, ex, now);
    var after := TradesOf(results);
    forall t | t in after
      ensures t.tradeId in CheckedIds(results)
    {
      var i :| 0 <= i < |after| && after[i] == t;
      assert results[i] in results;
    }
    NoExtraWhenAllChecked(after, results);
  }

  /** The dashboard's five most recent results, latest timestamp first. */
  function MostRecent(rs: seq<CheckResult>): (r: seq<CheckResult>)
    ensures |r| == if 5 < |rs| then 5 else |rs|
    ensures forall i, j :: 0 <= i < j < |r| ==> r[i].trade.timestamp >= r[j].trade.timestamp
    ensures multiset(r) <= multiset(rs)
    ensures forall x, y :: x in r && y in multiset(rs) - multiset(r) ==> x.trade.timestamp >= y.trade.timestamp
  {
    Top(rs, (r: CheckResult) => -(r.trade.timestamp as real), 5)
  }
}
