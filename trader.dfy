/** The paper-trading engine (src/paper_trading/trader.py): trade creation
    from admitted matches (`log_trades`), with de-duplication on
    (market id, headline) and the pricing fallback chain, and re-evaluation
    of open trades against exit rules (`check_trades`). */
module Trader {
  import opened Common
  import opened Records
  import opened OrderBook

  // ---------------------------------------------------------------------
  // First-match lookups on a market's aligned lists.

  /** The first index `i < limit` of `outcomes` whose name equals
      `direction` case-insensitively. */
  function FirstMatch(outcomes: seq<string>, direction: string, limit: nat): (r: Option<nat>)
    ensures r.Some? ==>
      r.value < limit && r.value < |outcomes| && SameWord(outcomes[r.value], direction)
      && forall j :: 0 <= j < r.value ==> !SameWord(outcomes[j], direction)
    ensures r.None? ==> forall j :: 0 <= j < |outcomes| && j < limit ==> !SameWord(outcomes[j], direction)
  {
    if outcomes == [] || limit == 0 then None
    else if SameWord(outcomes[0], direction) then Some(0)
    else
      match FirstMatch(outcomes[1..], direction, limit - 1)
      case None => None
      case Some(j) => Some(j + 1)
  }

  /** `_get_token_id`: the token of the first outcome named `direction`,
      provided the token list reaches that position. */
  function GetTokenId(m: Market, direction: string): Option<string>
  {
    match FirstMatch(m.outcomes, direction, |m.clobTokenIds|)
    case None => None
    case Some(i) => Some(m.clobTokenIds[i])
  }

  /** `_get_outcome_price`: the price of the first outcome named
      `direction` within the zipped range; None when there is none or it
      is not a number. A later outcome of the same name is never read. */
  function GetOutcomePrice(m: Market, direction: string): Option<real>
  {
    match FirstMatch(m.outcomes, direction, |m.outcomePrices|)
    case None => None
    case Some(i) => m.outcomePrices[i].number
  }

  // ---------------------------------------------------------------------
  // Records of the trade log.

  datatype Status = Open | Closed

  datatype ExitReason = StopLoss | TakeProfit | TimeExpired

  /** The exit fields a trade receives when it closes. */
  datatype ExitRecord = ExitRecord(
    exitPrice: real,
    exitTimestamp: int,
    reason: ExitReason,
    pnlUsd: real,
    pnlPct: real,
    holdSeconds: int)

  /** A paper trade; `exit` holds the exit fields once written. */
  datatype Trade = Trade(
    tradeId: string,
    timestamp: int,
    marketId: string,
    marketTitle: string,
    headline: string,
    direction: string,
    entryPrice: real,
    positionSize: real,
    shares: real,
    embeddingScore: real,
    confidence: real,
    reasoning: string,
    tokenId: Option<string>,
    status: Status,
    exit: Option<ExitRecord>)

  /** A match that could not be filled; its reason is always insufficient
      liquidity. */
  datatype SkipEntry = SkipEntry(
    timestamp: int,
    marketId: string,
    marketTitle: string,
    headline: string,
    direction: string,
    embeddingScore: real,
    confidence: real)

  /** The trade log: trades and skip records. */
  datatype Ledger = Ledger(trades: seq<Trade>, skipped: seq<SkipEntry>)

  function TradeKey(t: Trade): Key
  {
    Key(t.marketId, t.headline)
  }

  function SkipKey(s: SkipEntry): Key
  {
    Key(s.marketId, s.headline)
  }

  function TradeKeys(trades: seq<Trade>): set<Key>
  {
    set t | t in trades :: TradeKey(t)
  }

  function SkipKeys(skipped: seq<SkipEntry>): set<Key>
  {
    set s | s in skipped :: SkipKey(s)
  }

  function Keys(l: Ledger): set<Key>
  {
    TradeKeys(l.trades) + SkipKeys(l.skipped)
  }

  // ---------------------------------------------------------------------
  // Trade creation.

  /** What the pricing chain decides for one admitted match. */
  datatype Entry = EnterAt(price: real) | SkipLiquidity | NoPrice

  /** The pricing chain: an insufficient-liquidity verdict is final and
      never falls back; any other failure falls back to a positive cached
      outcome price; a computed price is used only when positive. */
  function ChooseEntry(pricing: Pricing, fallback: Option<real>): (e: Entry)
    ensures pricing == Failed(InsufficientLiquidity) <==> e == SkipLiquidity
    ensures e.EnterAt? ==> e.price > 0.0
    ensures pricing.Priced? ==> (e.EnterAt? <==> pricing.price > 0.0) && (e.EnterAt? ==> e.price == pricing.price)
    ensures pricing.Failed? && pricing.reason != InsufficientLiquidity ==>
      (e.EnterAt? <==> fallback.Some? && fallback.value > 0.0) && (e.EnterAt? ==> fallback == Some(e.price))
  {
    match pricing
    case Failed(InsufficientLiquidity) => SkipLiquidity
    case Failed(_) =>
      if fallback.Some? && fallback.value > 0.0 then EnterAt(fallback.value) else NoPrice
    case Priced(p) =>
      if p > 0.0 then EnterAt(p) else NoPrice
  }

  function EntryFor(m: Market, direction: string, ex: Exchange): Entry
  {
    ChooseEntry(EntryPrice(GetTokenId(m, direction), ex), GetOutcomePrice(m, direction))
  }

  /** The key of a match: the market id (falling back to "unknown") and
      the headline title. */
  function MatchKey(r: MatchResult): Key
  {
    Key(MarketIdOr(r.market, "unknown"), r.headline.title)
  }

  function NewTrade(id: string, now: int, r: MatchResult, a: Assessment, price: real, ex: Exchange): Trade
    requires price > 0.0
  {
    Trade(id, now, MatchKey(r).marketId, r.market.question, r.headline.title, a.direction,
      price, PositionSize, PositionSize / price, r.score, ConfidenceOf(a), a.reasoning,
      GetTokenId(r.market, a.direction), Open, None)
  }

  function NewSkip(now: int, r: MatchResult, a: Assessment): SkipEntry
  {
    SkipEntry(now, MatchKey(r).marketId, r.market.question, r.headline.title, a.direction, r.score, ConfidenceOf(a))
  }

  /** One iteration of `log_trades`. */
  function Step(l: Ledger, r: MatchResult, id: string, ex: Exchange, now: int): Ledger
  {
    if !Admitted(r.assessment) || MatchKey(r) in Keys(l) then l
    else
      var a := r.assessment.value;
      match EntryFor(r.market, a.direction, ex)
      case SkipLiquidity => l.(skipped := l.skipped + [NewSkip(now, r, a)])
      case NoPrice => l
      case EnterAt(p) => l.(trades := l.trades + [NewTrade(id, now, r, a, p, ex)])
  }

  /** `log_trades` over the match results `rs`, the i-th using trade id `ids[i]`. */
  function LogAll(l: Ledger, rs: seq<MatchResult>, ids: seq<string>, ex: Exchange, now: int): Ledger
    requires |ids| == |rs|
    decreases |rs|
  {
    if rs == [] then l else LogAll(Step(l, rs[0], ids[0], ex, now), rs[1..], ids[1..], ex, now)
  }

  /** Running `log_trades` over the results from the i-th on is one step
      on the i-th and then the run over the rest. */
  lemma LogAllUnfold(l: Ledger, rs: seq<MatchResult>, ids: seq<string>, i: nat, ex: Exchange, now: int)
    requires |ids| == |rs| && i < |rs|
    ensures LogAll(l, rs[i..], ids[i..], ex, now) == LogAll(Step(l, rs[i], ids[i], ex, now), rs[i + 1..], ids[i + 1..], ex, now)
  {
    assert rs[i..][0] == rs[i] && rs[i..][1..] == rs[i + 1..];
    assert ids[i..][0] == ids[i] && ids[i..][1..] == ids[i + 1..];
  }

  /** A log whose keys are pairwise distinct across trades and skips. */
  ghost predicate UniqueKeys(l: Ledger)
  {
    (forall i, j :: 0 <= i < j < |l.trades| ==> TradeKey(l.trades[i]) != TradeKey(l.trades[j]))
    && (forall i, j :: 0 <= i < j < |l.skipped| ==> SkipKey(l.skipped[i]) != SkipKey(l.skipped[j]))
    && (forall i, j :: 0 <= i < |l.trades| && 0 <= j < |l.skipped| ==> TradeKey(l.trades[i]) != SkipKey(l.skipped[j]))
  }

  /** What every trade that `log_trades` creates looks like. */
  ghost predicate FreshTrade(t: Trade)
  {
    t.status == Open && t.exit == None && t.entryPrice > 0.0
    && t.positionSize == PositionSize && t.shares == PositionSize / t.entryPrice
  }

  /** What one step adds: nothing, one skip record or one open trade,
      always under the match's key and only when that key was absent. */
  lemma StepAdds(l: Ledger, r: MatchResult, id: string, ex: Exchange, now: int)
    ensures var l' := Step(l, r, id, ex, now);
      || l' == l
      || (Admitted(r.assessment) && MatchKey(r) !in Keys(l)
          && l'.trades == l.trades && |l'.skipped| == |l.skipped| + 1
          && l'.skipped[..|l.skipped|] == l.skipped
          && SkipKey(l'.skipped[|l.skipped|]) == MatchKey(r)
          && EntryPrice(GetTokenId(r.market, r.assessment.value.direction), ex) == Failed(InsufficientLiquidity))
      || (Admitted(r.assessment) && MatchKey(r) !in Keys(l)
          && l'.skipped == l.skipped && |l'.trades| == |l.trades| + 1
          && l'.trades[..|l.trades|] == l.trades
          && TradeKey(l'.trades[|l.trades|]) == MatchKey(r)
          && FreshTrade(l'.trades[|l.trades|]))
  {
    var l' := Step(l, r, id, ex, now);
    if l' != l {
      var a := r.assessment.value;
      match EntryFor(r.market, a.direction, ex)
      case SkipLiquidity =>
        assert l'.skipped[..|l.skipped|] == l.skipped;
      case NoPrice =>
      case EnterAt(p) =>
        assert l'.trades[..|l.trades|] == l.trades;
    }
  }

  lemma TradeKeysAppend(ts: seq<Trade>, t: Trade)
    ensures TradeKeys(ts + [t]) == TradeKeys(ts) + {TradeKey(t)}
  {
    assert forall x :: x in ts + [t] <==> x in ts || x == t;
  }

  lemma SkipKeysAppend(ss: seq<SkipEntry>, s: SkipEntry)
    ensures SkipKeys(ss + [s]) == SkipKeys(ss) + {SkipKey(s)}
  {
    assert forall x :: x in ss + [s] <==> x in ss || x == s;
  }

  /** Appending a skip record under a key the log does not hold keeps
      the keys unique and adds exactly that key. */
  lemma AppendSkipKeys(l: Ledger, s: SkipEntry)
    requires SkipKey(s) !in Keys(l)
    ensures var l' := l.(skipped := l.skipped + [s]);
      (UniqueKeys(l) ==> UniqueKeys(l')) && Keys(l') == Keys(l) + {SkipKey(s)}
  {
    SkipKeysAppend(l.skipped, s);
    if UniqueKeys(l) {
      forall i | 0 <= i < |l.skipped|
        ensures SkipKey(l.skipped[i]) != SkipKey(s)
      {
        assert l.skipped[i] in l.skipped;
      }
      forall i | 0 <= i < |l.trades|
        ensures TradeKey(l.trades[i]) != SkipKey(s)
      {
        assert l.trades[i] in l.trades;
      }
    }
  }

  /** Appending a trade under a key the log does not hold keeps the keys
      unique and adds exactly that key. */
  lemma AppendTradeKeys(l: Ledger, t: Trade)
    requires TradeKey(t) !in Keys(l)
    ensures var l' := l.(trades := l.trades + [t]);
      (UniqueKeys(l) ==> UniqueKeys(l')) && Keys(l') == Keys(l) + {TradeKey(t)}
  {
    TradeKeysAppend(l.trades, t);
    if UniqueKeys(l) {
      forall i | 0 <= i < |l.trades|
        ensures TradeKey(l.trades[i]) != TradeKey(t)
      {
        assert l.trades[i] in l.trades;
      }
      forall j | 0 <= j < |l.skipped|
        ensures SkipKey(l.skipped[j]) != TradeKey(t)
      {
        assert l.skipped[j] in l.skipped;
      }
    }
  }

  /** A step keeps the keys of the log unique and adds at most the
      match's key. */
  lemma StepKeys(l: Ledger, r: MatchResult, id: string, ex: Exchange, now: int)
    ensures var l' := Step(l, r, id, ex, now);
      (UniqueKeys(l) ==> UniqueKeys(l'))
      && (l' == l || Keys(l') == Keys(l) + {MatchKey(r)})
  {
    if Admitted(r.assessment) && MatchKey(r) !in Keys(l) {
      var a := r.assessment.value;
      match EntryFor(r.market, a.direction, ex)
      case SkipLiquidity =>
        AppendSkipKeys(l, NewSkip(now, r, a));
      case NoPrice =>
      case EnterAt(p) =>
        AppendTradeKeys(l, NewTrade(id, now, r, a, p, ex));
    }
  }

  /** `l2` holds every trade and skip record of `l`, unchanged and in
      place, possibly followed by more. */
  ghost predicate Extends(l: Ledger, l2: Ledger)
  {
    |l.trades| <= |l2.trades| && l2.trades[..|l.trades|] == l.trades
    && |l.skipped| <= |l2.skipped| && l2.skipped[..|l.skipped|] == l.skipped
  }

  lemma ExtendsTrans(a: Ledger, b: Ledger, c: Ledger)
    requires Extends(a, b) && Extends(b, c)
    ensures Extends(a, c)
  {
    assert c.trades[..|a.trades|] == c.trades[..|b.trades|][..|a.trades|];
    assert c.skipped[..|a.skipped|] == c.skipped[..|b.skipped|][..|a.skipped|];
  }

  /** The records `log_trades` keeps, and a bound on what it adds. */
  lemma {:induction false} LogAllExtends(l: Ledger, rs: seq<MatchResult>, ids: seq<string>, ex: Exchange, now: int)
    requires |ids| == |rs|
    decreases |rs|
    ensures var l' := LogAll(l, rs, ids, ex, now);
      Extends(l, l') && Keys(l) <= Keys(l')
      && |l'.trades| + |l'.skipped| <= |l.trades| + |l.skipped| + |rs|
  {
    if rs != [] {
      var m := Step(l, rs[0], ids[0], ex, now);
      StepAdds(l, rs[0], ids[0], ex, now);
      StepKeys(l, rs[0], ids[0], ex, now);
      LogAllExtends(m, rs[1..], ids[1..], ex, now);
      ExtendsTrans(l, m, LogAll(m, rs[1..], ids[1..], ex, now));
    }
  }

  /** Every trade `log_trades` creates is open, priced above 0 and holds
      $25 worth of shares. */
  lemma {:induction false} LogAllFreshTrades(l: Ledger, rs: seq<MatchResult>, ids: seq<string>, ex: Exchange, now: int)
    requires |ids| == |rs|
    decreases |rs|
    ensures var l' := LogAll(l, rs, ids, ex, now);
      forall i :: |l.trades| <= i < |l'.trades| ==> FreshTrade(l'.trades[i])
  {
    if rs != [] {
      var m := Step(l, rs[0], ids[0], ex, now);
      StepAdds(l, rs[0], ids[0], ex, now);
      LogAllExtends(m, rs[1..], ids[1..], ex, now);
      LogAllFreshTrades(m, rs[1..], ids[1..], ex, now);
      var l' := LogAll(m, rs[1..], ids[1..], ex, now);
      forall i | |l.trades| <= i < |m.trades|
        ensures l'.trades[i] == m.trades[i]
      {
        assert l'.trades[i] == l'.trades[..|m.trades|][i];
      }
    }
  }

  /** `log_trades` only appends: every earlier trade and skip record is
      kept unchanged and in place, no key is lost, and every trade it
      creates is open, priced above 0 and holds $25 worth of shares. */
  lemma LogAllAppends(l: Ledger, rs: seq<MatchResult>, ids: seq<string>, ex: Exchange, now: int)
    requires |ids| == |rs|
    ensures var l' := LogAll(l, rs, ids, ex, now);
      |l.trades| <= |l'.trades| && l'.trades[..|l.trades|] == l.trades
      && |l.skipped| <= |l'.skipped| && l'.skipped[..|l.skipped|] == l.skipped
      && Keys(l) <= Keys(l')
      && (forall i :: |l.trades| <= i < |l'.trades| ==> FreshTrade(l'.trades[i]))
      && |l'.trades| + |l'.skipped| <= |l.trades| + |l.skipped| + |rs|
  {
    LogAllExtends(l, rs, ids, ex, now);
    LogAllFreshTrades(l, rs, ids, ex, now);
  }

  /** Key uniqueness across trades and skips holds after `log_trades`,
      including between entries created in the same call. */
  lemma {:induction false} LogAllKeepsUniqueKeys(l: Ledger, rs: seq<MatchResult>, ids: seq<string>, ex: Exchange, now: int)
    requires |ids| == |rs| && UniqueKeys(l)
    decreases |rs|
    ensures UniqueKeys(LogAll(l, rs, ids, ex, now))
  {
    if rs != [] {
      StepKeys(l, rs[0], ids[0], ex, now);
      LogAllKeepsUniqueKeys(Step(l, rs[0], ids[0], ex, now), rs[1..], ids[1..], ex, now);
    }
  }

  /** A match already handled against a log `l` has nothing left to do
      against a log `m` holding every key the handling produced. */
  lemma StepSettles(l: Ledger, r: MatchResult, id: string, now: int, m: Ledger, id2: string, now2: int, ex: Exchange)
    requires Keys(Step(l, r, id, ex, now)) <= Keys(m)
    ensures Step(m, r, id2, ex, now2) == m
  {
    var k := MatchKey(r);
    if Admitted(r.assessment) && k !in Keys(m) {
      StepKeys(l, r, id, ex, now);
      StepAdds(l, r, id, ex, now);
      assert Step(l, r, id, ex, now) == l;
      assert k !in Keys(l);
      var a := r.assessment.value;
      assert EntryFor(r.market, a.direction, ex) == NoPrice;
    }
  }

  lemma {:induction false} LogAllSettles(l: Ledger, rs: seq<MatchResult>, ids: seq<string>, now: int,
                                        m: Ledger, ids2: seq<string>, now2: int, ex: Exchange)
    requires |ids| == |rs| && |ids2| == |rs|
    requires Keys(LogAll(l, rs, ids, ex, now)) <= Keys(m)
    decreases |rs|
    ensures forall k :: 0 <= k < |rs| ==> Step(m, rs[k], ids2[k], ex, now2) == m
  {
    if rs != [] {
      var l1 := Step(l, rs[0], ids[0], ex, now);
      LogAllExtends(l1, rs[1..], ids[1..], ex, now);
      StepSettles(l, rs[0], ids[0], now, m, ids2[0], now2, ex);
      LogAllSettles(l1, rs[1..], ids[1..], now, m, ids2[1..], now2, ex);
      forall k | 1 <= k < |rs|
        ensures Step(m, rs[k], ids2[k], ex, now2) == m
      {
        assert rs[k] == rs[1..][k - 1] && ids2[k] == ids2[1..][k - 1];
      }
    }
  }

  lemma {:induction false} LogAllFixed(m: Ledger, rs: seq<MatchResult>, ids: seq<string>, ex: Exchange, now: int)
    requires |ids| == |rs|
    requires forall k :: 0 <= k < |rs| ==> Step(m, rs[k], ids[k], ex, now) == m
    ensures LogAll(m, rs, ids, ex, now) == m
  {
    if rs != [] {
      assert Step(m, rs[0], ids[0], ex, now) == m;
      forall k | 0 <= k < |rs| - 1
        ensures Step(m, rs[1..][k], ids[1..][k], ex, now) == m
      {
        assert rs[1..][k] == rs[k + 1] && ids[1..][k] == ids[k + 1];
      }
      LogAllFixed(m, rs[1..], ids[1..], ex, now);
    }
  }

  /** De-duplication makes `log_trades` idempotent: running it again on
      the same match results and the same order books, with any fresh
      ids and at any later time, creates nothing. */
  lemma LogTwice(l: Ledger, rs: seq<MatchResult>, ids: seq<string>, now: int, ids2: seq<string>, now2: int, ex: Exchange)
    requires |ids| == |rs| && |ids2| == |rs|
    ensures LogAll(LogAll(l, rs, ids, ex, now), rs, ids2, ex, now2) == LogAll(l, rs, ids, ex, now)
  {
    var m := LogAll(l, rs, ids, ex, now);
    LogAllSettles(l, rs, ids, now, m, ids2, now2, ex);
    LogAllFixed(m, rs, ids2, ex, now2);
  }

  // ---------------------------------------------------------------------
  // Trade re-evaluation.

  const StopLossPct: real := 5.0
  const TakeProfitPct: real := 3.0
  const MinHoldForTakeProfit: int := 15 * 60
  const MaxHold: int := 2 * 60 * 60

  /** `{id or conditionId: market}` over the markets with a non-empty id;
      a later market with the same id replaces an earlier one. */
  function MarketLookup(markets: seq<Market>): map<string, Market>
    decreases |markets|
  {
    if markets == [] then map[]
    else
      var m := markets[|markets| - 1];
      var rest := MarketLookup(markets[..|markets| - 1]);
      var id := MarketIdOr(m, "");
      if id != "" then rest[id := m] else rest
  }

  /** `i` is the last position of `markets` whose id is `k`. */
  ghost predicate LastWithId(markets: seq<Market>, k: string, i: int)
  {
    0 <= i < |markets| && MarketIdOr(markets[i], "") == k
    && forall j :: i < j < |markets| ==> MarketIdOr(markets[j], "") != k
  }

  /** The lookup holds exactly the non-empty ids, each mapped to the last
      market carrying it. */
  lemma {:induction false} MarketLookupSpec(markets: seq<Market>)
    decreases |markets|
    ensures forall k :: k in MarketLookup(markets) <==>
      k != "" && exists i :: 0 <= i < |markets| && MarketIdOr(markets[i], "") == k
    ensures forall k, i :: k != "" && LastWithId(markets, k, i) ==> MarketLookup(markets)[k] == markets[i]
  {
    if markets != [] {
      var n := |markets| - 1;
      var init := markets[..n];
      MarketLookupSpec(init);
      forall k, i | k != "" && LastWithId(markets, k, i) && i < n
        ensures LastWithId(init, k, i)
      {
      }
      forall k | k in MarketLookup(markets)
        ensures exists i :: 0 <= i < |markets| && MarketIdOr(markets[i], "") == k
      {
        if k in MarketLookup(init) {
          var i :| 0 <= i < |init| && MarketIdOr(init[i], "") == k;
          assert markets[i] == init[i];
        } else {
          assert MarketIdOr(markets[n], "") == k;
        }
      }
      forall k | k != "" && exists i :: 0 <= i < |markets| && MarketIdOr(markets[i], "") == k
        ensures k in MarketLookup(markets)
      {
        var i :| 0 <= i < |markets| && MarketIdOr(markets[i], "") == k;
        if i < n {
          assert init[i] == markets[i];
        }
      }
    }
  }

  /** The price a check uses for an open trade: the cached market's
      outcome price for the trade's direction, else a live midpoint quote
      for its token, else (nothing usable, or not positive) the entry
      price, so that the trade reads as flat. */
  function CurrentPrice(t: Trade, lookup: map<string, Market>, ex: Exchange): real
  {
    var cached := if t.marketId in lookup then GetOutcomePrice(lookup[t.marketId], t.direction) else None;
    var quoted :=
      if cached.None? && t.tokenId.Some? && t.tokenId.value != "" && t.tokenId.value in ex.midpoints
      then Some(ex.midpoints[t.tokenId.value])
      else cached;
    if quoted.None? || quoted.value <= 0.0 then t.entryPrice else quoted.value
  }

  /** `(current_price - entry) * shares`. */
  function PnlUsd(price: real, t: Trade): real
  {
    (price - t.entryPrice) * t.shares
  }

  /** `(current_price - entry) / entry * 100`, or 0 for a non-positive entry. */
  function PnlPct(price: real, entry: real): real
  {
    if entry > 0.0 then (price - entry) / entry * 100.0 else 0.0
  }

  /** The exit rules in priority order: stop-loss, then take-profit after
      the minimum hold, then expiry. */
  function ExitRule(pct: real, held: int): (r: Option<ExitReason>)
    ensures r == Some(StopLoss) <==> pct <= -StopLossPct
    ensures r == Some(TakeProfit) <==>
      -StopLossPct < pct && pct >= TakeProfitPct && held >= MinHoldForTakeProfit
    ensures r == Some(TimeExpired) <==>
      -StopLossPct < pct && held >= MaxHold && !(pct >= TakeProfitPct && held >= MinHoldForTakeProfit)
    ensures held >= MaxHold ==> r.Some?
    ensures r.None? ==>
      (-StopLossPct < pct && held < MaxHold && (pct < TakeProfitPct || held < MinHoldForTakeProfit))
  {
    if pct <= -StopLossPct then Some(StopLoss)
    else if pct >= TakeProfitPct && held >= MinHoldForTakeProfit then Some(TakeProfit)
    else if held >= MaxHold then Some(TimeExpired)
    else None
  }

  /** One entry of the list `check_trades` returns. */
  datatype CheckResult = CheckResult(trade: Trade, currentPrice: real, pnlUsd: real, pnlPct: real, held: int)

  /** A closed trade is reported from its stored exit fields, each
      defaulting as the source's `get` calls do. */
  function ClosedReport(t: Trade): CheckResult
  {
    match t.exit
    case Some(e) => CheckResult(t, e.exitPrice, e.pnlUsd, e.pnlPct, e.holdSeconds)
    case None => CheckResult(t, t.entryPrice, 0.0, 0.0, 0)
  }

  /** One iteration of `check_trades`. */
  function Evaluate(t: Trade, lookup: map<string, Market>, ex: Exchange, now: int): (r: CheckResult)
    ensures t.status == Closed ==> r.trade == t
    ensures r.trade == t || (t.status == Open && r.trade.status == Closed && r.trade.exit.Some?
      && r.trade == t.(status := Closed, exit := r.trade.exit))
  {
    if t.status == Closed then ClosedReport(t)
    else
      var price := CurrentPrice(t, lookup, ex);
      var usd := PnlUsd(price, t);
      var pct := PnlPct(price, t.entryPrice);
      var held := now - t.timestamp;
      match ExitRule(pct, held)
      case None => CheckResult(t, price, usd, pct, held)
      case Some(why) =>
        var exit := Some(ExitRecord(price, now, why, usd, pct, held));
        var closed := t.(status := Closed, exit := exit);
        assert closed.exit == exit && closed.status == Closed;
        CheckResult(closed, price, usd, pct, held)
  }

  /** `check_trades` over the trades of the log, in log order. */
  function CheckAll(trades: seq<Trade>, lookup: map<string, Market>, ex: Exchange, now: int): (rs: seq<CheckResult>)
    ensures |rs| == |trades|
  {
    seq(|trades|, i requires 0 <= i < |trades| => Evaluate(trades[i], lookup, ex, now))
  }

  function TradesOf(rs: seq<CheckResult>): (ts: seq<Trade>)
    ensures |ts| == |rs|
  {
    seq(|rs|, i requires 0 <= i < |rs| => rs[i].trade)
  }

  /** Once a check has closed a trade (or found it closed), every later
      check reports exactly the same result, whatever the markets, the
      quotes and the time: the exit snapshot is frozen. */
  lemma ClosedSnapshotIsFinal(t: Trade, lookup: map<string, Market>, ex: Exchange, now: int,
                             lookup2: map<string, Market>, ex2: Exchange, now2: int)
    requires Evaluate(t, lookup, ex, now).trade.status == Closed
    ensures t.status == Open ==>
      Evaluate(Evaluate(t, lookup, ex, now).trade, lookup2, ex2, now2) == Evaluate(t, lookup, ex, now)
    ensures t.status == Closed ==> Evaluate(t, lookup2, ex2, now2) == Evaluate(t, lookup, ex, now)
  {
  }

  /** A trade that cannot be priced reads as flat (0%), so neither
      stop-loss nor take-profit can fire: it closes only by expiry. */
  lemma FlatTradeOnlyExpires(t: Trade, lookup: map<string, Market>, ex: Exchange, now: int)
    requires t.status == Open && t.entryPrice > 0.0
    requires CurrentPrice(t, lookup, ex) == t.entryPrice
    ensures var r := Evaluate(t, lookup, ex, now);
      r.pnlPct == 0.0 && r.pnlUsd == 0.0
      && (r.trade.status == Closed <==> now - t.timestamp >= MaxHold)
      && (r.trade.status == Closed ==> r.trade.exit.value.reason == TimeExpired)
  {
  }

  /** Every open trade held for two hours or more is closed by a check. */
  lemma ExpiredTradeCloses(t: Trade, lookup: map<string, Market>, ex: Exchange, now: int)
    requires t.status == Open && now - t.timestamp >= MaxHold
    ensures Evaluate(t, lookup, ex, now).trade.status == Closed
  {
  }

  /** Once a check has closed a trade, a second check over the stored
      trades reports that trade exactly as the first did. */
  lemma {:induction false} CheckAllTwice(trades: seq<Trade>, lookup: map<string, Market>, ex: Exchange, now: int,
                                         lookup2: map<string, Market>, ex2: Exchange, now2: int)
    ensures var first := CheckAll(trades, lookup, ex, now);
      var second := CheckAll(TradesOf(first), lookup2, ex2, now2);
      forall i :: 0 <= i < |trades| && first[i].trade.status == Closed ==> second[i] == first[i]
  {
    var first := CheckAll(trades, lookup, ex, now);
    forall i | 0 <= i < |trades| && first[i].trade.status == Closed
      ensures CheckAll(TradesOf(first), lookup2, ex2, now2)[i] == first[i]
    {
      ClosedSnapshotIsFinal(trades[i], lookup, ex, now, lookup2, ex2, now2);
    }
  }

  /** A YES trade entered at 0.50 in market "m1". */
  function ExampleTrade(): Trade
  {
    Trade("t1", 0, "m1", "Q", "H", "YES", 0.5, PositionSize, 50.0, 0.9, 0.8, "", None, Open, None)
  }

  /** Market "m1" with its YES outcome cached at `yes`. */
  function ExampleLookup(yes: real): map<string, Market>
  {
    map["m1" := Market(Some("m1"), None, "Q", "", ["Yes", "No"], [PriceCell("", Some(yes)), PriceCell("", Some(1.0 - yes))], [])]
  }

  /** At -6% after five minutes the stop-loss fires; at +4% after five
      minutes the trade stays open (the minimum hold has not passed); at
      +4% after sixteen minutes the take-profit fires. */
  lemma ExitExamples(ex: Exchange)
    ensures Evaluate(ExampleTrade(), ExampleLookup(0.47), ex, 300).trade.exit
      == Some(ExitRecord(0.47, 300, StopLoss, -1.5, -6.0, 300))
    ensures Evaluate(ExampleTrade(), ExampleLookup(0.52), ex, 300) == CheckResult(ExampleTrade(), 0.52, 1.0, 4.0, 300)
    ensures Evaluate(ExampleTrade(), ExampleLookup(0.52), ex, 960).trade.exit.value.reason == TakeProfit
  {
    assert SameWord("Yes", "YES");
  }

  /** Some trade that was open before a check is closed after it. */
  ghost predicate ClosesAny(before: seq<Trade>, after: seq<Trade>, n: int)
  {
    exists j :: 0 <= j < n && j < |before| && j < |after| && before[j].status == Open && after[j].status == Closed
  }

  /** The contents of the trade file: `data.get("trades", [])` and
      `data.get("skipped_trades", [])`, both empty when there is no file. */
  function Stored(file: Option<Ledger>): Ledger
  {
    match file
    case None => Ledger([], [])
    case Some(l) => l
  }

  /** The market lookup loop of `check_trades`. */
  method BuildLookup(markets: seq<Market>) returns (lookup: map<string, Market>)
    ensures lookup == MarketLookup(markets)
  {
    lookup := map[];
    var i := 0;
    while i < |markets|
      invariant 0 <= i <= |markets|
      invariant lookup == MarketLookup(markets[..i])
    {
      var m := markets[i];
      var id := MarketIdOr(m, "");
      if id != "" {
        lookup := lookup[id := m];
      }
      assert markets[..i + 1][..i] == markets[..i];
      i := i + 1;
    }
    assert markets[..i] == markets;
  }

  /** The elements of an optional value, as a list of zero or one. */
  function Listed<T>(o: Option<T>): (xs: seq<T>)
    ensures o.Some? ==> xs == [o.value]
    ensures o.None? ==> xs == []
  {
    if o.Some? then [o.value] else []
  }

  /** The body of the `log_trades` loop for one match result, given the
      keys already logged as trades and as skips: the skip record or the
      trade it adds, if any. Appending them to a log with those keys is
      exactly one `Step` of any log `l` with those keys. */
  method LogOne(r: MatchResult, id: string, existingKeys: set<Key>, skippedKeys: set<Key>, ex: Exchange, now: int,
                ghost l: Ledger)
    returns (trade: Option<Trade>, skip: Option<SkipEntry>)
    requires TradeKeys(l.trades) == existingKeys && SkipKeys(l.skipped) == skippedKeys
    ensures trade.None? || skip.None?
    ensures trade.Some? ==> TradeKey(trade.value) == MatchKey(r) && FreshTrade(trade.value)
    ensures skip.Some? ==> SkipKey(skip.value) == MatchKey(r)
    ensures Step(l, r, id, ex, now) == Ledger(l.trades + Listed(trade), l.skipped + Listed(skip))
  {
    trade, skip := None, None;
    var llm := r.assessment;
    if !Admitted(llm) {
      return;
    }
    var key := MatchKey(r);
    if key in existingKeys || key in skippedKeys {
      return;
    }
    var direction := llm.value.direction;
    var tokenId := GetTokenId(r.market, direction);
    var pricing := ComputeEntryPrice(tokenId, ex);
    var entryPrice: Option<real> := if pricing.Priced? then Some(pricing.price) else None;
    var insufficient := pricing == Failed(InsufficientLiquidity);
    if entryPrice.None? && !insufficient {
      var fallback := GetOutcomePrice(r.market, direction);
      if fallback.Some? && fallback.value > 0.0 {
        entryPrice := fallback;
      }
    }
    if insufficient {
      skip := Some(NewSkip(now, r, llm.value));
    } else if entryPrice.Some? && entryPrice.value > 0.0 {
      trade := Some(NewTrade(id, now, r, llm.value, entryPrice.value, ex));
    }
  }

  /** The loop of `log_trades` over the match results, from the log
      `start`: the new log and the trades and skip records it added. */
  method LogLoop(start: Ledger, results: seq<MatchResult>, ids: seq<string>, ex: Exchange, now: int)
    returns (logged: Ledger, newTrades: seq<Trade>, newSkipped: seq<SkipEntry>)
    requires |ids| == |results|
    ensures logged == LogAll(start, results, ids, ex, now)
    ensures logged.trades == start.trades + newTrades && logged.skipped == start.skipped + newSkipped
  {
    var trades, skipped := start.trades, start.skipped;
    var existingKeys := TradeKeys(trades);
    var skippedKeys := SkipKeys(skipped);
    newTrades := [];
    newSkipped := [];
    var i := 0;
    while i < |results|
      invariant 0 <= i <= |results|
      invariant existingKeys == TradeKeys(trades) && skippedKeys == SkipKeys(skipped)
      invariant trades == start.trades + newTrades && skipped == start.skipped + newSkipped
      invariant LogAll(start, results, ids, ex, now) == LogAll(Ledger(trades, skipped), results[i..], ids[i..], ex, now)
    {
      ghost var before := Ledger(trades, skipped);
      LogAllUnfold(before, results, ids, i, ex, now);
      var trade, skip := LogOne(results[i], ids[i], existingKeys, skippedKeys, ex, now, before);
      if skip.Some? {
        SkipKeysAppend(skipped, skip.value);
        skippedKeys := skippedKeys + {SkipKey(skip.value)};
      }
      if trade.Some? {
        TradeKeysAppend(trades, trade.value);
        existingKeys := existingKeys + {TradeKey(trade.value)};
      }
      newSkipped := newSkipped + Listed(skip);
      skipped := skipped + Listed(skip);
      newTrades := newTrades + Listed(trade);
      trades := trades + Listed(trade);
      i := i + 1;
    }
    assert results[i..] == [] && ids[i..] == [];
    logged := Ledger(trades, skipped);
  }

  /** The body of the `check_trades` loop for one trade: its report, and
      whether this check closes it. */
  method CheckOne(trade: Trade, lookup: map<string, Market>, ex: Exchange, now: int)
    returns (result: CheckResult, closes: bool)
    ensures result == Evaluate(trade, lookup, ex, now)
    ensures closes <==> trade.status == Open && result.trade.status == Closed
  {
    if trade.status == Closed {
      return ClosedReport(trade), false;
    }
    var current: Option<real> := None;
    if trade.marketId in lookup {
      current := GetOutcomePrice(lookup[trade.marketId], trade.direction);
    }
    if current.None? && trade.tokenId.Some? && trade.tokenId.value != "" {
      if trade.tokenId.value in ex.midpoints {
        current := Some(ex.midpoints[trade.tokenId.value]);
      }
    }
    var price := if current.None? || current.value <= 0.0 then trade.entryPrice else current.value;
    assert price == CurrentPrice(trade, lookup, ex);
    var pnlUsd := PnlUsd(price, trade);
    var pnlPct := PnlPct(price, trade.entryPrice);
    var held := now - trade.timestamp;
    var exitReason: Option<ExitReason> := None;
    if pnlPct <= -StopLossPct {
      exitReason := Some(StopLoss);
    } else if pnlPct >= TakeProfitPct && held >= MinHoldForTakeProfit {
      exitReason := Some(TakeProfit);
    } else if held >= MaxHold {
      exitReason := Some(TimeExpired);
    }
    assert exitReason == ExitRule(pnlPct, held);
    var reported := trade;
    closes := exitReason.Some?;
    if closes {
      reported := trade.(status := Closed, exit := Some(ExitRecord(price, now, exitReason.value, pnlUsd, pnlPct, held)));
    }
    result := CheckResult(reported, price, pnlUsd, pnlPct, held);
  }

  /** The trade loop of `check_trades`, over a copy of the trade list:
      each trade is evaluated in order, a trade that closes is replaced
      by its closed record, and `changed` records whether any did. */
  method CheckLoop(start: seq<Trade>, lookup: map<string, Market>, ex: Exchange, now: int)
    returns (results: seq<CheckResult>, updated: seq<Trade>, changed: bool)
    ensures results == CheckAll(start, lookup, ex, now)
    ensures updated == TradesOf(results)
    ensures changed <==> ClosesAny(start, updated, |updated|)
  {
    results := [];
    updated := start;
    changed := false;
    var i := 0;
    while i < |updated|
      invariant 0 <= i <= |updated| && |updated| == |start|
      invariant results == CheckAll(start, lookup, ex, now)[..i]
      invariant updated[..i] == TradesOf(results) && updated[i..] == start[i..]
      invariant changed <==> ClosesAny(start, updated, i)
    {
      var result, closes := CheckOne(updated[i], lookup, ex, now);
      if closes {
        updated := updated[i := result.trade];
        changed := true;
      }
      results := results + [result];
      assert results[i] == Evaluate(start[i], lookup, ex, now);
      i := i + 1;
    }
  }

  /** The paper trader: the trade log held in memory and its copy in the
      trade file (`disk`, None while no file exists). The match engine's
      results, the order books and quotes, the clock and the trade ids
      are passed in. */
  class PaperTrader {
    var trades: seq<Trade>
    var skipped: seq<SkipEntry>
    var disk: Option<Ledger>

    constructor(file: Option<Ledger>)
      ensures trades == [] && skipped == [] && disk == file
    {
      trades := [];
      skipped := [];
      disk := file;
    }

    /** `load_trades`: replaces the in-memory log by the file's. */
    method LoadTrades() returns (loaded: seq<Trade>)
      modifies this
      ensures Ledger(trades, skipped) == Stored(disk) && loaded == trades
      ensures disk == old(disk)
    {
      if disk.None? {
        trades := [];
        skipped := [];
        return trades;
      }
      trades := disk.value.trades;
      skipped := disk.value.skipped;
      loaded := trades;
    }

    /** `_save_trades`: writes the whole log to the file. */
    method SaveTrades()
      modifies this
      ensures disk == Some(Ledger(trades, skipped))
      ensures trades == old(trades) && skipped == old(skipped)
    {
      disk := Some(Ledger(trades, skipped));
    }

    /** `log_trades` over the match results `results`, the i-th creating
        its trade (if any) with id `ids[i]`. The new log is the fold of
        `Step`; the file is written only when something was added. */
    method LogTrades(results: seq<MatchResult>, ids: seq<string>, ex: Exchange, now: int)
      returns (newTrades: seq<Trade>, newSkipped: seq<SkipEntry>)
      requires |ids| == |results|
      modifies this
      ensures Ledger(trades, skipped) == LogAll(Stored(old(disk)), results, ids, ex, now)
      ensures trades == Stored(old(disk)).trades + newTrades
      ensures skipped == Stored(old(disk)).skipped + newSkipped
      ensures disk == if newTrades != [] || newSkipped != [] then Some(Ledger(trades, skipped)) else old(disk)
    {
      var _ := LoadTrades();
      var logged: Ledger;
      logged, newTrades, newSkipped := LogLoop(Ledger(trades, skipped), results, ids, ex, now);
      trades, skipped := logged.trades, logged.skipped;
      if newTrades != [] || newSkipped != [] {
        SaveTrades();
      }
    }

    /** `check_trades` against the market cache `markets`, the quotes of
        `ex` and the instant `now`: every trade is reported as `Evaluate`
        reports it, the trades that close are rewritten in place, and the
        file is written only when some trade closed. */
    method CheckTrades(markets: seq<Market>, ex: Exchange, now: int) returns (results: seq<CheckResult>)
      modifies this
      ensures results == CheckAll(Stored(old(disk)).trades, MarketLookup(markets), ex, now)
      ensures trades == TradesOf(results) && skipped == Stored(old(disk)).skipped
      ensures disk == if ClosesAny(Stored(old(disk)).trades, trades, |trades|) then Some(Ledger(trades, skipped)) else old(disk)
    {
      var _ := LoadTrades();
      var lookup := BuildLookup(markets);
      var updated, changed;
      results, updated, changed := CheckLoop(trades, lookup, ex, now);
      trades := updated;
      if changed {
        SaveTrades();
      }
    }
  }
}
