# polymarket-signal-chaser, modelled in Dafny

This project models the decision-making core of polymarket-signal-chaser, a
pipeline that:

- collects news headlines;
- matches them to prediction markets in two stages, first embedding
  similarity and then a language-model judgment;
- paper-trades the matches it judges relevant.

The model covers these parts:

- **The paper trader** (`trader.dfy`, `order_book.dfy`):
  - the volume-weighted entry price of a $25 order, filled only within 5% of
    the midpoint and refused unless it fills completely;
  - the logging of trades and liquidity skips, deduplicated on
    (market id, headline);
  - the one-way open → closed exit check: stop-loss at -5%, take-profit at
    +3% after 15 minutes, expiry after 2 hours.
- **The embedding index** (`embedding_index.dfy`):
  - the cache of market rows and the prune/merge bookkeeping that keeps rows
    aligned with markets;
  - the threshold query, sorted by score.
- **The match engine** (`match_engine.dfy`): one result per
  (headline, candidate) pair, in order, with the verdict only when a
  credential is configured.
- **The headline store** (`signal_store.dfy`): a URL-keyed dictionary that
  keeps insertion order. A refresh keeps the first entry seen for a URL; a
  load from the cache file keeps the last.
- **The small helpers**:
  - the YES/NO price extraction for the judgment prompt (`llm.dfy`);
  - the duration formatter shared by the three report programs
    (`durations.dfy`);
  - their counting logic (`reports.dfy`).
- **Shared code**: `common.dfy`, `records.dfy` and `sorting.dfy` hold the
  shared records, ASCII case folding, whitespace stripping and a sort by a
  real key.

State that the source changes in place is modelled as Dafny classes:

- the trader's trade and skip lists;
- the store's dictionary;
- the index's row and market lists;
- the engine's match log.

Each file on disk (the trade log, the headline cache, the embedding cache)
is a field of its class: `None` while the file does not exist, the last
saved value afterwards. The methods are proved against pure functions
(`LogAll`, `CheckAll`, `AddAll`, `Upkeep`, `Matches`, `RunResults`, `Tally`),
and the lemmas state the properties of those functions.

Modelling conventions:

- **Exchange**: the order books and midpoint quotes are a value of type
  `Exchange`. A token missing from it is a failed request.
- **Oracles**: the sentence encoder, cosine similarity and the judgment
  service are opaque functions given as parameters.
- **Parameters for the clock and ids**: the clock is passed as "now" in
  integer seconds, and trade ids are passed in.
- **Timestamps**: ISO timestamps are modelled as integer seconds. Comparing
  same-format ISO strings gives the same order.
- **Prices**: prices are reals.

## Model

| member | source | states |
|---|---|---|
| Common.SameWordIgnoresCase | src/paper_trading/trader.py:253 | Outcome names compare case-insensitively: "yes" matches "YES" and "No" matches "NO". "YES" does not match "NO", and "Maybe" does not match "YES". |
| Common.Strip | src/matching/embeddings.py:107-110 | The result has no leading or trailing whitespace and is a contiguous part of the input. Whitespace is what Python's `str.isspace()` accepts, including the separators U+001C-U+001F and the Unicode spaces. |
| Common.StripSeparators | src/matching/embeddings.py:107-110 | Stripping removes a leading file separator (U+001C) and a trailing no-break space, as `str.strip()` does. |
| Embeddings.MarketText | src/matching/embeddings.py:107-110 | The text encoded for a market (question, a space, description, stripped) starts and ends with a non-space character. |
| Llm.PricesAfterIsLastMatch | src/matching/llm.py:35-41 | Among the first n pairs, the YES (or NO) price is the one of the last outcome named so, compared case-insensitively. It is "N/A" when no outcome has that name. |
| Llm.ExtractPricesIsLastMatch | src/matching/llm.py:31-41 | Only the pairs `zip` forms are examined. Within them the last case-insensitive match wins, and "N/A" is the default. |
| Llm.ExtractPricesExample | src/matching/llm.py:36-40 | A lower-case "yes" counts as YES, a later "YES" overwrites it, and other outcome names change nothing. |
| Durations.Breakdown | src/paper_trading/check.py:19-22 | Hours are below 24 and minutes below 60. Days, hours and minutes account for every second except the truncated `seconds % 60`. |
| Durations.FmtDuration | src/paper_trading/check.py:23-27 | The text ends in "m". It contains "d" exactly when days > 0, and "h" exactly when days > 0 or hours > 0. |
| Durations.ReadFmtDuration | src/paper_trading/check.py:17-27 | Parsing the formatted text back gives `seconds - seconds % 60`, a round trip up to the truncated seconds. The same function appears in src/export/__main__.py:31-40 and src/dashboard/__main__.py:22-31. |
| Durations.ParseNatToString | src/paper_trading/check.py:24 | The decimal digits written for a count parse back to that count. |
| Sorting.SortByKey | src/paper_trading/trader.py:295 | `sorted(..., key=...)`: the same elements (a permutation), ordered by non-decreasing key. |
| Sorting.SortKeepsSum | src/paper_trading/trader.py:295 | Sorting does not change a sum taken over the elements. |
| Sorting.Top | src/signals/store.py:71-77 | `sorted(...)[:n]`: min(n, length) elements of the input, in key order, none with a larger key than any element left out. |
| Trader.FirstMatch | src/paper_trading/trader.py:252-254 | The returned index is the first outcome equal to the direction, case-insensitively, and is below the limit. None means that no outcome below the limit matches. |
| OrderBook.MinPrice | src/paper_trading/trader.py:286 | The lowest ask price: a member of the list, and no greater than any other. |
| OrderBook.MaxPrice | src/paper_trading/trader.py:287 | The highest bid price: a member of the list, and no smaller than any other. |
| OrderBook.Midpoint | src/paper_trading/trader.py:276-290 | The midpoint is the quote when it is positive. Otherwise it is (best ask + best bid) / 2 when there are bids, and otherwise the best ask. |
| OrderBook.ComputeEntryPrice | src/paper_trading/trader.py:257-328 | The early-return method equals `EntryPrice`: `no_token_id` for None or "", `order_book_error` for a failed fetch, `no_asks` for an empty ask list, then the walk's verdict. |
| OrderBook.WalkAsks | src/paper_trading/trader.py:294-319 | The ask loop computes the same totals as the reference walk `Walk`. It skips asks priced ≤ 0, stops at the first ask above the ceiling, and fills the last level partially. |
| OrderBook.WalkKeepsBudget | src/paper_trading/trader.py:297-319 | Throughout the walk, `total_cost + remaining` stays constant and `remaining` stays ≥ 0. |
| OrderBook.FillSpendsBudget | src/paper_trading/trader.py:321-328 | From the start, cost + remaining = 25. A successful fill spends exactly $25, and its price is 25 / shares. |
| OrderBook.WalkBounds | src/paper_trading/trader.py:297-319 | Each level the walk buys is bought at its own price, so the cost added lies between lo and hi times the shares added whenever every ask in the band is priced within [lo, hi]. |
| OrderBook.WalkRemaining | src/paper_trading/trader.py:297-319 | Over price-sorted asks, the walk leaves exactly the part of the budget that the asks in (0, ceiling] cannot cover, and 0 when they can. |
| OrderBook.VwapWithinBand | src/paper_trading/trader.py:294-328 | The fill price lies within any range that holds every positive ask at or below the ceiling. |
| OrderBook.VwapWithinTaken | src/paper_trading/trader.py:294-328 | The fill price lies between any lower bound on the asks at or below the ceiling and the price of the last ask the walk consumed. That price is one of the book's asks at or below the ceiling. |
| OrderBook.LiquidityGate | src/paper_trading/trader.py:301-326 | All or nothing: the fill succeeds exactly when the asks in (0, ceiling] offer at least $25 of notional. |
| OrderBook.GateOnSorted | src/paper_trading/trader.py:297-326 | The same gate over any price-sorted list with the same notional in the band as the original asks. |
| OrderBook.EntryPriceGate | src/paper_trading/trader.py:263-328 | For a fetched, non-empty book, the only failure is `insufficient_liquidity`, exactly when the band offers under $25. A success is priced above 0 and at most midpoint × 1.05. |
| OrderBook.VwapExample | src/paper_trading/trader.py:294-328 | With asks 100 @ 0.10 and 200 @ 0.12 and a midpoint of 0.115, the price is 25/225: the first level whole, the second partly. |
| OrderBook.InsufficientExample | src/paper_trading/trader.py:306-326 | The same book with a midpoint of 0.10 is refused, because only $10 lies under the 0.105 ceiling. |
| Trader.ChooseEntry | src/paper_trading/trader.py:99-126 | A skip happens exactly on `insufficient_liquidity`, which never falls back to the cached price. Other failures fall back to a cached price > 0. An entry is always > 0. |
| Trader.StepAdds | src/paper_trading/trader.py:80-147 | One result adds nothing, one skip record or one open trade. A record is added only for an admitted verdict (relevant, confidence ≥ 0.6) whose key is absent from trades and skips. A skip only on insufficient liquidity. A trade is open, priced > 0, and holds 25 / price shares. |
| Trader.StepKeys | src/paper_trading/trader.py:92-147 | A step keeps the (market id, headline) keys unique across trades and skips, and adds at most the result's key. |
| Trader.LogOne | src/paper_trading/trader.py:80-147 | One pass of the logging loop, given the current trade and skip keys, creates at most one of a trade and a skip. Either carries the result's (market id, headline) key, a trade is open with $25 of shares, and appending them gives `Step`. |
| Trader.LogLoop | src/paper_trading/trader.py:75-147 | The logging loop computes `LogAll`. The trades and skips it returns as new are exactly what it appends to the old lists. |
| Trader.LogAllExtends | src/paper_trading/trader.py:80-147 | Logging only appends: the old trades and skips are prefixes of the new ones, and no key is lost. |
| Trader.LogAllAppends | src/paper_trading/trader.py:80-147 | Existing trades and skips are kept unchanged and in place, no key is lost, and every new trade is open with $25 of shares. |
| Trader.LogAllKeepsUniqueKeys | src/paper_trading/trader.py:75-147 | Key uniqueness across trades and skips is preserved, including between results of the same call. |
| Trader.LogTwice | src/paper_trading/trader.py:92-93 | Logging the same results a second time changes nothing. |
| Trader.MarketLookupSpec | src/paper_trading/trader.py:166-170 | The lookup holds exactly the non-empty ids (id, else condition id), each mapped to the last market with that id. |
| Trader.BuildLookup | src/paper_trading/trader.py:166-170 | The lookup loop builds `MarketLookup`. |
| Trader.ExitRule | src/paper_trading/trader.py:211-217 | Priority order: stop-loss iff pnl% ≤ -5. Take-profit iff pnl% is above -5 and ≥ 3 after 15 minutes, even past 2 hours. Expiry iff held 2 hours, above -5%, and take-profit does not apply. A trade held 2 hours always exits. No rule fires otherwise. |
| Trader.Evaluate | src/paper_trading/trader.py:176-239 | A closed trade is reported unchanged. An open trade either stays as it is or becomes closed with an exit record, and nothing else about it changes. |
| Trader.ClosedSnapshotIsFinal | src/paper_trading/trader.py:178-186 | Once closed, a trade is reported from its stored exit fields, identically whatever the markets, quotes and time. |
| Trader.FlatTradeOnlyExpires | src/paper_trading/trader.py:199-217 | A trade priced at entry (no price available) has 0 P&L and closes only by expiry, exactly after 2 hours. |
| Trader.ExpiredTradeCloses | src/paper_trading/trader.py:216-217 | Every open trade held 2 hours or more is closed by a check. |
| Trader.CheckAllTwice | src/paper_trading/trader.py:176-186 | A second check over the stored trades reports each trade the first check closed exactly as the first did. |
| Trader.ExitExamples | src/paper_trading/trader.py:202-226 | From a 0.50 YES entry with 50 shares: 0.47 at 300 s closes as stop_loss (-$1.50, -6%). 0.52 at 300 s stays open (+4%, too early). 0.52 at 960 s closes as take_profit. |
| Trader.CheckAll | src/paper_trading/trader.py:176-239 | One result per trade, in log order. |
| Trader.CheckOne | src/paper_trading/trader.py:176-239 | One pass of the check loop reports the trade as `Evaluate` does. It says the trade closes exactly when an open trade is reported closed. |
| Trader.CheckLoop | src/paper_trading/trader.py:172-239 | The check loop yields `CheckAll`. The trade list becomes the reported trades, and `changed` holds exactly when some open trade was closed. |
| Trader.PaperTrader.constructor | src/paper_trading/trader.py:28-37 | A trader starts with empty lists over the given trade log file. |
| Trader.PaperTrader.LoadTrades | src/paper_trading/trader.py:39-49 | The lists become the file's, or empty when there is no file. |
| Trader.PaperTrader.SaveTrades | src/paper_trading/trader.py:51-62 | The file then holds exactly the current trades and skips. |
| Trader.PaperTrader.LogTrades | src/paper_trading/trader.py:66-152 | The new lists are `LogAll` over the reloaded log: the old entries followed by the returned new trades and skips. The file is written iff something new was created. |
| Trader.PaperTrader.CheckTrades | src/paper_trading/trader.py:156-244 | The results are `CheckAll` of the reloaded trades against the market lookup. The trade list becomes the checked trades. The file is written iff some trade closed. |
| Signals.PutWellFormed | src/signals/store.py:41-45 | Storing a headline under its own non-empty url keeps the dictionary well formed and appends its url to the order if it is new. |
| Signals.MergeWellFormed | src/signals/store.py:58-61 | Loading keeps every entry under its own non-empty url. |
| Signals.MergeLastWins | src/signals/store.py:52-61 | Loading never removes an entry. A later headline with the same url replaces an earlier one. Urls absent from the file keep their entry. |
| Signals.AddNewWellFormed | src/signals/store.py:39-45 | Refreshing keeps every entry under its own non-empty url. |
| Signals.AddNewFirstSeenWins | src/signals/store.py:39-45 | Existing entries are never overwritten and the order only grows at the end. The urls after a refresh are the old ones plus the new non-empty ones. |
| Signals.AddNewCount | src/signals/store.py:37-47 | The size grows by exactly the number of new urls. |
| Signals.AddAllWellFormed | src/signals/store.py:39-45 | Over all sources, well-formedness holds, existing entries are kept, and the size never shrinks. |
| Signals.AddNewFirstWins | src/signals/store.py:39-45 | A url not yet stored ends up holding the first headline of the batch with that url, stamped with the fetch time. Later duplicates are ignored. |
| Signals.AddAllKeys | src/signals/store.py:38-45 | After all sources, the stored urls are exactly the old ones plus every non-empty url of any source's batch. |
| Signals.AddAllKeeps | src/signals/store.py:38-45 | Every entry stored before a refresh is kept unchanged. |
| Signals.AddAllFirstWins | src/signals/store.py:38-45 | Across sources in order, a url not yet stored holds the first headline that carries it, stamped with the fetch time. |
| Signals.CountIsDistinctUrls | src/signals/store.py:63-65 | The count equals the number of distinct stored urls. |
| Signals.SignalStore.constructor | src/signals/store.py:18-22 | A store starts empty over the given cache file. |
| Signals.SignalStore.Count | src/signals/store.py:63-65 | `count` is the number of stored urls. |
| Signals.SignalStore.Headlines | src/signals/store.py:67-69 | The headlines in insertion order, the i-th being the entry for the i-th url. |
| Signals.SignalStore.GetMostRecent | src/signals/store.py:71-77 | min(n, count) headlines from the store, by `published` descending. None left out was published later than one returned. |
| Signals.SignalStore.Load | src/signals/store.py:52-61 | The dictionary becomes the merge of the file into it, and stays well formed. |
| Signals.SignalStore.Save | src/signals/store.py:81-89 | The file then holds the headlines in insertion order. |
| Signals.SignalStore.Refresh | src/signals/store.py:31-50 | The dictionary is the loaded one with every source's new headlines added, each stamped with the fetch time. The result is size after minus size before, and is ≥ 0. The file is saved. |
| Embeddings.RowOf | src/matching/embeddings.py:69-73 | The cached lookup holds exactly the non-empty ids of the index, each mapped to a row holding that id. |
| Embeddings.Partition | src/matching/embeddings.py:76-86 | Reused and new markets split the input, in input order: the reused ones are the markets with a cached id, the new ones the rest. |
| Embeddings.PartitionFacts | src/matching/embeddings.py:80-86 | Each reused market comes with the cached row of its id. A new market's id is not cached. Both lists hold input markets only. |
| Embeddings.EncodeAll | src/matching/embeddings.py:120-127 | One row per market, the encoding of its text. |
| Embeddings.UpkeepAligned | src/matching/embeddings.py:92-118 | After a prune or a merge, every row is the encoding of a market with the same id as the market at that position (the cached market for reused rows). |
| Embeddings.UpkeepPrunesAndMerges | src/matching/embeddings.py:80-118 | The new index is the reused markets followed by the new ones. Only new markets are encoded. A market with an empty id is always new. |
| Embeddings.UnchangedSetIsNoOp | src/matching/embeddings.py:88-90 | Rebuilding from exactly the cached markets does nothing when the cached ids are distinct and non-empty. With a repeated id the cached id table is smaller than the list, and the prune branch runs. |
| Embeddings.CountTestKeepsStaleMarket | src/matching/embeddings.py:88-90 | The no-op test compares counts, not sets. With cache [a, b] and input [a, a], nothing changes and the stale b stays indexed. |
| Embeddings.Hits | src/matching/embeddings.py:150-152 | A (market, score) pair is a hit exactly when it is an indexed market with score ≥ threshold. |
| Embeddings.SortByScore | src/matching/embeddings.py:154 | The sort keeps exactly the hits and orders them by non-increasing score. |
| Embeddings.MatchesMembers | src/matching/embeddings.py:141-155 | With an index built, a (market, score) pair is returned exactly when the market is indexed at some row whose similarity to the headline is the score and at least the threshold. |
| Embeddings.MatchesOrdered | src/matching/embeddings.py:150-155 | The matches come by non-increasing score, and there are no more of them than indexed markets. |
| Embeddings.EmbeddingIndex.constructor | src/matching/embeddings.py:19-25 | A new index holds no rows over the given cache files. |
| Embeddings.EmbeddingIndex.LoadCache | src/matching/embeddings.py:33-42 | When the cache exists, rows and index become the cached ones. Otherwise nothing changes. |
| Embeddings.EmbeddingIndex.SaveCache | src/matching/embeddings.py:44-50 | The cache then holds the current rows and index. |
| Embeddings.EmbeddingIndex.BuildMarketIndex | src/matching/embeddings.py:56-129 | With no cache, every market is encoded and indexed. When the cached set is unchanged by count, the cache is kept. Otherwise the index and cache become the prune/merge result (`Rebuilt`). The in-memory rows and index are those of the resulting cache. Rows stay aligned with markets. |
| Embeddings.EmbeddingIndex.CachedRows | src/matching/embeddings.py:69-73 | The lookup loop builds `RowOf`. |
| Embeddings.EmbeddingIndex.PartitionMarkets | src/matching/embeddings.py:76-86 | The split loop builds `Partition`. |
| Embeddings.EmbeddingIndex.UpdateCache | src/matching/embeddings.py:67-118 | The cache branch returns `Upkeep` of the cached rows and markets: nothing when up to date, else the pruned or merged rows and market list. |
| Embeddings.EmbeddingIndex.FindMatches | src/matching/embeddings.py:131-155 | [] when no index is built. Otherwise exactly the indexed markets scoring ≥ threshold, by non-increasing score. |
| Embeddings.EmbeddingIndex.CollectHits | src/matching/embeddings.py:150-152 | The threshold loop builds `Hits`. |
| Matching.PairsFor | src/matching/engine.py:73-103 | One result per candidate, in candidate order, with the verdict of its pair. |
| Matching.RunResultsConcat | src/matching/engine.py:68-103 | The results are grouped headline by headline, in headline order. |
| Matching.RunResultsShape | src/matching/engine.py:68-103 | Every candidate yields exactly one result, so the count is the total number of candidates. Each result pairs a headline with one of its candidates and carries that pair's verdict. |
| Matching.NoCredentialNoVerdict | src/matching/engine.py:90-97 | Without a credential no result carries a verdict. |
| Matching.RunTotalConcat | src/matching/engine.py:71 | The candidate total over consecutive headline runs adds up. |
| Matching.MarketStore.Load | src/matching/engine.py:50-53 | The market list becomes the cache file's when the file exists. |
| Matching.MatchEngine.constructor | src/matching/engine.py:22-28 | The engine holds the given stores, index, threshold and credential, and no log yet. |
| Matching.MatchEngine.Run | src/matching/engine.py:40-111 | Markets are reloaded only when empty. Without given headlines, the store is loaded when empty and its 20 most recent are used. The index is built from the markets first, so its cache, rows and id index are `Rebuilt` from the previous cache and the markets. The market and headline files are unchanged. The results are `RunResults` over the built index. The log holds exactly these results and their count. |
| Matching.MatchEngine.ChooseHeadlines | src/matching/engine.py:55-58 | Given headlines are used as they are. Otherwise the headline store is loaded when empty and its 20 most recent headlines are used. |
| Matching.MatchEngine.MatchAll | src/matching/engine.py:65-103 | The headline loop yields `RunResults`, and the candidate total equals the number of results. |
| Matching.MatchEngine.JudgeAll | src/matching/engine.py:73-103 | The candidate loop yields `PairsFor`. The judge is called only with a non-empty credential, and its answer is stored as is. |
| Reports.OutcomeOf | src/export/__main__.py:150 | WIN iff P&L > 0, LOSS iff P&L < 0, FLAT iff P&L = 0. |
| Reports.FlatIsBreakEven | src/paper_trading/check.py:58-61 | The flat count, computed as total - wins - losses, is exactly the number of zero-P&L results. wins + losses + flat = total, and all are 0 without results. |
| Reports.OpenClosedPartition | src/paper_trading/check.py:54-55 | Every result is counted as open or as closed, never both. |
| Reports.TallyCounts | src/paper_trading/check.py:77-81 | The tally holds exactly the reasons that occur, each with its number of occurrences. A missing reason is "unknown". |
| Reports.TallySumsToCount | src/dashboard/__main__.py:125-128 | The tally sums to the number of closed results. |
| Reports.TallyExitReasons | src/dashboard/__main__.py:125-128 | The tally loop builds `Tally`. It sums to the number of closed results, with only the four reason names as keys. |
| Reports.BecameTradeAfterLogging | src/export/__main__.py:112-116 | A match whose logging created a trade counts as became_trade when its market has an id. A match without an admitted verdict never counts. A market without any id is logged under "unknown" but looked up under "", so it never counts. |
| Reports.ClassifyMatches | src/dashboard/__main__.py:83-102 | with + without = total matches. With-trade counts exactly the matches that are relevant, have confidence ≥ 0.6, and whose key is among the trades'. |
| Reports.Extra | src/export/__main__.py:171-172 | `extra` holds exactly the logged trades whose id the check did not report. |
| Reports.ExtraIsEmptyAfterCheck | src/export/__main__.py:170-196 | Against the trade list the check itself leaves, `extra` is empty, so the row count is the number of results. |
| Reports.MostRecent | src/dashboard/__main__.py:175-179 | At most 5 results, by timestamp descending. None left out is later than one kept. |

## Left out

- Network access is not modelled. This covers the order-book and midpoint
  requests, the market list fetch, the RSS feeds and the judgment call.
  These are inputs (`Exchange`, the fetched headline batches) or opaque
  functions (`judge`). src/market/clob_client.py, src/market/gamma_client.py,
  src/signals/rss.py and src/signals/base.py are not part of this model.
- The sentence encoder and cosine similarity are opaque functions.
  Embedding rows are `seq<real>`, and numpy arrays are not modelled.
- JSON and numpy disk I/O is modelled as class fields. Timestamps such as
  `updated_at` and `run_at` are left out. `_load_api_key` is reduced to an
  optional credential given to the engine, because it reads the
  environment and a `.env` file.
- The clock and `uuid` are parameters ("now" in seconds, trade ids).
  ISO-8601 parsing and time zones are not modelled.
- `round(x, 4)` and `round(x, 2)` on prices and P&L are omitted. Prices
  and P&L are exact reals, and the float conversions of price strings are
  given as already parsed values.
- Case folding is ASCII only.
- The `no_midpoint` branch of `_compute_entry_price` is not modelled. It
  cannot be reached, because the ask list is non-empty at that point.
- Trader.PaperTrader.LogTrades: the engine run that `log_trades` starts is
  a parameter (its results). `Matching.MatchEngine.Run` models that run on
  its own.
- Trader.PaperTrader.LogTrades: a judgment's direction is a string. A
  verdict that passes the relevance and confidence filters with a null or
  missing `direction` makes the source raise (a `KeyError` at
  src/paper_trading/trader.py:89, or an `AttributeError` from
  `direction.upper()` at src/paper_trading/trader.py:253). That happens
  before the save at src/paper_trading/trader.py:149-150, so the run's
  earlier new trades are lost. The model does not represent that abort.
- Trader.PaperTrader.LogTrades: every trade and skip recorded by one call
  is stamped with the same `now`. The source reads the clock for each record
  (src/paper_trading/trader.py:109 for a skip, :130 for a trade).
- Signals.SignalStore.Refresh: every headline of one refresh is stamped
  with the same `now`. The source reads the clock once per headline
  (src/signals/store.py:44).
- The loops of `log_trades` and `check_trades` run on copies of the lists
  (`Trader.LogLoop`, `Trader.CheckLoop`), and the trader's fields are
  assigned after the loop. The source appends to and rewrites its own lists
  inside the loop. Nothing reads them in between, so the final state is the
  same. The in-place update of trade dicts that other references share is
  not modelled.
- `no_asks` and the other pricing failures other than insufficient
  liquidity are modelled as the code treats them. They fall back to the
  cached price, and only `insufficient_liquidity` is recorded as a skip
  (src/paper_trading/trader.py:99-126). An unpriced candidate is dropped
  without a record.
- The engine's and the check's logging and printing are left out.
  Averages, win rate, total P&L and the CSV and dashboard layouts are also
  left out, because they are only float arithmetic and formatting. The
  dashboard's 24-hour headline count depends on datetime parsing, and is
  left out.
- The market cache (src/market/store.py) is not part of this model beyond
  the reload that `run` performs. Its refresh and `get_top_by_volume` are
  not modelled.
- Embeddings.EmbeddingIndex.constructor: requires any stored cache to hold
  row i as the encoding of market i. That is how the code writes it; a
  hand-edited cache is not modelled.
- Signals.SignalStore.GetMostRecent, Reports.MostRecent and
  Embeddings.EmbeddingIndex.FindMatches: the order among equal keys is not
  stated. Python's stable sort keeps such ties in input order.
- Trader.CheckAll: the exit record is stated through `Evaluate` and
  `ExitRule`. The rounding of stored exit fields is not modelled.
