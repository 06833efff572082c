/** The fill-price simulation of the paper trader (`_compute_entry_price`
    in src/paper_trading/trader.py): a fixed $25 market order walks the ask
    side of the order book in ascending price order, taking only liquidity
    priced within 5% above the midpoint, and succeeds only when the whole
    budget is spent. */
module OrderBook {
  import opened Common
  import opened Sorting

  const PositionSize: real := 25.0
  const SpreadLimit: real := 0.05

  /** One price level of an order book. */
  datatype Level = Level(price: real, size: real)

  datatype Book = Book(asks: seq<Level>, bids: seq<Level>)

  /** What the order-book service answers. A token missing from `books`
      stands for a failed order-book request; one missing from `midpoints`
      for a failed (or empty) midpoint quote, which the source reads as 0. */
  datatype Exchange = Exchange(books: map<string, Book>, midpoints: map<string, real>)

  datatype PriceFailure = NoTokenId | OrderBookError | NoAsks | InsufficientLiquidity

  /** `(vwap, None)` or `(None, reason)`. */
  datatype Pricing = Priced(price: real) | Failed(reason: PriceFailure)

  function PriceOf(l: Level): real
  {
    l.price
  }

  /** `min(float(a["price"]) for a in levels)`. */
  function MinPrice(levels: seq<Level>): (r: real)
    requires levels != []
    ensures exists i :: 0 <= i < |levels| && levels[i].price == r
    ensures forall i :: 0 <= i < |levels| ==> r <= levels[i].price
  {
    if |levels| == 1 then levels[0].price
    else
      var rest := MinPrice(levels[1..]);
      assert forall i :: 1 <= i < |levels| ==> levels[i] == levels[1..][i - 1];
      if levels[0].price <= rest then levels[0].price else rest
  }

  /** `max(float(b["price"]) for b in levels)`. */
  function MaxPrice(levels: seq<Level>): (r: real)
    requires levels != []
    ensures exists i :: 0 <= i < |levels| && levels[i].price == r
    ensures forall i :: 0 <= i < |levels| ==> levels[i].price <= r
  {
    if |levels| == 1 then levels[0].price
    else
      var rest := MaxPrice(levels[1..]);
      assert forall i :: 1 <= i < |levels| ==> levels[i] == levels[1..][i - 1];
      if levels[0].price >= rest then levels[0].price else rest
  }

  /** `float(mid_data.get("mid", 0))`, or 0 when the quote request fails. */
  function Quote(token: string, ex: Exchange): real
  {
    if token in ex.midpoints then ex.midpoints[token] else 0.0
  }

  /** The reference midpoint: the quoted midpoint when it is positive, else
      the average of the best ask and the best bid, else the best ask. */
  function Midpoint(quote: real, book: Book): (r: real)
    requires book.asks != []
    ensures quote > 0.0 ==> r == quote
    ensures quote <= 0.0 && book.bids == [] ==>
      (exists i :: 0 <= i < |book.asks| && book.asks[i].price == r)
      && forall i :: 0 <= i < |book.asks| ==> r <= book.asks[i].price
    ensures quote <= 0.0 && book.bids != [] ==>
      exists i, j :: 0 <= i < |book.asks| && 0 <= j < |book.bids|
        && (forall k :: 0 <= k < |book.asks| ==> book.asks[i].price <= book.asks[k].price)
        && (forall k :: 0 <= k < |book.bids| ==> book.bids[k].price <= book.bids[j].price)
        && r == (book.asks[i].price + book.bids[j].price) / 2.0
  {
    if quote > 0.0 then quote
    else if book.bids != [] then (MinPrice(book.asks) + MaxPrice(book.bids)) / 2.0
    else MinPrice(book.asks)
  }

  /** The running totals of the ask walk. */
  datatype Fill = Fill(cost: real, shares: real, remaining: real)

  const Start: Fill := Fill(0.0, 0.0, PositionSize)

  /** The ask walk over `asks` (already sorted by price): non-positive
      prices are skipped, the walk stops at the first price above the
      ceiling, a level whose notional fits the remaining budget is taken
      whole, and the first one that does not is filled partially and ends
      the walk. */
  function Walk(asks: seq<Level>, ceiling: real, f: Fill): Fill
  {
    if asks == [] then f
    else
      var a := asks[0];
      if a.price <= 0.0 then Walk(asks[1..], ceiling, f)
      else if a.price > ceiling then f
      else if Notional(a) <= f.remaining then Walk(asks[1..], ceiling, TakeLevel(a, f))
      else TakePart(a, f)
  }

  /** `price * size`: what a level costs in full. */
  function Notional(a: Level): real
  {
    a.price * a.size
  }

  /** A level bought whole. */
  function TakeLevel(a: Level, f: Fill): Fill
  {
    Fill(f.cost + Notional(a), f.shares + a.size, f.remaining - Notional(a))
  }

  /** The last level, bought for the remaining budget. */
  function TakePart(a: Level, f: Fill): Fill
    requires a.price != 0.0
  {
    Fill(f.cost + f.remaining, f.shares + f.remaining / a.price, 0.0)
  }

  /** The verdict on the final totals: no shares or unspent budget is
      insufficient liquidity; otherwise the volume-weighted price. */
  function Conclude(f: Fill): Pricing
  {
    if f.shares == 0.0 then Failed(InsufficientLiquidity)
    else if f.remaining > 0.0 then Failed(InsufficientLiquidity)
    else Priced(f.cost / f.shares)
  }

  function Ceiling(token: string, book: Book, ex: Exchange): real
    requires book.asks != []
  {
    Midpoint(Quote(token, ex), book) * (1.0 + SpreadLimit)
  }

  /** `_compute_entry_price(token_id)`; `None` and "" are the falsy tokens. */
  function EntryPrice(token: Option<string>, ex: Exchange): Pricing
  {
    if token == None || token.value == "" then Failed(NoTokenId)
    else if token.value !in ex.books then Failed(OrderBookError)
    else
      var book := ex.books[token.value];
      if book.asks == [] then Failed(NoAsks)
      else Conclude(Walk(SortByKey(book.asks, PriceOf), Ceiling(token.value, book, ex), Start))
  }

  /** `_compute_entry_price` as the source writes it, with early returns. */
  method ComputeEntryPrice(token: Option<string>, ex: Exchange) returns (r: Pricing)
    ensures r == EntryPrice(token, ex)
  {
    if token == None || token.value == "" {
      return Failed(NoTokenId);
    }
    var t := token.value;
    if t !in ex.books {
      return Failed(OrderBookError);
    }
    var book := ex.books[t];
    if book.asks == [] {
      return Failed(NoAsks);
    }
    var totalCost, totalShares, remaining := WalkAsks(SortByKey(book.asks, PriceOf), Ceiling(t, book, ex));
    if totalShares == 0.0 {
      return Failed(InsufficientLiquidity);
    }
    if remaining > 0.0 {
      return Failed(InsufficientLiquidity);
    }
    return Priced(totalCost / totalShares);
  }

  /** The loop of `_compute_entry_price` over the asks sorted by price,
      updating the three running totals. */
  method WalkAsks(asks: seq<Level>, maxPrice: real) returns (totalCost: real, totalShares: real, remaining: real)
    ensures Fill(totalCost, totalShares, remaining) == Walk(asks, maxPrice, Start)
  {
    totalCost := 0.0;
    totalShares := 0.0;
    remaining := PositionSize;
    var i := 0;
    while i < |asks|
      invariant 0 <= i <= |asks|
      invariant Walk(asks, maxPrice, Start) == Walk(asks[i..], maxPrice, Fill(totalCost, totalShares, remaining))
    {
      var price := asks[i].price;
      var size := asks[i].size;
      ghost var before := Fill(totalCost, totalShares, remaining);
      assert asks[i..][0] == asks[i] && asks[i..][1..] == asks[i + 1..];
      if price <= 0.0 {
        i := i + 1;
        continue;
      }
      if price > maxPrice {
        assert Walk(asks, maxPrice, Start) == Fill(totalCost, totalShares, remaining);
        break;
      }
      var costAtLevel := Notional(asks[i]);
      if costAtLevel <= remaining {
        totalCost := totalCost + costAtLevel;
        totalShares := totalShares + size;
        remaining := remaining - costAtLevel;
        assert Fill(totalCost, totalShares, remaining) == TakeLevel(asks[i], before);
      } else {
        var sharesAtLevel := remaining / price;
        totalCost := totalCost + remaining;
        totalShares := totalShares + sharesAtLevel;
        remaining := 0.0;
        assert Fill(totalCost, totalShares, remaining) == TakePart(asks[i], before);
        assert Walk(asks, maxPrice, Start) == Fill(totalCost, totalShares, remaining);
        break;
      }
      i := i + 1;
    }
  }

  // ---------------------------------------------------------------------
  // The budget: cost spent plus budget remaining is always $25.

  lemma {:induction false} WalkKeepsBudget(asks: seq<Level>, c: real, f: Fill)
    requires f.remaining >= 0.0
    ensures Walk(asks, c, f).cost + Walk(asks, c, f).remaining == f.cost + f.remaining
    ensures Walk(asks, c, f).remaining >= 0.0
  {
    if asks != [] {
      var a := asks[0];
      if a.price <= 0.0 {
        WalkKeepsBudget(asks[1..], c, f);
      } else if a.price <= c && Notional(a) <= f.remaining {
        WalkKeepsBudget(asks[1..], c, TakeLevel(a, f));
      }
    }
  }

  /** A successful fill spends exactly the position size, and its price is
      the position size over the shares bought. */
  lemma FillSpendsBudget(asks: seq<Level>, c: real)
    ensures var f := Walk(asks, c, Start);
      f.cost + f.remaining == PositionSize && f.remaining >= 0.0
      && (Conclude(f).Priced? ==> f.remaining == 0.0 && f.cost == PositionSize && Conclude(f).price == PositionSize / f.shares)
  {
    WalkKeepsBudget(asks, c, Start);
  }

  // ---------------------------------------------------------------------
  // Where the fill price lies.

  predicate SizesNonNegative(asks: seq<Level>)
  {
    forall a :: a in asks ==> a.size >= 0.0
  }

  /** Every ask the walk may take (priced above 0 and at most `c`) is
      priced within [lo, hi]. */
  predicate BandWithin(asks: seq<Level>, c: real, lo: real, hi: real)
  {
    forall a :: a in asks && 0.0 < a.price <= c ==> lo <= a.price <= hi
  }

  lemma MulMonotone(x: real, y: real, k: real)
    requires x <= y && k >= 0.0
    ensures x * k <= y * k
  {
  }

  lemma MulStrict(x: real, y: real, k: real)
    requires x < y && k > 0.0
    ensures x * k < y * k
  {
  }

  /** From `f` to `r` the shares did not fall and the cost added lies
      between lo and hi times the shares added. */
  predicate Spent(f: Fill, r: Fill, lo: real, hi: real)
  {
    r.shares >= f.shares
    && lo * (r.shares - f.shares) <= r.cost - f.cost <= hi * (r.shares - f.shares)
  }

  lemma SpentTrans(f: Fill, g: Fill, r: Fill, lo: real, hi: real)
    requires Spent(f, g, lo, hi) && Spent(g, r, lo, hi)
    ensures Spent(f, r, lo, hi)
  {
    assert lo * (r.shares - f.shares) == lo * (r.shares - g.shares) + lo * (g.shares - f.shares);
    assert hi * (r.shares - f.shares) == hi * (r.shares - g.shares) + hi * (g.shares - f.shares);
  }

  lemma TakeLevelSpent(a: Level, f: Fill, lo: real, hi: real)
    requires a.size >= 0.0 && lo <= a.price <= hi
    ensures Spent(f, TakeLevel(a, f), lo, hi)
  {
    var g := TakeLevel(a, f);
    assert g.shares - f.shares == a.size;
    assert g.cost - f.cost == a.price * a.size;
    MulMonotone(lo, a.price, a.size);
    MulMonotone(a.price, hi, a.size);
  }

  lemma TakePartSpent(a: Level, f: Fill, lo: real, hi: real)
    requires f.remaining >= 0.0 && 0.0 < a.price && lo <= a.price <= hi
    ensures Spent(f, TakePart(a, f), lo, hi)
  {
    var g := TakePart(a, f);
    var q := f.remaining / a.price;
    assert g.shares - f.shares == q;
    assert g.cost - f.cost == a.price * q;
    MulMonotone(lo, a.price, q);
    MulMonotone(a.price, hi, q);
  }

  /** What a walk adds is bought at prices within the band. */
  lemma {:induction false} WalkBounds(asks: seq<Level>, c: real, f: Fill, lo: real, hi: real)
    requires f.remaining >= 0.0
    requires SizesNonNegative(asks) && BandWithin(asks, c, lo, hi)
    ensures Spent(f, Walk(asks, c, f), lo, hi)
  {
    if asks == [] {
      assert Walk(asks, c, f) == f;
    } else {
      var a := asks[0];
      assert a in asks;
      assert forall b :: b in asks[1..] ==> b in asks;
      if a.price <= 0.0 {
        WalkBounds(asks[1..], c, f, lo, hi);
      } else if a.price > c {
        assert Walk(asks, c, f) == f;
      } else if Notional(a) <= f.remaining {
        var g := TakeLevel(a, f);
        TakeLevelSpent(a, f, lo, hi);
        WalkBounds(asks[1..], c, g, lo, hi);
        SpentTrans(f, g, Walk(asks[1..], c, g), lo, hi);
      } else {
        TakePartSpent(a, f, lo, hi);
      }
    }
  }

  /** A fill that spent within the band has its average price within it. */
  lemma AverageWithin(f: Fill, lo: real, hi: real)
    requires Spent(Start, f, lo, hi) && f.shares != 0.0
    ensures lo <= f.cost / f.shares <= hi
  {
    var p := f.cost / f.shares;
    assert f.shares > 0.0;
    assert p * f.shares == f.cost;
    if p < lo {
      MulStrict(p, lo, f.shares);
    }
    if p > hi {
      MulStrict(hi, p, f.shares);
    }
  }

  lemma SortedMembers(asks: seq<Level>)
    ensures forall a :: a in SortByKey(asks, PriceOf) <==> a in asks
  {
    var sorted := SortByKey(asks, PriceOf);
    forall a
      ensures a in sorted <==> a in asks
    {
      assert a in sorted <==> a in multiset(sorted);
    }
  }

  /** The fill price over the sorted asks lies within any range that
      holds every ask priced above 0 and at most the ceiling. */
  lemma VwapWithinBand(asks: seq<Level>, c: real, lo: real, hi: real)
    requires SizesNonNegative(asks) && BandWithin(asks, c, lo, hi)
    ensures var r := Conclude(Walk(SortByKey(asks, PriceOf), c, Start));
      r.Priced? ==> lo <= r.price <= hi
  {
    var sorted := SortByKey(asks, PriceOf);
    SortedMembers(asks);
    WalkBounds(sorted, c, Start, lo, hi);
    var f := Walk(sorted, c, Start);
    if Conclude(f).Priced? {
      AverageWithin(f, lo, hi);
    }
  }

  /** The price of the last level the walk buys shares from, whole or in
      part; `last` when it buys none from `asks`. */
  function LastTaken(asks: seq<Level>, c: real, f: Fill, last: real): real
  {
    if asks == [] then last
    else
      var a := asks[0];
      if a.price <= 0.0 then LastTaken(asks[1..], c, f, last)
      else if a.price > c then last
      else if Notional(a) <= f.remaining then
        LastTaken(asks[1..], c, TakeLevel(a, f), if a.size > 0.0 then a.price else last)
      else if f.remaining > 0.0 then a.price
      else last
  }

  /** `LastTaken` is `last` or the price of an ask in (0, c]. */
  lemma {:induction false} LastTakenIsAsk(asks: seq<Level>, c: real, f: Fill, last: real)
    ensures var p := LastTaken(asks, c, f, last);
      p == last || exists a :: a in asks && 0.0 < a.price <= c && p == a.price
  {
    if asks != [] {
      var a := asks[0];
      assert a in asks;
      assert forall b :: b in asks[1..] ==> b in asks;
      if a.price <= 0.0 {
        LastTakenIsAsk(asks[1..], c, f, last);
      } else if a.price <= c && Notional(a) <= f.remaining {
        LastTakenIsAsk(asks[1..], c, TakeLevel(a, f), if a.size > 0.0 then a.price else last);
      }
    }
  }

  /** Over sorted asks priced at least `last`, `LastTaken` is at least
      `last`. */
  lemma {:induction false} LastTakenAtLeast(asks: seq<Level>, c: real, f: Fill, last: real)
    requires Ascending(asks, PriceOf) && forall a :: a in asks ==> last <= a.price
    ensures last <= LastTaken(asks, c, f, last)
  {
    if asks != [] {
      var a := asks[0];
      SortedTail(asks);
      if a.price <= 0.0 {
        LastTakenAtLeast(asks[1..], c, f, last);
      } else if a.price <= c && Notional(a) <= f.remaining {
        LastTakenAtLeast(asks[1..], c, TakeLevel(a, f), if a.size > 0.0 then a.price else last);
      }
    }
  }

  /** The tail of sorted asks is sorted, priced at least the head, and
      holds only asks of the whole. */
  lemma SortedTail(asks: seq<Level>)
    requires asks != [] && Ascending(asks, PriceOf)
    ensures Ascending(asks[1..], PriceOf)
    ensures forall b :: b in asks[1..] ==> asks[0].price <= b.price && b in asks
    ensures asks[0] in asks
  {
    var rest := asks[1..];
    forall b | b in rest
      ensures asks[0].price <= b.price
    {
      var k :| 0 <= k < |rest| && rest[k] == b;
      assert PriceOf(asks[0]) <= PriceOf(asks[k + 1]);
    }
  }

  lemma SpentWiden(f: Fill, g: Fill, lo: real, hi: real, hi2: real)
    requires Spent(f, g, lo, hi) && hi <= hi2
    ensures Spent(f, g, lo, hi2)
  {
    MulMonotone(hi, hi2, g.shares - f.shares);
  }

  /** Nothing bought is spent within any band. */
  lemma SpentNothing(f: Fill, g: Fill, lo: real, hi: real)
    requires g.shares == f.shares && g.cost == f.cost
    ensures Spent(f, g, lo, hi)
  {
  }

  /** Over sorted asks, what the walk adds is bought at prices between `lo`
      (below every ask in the band) and the last price it buys at. */
  lemma {:induction false} WalkTakenBounds(asks: seq<Level>, c: real, f: Fill, lo: real, last: real)
    decreases |asks|, 1
    requires f.remaining >= 0.0
    requires Ascending(asks, PriceOf) && SizesNonNegative(asks) && BandWithin(asks, c, lo, c)
    ensures Spent(f, Walk(asks, c, f), lo, LastTaken(asks, c, f, last))
  {
    if asks == [] {
      SpentNothing(f, f, lo, last);
    } else {
      var a := asks[0];
      var rest := asks[1..];
      SortedTail(asks);
      if a.price <= 0.0 {
        WalkTakenBounds(rest, c, f, lo, last);
      } else if a.price > c {
        SpentNothing(f, f, lo, last);
      } else if Notional(a) <= f.remaining {
        TakeWholeBounds(asks, c, f, lo, last);
      } else if f.remaining > 0.0 {
        TakePartSpent(a, f, lo, a.price);
      } else {
        assert TakePart(a, f).shares == f.shares + 0.0 / a.price;
        SpentNothing(f, TakePart(a, f), lo, last);
      }
    }
  }

  /** The step of `WalkTakenBounds` where the first ask is bought whole. */
  lemma {:induction false} TakeWholeBounds(asks: seq<Level>, c: real, f: Fill, lo: real, last: real)
    requires f.remaining >= 0.0 && asks != []
    requires Ascending(asks, PriceOf) && SizesNonNegative(asks) && BandWithin(asks, c, lo, c)
    requires 0.0 < asks[0].price <= c && Notional(asks[0]) <= f.remaining
    decreases |asks|, 0
    ensures Spent(f, Walk(asks[1..], c, TakeLevel(asks[0], f)), lo, LastTaken(asks, c, f, last))
  {
    var a := asks[0];
    var rest := asks[1..];
    SortedTail(asks);
    var g := TakeLevel(a, f);
    var next := if a.size > 0.0 then a.price else last;
    WalkTakenBounds(rest, c, g, lo, next);
    var hi := LastTaken(rest, c, g, next);
    assert hi == LastTaken(asks, c, f, last);
    if a.size > 0.0 {
      LastTakenAtLeast(rest, c, g, a.price);
      TakeLevelSpent(a, f, lo, a.price);
      SpentWiden(f, g, lo, a.price, hi);
    } else {
      assert Notional(a) == 0.0;
      SpentNothing(f, g, lo, hi);
    }
    SpentTrans(f, g, Walk(rest, c, g), lo, hi);
  }

  /** The fill price over any sequence standing for the sorted asks lies
      between `lo` and the price of the last level bought from. */
  lemma VwapOnSorted(sorted: seq<Level>, c: real, lo: real)
    requires Ascending(sorted, PriceOf) && SizesNonNegative(sorted) && BandWithin(sorted, c, lo, c)
    ensures var r := Conclude(Walk(sorted, c, Start));
      r.Priced? ==> lo <= r.price <= LastTaken(sorted, c, Start, 0.0)
  {
    WalkTakenBounds(sorted, c, Start, lo, 0.0);
    var f := Walk(sorted, c, Start);
    if Conclude(f).Priced? {
      AverageWithin(f, lo, LastTaken(sorted, c, Start, 0.0));
    }
  }

  lemma SortedBand(asks: seq<Level>, c: real, lo: real)
    requires SizesNonNegative(asks) && BandWithin(asks, c, lo, c)
    ensures var sorted := SortByKey(asks, PriceOf);
      Ascending(sorted, PriceOf) && SizesNonNegative(sorted) && BandWithin(sorted, c, lo, c)
  {
    SortedMembers(asks);
  }

  /** The fill price lies between the lowest ask in the band (the first
      level bought) and the price of the last level shares are bought
      from, itself an ask in the band. */
  lemma VwapWithinTaken(asks: seq<Level>, c: real, lo: real)
    requires SizesNonNegative(asks) && BandWithin(asks, c, lo, c)
    ensures var sorted := SortByKey(asks, PriceOf);
      var r := Conclude(Walk(sorted, c, Start));
      r.Priced? ==> lo <= r.price <= LastTaken(sorted, c, Start, 0.0)
    ensures var p := LastTaken(SortByKey(asks, PriceOf), c, Start, 0.0);
      p == 0.0 || exists a :: a in asks && 0.0 < a.price <= c && p == a.price
  {
    SortedBand(asks, c, lo);
    VwapOnSorted(SortByKey(asks, PriceOf), c, lo);
    LastTakenIsAsk(SortByKey(asks, PriceOf), c, Start, 0.0);
    SortedMembers(asks);
  }

  // ---------------------------------------------------------------------
  // The all-or-nothing liquidity gate.

  /** The notional an ask offers within the band (0 < price <= c). */
  function BandCost(c: real): Level -> real
  {
    (a: Level) => if 0.0 < a.price <= c then Notional(a) else 0.0
  }

  function Max0(x: real): real
  {
    if x > 0.0 then x else 0.0
  }

  lemma NotionalNonNegative(a: Level)
    requires a.price > 0.0 && a.size >= 0.0
    ensures Notional(a) >= 0.0
  {
    MulMonotone(0.0, a.price, a.size);
  }

  lemma {:induction false} BandSumNonNegative(asks: seq<Level>, c: real)
    requires SizesNonNegative(asks)
    ensures SumBy(asks, BandCost(c)) >= 0.0
  {
    if asks != [] {
      assert asks[0] in asks;
      assert forall b :: b in asks[1..] ==> b in asks;
      BandSumNonNegative(asks[1..], c);
      if 0.0 < asks[0].price <= c {
        NotionalNonNegative(asks[0]);
      }
    }
  }

  /** Sorted asks whose first price is above the ceiling offer nothing in
      the band. */
  lemma {:induction false} BandSumAbove(asks: seq<Level>, c: real)
    requires Ascending(asks, PriceOf)
    requires asks != [] ==> asks[0].price > c
    ensures SumBy(asks, BandCost(c)) == 0.0
  {
    if |asks| > 1 {
      assert PriceOf(asks[0]) <= PriceOf(asks[1]);
      BandSumAbove(asks[1..], c);
    } else if |asks| == 1 {
      assert asks[1..] == [];
    }
  }

  /** Over sorted asks with non-negative sizes, the walk leaves exactly the
      part of the budget the band cannot cover. */
  lemma {:induction false} WalkRemaining(asks: seq<Level>, c: real, f: Fill)
    requires Ascending(asks, PriceOf) && SizesNonNegative(asks) && f.remaining >= 0.0
    ensures Walk(asks, c, f).remaining == Max0(f.remaining - SumBy(asks, BandCost(c)))
  {
    if asks != [] {
      var a := asks[0];
      assert a in asks;
      assert forall b :: b in asks[1..] ==> b in asks;
      assert SumBy(asks, BandCost(c)) == BandCost(c)(a) + SumBy(asks[1..], BandCost(c));
      if a.price <= 0.0 {
        WalkRemaining(asks[1..], c, f);
      } else if a.price > c {
        BandSumAbove(asks, c);
      } else if Notional(a) <= f.remaining {
        WalkRemaining(asks[1..], c, TakeLevel(a, f));
      } else {
        BandSumNonNegative(asks[1..], c);
      }
    }
  }

  lemma ConcludeGate(f: Fill, offered: real)
    requires f.remaining == Max0(PositionSize - offered)
    requires f.cost + f.remaining == PositionSize
    requires f.shares == 0.0 ==> f.cost == 0.0
    ensures Conclude(f).Priced? <==> offered >= PositionSize
  {
    if offered >= PositionSize {
      assert f.cost == PositionSize;
      assert f.shares != 0.0;
    }
  }

  /** `sorted` stands for the sorted asks: ascending by price, sizes
      non-negative, and the same notional offered within the band. */
  ghost predicate SortedOf(sorted: seq<Level>, asks: seq<Level>, c: real)
  {
    Ascending(sorted, PriceOf) && SizesNonNegative(sorted)
    && SumBy(sorted, BandCost(c)) == SumBy(asks, BandCost(c))
  }

  lemma SortedFacts(asks: seq<Level>, c: real)
    requires SizesNonNegative(asks)
    ensures SortedOf(SortByKey(asks, PriceOf), asks, c)
  {
    SortedMembers(asks);
    SortKeepsSum(asks, PriceOf, BandCost(c));
  }

  /** The gate over any sequence standing for the sorted asks. */
  lemma GateOnSorted(sorted: seq<Level>, asks: seq<Level>, c: real)
    requires SortedOf(sorted, asks, c)
    ensures Conclude(Walk(sorted, c, Start)).Priced? <==> SumBy(asks, BandCost(c)) >= PositionSize
  {
    WalkRemaining(sorted, c, Start);
    WalkKeepsBudget(sorted, c, Start);
    NoSharesNoCost(sorted, c);
    ConcludeGate(Walk(sorted, c, Start), SumBy(asks, BandCost(c)));
  }

  /** The gate: with non-negative sizes the fill succeeds exactly when the
      asks priced above 0 and at most the ceiling offer at least the
      position size in notional; a partly affordable book is refused. */
  lemma LiquidityGate(asks: seq<Level>, c: real)
    requires SizesNonNegative(asks)
    ensures Conclude(Walk(SortByKey(asks, PriceOf), c, Start)).Priced?
        <==> SumBy(asks, BandCost(c)) >= PositionSize
  {
    SortedFacts(asks, c);
    GateOnSorted(SortByKey(asks, PriceOf), asks, c);
  }

  /** A walk from the start that buys no shares spends nothing. */
  lemma NoSharesNoCost(asks: seq<Level>, c: real)
    requires SizesNonNegative(asks)
    ensures Walk(asks, c, Start).shares == 0.0 ==> Walk(asks, c, Start).cost == 0.0
  {
    WalkBounds(asks, c, Start, 0.0, c);
  }

  // ---------------------------------------------------------------------
  // The same facts about `_compute_entry_price` as a whole.

  /** For a fetched book with asks of non-negative size: the only failure
      left is insufficient liquidity, which happens exactly when the band
      offers less than the position size; a success is priced above 0 and
      at most the ceiling, midpoint * 1.05. */
  lemma EntryPriceGate(token: string, ex: Exchange)
    requires token != "" && token in ex.books && ex.books[token].asks != []
    requires SizesNonNegative(ex.books[token].asks)
    ensures var book := ex.books[token];
      var c := Ceiling(token, book, ex);
      var r := EntryPrice(Some(token), ex);
      (r.Priced? <==> SumBy(book.asks, BandCost(c)) >= PositionSize)
      && (r.Failed? ==> r.reason == InsufficientLiquidity)
      && (r.Priced? ==> 0.0 < r.price <= c)
  {
    var book := ex.books[token];
    var c := Ceiling(token, book, ex);
    var sorted := SortByKey(book.asks, PriceOf);
    LiquidityGate(book.asks, c);
    VwapWithinBand(book.asks, c, 0.0, c);
    FillSpendsBudget(sorted, c);
    var f := Walk(sorted, c, Start);
    if Conclude(f).Priced? {
      assert f.cost == PositionSize && f.cost / f.shares >= 0.0;
      assert f.cost / f.shares != 0.0;
    }
  }

  /** The book of the two examples below: 100 shares at 0.10 and 200 at
      0.12. */
  function ExampleAsks(): seq<Level>
  {
    [Level(0.10, 100.0), Level(0.12, 200.0)]
  }

  lemma ExampleAsksSorted()
    ensures SortByKey(ExampleAsks(), PriceOf) == ExampleAsks()
  {
    var asks := ExampleAsks();
    assert asks[1..] == [Level(0.12, 200.0)];
    assert SortByKey([Level(0.12, 200.0)], PriceOf) == [Level(0.12, 200.0)];
  }

  /** The first level costs $10 for 100 shares and leaves $15 to spend. */
  lemma ExampleFirstLevel(c: real)
    requires c >= 0.10
    ensures Walk(ExampleAsks(), c, Start) == Walk([Level(0.12, 200.0)], c, Fill(10.0, 100.0, 15.0))
  {
    var asks := ExampleAsks();
    assert TakeLevel(asks[0], Start) == Fill(10.0, 100.0, 15.0);
    assert asks[1..] == [Level(0.12, 200.0)];
  }

  /** A two-level book and a 0.115 midpoint quote: the first level is
      bought whole ($10 for 100 shares) and the second for the remaining
      $15 at 0.12 (125 shares), so the price is 25 / 225, not the best
      ask. */
  lemma VwapExample()
    ensures EntryPrice(Some("t"), Exchange(map["t" := Book(ExampleAsks(), [])], map["t" := 0.115]))
      == Priced(25.0 / 225.0)
  {
    var ex := Exchange(map["t" := Book(ExampleAsks(), [])], map["t" := 0.115]);
    ExampleAsksSorted();
    var c := Ceiling("t", Book(ExampleAsks(), []), ex);
    assert c == 0.115 * 1.05;
    ExampleFirstLevel(c);
    assert Walk([Level(0.12, 200.0)], c, Fill(10.0, 100.0, 15.0)) == Fill(25.0, 225.0, 0.0);
  }

  /** The same book with a 0.10 midpoint: the ceiling is 0.105, only $10
      is available below it, and the order is refused although 100 shares
      were affordable. */
  lemma InsufficientExample()
    ensures EntryPrice(Some("t"), Exchange(map["t" := Book(ExampleAsks(), [])], map["t" := 0.10]))
      == Failed(InsufficientLiquidity)
  {
    var ex := Exchange(map["t" := Book(ExampleAsks(), [])], map["t" := 0.10]);
    ExampleAsksSorted();
    var c := Ceiling("t", Book(ExampleAsks(), []), ex);
    assert c == 0.10 * 1.05;
    ExampleFirstLevel(c);
    assert Walk([Level(0.12, 200.0)], c, Fill(10.0, 100.0, 15.0)) == Fill(10.0, 100.0, 15.0);
  }
}
