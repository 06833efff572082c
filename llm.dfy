/** The price-extraction helper of the judgment prompt (src/matching/llm.py).
    The judgment call itself is an external service and is modelled by the
    match engine as an oracle. */
module Llm {
  import opened Common
  import opened Records

  /** The YES and NO prices as they are written into the prompt. */
  datatype PromptPrices = PromptPrices(yes: string, no: string)

  const NotAvailable: string := "N/A"

  function Min(a: nat, b: nat): nat
  {
    if a < b then a else b
  }

  /** The loop of `_extract_prices` after its first `n` iterations: each
      YES or NO outcome overwrites the price held for it. */
  function PricesAfter(outcomes: seq<string>, prices: seq<PriceCell>, n: nat): PromptPrices
    requires n <= |outcomes| && n <= |prices|
  {
    if n == 0 then PromptPrices(NotAvailable, NotAvailable)
    else
      var q := PricesAfter(outcomes, prices, n - 1);
      var name := Upper(outcomes[n - 1]);
      if name == "YES" then q.(yes := prices[n - 1].raw)
      else if name == "NO" then q.(no := prices[n - 1].raw)
      else q
  }

  /** `_extract_prices(market)`: only the pairs that `zip` forms are read. */
  function ExtractPrices(m: Market): PromptPrices
  {
    PricesAfter(m.outcomes, m.outcomePrices, Min(|m.outcomes|, |m.outcomePrices|))
  }

  /** Index `i` is the last of the first `n` outcomes whose upper-cased name is `word`. */
  ghost predicate LastNamed(outcomes: seq<string>, n: nat, word: string, i: int)
    requires n <= |outcomes|
  {
    0 <= i < n && Upper(outcomes[i]) == word
    && forall j :: i < j < n ==> Upper(outcomes[j]) != word
  }

  /** The price for YES (and for NO) is that of the last zipped outcome with
      that name, compared case-insensitively, and "N/A" when there is none. */
  lemma {:induction false} PricesAfterIsLastMatch(outcomes: seq<string>, prices: seq<PriceCell>, n: nat)
    requires n <= |outcomes| && n <= |prices|
    ensures (forall i :: 0 <= i < n ==> Upper(outcomes[i]) != "YES") ==> PricesAfter(outcomes, prices, n).yes == NotAvailable
    ensures (forall i :: 0 <= i < n ==> Upper(outcomes[i]) != "NO") ==> PricesAfter(outcomes, prices, n).no == NotAvailable
    ensures forall i :: LastNamed(outcomes, n, "YES", i) ==> PricesAfter(outcomes, prices, n).yes == prices[i].raw
    ensures forall i :: LastNamed(outcomes, n, "NO", i) ==> PricesAfter(outcomes, prices, n).no == prices[i].raw
  {
    if n > 0 {
      PricesAfterIsLastMatch(outcomes, prices, n - 1);
      forall i | LastNamed(outcomes, n, "YES", i) && i < n - 1
        ensures LastNamed(outcomes, n - 1, "YES", i)
      {}
      forall i | LastNamed(outcomes, n, "NO", i) && i < n - 1
        ensures LastNamed(outcomes, n - 1, "NO", i)
      {}
    }
  }

  /** The same statement for a whole market, within the zipped range. */
  lemma ExtractPricesIsLastMatch(m: Market)
    ensures var n := Min(|m.outcomes|, |m.outcomePrices|);
      && ((forall i :: 0 <= i < n ==> Upper(m.outcomes[i]) != "YES") ==> ExtractPrices(m).yes == NotAvailable)
      && ((forall i :: 0 <= i < n ==> Upper(m.outcomes[i]) != "NO") ==> ExtractPrices(m).no == NotAvailable)
      && (forall i :: LastNamed(m.outcomes, n, "YES", i) ==> ExtractPrices(m).yes == m.outcomePrices[i].raw)
      && (forall i :: LastNamed(m.outcomes, n, "NO", i) ==> ExtractPrices(m).no == m.outcomePrices[i].raw)
  {
    PricesAfterIsLastMatch(m.outcomes, m.outcomePrices, Min(|m.outcomes|, |m.outcomePrices|));
  }

  /** A lower-case "yes" is read as YES; a later repeat of it wins. */
  lemma ExtractPricesExample()
    ensures ExtractPrices(Market(None, None, "", "", ["yes", "Maybe", "YES"],
              [PriceCell("0.4", None), PriceCell("0.1", None), PriceCell("0.6", None)], []))
            == PromptPrices("0.6", NotAvailable)
  {
    var m := Market(None, None, "", "", ["yes", "Maybe", "YES"],
              [PriceCell("0.4", None), PriceCell("0.1", None), PriceCell("0.6", None)], []);
    assert Upper("yes") == "YES";
    assert Upper("Maybe") != "YES" && Upper("Maybe") != "NO";
    assert Upper("YES") == "YES";
    assert PricesAfter(m.outcomes, m.outcomePrices, 1) == PromptPrices("0.4", NotAvailable);
    assert PricesAfter(m.outcomes, m.outcomePrices, 2) == PromptPrices("0.4", NotAvailable);
    assert PricesAfter(m.outcomes, m.outcomePrices, 3) == PromptPrices("0.6", NotAvailable);
  }
}
