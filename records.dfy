/** The records that flow between the components: headlines from the feed
    collaborator, markets from the market cache, the judgment service's
    verdicts and the match engine's results. The source passes these around
    as dictionaries with optional keys; here each optional key is an
    `Option`, or a string whose default the source supplies with `get`. */
module Records {
  import opened Common

  /** A news headline. `url` is "" when the feed gave none; `published` is
      the publication instant in seconds; `fetchedAt` is set when the store
      first accepts the headline. */
  datatype Headline = Headline(
    title: string,
    url: string,
    published: int,
    summary: string,
    source: string,
    fetchedAt: Option<int>)

  /** One entry of a market's `outcomePrices`: the value as delivered and,
      when Python's `float()` accepts it, the number it denotes. */
  datatype PriceCell = PriceCell(raw: string, number: Option<real>)

  /** A prediction market. `outcomes`, `outcomePrices` and `clobTokenIds`
      are positionally aligned lists; nothing forces equal lengths, so every
      lookup below stays within the shorter list as the source does. */
  datatype Market = Market(
    id: Option<string>,
    conditionId: Option<string>,
    question: string,
    description: string,
    outcomes: seq<string>,
    outcomePrices: seq<PriceCell>,
    clobTokenIds: seq<string>)

  /** `market.get("id", market.get("conditionId", fallback))`. */
  function MarketIdOr(m: Market, fallback: string): string
  {
    match m.id
    case Some(i) => i
    case None =>
      match m.conditionId
      case Some(c) => c
      case None => fallback
  }

  /** The judgment service's verdict on a (headline, market) pair. */
  datatype Assessment = Assessment(
    relevant: bool,
    direction: string,
    confidence: Option<real>,
    reasoning: string)

  /** One (headline, candidate market) pair produced by the match engine;
      `assessment` is None when no judgment was requested or it failed. */
  datatype MatchResult = MatchResult(
    headline: Headline,
    market: Market,
    score: real,
    assessment: Option<Assessment>)

  /** The deduplication key of trades and skip records. */
  datatype Key = Key(marketId: string, headline: string)

  const ConfidenceThreshold: real := 0.6

  /** `llm.get("confidence") or 0`. */
  function ConfidenceOf(a: Assessment): real
  {
    match a.confidence
    case Some(c) => c
    case None => 0.0
  }

  /** The gate shared by trade creation and the reports: a relevant verdict
      with confidence at least 0.6. */
  predicate Admitted(a: Option<Assessment>)
  {
    a.Some? && a.value.relevant && ConfidenceOf(a.value) >= ConfidenceThreshold
  }
}
