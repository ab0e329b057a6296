/** The normalized market event and its basic contract. */
module Schema {
  import opened Basics

  datatype EventType = Trade | Ticker
  datatype Side = Buy | Sell

  /** `tsEvent` and `tsIngest` are microseconds since the epoch. */
  datatype MarketEvent = MarketEvent(
    exchange: string,
    symbol: string,
    eventType: EventType,
    price: Option<real>,
    size: Option<real>,
    side: Option<Side>,
    tradeId: Option<string>,
    bestBid: Option<real>,
    bestAsk: Option<real>,
    bestBidSize: Option<real>,
    bestAskSize: Option<real>,
    tsEvent: nat,
    tsIngest: nat)

  datatype Violation = PriceNotPositive | Negative(field: string) | CrossedBook

  predicate IsNegative(x: Option<real>) {
    x.Some? && x.value < 0.0
  }

  /** Positive price, non-negative sizes and quotes, uncrossed book, wherever present. */
  predicate SchemaValid(e: MarketEvent) {
    && (e.price.Some? ==> e.price.value > 0.0)
    && (forall x :: x in {e.size, e.bestBid, e.bestAsk, e.bestBidSize, e.bestAskSize} && x.Some? ==> x.value >= 0.0)
    && (e.bestBid.Some? && e.bestAsk.Some? ==> e.bestBid.value <= e.bestAsk.value)
  }

  /** The validator: the first violation in the order the fields are checked, if any. */
  function BasicContract(e: MarketEvent): (v: Option<Violation>)
    ensures v == None <==> SchemaValid(e)
  {
    if e.price.Some? && e.price.value <= 0.0 then Some(PriceNotPositive)
    else if IsNegative(e.size) then Some(Negative("size"))
    else if IsNegative(e.bestBid) then Some(Negative("best_bid"))
    else if IsNegative(e.bestAsk) then Some(Negative("best_ask"))
    else if IsNegative(e.bestBidSize) then Some(Negative("best_bid_size"))
    else if IsNegative(e.bestAskSize) then Some(Negative("best_ask_size"))
    else if e.bestBid.Some? && e.bestAsk.Some? && e.bestAsk.value < e.bestBid.value then Some(CrossedBook)
    else None
  }

  /** The event carries the fields its type is aggregated on. */
  predicate Complete(e: MarketEvent) {
    match e.eventType
    case Trade => e.price.Some? && e.size.Some?
    case Ticker => e.bestBid.Some? && e.bestAsk.Some?
  }

  function OfType(t: EventType): MarketEvent -> bool {
    (e: MarketEvent) => e.eventType == t
  }

  function OfSymbol(symbol: string): MarketEvent -> bool {
    (e: MarketEvent) => e.symbol == symbol
  }

  /** The violation reported is one the event has, and a crossed book is reported only when each field
      is in order. */
  lemma ReportedViolation(e: MarketEvent)
    ensures match BasicContract(e)
            case None => SchemaValid(e)
            case Some(PriceNotPositive) => e.price.Some? && e.price.value <= 0.0
            case Some(Negative(field)) =>
              exists x: Option<real> :: x.Some? && x.value < 0.0 &&
                (field, x) in {("size", e.size), ("best_bid", e.bestBid), ("best_ask", e.bestAsk),
                               ("best_bid_size", e.bestBidSize), ("best_ask_size", e.bestAskSize)}
            case Some(CrossedBook) =>
              && e.bestBid.Some? && e.bestAsk.Some? && e.bestAsk.value < e.bestBid.value
              && SchemaValid(e.(bestBid := None))
  {
  }
}
