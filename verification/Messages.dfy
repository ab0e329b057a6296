/** What whole messages normalize to, in the fields of their records. */
module Messages {
  import opened Basics
  import opened Schema
  import opened Normalize

  // ---- The records of a message ----

  function IsUpdate(): Envelope -> bool {
    (e: Envelope) => e.kind != "snapshot"
  }

  /** The trades of some envelopes, in order. */
  function TradesIn(es: seq<Envelope>): seq<RawTrade> {
    if es == [] then [] else TradesIn(es[..|es| - 1]) + es[|es| - 1].trades
  }

  /** New trades are those of the envelopes that are no snapshots. */
  lemma {:induction false} NewTradesAreUpdates(es: seq<Envelope>)
    ensures NewTrades(es) == TradesIn(Filter(es, IsUpdate()))
  {
    if es != [] {
      var n := |es| - 1;
      NewTradesAreUpdates(es[..n]);
      FilterAppend(es[..n], es[n], IsUpdate());
      assert es == es[..n] + [es[n]];
      if es[n].kind != "snapshot" {
        LastOfConcat(Filter(es[..n], IsUpdate()), [es[n]]);
        assert Filter(es[..n], IsUpdate()) + [] == Filter(es[..n], IsUpdate());
      } else {
        assert NewTrades(es[..n]) + [] == NewTrades(es[..n]);
        assert Filter(es, IsUpdate()) == Filter(es[..n], IsUpdate());
      }
    }
  }

  /** Ticks come envelope by envelope, each in its place. */
  lemma {:induction false} TickInPlace(es: seq<Envelope>, i: nat, j: nat)
    requires i < |es| && j < |es[i].tickers|
    ensures |AllTicks(es[..i])| + j < |AllTicks(es)| && AllTicks(es)[|AllTicks(es[..i])| + j] == es[i].tickers[j]
  {
    var n := |es| - 1;
    assert i < n ==> es[..n][..i] == es[..i];
    if i < n {
      TickInPlace(es[..n], i, j);
    }
  }

  lemma {:induction false} TradeInPlace(es: seq<Envelope>, i: nat, j: nat)
    requires i < |es| && j < |es[i].trades|
    ensures |TradesIn(es[..i])| + j < |TradesIn(es)| && TradesIn(es)[|TradesIn(es[..i])| + j] == es[i].trades[j]
  {
    var n := |es| - 1;
    assert i < n ==> es[..n][..i] == es[..i];
    if i < n {
      TradeInPlace(es[..n], i, j);
    }
  }

  // ---- Coinbase trades ----

  function PublishableTrades(symbols: SymbolMap): RawTrade -> bool {
    (t: RawTrade) => TradePublishable(t, symbols)
  }

  /** Neither dropped as unconfigured nor publishable. */
  function RefusedTrades(symbols: SymbolMap): RawTrade -> bool {
    (t: RawTrade) => !Unconfigured(t.productId, symbols) && !TradePublishable(t, symbols)
  }

  /** Each event is the record in its place, as it was read. */
  predicate TradeEvents(es: seq<MarketEvent>, ts: seq<RawTrade>, ingest: nat, symbols: SymbolMap) {
    |es| == |ts| && forall i :: 0 <= i < |ts| ==> IsTradeEvent(es[i], ts[i], ingest, symbols)
  }

  /** Why a trade is refused: the first field that does not read, or the violation of what was read. */
  function TradeFault(t: RawTrade, symbols: SymbolMap): Reason {
    if t.productId == NoText then MissingField("product_id")
    else if t.productId == OddCompound && symbols != None then Unreadable("product_id")
    else if t.price == NoNumber then MissingField("price")
    else if !t.price.Number? then Unreadable("price")
    else if t.size == NoNumber then MissingField("size")
    else if !t.size.Number? then Unreadable("size")
    else if t.time == NoTime then MissingField("time")
    else if !t.time.Nanos? then Unreadable("time")
    else if !t.productId.Text? then Unreadable("product_id")
    else if t.price.value <= 0.0 then Breaks(PriceNotPositive)
    else Breaks(Negative("size"))
  }

  /** Each reject holds the record in its place, and its fault. */
  predicate TradeRejects(rs: seq<Rejected>, ts: seq<RawTrade>, symbols: SymbolMap) {
    |rs| == |ts| && forall i :: 0 <= i < |ts| ==> rs[i] == BadTrade(TradeFault(ts[i], symbols), ts[i])
  }

  /** One event for each publishable trade, as it was read, and one reject for each refused trade,
      holding it; both in order. */
  predicate TradesBecome(ts: seq<RawTrade>, r: Normalized, ingest: nat, symbols: SymbolMap) {
    && TradeEvents(r.events, Filter(ts, PublishableTrades(symbols)), ingest, symbols)
    && TradeRejects(r.rejects, Filter(ts, RefusedTrades(symbols)), symbols)
  }

  /** What one trade that does not raise becomes. */
  predicate TradeBecomesOne(t: RawTrade, r: Normalized, ingest: nat, symbols: SymbolMap) {
    && TradeEvents(r.events, if PublishableTrades(symbols)(t) then [t] else [], ingest, symbols)
    && TradeRejects(r.rejects, if RefusedTrades(symbols)(t) then [t] else [], symbols)
  }

  lemma TradeFaultFound(t: RawTrade, ingest: nat, symbols: SymbolMap)
    requires RefusedTrades(symbols)(t) && !TradeRaises(t, symbols)
    ensures NormalizeTrade(t, ingest, symbols) == Reject(TradeFault(t, symbols))
  {
  }

  lemma TradeBecomes(t: RawTrade, ingest: nat, symbols: SymbolMap)
    requires !TradeRaises(t, symbols)
    ensures TradeBecomesOne(t, OfTrade(t, ingest, symbols), ingest, symbols)
  {
    TradePublishedIff(t, ingest, symbols);
    if RefusedTrades(symbols)(t) {
      TradeFaultFound(t, ingest, symbols);
    }
  }

  lemma TradeEventsMore(a: seq<MarketEvent>, ts: seq<RawTrade>, b: seq<MarketEvent>, us: seq<RawTrade>, ingest: nat, symbols: SymbolMap)
    requires TradeEvents(a, ts, ingest, symbols) && TradeEvents(b, us, ingest, symbols)
    ensures TradeEvents(a + b, ts + us, ingest, symbols)
  {
  }

  lemma TradeRejectsMore(a: seq<Rejected>, ts: seq<RawTrade>, b: seq<Rejected>, us: seq<RawTrade>, symbols: SymbolMap)
    requires TradeRejects(a, ts, symbols) && TradeRejects(b, us, symbols)
    ensures TradeRejects(a + b, ts + us, symbols)
  {
  }

  /** Adding what one more trade becomes. */
  lemma TradesBecomeMore(ts: seq<RawTrade>, t: RawTrade, a: Normalized, b: Normalized, ingest: nat, symbols: SymbolMap)
    requires TradesBecome(ts, a, ingest, symbols) && TradeBecomesOne(t, b, ingest, symbols)
    ensures TradesBecome(ts + [t], Append(a, b), ingest, symbols)
  {
    var p, r := PublishableTrades(symbols), RefusedTrades(symbols);
    FilterAppend(ts, t, p);
    FilterAppend(ts, t, r);
    TradeEventsMore(a.events, Filter(ts, p), b.events, if p(t) then [t] else [], ingest, symbols);
    TradeRejectsMore(a.rejects, Filter(ts, r), b.rejects, if r(t) then [t] else [], symbols);
  }

  lemma {:induction false} TradesYield(ts: seq<RawTrade>, ingest: nat, symbols: SymbolMap)
    requires forall i :: 0 <= i < |ts| ==> !TradeRaises(ts[i], symbols)
    ensures TradesBecome(ts, OfTrades(ts, ingest, symbols), ingest, symbols)
  {
    if ts != [] {
      var n := |ts| - 1;
      TradesYield(ts[..n], ingest, symbols);
      TradeBecomes(ts[n], ingest, symbols);
      TradesBecomeMore(ts[..n], ts[n], OfTrades(ts[..n], ingest, symbols), OfTrade(ts[n], ingest, symbols), ingest, symbols);
      assert ts == ts[..n] + [ts[n]];
    }
  }

  /** A message of trades: lost if a new trade raises; otherwise an event for each publishable new trade
      and a reject for each refused one, in the order of the message. */
  lemma TradeMessageYields(p: Payload, ingest: nat, symbols: SymbolMap)
    requires p.channel == "market_trades"
    ensures var ts := TradesIn(Filter(p.events, IsUpdate()));
            match OfPayload(p, ingest, symbols)
            case None => exists t :: t in ts && TradeRaises(t, symbols)
            case Some(r) => TradesBecome(ts, r, ingest, symbols) && forall t :: t in ts ==> !TradeRaises(t, symbols)
  {
    var ts := TradesIn(Filter(p.events, IsUpdate()));
    NewTradesAreUpdates(p.events);
    if !AnyRaises(ts, symbols) {
      assert forall i :: 0 <= i < |ts| ==> ts[i] in ts;
      TradesYield(ts, ingest, symbols);
    }
  }

  // ---- Coinbase ticks ----

  function PublishableTicks(symbols: SymbolMap): RawTick -> bool {
    (t: RawTick) => TickPublishable(t, symbols)
  }

  function RefusedTicks(symbols: SymbolMap): RawTick -> bool {
    (t: RawTick) => !Unconfigured(t.productId, symbols) && !TickPublishable(t, symbols)
  }

  /** Each event is the record in its place, as it was read. */
  predicate TickEvents(es: seq<MarketEvent>, ts: seq<RawTick>, time: nat, ingest: nat, symbols: SymbolMap) {
    |es| == |ts| && forall i :: 0 <= i < |ts| ==> IsTickEvent(es[i], ts[i], time, ingest, symbols)
  }

  predicate Below(x: RawNumber) {
    x.Number? && x.value < 0.0
  }

  /** Why a tick is refused: the first field that does not read, or the first violation of what was read. */
  function TickFault(t: RawTick, symbols: SymbolMap): Reason {
    if t.productId == NoText then MissingField("product_id")
    else if t.productId == OddCompound && symbols != None then Unreadable("product_id")
    else if t.price == BadNumber then Unreadable("price")
    else if t.bestBid == BadNumber then Unreadable("best_bid")
    else if t.bestAsk == BadNumber then Unreadable("best_ask")
    else if t.bidQuantity == BadNumber then Unreadable("best_bid_quantity")
    else if t.askQuantity == BadNumber then Unreadable("best_ask_quantity")
    else if !t.productId.Text? then Unreadable("product_id")
    else if Below(t.price) || t.price == Number(0.0) then Breaks(PriceNotPositive)
    else if Below(t.bestBid) then Breaks(Negative("best_bid"))
    else if Below(t.bestAsk) then Breaks(Negative("best_ask"))
    else if Below(t.bidQuantity) then Breaks(Negative("best_bid_size"))
    else if Below(t.askQuantity) then Breaks(Negative("best_ask_size"))
    else Breaks(CrossedBook)
  }

  /** Each reject holds the record in its place, and its fault. */
  predicate TickRejects(rs: seq<Rejected>, ts: seq<RawTick>, symbols: SymbolMap) {
    |rs| == |ts| && forall i :: 0 <= i < |ts| ==> rs[i] == BadTick(TickFault(ts[i], symbols), ts[i])
  }

  /** One event for each publishable tick, at the envelope's time, and one reject for each refused tick,
      holding it; both in order. */
  predicate TicksBecome(ts: seq<RawTick>, r: Normalized, time: nat, ingest: nat, symbols: SymbolMap) {
    && TickEvents(r.events, Filter(ts, PublishableTicks(symbols)), time, ingest, symbols)
    && TickRejects(r.rejects, Filter(ts, RefusedTicks(symbols)), symbols)
  }

  /** What one tick that does not raise becomes. */
  predicate TickBecomesOne(t: RawTick, r: Normalized, time: nat, ingest: nat, symbols: SymbolMap) {
    && TickEvents(r.events, if PublishableTicks(symbols)(t) then [t] else [], time, ingest, symbols)
    && TickRejects(r.rejects, if RefusedTicks(symbols)(t) then [t] else [], symbols)
  }

  lemma TickFaultFound(t: RawTick, time: nat, ingest: nat, symbols: SymbolMap)
    requires RefusedTicks(symbols)(t) && !TickRaises(t, symbols)
    ensures NormalizeTick(t, time, ingest, symbols) == Reject(TickFault(t, symbols))
  {
  }

  lemma TickBecomes(t: RawTick, time: nat, ingest: nat, symbols: SymbolMap)
    requires !TickRaises(t, symbols)
    ensures TickBecomesOne(t, OfTick(t, time, ingest, symbols), time, ingest, symbols)
  {
    TickPublishedIff(t, time, ingest, symbols);
    if RefusedTicks(symbols)(t) {
      TickFaultFound(t, time, ingest, symbols);
    }
  }

  lemma TickEventsMore(a: seq<MarketEvent>, ts: seq<RawTick>, b: seq<MarketEvent>, us: seq<RawTick>, time: nat, ingest: nat, symbols: SymbolMap)
    requires TickEvents(a, ts, time, ingest, symbols) && TickEvents(b, us, time, ingest, symbols)
    ensures TickEvents(a + b, ts + us, time, ingest, symbols)
  {
  }

  lemma TickRejectsMore(a: seq<Rejected>, ts: seq<RawTick>, b: seq<Rejected>, us: seq<RawTick>, symbols: SymbolMap)
    requires TickRejects(a, ts, symbols) && TickRejects(b, us, symbols)
    ensures TickRejects(a + b, ts + us, symbols)
  {
  }

  /** Adding what one more tick becomes. */
  lemma TicksBecomeMore(ts: seq<RawTick>, t: RawTick, a: Normalized, b: Normalized, time: nat, ingest: nat, symbols: SymbolMap)
    requires TicksBecome(ts, a, time, ingest, symbols) && TickBecomesOne(t, b, time, ingest, symbols)
    ensures TicksBecome(ts + [t], Append(a, b), time, ingest, symbols)
  {
    var p, r := PublishableTicks(symbols), RefusedTicks(symbols);
    FilterAppend(ts, t, p);
    FilterAppend(ts, t, r);
    TickEventsMore(a.events, Filter(ts, p), b.events, if p(t) then [t] else [], time, ingest, symbols);
    TickRejectsMore(a.rejects, Filter(ts, r), b.rejects, if r(t) then [t] else [], symbols);
  }

  lemma {:induction false} TicksYield(ts: seq<RawTick>, time: nat, ingest: nat, symbols: SymbolMap)
    requires forall i :: 0 <= i < |ts| ==> !TickRaises(ts[i], symbols)
    ensures TicksBecome(ts, OfTicks(ts, time, ingest, symbols), time, ingest, symbols)
  {
    if ts != [] {
      var n := |ts| - 1;
      TicksYield(ts[..n], time, ingest, symbols);
      TickBecomes(ts[n], time, ingest, symbols);
      TicksBecomeMore(ts[..n], ts[n], OfTicks(ts[..n], time, ingest, symbols), OfTick(ts[n], time, ingest, symbols), time, ingest, symbols);
      assert ts == ts[..n] + [ts[n]];
    }
  }

  /** A message of ticks: lost if its time or, when that reads, a tick raises; one reject in all if its
      time does not read; otherwise an event for each publishable tick, at the message's time cut to
      microseconds, and a reject for each refused one, in the order of the message. */
  lemma TickMessageYields(p: Payload, ingest: nat, symbols: SymbolMap)
    requires p.channel == "ticker"
    ensures var ts := AllTicks(p.events);
            match OfPayload(p, ingest, symbols)
            case None => p.timestamp == OddTime || (p.timestamp.Nanos? && exists t :: t in ts && TickRaises(t, symbols))
            case Some(r) =>
              if p.timestamp.Nanos?
              then TicksBecome(ts, r, p.timestamp.value / 1_000, ingest, symbols) && forall t :: t in ts ==> !TickRaises(t, symbols)
              else p.timestamp in {NoTime, BadTime} &&
                   r == Normalized([], [BadMessage(if p.timestamp == NoTime then MissingField("timestamp") else Unreadable("timestamp"))])
  {
    var ts := AllTicks(p.events);
    if p.timestamp.Nanos? && !AnyTickRaises(ts, symbols) {
      assert forall i :: 0 <= i < |ts| ==> ts[i] in ts;
      TicksYield(ts, p.timestamp.value / 1_000, ingest, symbols);
    }
  }

  /** A message of any other channel yields nothing. */
  lemma OtherChannelsYieldNothing(p: Payload, ingest: nat, symbols: SymbolMap)
    requires p.channel != "market_trades" && p.channel != "ticker"
    ensures OfPayload(p, ingest, symbols) == Some(Normalized([], []))
  {
  }

  // ---- Under the configured symbols ----

  /** The characters of a symbol other than dashes. */
  function Dashless(s: string): string {
    Filter(s, c => c != '-')
  }

  /** A dash-style name is the symbol itself; a concat-style name is the symbol without its dashes. */
  lemma {:induction false} NativeSpelling(symbol: string)
    ensures Native(Dash, symbol) == symbol && Native(Concat, symbol) == Dashless(symbol) && '-' !in Native(Concat, symbol)
  {
    if symbol != [] {
      NativeSpelling(symbol[..|symbol| - 1]);
    }
  }

  /** Coinbase messages are read with each configured symbol under its own name. */
  lemma CoinbaseMessage(p: Payload, ingest: nat, symbols: seq<string>)
    ensures OfMessage(FromCoinbase(p), ingest, symbols) == OfPayload(p, ingest, Some(map s | s in symbols :: s))
  {
    SymbolMapSound(Dash, symbols);
    var m := BuildSymbolMap(Dash, symbols);
    forall s | s in symbols ensures s in m && m[s] == s { assert Native(Dash, s) in m; }
    assert m == map s | s in symbols :: s;
  }

  // ---- Binance.US ----

  /** A configured symbol under its dashless name. */
  predicate Listed(symbol: RawText, symbols: seq<string>) {
    symbol.Text? && exists s :: s in symbols && Dashless(s) == symbol.value
  }

  lemma ListedIffMapped(symbol: RawText, symbols: seq<string>)
    requires symbol.Text?
    ensures var m := BuildSymbolMap(Concat, symbols);
            && (Listed(symbol, symbols) <==> symbol.value in m)
            && (symbol.value in m ==> m[symbol.value] in symbols && Dashless(m[symbol.value]) == symbol.value)
  {
    var m := BuildSymbolMap(Concat, symbols);
    SymbolMapSound(Concat, symbols);
    forall s | s in symbols ensures Native(Concat, s) == Dashless(s) { NativeSpelling(s); }
    if symbol.value in m {
      assert m[symbol.value] in symbols;
    }
  }

  /** A record of type "trade", or with all four trade fields. */
  predicate IsTradeRecord(d: BinanceData) {
    d.kind == "trade" || (NoNumber !in {d.price, d.quantity} && d.id != NoId && d.time != NoMillis)
  }

  /** Any other record that names both quotes. */
  predicate IsTickRecord(d: BinanceData) {
    !IsTradeRecord(d) && NoNumber !in {d.bid, d.ask}
  }

  /** Why a record is refused: the first field that does not read, or the first violation of what was. */
  function BinanceFault(d: BinanceData): Reason {
    if IsTradeRecord(d) then
      if d.price == NoNumber then MissingField("p")
      else if !d.price.Number? then Unreadable("p")
      else if d.quantity == NoNumber then MissingField("q")
      else if !d.quantity.Number? then Unreadable("q")
      else if d.time == NoMillis then MissingField("T")
      else if !d.time.Millis? then Unreadable("T")
      else if d.price.value <= 0.0 then Breaks(PriceNotPositive)
      else Breaks(Negative("size"))
    else if d.bid == BadNumber then Unreadable("b")
    else if d.ask == BadNumber then Unreadable("a")
    else if d.bidSize == BadNumber then Unreadable("B")
    else if d.askSize == BadNumber then Unreadable("A")
    else if Below(d.bid) then Breaks(Negative("best_bid"))
    else if Below(d.ask) then Breaks(Negative("best_ask"))
    else if Below(d.bidSize) then Breaks(Negative("best_bid_size"))
    else if Below(d.askSize) then Breaks(Negative("best_ask_size"))
    else Breaks(CrossedBook)
  }

  predicate RecordPublishable(d: BinanceData, m: map<string, string>) {
    (IsTradeRecord(d) && BinanceTradePublishable(d, m)) || (IsTickRecord(d) && BinanceTickPublishable(d, m))
  }

  lemma BinanceFaultFound(d: BinanceData, ingest: nat, m: map<string, string>)
    requires d.symbol.Text? && d.symbol.value in m && (IsTradeRecord(d) || IsTickRecord(d))
    requires !BinanceRaises(d, m) && !RecordPublishable(d, m)
    ensures NormalizeBinance(d, ingest, m) == Reject(BinanceFault(d))
  {
  }

  /** What becomes of a record: an event as it was read, a reject for its fault, or nothing. */
  predicate RecordBecomes(d: BinanceData, r: Normalized, ingest: nat, symbols: seq<string>, m: map<string, string>) {
    if RecordPublishable(d, m) then
      && r.rejects == [] && |r.events| == 1
      && (if IsTradeRecord(d) then IsBinanceTrade(r.events[0], d, ingest, m) else IsBinanceTick(r.events[0], d, ingest, m))
    else if Listed(d.symbol, symbols) && (IsTradeRecord(d) || IsTickRecord(d)) then
      r == Normalized([], [BadData(BinanceFault(d), d)])
    else r == Normalized([], [])
  }

  lemma RecordOutcome(d: BinanceData, ingest: nat, m: map<string, string>)
    requires !BinanceRaises(d, m)
    ensures var o := NormalizeBinance(d, ingest, m);
            if RecordPublishable(d, m) then
              && o.Emit?
              && (if IsTradeRecord(d) then IsBinanceTrade(o.event, d, ingest, m) else IsBinanceTick(o.event, d, ingest, m))
            else if d.symbol.Text? && d.symbol.value in m && (IsTradeRecord(d) || IsTickRecord(d)) then o == Reject(BinanceFault(d))
            else o == Drop
  {
    if RecordPublishable(d, m) {
      if IsTradeRecord(d) {
        BinanceTradePublishedIff(d, ingest, m);
      } else {
        BinanceTickPublishedIff(d, ingest, m);
      }
    } else if d.symbol.Text? && d.symbol.value in m && (IsTradeRecord(d) || IsTickRecord(d)) {
      BinanceFaultFound(d, ingest, m);
    }
  }

  /** A Binance.US message that does not raise yields one event, if its record is publishable, with the
      configured symbol whose dashless name it carries; one reject with the record and its fault, if it
      is a trade or a tick of a listed symbol and not publishable; and nothing otherwise. */
  lemma BinanceMessageYields(d: BinanceData, ingest: nat, symbols: seq<string>)
    ensures var m := BuildSymbolMap(Concat, symbols);
            match OfMessage(FromBinance(d), ingest, symbols)
            case None => BinanceRaises(d, m)
            case Some(r) => !BinanceRaises(d, m) && RecordBecomes(d, r, ingest, symbols, m)
    ensures var m := BuildSymbolMap(Concat, symbols);
            d.symbol.Text? ==> && (Listed(d.symbol, symbols) <==> d.symbol.value in m)
                               && (d.symbol.value in m ==> m[d.symbol.value] in symbols && Dashless(m[d.symbol.value]) == d.symbol.value)
  {
    var m := BuildSymbolMap(Concat, symbols);
    if d.symbol.Text? {
      ListedIffMapped(d.symbol, symbols);
    }
    if !BinanceRaises(d, m) {
      RecordOutcome(d, ingest, m);
    }
  }
}
