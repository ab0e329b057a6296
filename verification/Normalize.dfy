/** Normalization of raw exchange messages. A JSON field is modelled by what reading it gives: the
    value, or the kind of failure; number and timestamp syntax belong to library code. */
module Normalize {
  import opened Basics
  import opened Schema
  import opened Time

  // ---- Raw fields ----

  /** A number: absent, null, an empty string, unreadable, a whole number that no float can hold, or
      its value. Converting the last but one raises an error that is not caught record by record. */
  datatype RawNumber = NoNumber | NullNumber | EmptyNumber | BadNumber | OddNumber | Number(value: real)

  /** A symbol: text, null, some other scalar, or a list or object, which cannot be a key. */
  datatype RawText = NoText | NullText | OddScalar | OddCompound | Text(value: string)

  /** A timestamp: absent, a string that does not parse, an instant, or one that raises an error that is
      not caught record by record: no string at all, or a date that leaves the calendar in UTC. */
  datatype RawTime = NoTime | OddTime | BadTime | Nanos(value: nat)

  datatype Reason = MissingField(name: string) | Unreadable(name: string) | Breaks(violation: Violation)

  /** Reading a field gives a value, an error that rejects the record, or one that escapes. */
  datatype Read<T> = Value(value: T) | Fails(reason: Reason) | Raises

  /** A required number. */
  function ReadNumber(x: RawNumber, name: string): Read<real> {
    match x
    case NoNumber => Fails(MissingField(name))
    case OddNumber => Raises
    case Number(v) => Value(v)
    case _ => Fails(Unreadable(name))
  }

  /** An optional number: absent, null and empty all mean no value. */
  function ReadOptional(x: RawNumber, name: string): Read<Option<real>> {
    match x
    case Number(v) => Value(Some(v))
    case BadNumber => Fails(Unreadable(name))
    case OddNumber => Raises
    case _ => Value(None)
  }

  /** A required timestamp, its nanoseconds cut to microseconds. */
  function ReadTime(x: RawTime, name: string): Read<nat> {
    match x
    case NoTime => Fails(MissingField(name))
    case OddTime => Raises
    case BadTime => Fails(Unreadable(name))
    case Nanos(n) => Value(n / 1_000)
  }

  /** Upper case, for the letters that can spell a side: of the others only the long s becomes one. */
  function Upper(s: string): string {
    seq(|s|, i requires 0 <= i < |s| =>
      if 'a' <= s[i] <= 'z' then s[i] - 'a' + 'A' else if s[i] == '\U{17F}' then 'S' else s[i])
  }

  function ReadSide(s: string): Option<Side> {
    if Upper(s) == "BUY" then Some(Buy) else if Upper(s) == "SELL" then Some(Sell) else None
  }

  /** Falsy ids count as none. */
  function IdOf(id: Option<string>): Option<string> {
    if id.Some? && id.value != "" then id else None
  }

  // ---- Records ----

  type SymbolMap = Option<map<string, string>>

  /** What becomes of one raw record; `Raise` is an exception that is not handled record by record. */
  datatype Outcome = Emit(event: MarketEvent) | Drop | Reject(reason: Reason) | Raise

  /** The event constructor: the contract decides between emitting and rejecting. */
  function Construct(e: MarketEvent): Outcome {
    match BasicContract(e)
    case None => Emit(e)
    case Some(v) => Reject(Breaks(v))
  }

  /** What a field that did not read makes of its record. */
  function Unread<T>(r: Read<T>): Outcome
    requires !r.Value?
  {
    if r.Raises? then Raise else Reject(r.reason)
  }

  /** The symbol lookup: a name to use, something that is no text and fails with the other fields read,
      a drop, or an error at once. */
  datatype Resolved = Symbol(name: string) | NotText | Dropped | Unresolved(reason: Reason)

  /** Without a map the raw symbol stands, and null counts as no symbol; with one, a symbol that is
      not in it is dropped, and what cannot be looked up is an error. */
  function ResolveSymbol(raw: RawText, symbols: SymbolMap): Resolved {
    match raw
    case NoText => Unresolved(MissingField("product_id"))
    case NullText => Dropped
    case OddScalar => if symbols == None then NotText else Dropped
    case OddCompound => if symbols == None then NotText else Unresolved(Unreadable("product_id"))
    case Text(s) =>
      if symbols == None then Symbol(s)
      else if s in symbols.value then Symbol(symbols.value[s])
      else Dropped
  }

  datatype RawTrade = RawTrade(productId: RawText, price: RawNumber, size: RawNumber, side: string, tradeId: Option<string>, time: RawTime)

  datatype RawTick = RawTick(productId: RawText, price: RawNumber, bestBid: RawNumber, bestAsk: RawNumber, bidQuantity: RawNumber, askQuantity: RawNumber)

  /** The symbol lookup neither fails nor drops the record. */
  predicate Reached(productId: RawText, symbols: SymbolMap) {
    if symbols == None then !productId.NoText? && !productId.NullText?
    else productId.Text? && productId.value in symbols.value
  }

  /** Some field of the trade raises, and every field read before it reads. */
  predicate TradeRaises(t: RawTrade, symbols: SymbolMap) {
    && Reached(t.productId, symbols)
    && (t.price.OddNumber? || (t.price.Number? && (t.size.OddNumber? || (t.size.Number? && t.time.OddTime?))))
  }

  function NormalizeTrade(t: RawTrade, ingest: nat, symbols: SymbolMap): (r: Outcome)
    ensures r.Raise? <==> TradeRaises(t, symbols)
  {
    var found := ResolveSymbol(t.productId, symbols);
    if found.Dropped? then Drop
    else if found.Unresolved? then Reject(found.reason)
    else
      var price, size, time := ReadNumber(t.price, "price"), ReadNumber(t.size, "size"), ReadTime(t.time, "time");
      if !price.Value? then Unread(price)
      else if !size.Value? then Unread(size)
      else if !time.Value? then Unread(time)
      else if found.NotText? then Reject(Unreadable("product_id"))
      else Construct(MarketEvent("coinbase", found.name, Trade, Some(price.value), Some(size.value), ReadSide(t.side),
                                 IdOf(t.tradeId), None, None, None, None, time.value, ingest))
  }

  /** An optional number raises, or reads and leaves it to the fields after it. */
  predicate OddBefore(x: RawNumber, rest: bool) {
    x.OddNumber? || (!x.BadNumber? && rest)
  }

  predicate TickRaises(t: RawTick, symbols: SymbolMap) {
    && Reached(t.productId, symbols)
    && OddBefore(t.price, OddBefore(t.bestBid, OddBefore(t.bestAsk, OddBefore(t.bidQuantity, t.askQuantity.OddNumber?))))
  }

  function NormalizeTick(t: RawTick, time: nat, ingest: nat, symbols: SymbolMap): (r: Outcome)
    ensures r.Raise? <==> TickRaises(t, symbols)
  {
    var found := ResolveSymbol(t.productId, symbols);
    if found.Dropped? then Drop
    else if found.Unresolved? then Reject(found.reason)
    else
      var price := ReadOptional(t.price, "price");
      var bid, ask := ReadOptional(t.bestBid, "best_bid"), ReadOptional(t.bestAsk, "best_ask");
      var bidSize := ReadOptional(t.bidQuantity, "best_bid_quantity");
      var askSize := ReadOptional(t.askQuantity, "best_ask_quantity");
      if !price.Value? then Unread(price)
      else if !bid.Value? then Unread(bid)
      else if !ask.Value? then Unread(ask)
      else if !bidSize.Value? then Unread(bidSize)
      else if !askSize.Value? then Unread(askSize)
      else if found.NotText? then Reject(Unreadable("product_id"))
      else Construct(MarketEvent("coinbase", found.name, Ticker, price.value, None, None, None,
                                 bid.value, ask.value, bidSize.value, askSize.value, time, ingest))
  }

  // ---- The Coinbase envelope ----

  datatype Envelope = Envelope(kind: string, trades: seq<RawTrade>, tickers: seq<RawTick>)

  datatype Payload = Payload(channel: string, timestamp: RawTime, events: seq<Envelope>)

  datatype RawId = NoId | NullId | Id(value: string)

  /** A time in milliseconds: absent, unreadable or past the calendar, or too large to convert at all,
      which raises an error that is not caught. */
  datatype RawMillis = NoMillis | BadMillis | OddMillis | Millis(value: nat)

  /** The `data` object of a combined-stream message. */
  datatype BinanceData = BinanceData(
    symbol: RawText, kind: string, isBuyerMaker: bool,
    price: RawNumber, quantity: RawNumber, id: RawId, time: RawMillis,
    bid: RawNumber, ask: RawNumber, bidSize: RawNumber, askSize: RawNumber)

  /** A rejected record with its reason; a bad envelope timestamp rejects the whole message. */
  datatype Rejected =
    | BadTrade(reason: Reason, trade: RawTrade)
    | BadTick(reason: Reason, tick: RawTick)
    | BadMessage(reason: Reason)
    | BadData(reason: Reason, data: BinanceData)

  /** Events and rejects, each in the order of the message. */
  datatype Normalized = Normalized(events: seq<MarketEvent>, rejects: seq<Rejected>)

  function Append(a: Normalized, b: Normalized): Normalized {
    Normalized(a.events + b.events, a.rejects + b.rejects)
  }

  lemma AppendLaws(a: Normalized, b: Normalized, c: Normalized)
    ensures Append(Append(a, b), c) == Append(a, Append(b, c))
    ensures Append(a, Normalized([], [])) == a
  {
  }

  function OfTrade(t: RawTrade, ingest: nat, symbols: SymbolMap): Normalized {
    match NormalizeTrade(t, ingest, symbols)
    case Emit(e) => Normalized([e], [])
    case Reject(r) => Normalized([], [BadTrade(r, t)])
    case _ => Normalized([], [])
  }

  function OfTick(t: RawTick, time: nat, ingest: nat, symbols: SymbolMap): Normalized {
    match NormalizeTick(t, time, ingest, symbols)
    case Emit(e) => Normalized([e], [])
    case Reject(r) => Normalized([], [BadTick(r, t)])
    case _ => Normalized([], [])
  }

  /** Record by record: what a message yields is what its records yield, one after the other. */
  function OfTrades(ts: seq<RawTrade>, ingest: nat, symbols: SymbolMap): Normalized {
    if ts == [] then Normalized([], [])
    else Append(OfTrades(ts[..|ts| - 1], ingest, symbols), OfTrade(ts[|ts| - 1], ingest, symbols))
  }

  function OfTicks(ts: seq<RawTick>, time: nat, ingest: nat, symbols: SymbolMap): Normalized {
    if ts == [] then Normalized([], [])
    else Append(OfTicks(ts[..|ts| - 1], time, ingest, symbols), OfTick(ts[|ts| - 1], time, ingest, symbols))
  }

  /** The trades of an envelope that are new activity; a snapshot is a backfill. */
  function NewTradesOf(e: Envelope): seq<RawTrade> {
    if e.kind == "snapshot" then [] else e.trades
  }

  function NewTrades(es: seq<Envelope>): seq<RawTrade> {
    if es == [] then [] else NewTrades(es[..|es| - 1]) + NewTradesOf(es[|es| - 1])
  }

  function AllTicks(es: seq<Envelope>): seq<RawTick> {
    if es == [] then [] else AllTicks(es[..|es| - 1]) + es[|es| - 1].tickers
  }

  predicate AnyRaises(ts: seq<RawTrade>, symbols: SymbolMap) {
    exists t :: t in ts && TradeRaises(t, symbols)
  }

  predicate AnyTickRaises(ts: seq<RawTick>, symbols: SymbolMap) {
    exists t :: t in ts && TickRaises(t, symbols)
  }

  /** The exception escapes and the whole message is lost. */
  predicate MessageRaises(p: Payload, symbols: SymbolMap) {
    || (p.channel == "market_trades" && AnyRaises(NewTrades(p.events), symbols))
    || (p.channel == "ticker" && (p.timestamp.OddTime? || (p.timestamp.Nanos? && AnyTickRaises(AllTicks(p.events), symbols))))
  }

  /** What a Coinbase message normalizes to, if nothing raises. */
  function Yield(p: Payload, ingest: nat, symbols: SymbolMap): Normalized
    requires !MessageRaises(p, symbols)
  {
    if p.channel == "market_trades" then OfTrades(NewTrades(p.events), ingest, symbols)
    else if p.channel == "ticker" then
      var time := ReadTime(p.timestamp, "timestamp");
      if time.Fails? then Normalized([], [BadMessage(time.reason)])
      else OfTicks(AllTicks(p.events), time.value, ingest, symbols)
    else Normalized([], [])
  }

  function OfPayload(p: Payload, ingest: nat, symbols: SymbolMap): Option<Normalized> {
    if MessageRaises(p, symbols) then None else Some(Yield(p, ingest, symbols))
  }

  lemma {:induction false} OfTradesConcat(a: seq<RawTrade>, b: seq<RawTrade>, ingest: nat, symbols: SymbolMap)
    ensures OfTrades(a + b, ingest, symbols) == Append(OfTrades(a, ingest, symbols), OfTrades(b, ingest, symbols))
  {
    var whole := OfTrades(a, ingest, symbols);
    if b == [] {
      assert a + b == a;
      AppendLaws(whole, whole, whole);
    } else {
      var n := |b| - 1;
      OfTradesConcat(a, b[..n], ingest, symbols);
      assert (a + b)[..|a + b| - 1] == a + b[..n];
      AppendLaws(whole, OfTrades(b[..n], ingest, symbols), OfTrade(b[n], ingest, symbols));
    }
  }

  lemma {:induction false} OfTicksConcat(a: seq<RawTick>, b: seq<RawTick>, time: nat, ingest: nat, symbols: SymbolMap)
    ensures OfTicks(a + b, time, ingest, symbols) == Append(OfTicks(a, time, ingest, symbols), OfTicks(b, time, ingest, symbols))
  {
    var whole := OfTicks(a, time, ingest, symbols);
    if b == [] {
      assert a + b == a;
      AppendLaws(whole, whole, whole);
    } else {
      var n := |b| - 1;
      OfTicksConcat(a, b[..n], time, ingest, symbols);
      assert (a + b)[..|a + b| - 1] == a + b[..n];
      AppendLaws(whole, OfTicks(b[..n], time, ingest, symbols), OfTick(b[n], time, ingest, symbols));
    }
  }

  /** The body of the inner loop over trades: an event, a reject, nothing, or an exception. */
  method AddTrade(acc: Normalized, t: RawTrade, ingest: nat, symbols: SymbolMap) returns (r: Option<Normalized>)
    ensures r == if TradeRaises(t, symbols) then None else Some(Append(acc, OfTrade(t, ingest, symbols)))
  {
    AppendLaws(acc, acc, acc);
    match NormalizeTrade(t, ingest, symbols)
    case Emit(e) => r := Some(acc.(events := acc.events + [e]));
    case Drop => r := Some(acc);
    case Reject(reason) => r := Some(acc.(rejects := acc.rejects + [BadTrade(reason, t)]));
    case Raise => r := None;
  }

  /** The inner loop over one envelope's trades. */
  method AddTrades(acc: Normalized, ts: seq<RawTrade>, ingest: nat, symbols: SymbolMap) returns (r: Option<Normalized>)
    ensures r == if AnyRaises(ts, symbols) then None else Some(Append(acc, OfTrades(ts, ingest, symbols)))
  {
    var sum := acc;
    AppendLaws(acc, acc, acc);
    for i := 0 to |ts|
      invariant sum == Append(acc, OfTrades(ts[..i], ingest, symbols))
      invariant forall j :: 0 <= j < i ==> !TradeRaises(ts[j], symbols)
    {
      assert ts[..i + 1][..i] == ts[..i] && ts[i] in ts;
      var next := AddTrade(sum, ts[i], ingest, symbols);
      if next == None {
        return None;
      }
      AppendLaws(acc, OfTrades(ts[..i], ingest, symbols), OfTrade(ts[i], ingest, symbols));
      sum := next.value;
    }
    assert ts[..|ts|] == ts;
    r := Some(sum);
  }

  method AddTick(acc: Normalized, t: RawTick, time: nat, ingest: nat, symbols: SymbolMap) returns (r: Option<Normalized>)
    ensures r == if TickRaises(t, symbols) then None else Some(Append(acc, OfTick(t, time, ingest, symbols)))
  {
    AppendLaws(acc, acc, acc);
    match NormalizeTick(t, time, ingest, symbols)
    case Emit(e) => r := Some(acc.(events := acc.events + [e]));
    case Drop => r := Some(acc);
    case Reject(reason) => r := Some(acc.(rejects := acc.rejects + [BadTick(reason, t)]));
    case Raise => r := None;
  }

  method AddTicks(acc: Normalized, ts: seq<RawTick>, time: nat, ingest: nat, symbols: SymbolMap) returns (r: Option<Normalized>)
    ensures r == if AnyTickRaises(ts, symbols) then None else Some(Append(acc, OfTicks(ts, time, ingest, symbols)))
  {
    var sum := acc;
    AppendLaws(acc, acc, acc);
    for i := 0 to |ts|
      invariant sum == Append(acc, OfTicks(ts[..i], time, ingest, symbols))
      invariant forall j :: 0 <= j < i ==> !TickRaises(ts[j], symbols)
    {
      assert ts[..i + 1][..i] == ts[..i] && ts[i] in ts;
      var next := AddTick(sum, ts[i], time, ingest, symbols);
      if next == None {
        return None;
      }
      AppendLaws(acc, OfTicks(ts[..i], time, ingest, symbols), OfTick(ts[i], time, ingest, symbols));
      sum := next.value;
    }
    assert ts[..|ts|] == ts;
    r := Some(sum);
  }

  lemma NewTradesAppend(es: seq<Envelope>, i: nat, ingest: nat, symbols: SymbolMap)
    requires i < |es|
    ensures OfTrades(NewTrades(es[..i + 1]), ingest, symbols)
         == Append(OfTrades(NewTrades(es[..i]), ingest, symbols), OfTrades(NewTradesOf(es[i]), ingest, symbols))
    ensures AnyRaises(NewTrades(es[..i + 1]), symbols) <==> AnyRaises(NewTrades(es[..i]), symbols) || AnyRaises(NewTradesOf(es[i]), symbols)
  {
    assert es[..i + 1][..i] == es[..i];
    OfTradesConcat(NewTrades(es[..i]), NewTradesOf(es[i]), ingest, symbols);
    assert forall t :: t in NewTrades(es[..i + 1]) <==> t in NewTrades(es[..i]) || t in NewTradesOf(es[i]);
  }

  lemma {:induction false} EarlierTradesKept(es: seq<Envelope>, i: nat)
    requires i <= |es|
    ensures forall t :: t in NewTrades(es[..i]) ==> t in NewTrades(es)
  {
    if i == |es| {
      assert es[..i] == es;
    } else {
      EarlierTradesKept(es[..|es| - 1], i);
      assert es[..|es| - 1][..i] == es[..i];
    }
  }

  lemma AllTicksAppend(es: seq<Envelope>, i: nat, time: nat, ingest: nat, symbols: SymbolMap)
    requires i < |es|
    ensures OfTicks(AllTicks(es[..i + 1]), time, ingest, symbols)
         == Append(OfTicks(AllTicks(es[..i]), time, ingest, symbols), OfTicks(es[i].tickers, time, ingest, symbols))
    ensures AnyTickRaises(AllTicks(es[..i + 1]), symbols) <==> AnyTickRaises(AllTicks(es[..i]), symbols) || AnyTickRaises(es[i].tickers, symbols)
  {
    assert es[..i + 1][..i] == es[..i];
    OfTicksConcat(AllTicks(es[..i]), es[i].tickers, time, ingest, symbols);
    assert forall t :: t in AllTicks(es[..i + 1]) <==> t in AllTicks(es[..i]) || t in es[i].tickers;
  }

  lemma {:induction false} EarlierTicksKept(es: seq<Envelope>, i: nat)
    requires i <= |es|
    ensures forall t :: t in AllTicks(es[..i]) ==> t in AllTicks(es)
  {
    if i == |es| {
      assert es[..i] == es;
    } else {
      EarlierTicksKept(es[..|es| - 1], i);
      assert es[..|es| - 1][..i] == es[..i];
    }
  }

  /** The loops over a `market_trades` message. */
  method NormalizeTradeMessage(es: seq<Envelope>, ingest: nat, symbols: SymbolMap) returns (r: Option<Normalized>)
    ensures r == if AnyRaises(NewTrades(es), symbols) then None else Some(OfTrades(NewTrades(es), ingest, symbols))
  {
    var acc := Normalized([], []);
    for i := 0 to |es|
      invariant acc == OfTrades(NewTrades(es[..i]), ingest, symbols)
      invariant !AnyRaises(NewTrades(es[..i]), symbols)
    {
      NewTradesAppend(es, i, ingest, symbols);
      if es[i].kind == "snapshot" {
        AppendLaws(acc, acc, acc);
        continue;
      }
      var added := AddTrades(acc, es[i].trades, ingest, symbols);
      if added == None {
        EarlierTradesKept(es, i + 1);
        return None;
      }
      acc := added.value;
    }
    assert es[..|es|] == es;
    r := Some(acc);
  }

  /** The loops over a `ticker` message, whose ticks share the envelope's time. */
  method NormalizeTickMessage(es: seq<Envelope>, time: nat, ingest: nat, symbols: SymbolMap) returns (r: Option<Normalized>)
    ensures r == if AnyTickRaises(AllTicks(es), symbols) then None else Some(OfTicks(AllTicks(es), time, ingest, symbols))
  {
    var acc := Normalized([], []);
    for i := 0 to |es|
      invariant acc == OfTicks(AllTicks(es[..i]), time, ingest, symbols)
      invariant !AnyTickRaises(AllTicks(es[..i]), symbols)
    {
      AllTicksAppend(es, i, time, ingest, symbols);
      var added := AddTicks(acc, es[i].tickers, time, ingest, symbols);
      if added == None {
        EarlierTicksKept(es, i + 1);
        return None;
      }
      acc := added.value;
    }
    assert es[..|es|] == es;
    r := Some(acc);
  }

  method NormalizeCoinbase(p: Payload, ingest: nat, symbols: SymbolMap) returns (r: Option<Normalized>)
    ensures r == OfPayload(p, ingest, symbols)
  {
    if p.channel == "market_trades" {
      r := NormalizeTradeMessage(p.events, ingest, symbols);
    } else if p.channel == "ticker" {
      match ReadTime(p.timestamp, "timestamp")
      case Raises => r := None;
      case Fails(reason) => r := Some(Normalized([], [BadMessage(reason)]));
      case Value(time) => r := NormalizeTickMessage(p.events, time, ingest, symbols);
    } else {
      r := Some(Normalized([], []));
    }
  }

  // ---- Every record is accounted for ----

  predicate Unconfigured(productId: RawText, symbols: SymbolMap) {
    || productId.NullText?
    || (symbols.Some? && (productId.OddScalar? || (productId.Text? && productId.value !in symbols.value)))
  }

  function DroppedTrades(symbols: SymbolMap): RawTrade -> bool {
    (t: RawTrade) => Unconfigured(t.productId, symbols)
  }

  function DroppedTicks(symbols: SymbolMap): RawTick -> bool {
    (t: RawTick) => Unconfigured(t.productId, symbols)
  }

  lemma TradeAccounted(t: RawTrade, ingest: nat, symbols: SymbolMap)
    ensures var r := OfTrade(t, ingest, symbols);
            |r.events| + |r.rejects| == if Unconfigured(t.productId, symbols) || TradeRaises(t, symbols) then 0 else 1
  {
  }

  lemma TickAccounted(t: RawTick, time: nat, ingest: nat, symbols: SymbolMap)
    ensures var r := OfTick(t, time, ingest, symbols);
            |r.events| + |r.rejects| == if Unconfigured(t.productId, symbols) || TickRaises(t, symbols) then 0 else 1
  {
  }

  lemma {:induction false} TradesAccounted(ts: seq<RawTrade>, ingest: nat, symbols: SymbolMap)
    requires forall i :: 0 <= i < |ts| ==> !TradeRaises(ts[i], symbols)
    ensures var r := OfTrades(ts, ingest, symbols);
            |r.events| + |r.rejects| + |Filter(ts, DroppedTrades(symbols))| == |ts|
  {
    if ts != [] {
      var n := |ts| - 1;
      FilterAppend(ts[..n], ts[n], DroppedTrades(symbols));
      assert ts == ts[..n] + [ts[n]];
      TradesAccounted(ts[..n], ingest, symbols);
      TradeAccounted(ts[n], ingest, symbols);
    }
  }

  lemma {:induction false} TicksAccounted(ts: seq<RawTick>, time: nat, ingest: nat, symbols: SymbolMap)
    requires forall i :: 0 <= i < |ts| ==> !TickRaises(ts[i], symbols)
    ensures var r := OfTicks(ts, time, ingest, symbols);
            |r.events| + |r.rejects| + |Filter(ts, DroppedTicks(symbols))| == |ts|
  {
    if ts != [] {
      var n := |ts| - 1;
      FilterAppend(ts[..n], ts[n], DroppedTicks(symbols));
      assert ts == ts[..n] + [ts[n]];
      TicksAccounted(ts[..n], time, ingest, symbols);
      TickAccounted(ts[n], time, ingest, symbols);
    }
  }

  function CountTrades(es: seq<Envelope>): nat {
    if es == [] then 0 else CountTrades(es[..|es| - 1]) + |es[|es| - 1].trades|
  }

  function SnapshotTrades(es: seq<Envelope>): nat {
    if es == [] then 0
    else SnapshotTrades(es[..|es| - 1]) + (if es[|es| - 1].kind == "snapshot" then |es[|es| - 1].trades| else 0)
  }

  lemma {:induction false} NewOrSnapshot(es: seq<Envelope>)
    ensures |NewTrades(es)| + SnapshotTrades(es) == CountTrades(es)
  {
    if es != [] {
      NewOrSnapshot(es[..|es| - 1]);
    }
  }

  /** Every trade of a Coinbase message ends in exactly one place: an event, a reject, the snapshot
      skip or the unconfigured-symbol drop; unless one of them raises, and the message is lost. */
  lemma TradeMessageAccounted(p: Payload, ingest: nat, symbols: SymbolMap)
    requires p.channel == "market_trades"
    ensures match OfPayload(p, ingest, symbols)
            case None => AnyRaises(NewTrades(p.events), symbols)
            case Some(r) =>
              && !AnyRaises(NewTrades(p.events), symbols)
              && |r.events| + |r.rejects| + |Filter(NewTrades(p.events), DroppedTrades(symbols))| + SnapshotTrades(p.events)
                 == CountTrades(p.events)
  {
    NewOrSnapshot(p.events);
    if !AnyRaises(NewTrades(p.events), symbols) {
      TradesAccounted(NewTrades(p.events), ingest, symbols);
    }
  }

  /** Every tick likewise, unless the envelope's timestamp is unreadable: then one reject stands for
      the whole message. */
  lemma TickMessageAccounted(p: Payload, ingest: nat, symbols: SymbolMap)
    requires p.channel == "ticker"
    ensures match OfPayload(p, ingest, symbols)
            case None => p.timestamp.OddTime? || (p.timestamp.Nanos? && AnyTickRaises(AllTicks(p.events), symbols))
            case Some(r) =>
              if p.timestamp.Nanos?
              then && !AnyTickRaises(AllTicks(p.events), symbols)
                   && |r.events| + |r.rejects| + |Filter(AllTicks(p.events), DroppedTicks(symbols))| == |AllTicks(p.events)|
              else !p.timestamp.OddTime? && r.events == [] && |r.rejects| == 1
  {
    if p.timestamp.Nanos? && !AnyTickRaises(AllTicks(p.events), symbols) {
      TicksAccounted(AllTicks(p.events), p.timestamp.value / 1_000, ingest, symbols);
    }
  }

  lemma YieldAround(before: seq<RawTrade>, t: RawTrade, after: seq<RawTrade>, ingest: nat, symbols: SymbolMap)
    ensures OfTrades(before + [t] + after, ingest, symbols)
         == Append(Append(OfTrades(before, ingest, symbols), OfTrade(t, ingest, symbols)), OfTrades(after, ingest, symbols))
  {
    OfTradesConcat(before + [t], after, ingest, symbols);
    OfTradesConcat(before, [t], ingest, symbols);
    assert [t][..0] == [];
    assert OfTrades([t], ingest, symbols) == OfTrade(t, ingest, symbols);
  }

  lemma RaisesAround(before: seq<RawTrade>, t: RawTrade, after: seq<RawTrade>, symbols: SymbolMap)
    ensures AnyRaises(before + [t] + after, symbols)
       <==> AnyRaises(before, symbols) || TradeRaises(t, symbols) || AnyRaises(after, symbols)
  {
    assert forall x :: x in before + [t] + after <==> x in before || x == t || x in after;
  }

  /** A trade does not affect what its siblings yield, if neither it nor a sibling raises; and if any
      of them raises, all of them are lost. */
  lemma SiblingsUnaffected(p: Payload, before: seq<RawTrade>, t: RawTrade, after: seq<RawTrade>, ingest: nat, symbols: SymbolMap)
    requires p.channel == "market_trades" && NewTrades(p.events) == before + [t] + after
    ensures var message := OfPayload(p, ingest, symbols);
            if AnyRaises(before, symbols) || TradeRaises(t, symbols) || AnyRaises(after, symbols) then message == None
            else message == Some(Append(Append(OfTrades(before, ingest, symbols), OfTrade(t, ingest, symbols)),
                                        OfTrades(after, ingest, symbols)))
  {
    YieldAround(before, t, after, ingest, symbols);
    RaisesAround(before, t, after, symbols);
  }

  /** A message with one envelope of these trades. */
  function TradeMessage(ts: seq<RawTrade>): Payload {
    Payload("market_trades", NoTime, [Envelope("update", ts, [])])
  }

  lemma TradeMessageIsTrades(ts: seq<RawTrade>)
    ensures NewTrades(TradeMessage(ts).events) == ts
  {
    assert TradeMessage(ts).events[..0] == [];
  }

  lemma SiblingsInEnvelope(before: seq<RawTrade>, t: RawTrade, after: seq<RawTrade>, ingest: nat, symbols: SymbolMap)
    ensures var message := OfPayload(TradeMessage(before + [t] + after), ingest, symbols);
            if AnyRaises(before, symbols) || TradeRaises(t, symbols) || AnyRaises(after, symbols) then message == None
            else message == Some(Append(Append(OfTrades(before, ingest, symbols), OfTrade(t, ingest, symbols)),
                                        OfTrades(after, ingest, symbols)))
  {
    TradeMessageIsTrades(before + [t] + after);
    SiblingsUnaffected(TradeMessage(before + [t] + after), before, t, after, ingest, symbols);
  }

  /** A plain trade, for the example. */
  function PlainTrade(): RawTrade {
    RawTrade(Text("BTC-USD"), Number(1.0), Number(1.0), "BUY", Some("1"), Nanos(0))
  }

  lemma PlainTradeYields(ingest: nat, symbols: map<string, string>)
    requires "BTC-USD" in symbols
    ensures !TradeRaises(PlainTrade(), Some(symbols)) && |OfTrade(PlainTrade(), ingest, Some(symbols)).events| == 1
  {
    assert NormalizeTrade(PlainTrade(), ingest, Some(symbols)).Emit?;
  }

  lemma PlainTradePublished(ingest: nat, symbols: map<string, string>)
    requires "BTC-USD" in symbols
    ensures OfPayload(TradeMessage([PlainTrade()]), ingest, Some(symbols)) == Some(OfTrade(PlainTrade(), ingest, Some(symbols)))
  {
    var one := OfTrade(PlainTrade(), ingest, Some(symbols));
    PlainTradeYields(ingest, symbols);
    SiblingsInEnvelope([], PlainTrade(), [], ingest, Some(symbols));
    assert [] + [PlainTrade()] + [] == [PlainTrade()];
    assert Append(Append(Normalized([], []), one), Normalized([], [])) == one;
  }

  /** So a bad trade can take its siblings with it: a null time, next to a trade that alone is published. */
  lemma NullTimeLosesSibling(ingest: nat, symbols: map<string, string>)
    requires "BTC-USD" in symbols
    ensures var plain := PlainTrade();
            && OfPayload(TradeMessage([plain]), ingest, Some(symbols)).Some?
            && |OfPayload(TradeMessage([plain]), ingest, Some(symbols)).value.events| == 1
            && OfPayload(TradeMessage([plain, plain.(time := OddTime)]), ingest, Some(symbols)) == None
  {
    var plain, bad := PlainTrade(), PlainTrade().(time := OddTime);
    PlainTradeYields(ingest, symbols);
    PlainTradePublished(ingest, symbols);
    SiblingsInEnvelope([plain], bad, [], ingest, Some(symbols));
    assert [plain] + [bad] + [] == [plain, bad];
  }

  // ---- The row contract ----

  /** The row predicate of the data contract, for the configured symbols. */
  predicate RowContract(e: MarketEvent, symbols: set<string>) {
    && e.symbol in symbols
    && (e.price.Some? ==> e.price.value > 0.0)
    && (forall x :: x in {e.size, e.bestBid, e.bestAsk, e.bestBidSize, e.bestAskSize} && x.Some? ==> x.value >= 0.0)
    && (e.bestBid.Some? && e.bestAsk.Some? ==> e.bestAsk.value >= e.bestBid.value)
    && (e.eventType.Trade? ==> e.price.Some? && e.size.Some?)
  }

  /** A row is refused exactly when it breaks the schema's contract, names no configured symbol, or is a
      trade without price or size. */
  lemma RowContractIff(e: MarketEvent, symbols: set<string>)
    ensures RowContract(e, symbols)
       <==> SchemaValid(e) && e.symbol in symbols && (e.eventType == Trade ==> e.price != None && e.size != None)
  {
  }

  /** A symbol that stands for itself without a map, and that a map knows. */
  predicate Configured(productId: RawText, symbols: SymbolMap) {
    productId.Text? && (symbols == None || productId.value in symbols.value)
  }

  function Canonical(productId: RawText, symbols: SymbolMap): string
    requires Configured(productId, symbols)
  {
    if symbols == None then productId.value else symbols.value[productId.value]
  }

  /** "buy" in any mixture of cases. */
  predicate SpellsBuy(s: string) {
    |s| == 3 && s[0] in "Bb" && s[1] in "Uu" && s[2] in "Yy"
  }

  /** "sell" in any mixture of cases. */
  predicate SpellsSell(s: string) {
    |s| == 4 && s[0] in "Ss\U{17F}" && s[1] in "Ee" && s[2] in "Ll" && s[3] in "Ll"
  }

  lemma SideRead(s: string)
    ensures ReadSide(s) == if SpellsBuy(s) then Some(Buy) else if SpellsSell(s) then Some(Sell) else None
  {
    var u := Upper(s);
    if |s| == 3 {
      assert u == [u[0], u[1], u[2]];
    } else if |s| == 4 {
      assert u == [u[0], u[1], u[2], u[3]];
    }
  }

  /** The symbol is configured, the price reads as positive, the size as non-negative, and the time reads. */
  predicate TradePublishable(t: RawTrade, symbols: SymbolMap) {
    && Configured(t.productId, symbols)
    && t.price.Number? && t.price.value > 0.0 && t.size.Number? && t.size.value >= 0.0 && t.time.Nanos?
  }

  /** The event is this trade as it was read, received at this time. */
  predicate IsTradeEvent(e: MarketEvent, t: RawTrade, ingest: nat, symbols: SymbolMap) {
    && TradePublishable(t, symbols)
    && e.exchange == "coinbase" && e.eventType == Trade && e.symbol == Canonical(t.productId, symbols)
    && e.price == Some(t.price.value) && e.size == Some(t.size.value)
    && e.side == (if SpellsBuy(t.side) then Some(Buy) else if SpellsSell(t.side) then Some(Sell) else None)
    && e.tradeId == (if t.tradeId in {None, Some("")} then None else t.tradeId)
    && {e.bestBid, e.bestAsk, e.bestBidSize, e.bestAskSize} == {None}
    && e.tsEvent == t.time.value / 1_000 && e.tsIngest == ingest
  }

  /** Exactly the publishable trades are published, each as it was read; the events meet the contract. */
  lemma TradePublishedIff(t: RawTrade, ingest: nat, symbols: SymbolMap)
    ensures var r := NormalizeTrade(t, ingest, symbols);
            && (r.Emit? <==> TradePublishable(t, symbols))
            && (r.Emit? ==> IsTradeEvent(r.event, t, ingest, symbols) && SchemaValid(r.event) && Complete(r.event)
                            && (symbols.Some? ==> RowContract(r.event, symbols.value.Values)))
  {
    SideRead(t.side);
  }

  /** The number reads as non-negative, or there is none to read. */
  predicate NotBad(x: RawNumber) {
    !x.BadNumber? && !x.OddNumber? && (x.Number? ==> x.value >= 0.0)
  }

  /** An optional field holds the number read, and nothing when there was none to read. */
  predicate Carries(field: Option<real>, x: RawNumber) {
    if x.Number? then field == Some(x.value) else field == None
  }

  /** The symbol is configured, every number reads or is missing, the price if any is positive, no quote
      is negative, and the book is not crossed. */
  predicate TickPublishable(t: RawTick, symbols: SymbolMap) {
    && Configured(t.productId, symbols)
    && NotBad(t.price) && t.price != Number(0.0)
    && NotBad(t.bestBid) && NotBad(t.bestAsk) && NotBad(t.bidQuantity) && NotBad(t.askQuantity)
    && (t.bestBid.Number? && t.bestAsk.Number? ==> t.bestBid.value <= t.bestAsk.value)
  }

  /** The event is this tick as it was read, at the envelope's time, received at this time. */
  predicate IsTickEvent(e: MarketEvent, t: RawTick, time: nat, ingest: nat, symbols: SymbolMap) {
    && TickPublishable(t, symbols)
    && e.exchange == "coinbase" && e.eventType == Ticker && e.symbol == Canonical(t.productId, symbols)
    && Carries(e.price, t.price) && Carries(e.bestBid, t.bestBid) && Carries(e.bestAsk, t.bestAsk)
    && Carries(e.bestBidSize, t.bidQuantity) && Carries(e.bestAskSize, t.askQuantity)
    && e.size == None && e.side == None && e.tradeId == None
    && e.tsEvent == time && e.tsIngest == ingest
  }

  lemma TickEmitted(t: RawTick, time: nat, ingest: nat, symbols: SymbolMap)
    ensures NormalizeTick(t, time, ingest, symbols).Emit? <==> TickPublishable(t, symbols)
  {
  }

  lemma TickEventRead(t: RawTick, time: nat, ingest: nat, symbols: SymbolMap)
    requires NormalizeTick(t, time, ingest, symbols).Emit? && TickPublishable(t, symbols)
    ensures IsTickEvent(NormalizeTick(t, time, ingest, symbols).event, t, time, ingest, symbols)
    ensures SchemaValid(NormalizeTick(t, time, ingest, symbols).event)
  {
  }

  /** What holds of a tick event as it was read. */
  lemma TickEventContract(e: MarketEvent, t: RawTick, time: nat, ingest: nat, symbols: SymbolMap)
    requires IsTickEvent(e, t, time, ingest, symbols) && SchemaValid(e)
    ensures symbols.Some? ==> RowContract(e, symbols.value.Values)
    ensures Complete(e) <==> t.bestBid.Number? && t.bestAsk.Number?
  {
    RowContractIff(e, if symbols.Some? then symbols.value.Values else {});
  }

  /** Exactly the publishable ticks are published, each as it was read; the events meet the contract. One
      lacks a side of the book, which the aggregations need, exactly when that side was missing. */
  lemma TickPublishedIff(t: RawTick, time: nat, ingest: nat, symbols: SymbolMap)
    ensures var r := NormalizeTick(t, time, ingest, symbols);
            && (r.Emit? <==> TickPublishable(t, symbols))
            && (r.Emit? ==> IsTickEvent(r.event, t, time, ingest, symbols) && SchemaValid(r.event)
                            && (symbols.Some? ==> RowContract(r.event, symbols.value.Values))
                            && (Complete(r.event) <==> t.bestBid.Number? && t.bestAsk.Number?))
  {
    TickEmitted(t, time, ingest, symbols);
    if TickPublishable(t, symbols) {
      TickEventRead(t, time, ingest, symbols);
      TickEventContract(NormalizeTick(t, time, ingest, symbols).event, t, time, ingest, symbols);
    }
  }

  lemma {:induction false} TradesMeetContract(ts: seq<RawTrade>, ingest: nat, symbols: map<string, string>)
    ensures forall e :: e in OfTrades(ts, ingest, Some(symbols)).events ==> RowContract(e, symbols.Values)
  {
    if ts != [] {
      TradesMeetContract(ts[..|ts| - 1], ingest, symbols);
      TradePublishedIff(ts[|ts| - 1], ingest, Some(symbols));
    }
  }

  lemma {:induction false} TicksMeetContract(ts: seq<RawTick>, time: nat, ingest: nat, symbols: map<string, string>)
    ensures forall e :: e in OfTicks(ts, time, ingest, Some(symbols)).events ==> RowContract(e, symbols.Values)
  {
    if ts != [] {
      TicksMeetContract(ts[..|ts| - 1], time, ingest, symbols);
      TickPublishedIff(ts[|ts| - 1], time, ingest, Some(symbols));
    }
  }

  // ---- Binance.US ----

  predicate LooksLikeTrade(d: BinanceData) {
    d.kind == "trade" || (!d.price.NoNumber? && !d.quantity.NoNumber? && !d.id.NoId? && !d.time.NoMillis?)
  }

  function BinanceTrade(d: BinanceData, symbol: string, ingest: nat): Outcome {
    var price, size := ReadNumber(d.price, "p"), ReadNumber(d.quantity, "q");
    if !price.Value? then Unread(price)
    else if !size.Value? then Unread(size)
    else match d.time
      case NoMillis => Reject(MissingField("T"))
      case BadMillis => Reject(Unreadable("T"))
      case OddMillis => Raise
      case Millis(ms) =>
        Construct(MarketEvent("binance_us", symbol, Trade, Some(price.value), Some(size.value),
                              Some(if d.isBuyerMaker then Sell else Buy), if d.id.Id? then Some(d.id.value) else None,
                              None, None, None, None, ms * MICROS_PER_MILLI, ingest))
  }

  function BinanceTick(d: BinanceData, symbol: string, ingest: nat): Outcome {
    var bid, ask := ReadOptional(d.bid, "b"), ReadOptional(d.ask, "a");
    var bidSize, askSize := ReadOptional(d.bidSize, "B"), ReadOptional(d.askSize, "A");
    if !bid.Value? then Unread(bid)
    else if !ask.Value? then Unread(ask)
    else if !bidSize.Value? then Unread(bidSize)
    else if !askSize.Value? then Unread(askSize)
    else Construct(MarketEvent("binance_us", symbol, Ticker, None, None, None, None,
                               bid.value, ask.value, bidSize.value, askSize.value, ingest, ingest))
  }

  /** What does not look like a trade and names both quotes, if only as null, is read as a tick. */
  predicate LooksLikeTick(d: BinanceData) {
    !LooksLikeTrade(d) && !d.bid.NoNumber? && !d.ask.NoNumber?
  }

  /** The symbol cannot be looked up, or some field of a configured record raises and every field read
      before it reads. */
  predicate BinanceRaises(d: BinanceData, symbols: map<string, string>) {
    || d.symbol.OddCompound?
    || (d.symbol.Text? && d.symbol.value in symbols &&
        if LooksLikeTrade(d)
        then d.price.OddNumber? || (d.price.Number? && (d.quantity.OddNumber? || (d.quantity.Number? && d.time.OddMillis?)))
        else LooksLikeTick(d) && OddBefore(d.bid, OddBefore(d.ask, OddBefore(d.bidSize, d.askSize.OddNumber?))))
  }

  function NormalizeBinance(d: BinanceData, ingest: nat, symbols: map<string, string>): (r: Outcome)
    ensures r.Raise? <==> BinanceRaises(d, symbols)
  {
    if d.symbol.OddCompound? then Raise
    else if !d.symbol.Text? || d.symbol.value !in symbols then Drop
    else if LooksLikeTrade(d) then BinanceTrade(d, symbols[d.symbol.value], ingest)
    else if LooksLikeTick(d) then BinanceTick(d, symbols[d.symbol.value], ingest)
    else Drop
  }

  /** The symbol is configured, the price reads as positive, the quantity as non-negative, and the time
      reads. */
  predicate BinanceTradePublishable(d: BinanceData, symbols: map<string, string>) {
    && d.symbol.Text? && d.symbol.value in symbols
    && d.price.Number? && d.price.value > 0.0 && d.quantity.Number? && d.quantity.value >= 0.0 && d.time.Millis?
  }

  /** The event is this trade as it was read; the taker of a trade whose buyer was the maker sold. */
  predicate IsBinanceTrade(e: MarketEvent, d: BinanceData, ingest: nat, symbols: map<string, string>) {
    && BinanceTradePublishable(d, symbols)
    && e.exchange == "binance_us" && e.eventType == Trade && e.symbol == symbols[d.symbol.value]
    && e.price == Some(d.price.value) && e.size == Some(d.quantity.value)
    && e.side == Some(if d.isBuyerMaker then Sell else Buy)
    && e.tradeId == (if d.id.Id? then Some(d.id.value) else None)
    && {e.bestBid, e.bestAsk, e.bestBidSize, e.bestAskSize} == {None}
    && e.tsEvent == d.time.value * 1_000 && e.tsIngest == ingest
  }

  /** Of the records of type "trade" or with all four trade fields, exactly the publishable ones are
      published. */
  lemma BinanceTradePublishedIff(d: BinanceData, ingest: nat, symbols: map<string, string>)
    requires d.kind == "trade" || (NoNumber !in {d.price, d.quantity} && d.id != NoId && d.time != NoMillis)
    ensures var r := NormalizeBinance(d, ingest, symbols);
            && (r.Emit? <==> BinanceTradePublishable(d, symbols))
            && (r.Emit? ==> IsBinanceTrade(r.event, d, ingest, symbols) && SchemaValid(r.event) && Complete(r.event))
  {
  }

  /** The symbol is configured, every number reads or is missing, no quote is negative and the book is
      not crossed. */
  predicate BinanceTickPublishable(d: BinanceData, symbols: map<string, string>) {
    && d.symbol.Text? && d.symbol.value in symbols
    && NotBad(d.bid) && NotBad(d.ask) && NotBad(d.bidSize) && NotBad(d.askSize)
    && (d.bid.Number? && d.ask.Number? ==> d.bid.value <= d.ask.value)
  }

  /** The event is this tick as it was read, at its ingest time. */
  predicate IsBinanceTick(e: MarketEvent, d: BinanceData, ingest: nat, symbols: map<string, string>) {
    && BinanceTickPublishable(d, symbols)
    && e.exchange == "binance_us" && e.eventType == Ticker && e.symbol == symbols[d.symbol.value]
    && Carries(e.bestBid, d.bid) && Carries(e.bestAsk, d.ask)
    && Carries(e.bestBidSize, d.bidSize) && Carries(e.bestAskSize, d.askSize)
    && e.price == None && e.size == None && e.side == None && e.tradeId == None
    && e.tsEvent == e.tsIngest == ingest
  }

  lemma BinanceTickEmitted(d: BinanceData, ingest: nat, symbols: map<string, string>)
    requires LooksLikeTick(d)
    ensures NormalizeBinance(d, ingest, symbols).Emit? <==> BinanceTickPublishable(d, symbols)
  {
  }

  lemma BinanceTickRead(d: BinanceData, ingest: nat, symbols: map<string, string>)
    requires LooksLikeTick(d) && BinanceTickPublishable(d, symbols) && NormalizeBinance(d, ingest, symbols).Emit?
    ensures IsBinanceTick(NormalizeBinance(d, ingest, symbols).event, d, ingest, symbols)
    ensures SchemaValid(NormalizeBinance(d, ingest, symbols).event)
  {
  }

  /** Of the other records that name both quotes, exactly the publishable ones are published. */
  lemma BinanceTickPublishedIff(d: BinanceData, ingest: nat, symbols: map<string, string>)
    requires d.kind != "trade" && (NoNumber in {d.price, d.quantity} || d.id == NoId || d.time == NoMillis)
    requires NoNumber !in {d.bid, d.ask}
    ensures var r := NormalizeBinance(d, ingest, symbols);
            && (r.Emit? <==> BinanceTickPublishable(d, symbols))
            && (r.Emit? ==> IsBinanceTick(r.event, d, ingest, symbols) && SchemaValid(r.event)
                            && (Complete(r.event) <==> d.bid.Number? && d.ask.Number?))
  {
    BinanceTickEmitted(d, ingest, symbols);
    if BinanceTickPublishable(d, symbols) {
      BinanceTickRead(d, ingest, symbols);
    }
  }

  /** A Binance.US event meets the row contract of the configured symbols. */
  lemma BinanceMeetsContract(d: BinanceData, ingest: nat, symbols: map<string, string>)
    ensures var r := NormalizeBinance(d, ingest, symbols);
            r.Emit? ==> RowContract(r.event, symbols.Values)
  {
  }

  // ---- The symbol map ----

  datatype SymbolStyle = Dash | Concat

  function WithoutDashes(s: string): string {
    if s == [] then []
    else WithoutDashes(s[..|s| - 1]) + (if s[|s| - 1] == '-' then [] else [s[|s| - 1]])
  }

  /** A canonical symbol in an exchange's native style. */
  function Native(style: SymbolStyle, symbol: string): string {
    match style case Dash => symbol case Concat => WithoutDashes(symbol)
  }

  /** Native names to configured symbols; of two symbols with one native name the later wins. */
  function BuildSymbolMap(style: SymbolStyle, symbols: seq<string>): map<string, string> {
    if symbols == [] then map[]
    else
      var last := symbols[|symbols| - 1];
      BuildSymbolMap(style, symbols[..|symbols| - 1])[Native(style, last) := last]
  }

  /** The map answers with configured symbols, each under its own native name. */
  lemma {:induction false} SymbolMapSound(style: SymbolStyle, symbols: seq<string>)
    ensures var m := BuildSymbolMap(style, symbols);
            && (forall raw :: raw in m ==> m[raw] in symbols && Native(style, m[raw]) == raw)
            && (forall s :: s in symbols ==> Native(style, s) in m)
  {
    if symbols != [] {
      var n := |symbols| - 1;
      assert forall s :: s in symbols <==> s in symbols[..n] || s == symbols[n];
      SymbolMapSound(style, symbols[..n]);
    }
  }

  ghost predicate RoundTrips(m: map<string, string>, style: SymbolStyle, symbols: seq<string>) {
    forall s :: s in symbols ==> Native(style, s) in m && m[Native(style, s)] == s
  }

  /** Every configured symbol maps back to itself exactly when no two share a native name. */
  lemma SymbolRoundTrip(style: SymbolStyle, symbols: seq<string>)
    ensures RoundTrips(BuildSymbolMap(style, symbols), style, symbols)
       <==> (forall s, t :: s in symbols && t in symbols && Native(style, s) == Native(style, t) ==> s == t)
  {
    SymbolMapSound(style, symbols);
  }

  // ---- Dispatch ----

  datatype RawMessage = FromCoinbase(payload: Payload) | FromBinance(data: BinanceData)

  /** Normalizing this message raises. */
  predicate Unprocessable(m: RawMessage, symbols: seq<string>) {
    match m
    case FromCoinbase(p) => MessageRaises(p, Some(BuildSymbolMap(Dash, symbols)))
    case FromBinance(d) => BinanceRaises(d, BuildSymbolMap(Concat, symbols))
  }

  /** Normalization under the symbol map of the message's exchange; none if it raises. */
  function OfMessage(m: RawMessage, ingest: nat, symbols: seq<string>): (r: Option<Normalized>)
    ensures r == None <==> Unprocessable(m, symbols)
  {
    match m
    case FromCoinbase(p) => OfPayload(p, ingest, Some(BuildSymbolMap(Dash, symbols)))
    case FromBinance(d) =>
      match NormalizeBinance(d, ingest, BuildSymbolMap(Concat, symbols))
      case Emit(e) => Some(Normalized([e], []))
      case Reject(r) => Some(Normalized([], [BadData(r, d)]))
      case Drop => Some(Normalized([], []))
      case Raise => None
  }

  /** Under the configured symbol map, every Coinbase event is of a configured symbol and meets the
      contract, so nothing that violates it is published. */
  lemma PublishedMeetContract(p: Payload, ingest: nat, style: SymbolStyle, symbols: seq<string>)
    requires !MessageRaises(p, Some(BuildSymbolMap(style, symbols)))
    ensures forall e :: e in Yield(p, ingest, Some(BuildSymbolMap(style, symbols))).events ==>
              RowContract(e, set s | s in symbols) && SchemaValid(e)
  {
    var m := BuildSymbolMap(style, symbols);
    SymbolMapSound(style, symbols);
    TradesMeetContract(NewTrades(p.events), ingest, m);
    if p.timestamp.Nanos? {
      TicksMeetContract(AllTicks(p.events), p.timestamp.value / 1_000, ingest, m);
    }
    assert m.Values <= set s | s in symbols;
  }

  /** Whatever either exchange sends, only events that meet the contract are passed on. */
  lemma OnlyContractEventsPass(m: RawMessage, ingest: nat, symbols: seq<string>)
    ensures var r := OfMessage(m, ingest, symbols);
            r.Some? ==> forall e :: e in r.value.events ==> RowContract(e, set s | s in symbols) && SchemaValid(e)
  {
    match m
    case FromCoinbase(p) =>
      if !MessageRaises(p, Some(BuildSymbolMap(Dash, symbols))) {
        PublishedMeetContract(p, ingest, Dash, symbols);
      }
    case FromBinance(d) =>
      SymbolMapSound(Concat, symbols);
      BinanceMeetsContract(d, ingest, BuildSymbolMap(Concat, symbols));
      assert BuildSymbolMap(Concat, symbols).Values <= set s | s in symbols;
  }
}
