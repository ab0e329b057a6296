/** The SQL mart as relational operators over sequences of rows: validity filters and row_number
    deduplication (silver), then group-by at two sizes, union all and full outer join (gold). */
module Mart {
  import opened Basics
  import opened Schema
  import opened Time
  import opened Metrics

  // ---- Silver ----

  /** A trade with an id, a positive price and a non-negative size; null fails every comparison. */
  function TradeValid(): MarketEvent -> bool {
    (e: MarketEvent) =>
      && e.eventType.Trade?
      && e.price.Some? && e.price.value > 0.0
      && e.size.Some? && e.size.value >= 0.0
      && e.tradeId.Some?
  }

  function TickerValid(): MarketEvent -> bool {
    (e: MarketEvent) =>
      && e.eventType.Ticker?
      && e.bestBid.Some? && e.bestAsk.Some? && e.bestAsk.value >= e.bestBid.value
  }

  function Magnitude(x: Option<real>): real {
    if x.Some? then x.value else 0.0
  }

  /** The ordering within a partition: event time, then ingest time, price and size. */
  predicate OrderedBefore(a: MarketEvent, b: MarketEvent) {
    || a.tsEvent < b.tsEvent
    || (a.tsEvent == b.tsEvent &&
        (|| a.tsIngest < b.tsIngest
         || (a.tsIngest == b.tsIngest &&
             (|| Magnitude(a.price) < Magnitude(b.price)
              || (Magnitude(a.price) == Magnitude(b.price) && Magnitude(a.size) < Magnitude(b.size))))))
  }

  /** Rows of one symbol and trade id share a partition. */
  predicate SamePartition(a: MarketEvent, b: MarketEvent) {
    a.symbol == b.symbol && a.tradeId == b.tradeId
  }

  /** Row `j` is numbered before row `i` of the same partition; the input position breaks ties. */
  predicate NumberedBefore(rows: seq<MarketEvent>, j: nat, i: nat)
    requires i < |rows| && j < |rows|
  {
    && SamePartition(rows[j], rows[i])
    && (OrderedBefore(rows[j], rows[i]) || (!OrderedBefore(rows[i], rows[j]) && j < i))
  }

  /** The number of rows among the first `n` numbered before row `i`. */
  function CountBefore(rows: seq<MarketEvent>, i: nat, n: nat): nat
    requires i < |rows| && n <= |rows|
  {
    if n == 0 then 0
    else CountBefore(rows, i, n - 1) + (if NumberedBefore(rows, n - 1, i) then 1 else 0)
  }

  function RowNumber(rows: seq<MarketEvent>, i: nat): nat
    requires i < |rows|
  {
    CountBefore(rows, i, |rows|) + 1
  }

  /** The rows numbered one, among the first `n`. */
  function NumberedFirst(rows: seq<MarketEvent>, n: nat): seq<MarketEvent>
    requires n <= |rows|
  {
    if n == 0 then []
    else NumberedFirst(rows, n - 1) + (if RowNumber(rows, n - 1) == 1 then [rows[n - 1]] else [])
  }

  function SilverTrades(bronze: seq<MarketEvent>): seq<MarketEvent> {
    var src := Filter(bronze, TradeValid());
    NumberedFirst(src, |src|)
  }

  function SilverTicker(bronze: seq<MarketEvent>): seq<MarketEvent> {
    Filter(bronze, TickerValid())
  }

  // ---- Gold ----

  function Sum(rows: seq<MarketEvent>, f: MarketEvent -> real): real {
    if rows == [] then 0.0 else Sum(rows[..|rows| - 1], f) + f(rows[|rows| - 1])
  }

  function Notional(): MarketEvent -> real { (e: MarketEvent) => Magnitude(e.price) * Magnitude(e.size) }
  function Size(): MarketEvent -> real { (e: MarketEvent) => Magnitude(e.size) }
  function Spread(): MarketEvent -> real { (e: MarketEvent) => Magnitude(e.bestAsk) - Magnitude(e.bestBid) }
  function Mid(): MarketEvent -> real { (e: MarketEvent) => (Magnitude(e.bestAsk) + Magnitude(e.bestBid)) / 2.0 }

  /** A quotient that is null over zero. */
  function DivideNullIfZero(x: real, y: real): Option<real> {
    if y == 0.0 then None else Some(x / y)
  }

  /** The mean of a column: null over no rows. */
  function Avg(rows: seq<MarketEvent>, f: MarketEvent -> real): Option<real> {
    if rows == [] then None else Some(Sum(rows, f) / (|rows| as real))
  }

  datatype WideKey = WideKey(symbol: string, windowSize: string, start: nat)
  datatype TradeWindow = TradeWindow(key: WideKey, vwap: Option<real>, tradeVolume: real, tradeCount: nat)
  datatype TickerWindow = TickerWindow(key: WideKey, avgSpread: Option<real>, avgMid: Option<real>, tickerCount: nat)

  /** The columns a row is grouped by: its symbol and the macro's window start. */
  function GroupKey(e: MarketEvent, width: nat): Key
    requires width > 0
  {
    FormulasNameTheWindow(e.tsEvent, width);
    Key(e.symbol, SqlStart(e.tsEvent, width))
  }

  function InGroup(k: Key, width: nat): MarketEvent -> bool
    requires width > 0
  {
    (e: MarketEvent) => GroupKey(e, width) == k
  }

  /** The keys that occur, each once; their order is immaterial. */
  function GroupKeys(rows: seq<MarketEvent>, width: nat): (ks: seq<Key>)
    requires width > 0
    ensures NoDuplicates(ks)
    ensures forall k :: k in ks <==> exists e :: e in rows && GroupKey(e, width) == k
  {
    if rows == [] then []
    else
      var n := |rows| - 1;
      assert forall e :: e in rows <==> e in rows[..n] || e == rows[n];
      var ks, k := GroupKeys(rows[..n], width), GroupKey(rows[n], width);
      if k in ks then ks else ks + [k]
  }

  function TradeGroup(rows: seq<MarketEvent>, k: Key, width: nat, tag: string): TradeWindow
    requires width > 0
  {
    var group := Filter(rows, InGroup(k, width));
    TradeWindow(WideKey(k.symbol, tag, k.start),
                DivideNullIfZero(Sum(group, Notional()), Sum(group, Size())), Sum(group, Size()), |group|)
  }

  function TickerGroup(rows: seq<MarketEvent>, k: Key, width: nat, tag: string): TickerWindow
    requires width > 0
  {
    var group := Filter(rows, InGroup(k, width));
    TickerWindow(WideKey(k.symbol, tag, k.start), Avg(group, Spread()), Avg(group, Mid()), |group|)
  }

  /** Grouping at one size: a row per key that occurs. */
  function TradeGroups(rows: seq<MarketEvent>, width: nat, tag: string): seq<TradeWindow>
    requires width > 0
  {
    var ks := GroupKeys(rows, width);
    seq(|ks|, i requires 0 <= i < |ks| => TradeGroup(rows, ks[i], width, tag))
  }

  function TickerGroups(rows: seq<MarketEvent>, width: nat, tag: string): seq<TickerWindow>
    requires width > 0
  {
    var ks := GroupKeys(rows, width);
    seq(|ks|, i requires 0 <= i < |ks| => TickerGroup(rows, ks[i], width, tag))
  }

  /** The groups of both sizes, one list after the other. */
  function TradeWindows(rows: seq<MarketEvent>): seq<TradeWindow> {
    TradeGroups(rows, 60, "1m") + TradeGroups(rows, 300, "5m")
  }

  function TickerWindows(rows: seq<MarketEvent>): seq<TickerWindow> {
    TickerGroups(rows, 60, "1m") + TickerGroups(rows, 300, "5m")
  }

  datatype Joined = Joined(t: Option<TradeWindow>, k: Option<TickerWindow>)

  /** The pairs of `t` with every right row that has its key. */
  function Matches(t: TradeWindow, ks: seq<TickerWindow>): seq<Joined> {
    if ks == [] then []
    else
      var n := |ks| - 1;
      Matches(t, ks[..n]) + (if ks[n].key == t.key then [Joined(Some(t), Some(ks[n]))] else [])
  }

  /** Each left row with its matches, or with null when it has none. */
  function LeftJoin(ts: seq<TradeWindow>, ks: seq<TickerWindow>): seq<Joined> {
    if ts == [] then []
    else
      var n := |ts| - 1;
      var matches := Matches(ts[n], ks);
      LeftJoin(ts[..n], ks) + (if matches == [] then [Joined(Some(ts[n]), None)] else matches)
  }

  function Unmatched(ts: seq<TradeWindow>): TickerWindow -> bool {
    (k: TickerWindow) => forall t :: t in ts ==> t.key != k.key
  }

  function RightOnly(ks: seq<TickerWindow>): seq<Joined> {
    seq(|ks|, i requires 0 <= i < |ks| => Joined(None, Some(ks[i])))
  }

  function FullOuterJoin(ts: seq<TradeWindow>, ks: seq<TickerWindow>): seq<Joined> {
    LeftJoin(ts, ks) + RightOnly(Filter(ks, Unmatched(ts)))
  }

  function JoinedKey(j: Joined): WideKey {
    if j.t.Some? then j.t.value.key
    else if j.k.Some? then j.k.value.key
    else WideKey("", "", 0)
  }

  /** The final projection: coalesced columns, the end of the window and the event count. */
  function GoldRow(j: Joined): WindowMetrics {
    var key := JoinedKey(j);
    var volume := if j.t.Some? then j.t.value.tradeVolume else 0.0;
    var trades := if j.t.Some? then j.t.value.tradeCount else 0;
    var tickers := if j.k.Some? then j.k.value.tickerCount else 0;
    var seconds := if key.windowSize == "1m" then 60 else 300;
    WindowMetrics(key.symbol, key.windowSize, key.start, key.start + seconds * MICROS_PER_SECOND,
                  if j.t.Some? then j.t.value.vwap else None, volume, trades,
                  if j.k.Some? then j.k.value.avgSpread else None,
                  if j.k.Some? then j.k.value.avgMid else None, tickers,
                  trades + tickers)
  }

  function GoldRows(js: seq<Joined>): seq<WindowMetrics> {
    seq(|js|, i requires 0 <= i < |js| => GoldRow(js[i]))
  }

  /** Gold over given silver tables. */
  function GoldOver(trades: seq<MarketEvent>, tickers: seq<MarketEvent>): seq<WindowMetrics> {
    GoldRows(FullOuterJoin(TradeWindows(trades), TickerWindows(tickers)))
  }

  function Gold(bronze: seq<MarketEvent>): seq<WindowMetrics> {
    GoldOver(SilverTrades(bronze), SilverTicker(bronze))
  }
}
