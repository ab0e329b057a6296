/** The stream and the mart agree: whatever the arrival order and the order of bronze, every window
    the processor emits is its side of the gold row with the same key. */
module EndToEnd {
  import opened Basics
  import opened Schema
  import opened Metrics
  import opened Stream
  import opened StreamKeys
  import opened Refinement
  import opened StreamSafety
  import opened Mart
  import opened Silver
  import opened MartReference

  /** Clean raw data: every event valid and complete, trades with ids that are distinct per symbol. */
  ghost predicate Clean(arrivals: seq<MarketEvent>) {
    && (forall e :: e in arrivals ==> SchemaValid(e) && Complete(e))
    && (forall e :: e in arrivals && e.eventType.Trade? ==> e.tradeId.Some?)
    && var trades := Topic(arrivals, Trade);
       forall i, j :: 0 <= i < j < |trades| ==> !SamePartition(trades[i], trades[j])
  }

  ghost predicate NothingLate(c: Operator, es: seq<MarketEvent>) {
    forall i :: 0 <= i < |es| ==> !Straggles(c, es[..i], es[i])
  }

  /** One of the processor's aggregations at a size that the mart computes too. */
  predicate MartSized(c: Operator) {
    KnownSize(c.tag) && c.width == WidthOf(c.tag)
  }

  /** The part of a gold row that comes from one source. */
  function HalfOf(source: EventType, g: WindowMetrics): WindowMetrics {
    match source
    case Trade => g.(avgSpread := None, avgMid := None, tickerCount := 0, eventCount := g.tradeCount)
    case Ticker => g.(vwap := None, tradeVolume := 0.0, tradeCount := 0, eventCount := g.tickerCount)
  }

  function CountOf(source: EventType, g: WindowMetrics): nat {
    match source case Trade => g.tradeCount case Ticker => g.tickerCount
  }

  lemma DistinctIdsPermuted(a: seq<MarketEvent>, b: seq<MarketEvent>, i: nat, j: nat)
    requires multiset(a) == multiset(b)
    requires forall i, j :: 0 <= i < j < |a| ==> !SamePartition(a[i], a[j])
    requires i < j < |b|
    ensures !SamePartition(b[i], b[j])
  {
    PermutedMembers(a, b);
    if b[i] == b[j] {
      assert SamePartition(b[i], b[i]);
      forall x, y | 0 <= x < y < |a| ensures a[x] != a[y] { assert !SamePartition(a[x], a[y]); }
      OccursOnce(a, b[i]);
      OccursTwice(b, i, j);
    } else {
      assert b[i] in b && b[j] in b;
      var x :| 0 <= x < |a| && a[x] == b[i];
      var y :| 0 <= y < |a| && a[y] == b[j];
      assert x < y ==> !SamePartition(a[x], a[y]);
      assert y < x ==> !SamePartition(a[y], a[x]);
    }
  }

  /** Silver keeps every clean event: each table is a permutation of its topic. */
  lemma SilverIsTopics(arrivals: seq<MarketEvent>, bronze: seq<MarketEvent>)
    requires Clean(arrivals) && multiset(bronze) == multiset(arrivals)
    ensures multiset(SilverTrades(bronze)) == multiset(Topic(arrivals, Trade))
    ensures multiset(SilverTicker(bronze)) == multiset(Topic(arrivals, Ticker))
  {
    PermutedMembers(bronze, arrivals);
    FilterCongruent(bronze, TradeValid(), OfType(Trade));
    FilterCongruent(bronze, TickerValid(), OfType(Ticker));
    FilterPermuted(bronze, arrivals, OfType(Trade));
    FilterPermuted(bronze, arrivals, OfType(Ticker));
    var src, trades := Filter(bronze, TradeValid()), Topic(arrivals, Trade);
    forall i, j | 0 <= i < j < |src| ensures !SamePartition(src[i], src[j]) {
      DistinctIdsPermuted(trades, src, i, j);
    }
    SilverIsValid(bronze);
    DistinctIdsKept(src, SilverTrades(bronze));
  }

  lemma {:induction false} TradeTopicStats(es: seq<MarketEvent>)
    requires forall e :: e in es ==> e.eventType.Trade?
    ensures Total(es).spreadSum == 0.0 && Total(es).midSum == 0.0 && Total(es).tickers == 0
  {
    if es != [] {
      assert es[|es| - 1] in es;
      TradeTopicStats(es[..|es| - 1]);
    }
  }

  lemma {:induction false} TickerTopicStats(es: seq<MarketEvent>)
    requires forall e :: e in es ==> e.eventType.Ticker?
    ensures Total(es).pv == 0.0 && Total(es).vol == 0.0 && Total(es).trades == 0
  {
    if es != [] {
      assert es[|es| - 1] in es;
      TickerTopicStats(es[..|es| - 1]);
    }
  }

  /** Every complete event is counted. */
  lemma {:induction false} CompleteAreCounted(es: seq<MarketEvent>)
    requires forall e :: e in es ==> Complete(e)
    ensures Total(es).trades + Total(es).tickers == |es|
  {
    if es != [] {
      assert es[|es| - 1] in es;
      CompleteAreCounted(es[..|es| - 1]);
    }
  }

  function StatsOf(arrivals: seq<MarketEvent>, source: EventType, k: Key, width: nat): Stats
    requires width > 0
  {
    WindowStats(Topic(arrivals, source), k, width)
  }

  /** The row holds an event of some topic, and its fields are the two topics' statistics combined. */
  predicate IsCombinedRow(arrivals: seq<MarketEvent>, g: WindowMetrics) {
    var k, w := RowKey(g), WidthOf(g.windowSize);
    && KnownSize(g.windowSize)
    && (k in WindowKeys(Topic(arrivals, Trade), w) || k in WindowKeys(Topic(arrivals, Ticker), w))
    && g == Row(k, w, g.windowSize, Plus(StatsOf(arrivals, Trade, k, w), StatsOf(arrivals, Ticker, k, w)))
  }

  /** Gold's rows, in terms of the two topics. */
  lemma GoldByTopics(arrivals: seq<MarketEvent>, bronze: seq<MarketEvent>, g: WindowMetrics)
    requires Clean(arrivals) && multiset(bronze) == multiset(arrivals)
    ensures g in Gold(bronze) <==> IsCombinedRow(arrivals, g)
  {
    var st, sk := SilverTrades(bronze), SilverTicker(bronze);
    var k, w := Narrow(RowWideKey(g)), WidthOf(g.windowSize);
    MartIsReference(bronze);
    PermutedMembers(Gold(bronze), ReferenceTables(st + sk));
    ReferenceTablesMember(st + sk, g);
    MembersOfConcat(st, sk, k, w);
    SilverIsTopics(arrivals, bronze);
    StatsPermuted(st, Topic(arrivals, Trade), k, w);
    StatsPermuted(sk, Topic(arrivals, Ticker), k, w);
  }

  lemma HalfOfRow(source: EventType, k: Key, width: nat, tag: string, a: Stats, b: Stats)
    requires a.spreadSum == 0.0 && a.midSum == 0.0 && a.tickers == 0
    requires b.pv == 0.0 && b.vol == 0.0 && b.trades == 0
    ensures HalfOf(source, Row(k, width, tag, Plus(a, b))) == Row(k, width, tag, if source.Trade? then a else b)
  {
  }

  lemma WindowTopicStats(arrivals: seq<MarketEvent>, k: Key, width: nat)
    requires width > 0
    ensures var a, b := StatsOf(arrivals, Trade, k, width), StatsOf(arrivals, Ticker, k, width);
            && a.spreadSum == 0.0 && a.midSum == 0.0 && a.tickers == 0
            && b.pv == 0.0 && b.vol == 0.0 && b.trades == 0
  {
    TradeTopicStats(Filter(Topic(arrivals, Trade), InWindow(k, width)));
    TickerTopicStats(Filter(Topic(arrivals, Ticker), InWindow(k, width)));
  }

  /** What the processor does with one topic of clean data. */
  ghost function RunOn(c: Operator, arrivals: seq<MarketEvent>): OpState
    requires Clean(arrivals)
  {
    Run(c, Topic(arrivals, c.source))
  }

  /** Every emitted window is, in every field, its source's side of the gold row with its key. */
  lemma EmittedIsInGold(c: Operator, arrivals: seq<MarketEvent>, bronze: seq<MarketEvent>, m: Emission)
    requires Clean(arrivals) && multiset(bronze) == multiset(arrivals) && MartSized(c)
    requires NothingLate(c, Topic(arrivals, c.source))
    requires m in RunOn(c, arrivals).out
    ensures exists g :: g in Gold(bronze) && RowWideKey(g) == RowWideKey(m.metrics) && m.metrics == HalfOf(c.source, g)
  {
    var topic, row := Topic(arrivals, c.source), m.metrics;
    var k := RowKey(row);
    NothingLateMeansReference(c, topic);
    RowsMember(Run(c, topic).out, row);
    PermutedMembers(Rows(Run(c, topic).out), Closed(WindowTable(topic, c.width, c.tag), MaxTs(topic), c.grace));
    WindowTableRow(topic, c.width, c.tag, row);
    var a, b := StatsOf(arrivals, Trade, k, c.width), StatsOf(arrivals, Ticker, k, c.width);
    var g := Row(k, c.width, c.tag, Plus(a, b));
    GoldByTopics(arrivals, bronze, g);
    WindowTopicStats(arrivals, k, c.width);
    HalfOfRow(c.source, k, c.width, c.tag, a, b);
  }

  /** A window of a topic holds a record exactly when its count is not zero. */
  lemma CountIsOccupancy(arrivals: seq<MarketEvent>, source: EventType, k: Key, width: nat)
    requires width > 0 && forall e :: e in arrivals ==> Complete(e)
    ensures k in WindowKeys(Topic(arrivals, source), width)
       <==> StatsOf(arrivals, source, k, width).trades + StatsOf(arrivals, source, k, width).tickers > 0
  {
    var inside := Filter(Topic(arrivals, source), InWindow(k, width));
    CompleteAreCounted(inside);
    if e :| e in Topic(arrivals, source) && EventKey(e, width) == k { assert e in inside; }
    if inside != [] { assert inside[0] in inside; }
  }

  /** The aggregation has emitted the window with this key. */
  ghost predicate HasEmitted(st: OpState, key: WideKey) {
    exists m :: m in st.out && RowWideKey(m.metrics) == key
  }

  /** A record's window is either emitted or open, never both. */
  lemma EmittedOrOpen(c: Operator, es: seq<MarketEvent>, symbol: string, start: nat)
    requires Feed(c.source, es) && Accepted(c, es) == es
    ensures Key(symbol, start) in WindowKeys(es, c.width)
       <==> HasEmitted(Run(c, es), WideKey(symbol, c.tag, start)) || start in OpenStarts(StateOf(Run(c, es), symbol).open)
    ensures !(HasEmitted(Run(c, es), WideKey(symbol, c.tag, start)) && start in OpenStarts(StateOf(Run(c, es), symbol).open))
  {
    NothingLost(c, es, symbol, start);
    OpenAndEmittedApart(c, es, symbol);
    EmittedAreTagged(c, es);
    if m :| m in Run(c, es).out && RowKey(m.metrics) == Key(symbol, start) {
      assert RowWideKey(m.metrics) == WideKey(symbol, c.tag, start);
    }
  }

  /** The gold keys an aggregation has not emitted are exactly those whose window is still open in
      it and those with no record of its source. */
  lemma UnemittedGold(c: Operator, arrivals: seq<MarketEvent>, bronze: seq<MarketEvent>, g: WindowMetrics)
    requires Clean(arrivals) && multiset(bronze) == multiset(arrivals) && MartSized(c)
    requires NothingLate(c, Topic(arrivals, c.source))
    requires g in Gold(bronze) && g.windowSize == c.tag
    ensures !HasEmitted(RunOn(c, arrivals), RowWideKey(g))
       <==> || g.windowStart in OpenStarts(StateOf(RunOn(c, arrivals), g.symbol).open)
            || CountOf(c.source, g) == 0
  {
    var topic, k := Topic(arrivals, c.source), RowKey(g);
    GoldByTopics(arrivals, bronze, g);
    WindowTopicStats(arrivals, k, c.width);
    CountIsOccupancy(arrivals, c.source, k, c.width);
    NothingLateMeansReference(c, topic);
    EmittedOrOpen(c, topic, g.symbol, g.windowStart);
  }
}
