/** The batch reference: what the windows should be. `WindowTable` is the definition; the methods
    at the end are the accumulating loops, proved to compute it. */
module Metrics {
  import opened Basics
  import opened Schema
  import opened Time

  datatype Key = Key(symbol: string, start: nat)

  predicate KeyLess(a: Key, b: Key) {
    StrLess(a.symbol, b.symbol) || (a.symbol == b.symbol && a.start < b.start)
  }

  lemma KeyLessTransitive(a: Key, b: Key, c: Key)
    requires KeyLess(a, b) && KeyLess(b, c)
    ensures KeyLess(a, c)
  {
    if StrLess(a.symbol, b.symbol) && StrLess(b.symbol, c.symbol) {
      StrTransitive(a.symbol, b.symbol, c.symbol);
    }
  }

  lemma KeyLessTotal(a: Key, b: Key)
    ensures KeyLess(a, b) || a == b || KeyLess(b, a)
    ensures !(KeyLess(a, b) && KeyLess(b, a))
    ensures a == b ==> !KeyLess(a, b)
  {
    StrTrichotomy(a.symbol, b.symbol);
  }

  /** The window an event falls in. */
  function EventKey(e: MarketEvent, width: nat): Key
    requires width > 0
  {
    Key(e.symbol, WindowStart(e.tsEvent, width))
  }

  function InWindow(k: Key, width: nat): MarketEvent -> bool
    requires width > 0
  {
    (e: MarketEvent) => EventKey(e, width) == k
  }

  /** What a window accumulates. Pointwise addition makes it a commutative monoid. */
  datatype Stats = Stats(pv: real, vol: real, trades: nat, spreadSum: real, midSum: real, tickers: nat)

  function Zero(): Stats {
    Stats(0.0, 0.0, 0, 0.0, 0.0, 0)
  }

  function Plus(a: Stats, b: Stats): Stats {
    Stats(a.pv + b.pv, a.vol + b.vol, a.trades + b.trades,
          a.spreadSum + b.spreadSum, a.midSum + b.midSum, a.tickers + b.tickers)
  }

  /** What one event adds to its window: nothing when its fields are missing. */
  function Contribution(e: MarketEvent): Stats {
    if e.eventType.Trade? && e.price.Some? && e.size.Some? then
      Stats(e.price.value * e.size.value, e.size.value, 1, 0.0, 0.0, 0)
    else if e.eventType.Ticker? && e.bestBid.Some? && e.bestAsk.Some? then
      Stats(0.0, 0.0, 0, e.bestAsk.value - e.bestBid.value, (e.bestAsk.value + e.bestBid.value) / 2.0, 1)
    else
      Zero()
  }

  function Total(es: seq<MarketEvent>): Stats {
    if es == [] then Zero() else Plus(Total(es[..|es| - 1]), Contribution(es[|es| - 1]))
  }

  lemma TotalAppend(es: seq<MarketEvent>, e: MarketEvent)
    ensures Total(es + [e]) == Plus(Total(es), Contribution(e))
  {
    assert (es + [e])[..|es|] == es;
  }

  lemma PlusLaws(a: Stats, b: Stats, c: Stats)
    ensures Plus(Plus(a, b), c) == Plus(a, Plus(b, c)) == Plus(Plus(a, c), b)
  {
  }

  lemma {:induction false} TotalConcat(a: seq<MarketEvent>, b: seq<MarketEvent>)
    ensures Total(a + b) == Plus(Total(a), Total(b))
  {
    if b == [] {
      assert a + b == a;
    } else {
      var front, e := b[..|b| - 1], b[|b| - 1];
      assert a + b == (a + front) + [e];
      TotalConcat(a, front);
      TotalAppend(a + front, e);
      PlusLaws(Total(a), Total(front), Contribution(e));
    }
  }

  lemma TotalAround(front: seq<MarketEvent>, e: MarketEvent, back: seq<MarketEvent>)
    ensures Total(front + [e] + back) == Plus(Total(front + back), Contribution(e))
  {
    TotalConcat(front + [e], back);
    TotalAppend(front, e);
    TotalConcat(front, back);
    PlusLaws(Total(front), Total(back), Contribution(e));
  }

  /** Any event can be set aside and added last. */
  lemma TotalWithout(es: seq<MarketEvent>, j: nat)
    requires j < |es|
    ensures Total(es) == Plus(Total(es[..j] + es[j + 1..]), Contribution(es[j]))
  {
    AroundElement(es, j);
    TotalAround(es[..j], es[j], es[j + 1..]);
  }

  lemma MultisetWithout(es: seq<MarketEvent>, j: nat)
    requires j < |es|
    ensures multiset(es[..j] + es[j + 1..]) == multiset(es) - multiset{es[j]}
  {
    AroundElement(es, j);
  }

  /** Accumulation does not depend on the order of the events. */
  lemma {:induction false} TotalPermuted(a: seq<MarketEvent>, b: seq<MarketEvent>)
    requires multiset(a) == multiset(b)
    ensures Total(a) == Total(b)
    decreases |a|
  {
    if a == [] {
      assert |b| == |multiset(b)| == 0;
    } else {
      var n := |a| - 1;
      assert a[n] in multiset(b);
      var j :| 0 <= j < |b| && b[j] == a[n];
      var front, rest := a[..n], b[..j] + b[j + 1..];
      MultisetWithout(a, n);
      MultisetWithout(b, j);
      assert a[..n] + a[n + 1..] == front;
      TotalPermuted(front, rest);
      TotalWithout(b, j);
    }
  }

  datatype WindowMetrics = WindowMetrics(
    symbol: string,
    windowSize: string,
    windowStart: nat,
    windowEnd: nat,
    vwap: Option<real>,
    tradeVolume: real,
    tradeCount: nat,
    avgSpread: Option<real>,
    avgMid: Option<real>,
    tickerCount: nat,
    eventCount: nat)

  function RowKey(m: WindowMetrics): Key {
    Key(m.symbol, m.windowStart)
  }

  /** Division with the absent answer that the source gives for an empty denominator. */
  function Ratio(a: real, b: real): Option<real> {
    if b > 0.0 then Some(a / b) else None
  }

  function Row(k: Key, width: nat, tag: string, s: Stats): WindowMetrics {
    WindowMetrics(k.symbol, tag, k.start, k.start + width * MICROS_PER_SECOND,
                  Ratio(s.pv, s.vol), s.vol, s.trades,
                  Ratio(s.spreadSum, s.tickers as real), Ratio(s.midSum, s.tickers as real), s.tickers,
                  s.trades + s.tickers)
  }

  /** The accumulated contents of one window. */
  function WindowStats(es: seq<MarketEvent>, k: Key, width: nat): Stats
    requires width > 0
  {
    Total(Filter(es, InWindow(k, width)))
  }

  function RowAt(es: seq<MarketEvent>, k: Key, width: nat, tag: string): WindowMetrics
    requires width > 0
  {
    Row(k, width, tag, WindowStats(es, k, width))
  }

  ghost predicate SortedKeys(ks: seq<Key>) {
    forall i, j :: 0 <= i < j < |ks| ==> KeyLess(ks[i], ks[j])
  }

  lemma SortedKeysDistinct(ks: seq<Key>)
    requires SortedKeys(ks)
    ensures NoDuplicates(ks)
  {
    forall i, j | 0 <= i < j < |ks| ensures ks[i] != ks[j] { KeyLessTotal(ks[i], ks[j]); }
  }

  /** `k` put in its place in a sorted list without repetitions. */
  function InsertKey(ks: seq<Key>, k: Key): (r: seq<Key>)
    requires SortedKeys(ks)
    ensures SortedKeys(r)
    ensures forall x :: x in r <==> x in ks || x == k
  {
    if ks == [] then [k]
    else
      var n := |ks| - 1;
      KeyLessTotal(ks[n], k);
      assert forall x :: x in ks <==> x in ks[..n] || x == ks[n];
      if ks[n] == k then ks
      else if KeyLess(ks[n], k) then
        assert forall i :: 0 <= i < n ==> KeyLess(ks[i], k) by {
          forall i | 0 <= i < n ensures KeyLess(ks[i], k) { KeyLessTransitive(ks[i], ks[n], k); }
        }
        ks + [k]
      else
        var front := InsertKey(ks[..n], k);
        assert forall i :: 0 <= i < |front| ==> KeyLess(front[i], ks[n]) by {
          forall i | 0 <= i < |front| ensures KeyLess(front[i], ks[n]) { assert front[i] in front; }
        }
        front + [ks[n]]
  }

  /** The windows that hold at least one event, in order of symbol and start. */
  function WindowKeys(es: seq<MarketEvent>, width: nat): (ks: seq<Key>)
    requires width > 0
    ensures SortedKeys(ks)
    ensures forall k :: k in ks <==> exists e :: e in es && EventKey(e, width) == k
  {
    if es == [] then []
    else
      var n := |es| - 1;
      assert forall e :: e in es <==> e in es[..n] || e == es[n];
      InsertKey(WindowKeys(es[..n], width), EventKey(es[n], width))
  }

  function RowsAt(es: seq<MarketEvent>, ks: seq<Key>, width: nat, tag: string): (rows: seq<WindowMetrics>)
    requires width > 0
  {
    seq(|ks|, i requires 0 <= i < |ks| => RowAt(es, ks[i], width, tag))
  }

  /** The reference: one row per window that holds an event, in order of symbol and start. */
  function WindowTable(es: seq<MarketEvent>, width: nat, tag: string): seq<WindowMetrics>
    requires width > 0
  {
    RowsAt(es, WindowKeys(es, width), width, tag)
  }

  ghost predicate SortedRows(rows: seq<WindowMetrics>) {
    forall i, j :: 0 <= i < j < |rows| ==> KeyLess(RowKey(rows[i]), RowKey(rows[j]))
  }

  lemma {:induction false} WindowTableSorted(es: seq<MarketEvent>, width: nat, tag: string)
    requires width > 0
    ensures SortedRows(WindowTable(es, width, tag))
  {
    var ks := WindowKeys(es, width);
    forall i, j | 0 <= i < j < |ks|
      ensures KeyLess(RowKey(WindowTable(es, width, tag)[i]), RowKey(WindowTable(es, width, tag)[j]))
    {
      assert KeyLess(ks[i], ks[j]);
    }
  }

  lemma RowsAtMember(es: seq<MarketEvent>, ks: seq<Key>, width: nat, tag: string, m: WindowMetrics)
    requires width > 0
    ensures m in RowsAt(es, ks, width, tag) <==> RowKey(m) in ks && m == RowAt(es, RowKey(m), width, tag)
  {
    var rows := RowsAt(es, ks, width, tag);
    if m in rows {
      var i :| 0 <= i < |rows| && rows[i] == m;
      assert RowKey(m) == ks[i];
    }
    if RowKey(m) in ks && m == RowAt(es, RowKey(m), width, tag) {
      var i :| 0 <= i < |ks| && ks[i] == RowKey(m);
      assert rows[i] == m;
    }
  }

  /** Rows are in order of symbol, compared as text, and then of start. */
  ghost predicate InTupleOrder(rows: seq<WindowMetrics>) {
    forall i, j :: 0 <= i < j < |rows| ==>
      || TextBefore(rows[i].symbol, rows[j].symbol)
      || (rows[i].symbol == rows[j].symbol && rows[i].windowStart < rows[j].windowStart)
  }

  lemma WindowTableOrder(es: seq<MarketEvent>, width: nat, tag: string)
    requires width > 0
    ensures InTupleOrder(WindowTable(es, width, tag))
  {
    var rows := WindowTable(es, width, tag);
    WindowTableSorted(es, width, tag);
    forall i, j | 0 <= i < j < |rows|
      ensures || TextBefore(rows[i].symbol, rows[j].symbol)
              || (rows[i].symbol == rows[j].symbol && rows[i].windowStart < rows[j].windowStart)
    {
      assert KeyLess(RowKey(rows[i]), RowKey(rows[j]));
      if StrLess(rows[i].symbol, rows[j].symbol) {
        StrLessIsTextBefore(rows[i].symbol, rows[j].symbol);
      }
    }
  }

  lemma RatioIs(a: real, b: real, q: real)
    requires b > 0.0 && a == q * b
    ensures Ratio(a, b) == Some(q)
  {
    assert q * b / b == q;
  }

  lemma LoneTotal(e: MarketEvent)
    ensures Total([e]) == Contribution(e)
  {
    assert [e][..0] == [];
    assert Total([e]) == Plus(Zero(), Contribution(e));
  }

  lemma LoneTable(e: MarketEvent, width: nat, tag: string)
    requires width > 0
    ensures WindowTable([e], width, tag) == [Row(EventKey(e, width), width, tag, Contribution(e))]
  {
    var k := EventKey(e, width);
    LoneTotal(e);
    assert [e][..0] == [] && WindowKeys([e], width) == [k];
    assert Filter([e], InWindow(k, width)) == [e];
  }

  /** The metrics of a lone trade. */
  predicate IsTradeRow(m: WindowMetrics, price: real, size: real) {
    && m.tradeCount == 1 && m.tradeVolume == size && m.vwap == (if size > 0.0 then Some(price) else None)
    && m.tickerCount == 0 && m.avgSpread == None && m.avgMid == None && m.eventCount == 1
  }

  /** The metrics of a lone tick. */
  predicate IsTickRow(m: WindowMetrics, bid: real, ask: real) {
    && m.tickerCount == 1 && m.avgSpread == Some(ask - bid) && m.avgMid == Some((bid + ask) / 2.0)
    && m.tradeCount == 0 && m.tradeVolume == 0.0 && m.vwap == None && m.eventCount == 1
  }

  lemma TradeRowFields(k: Key, width: nat, tag: string, e: MarketEvent)
    requires Complete(e) && e.eventType.Trade?
    ensures IsTradeRow(Row(k, width, tag, Contribution(e)), e.price.value, e.size.value)
  {
    if e.size.value > 0.0 {
      var s := Contribution(e);
      RatioIs(s.pv, s.vol, e.price.value);
    }
  }

  lemma TickRowFields(k: Key, width: nat, tag: string, e: MarketEvent)
    requires Complete(e) && e.eventType.Ticker?
    ensures IsTickRow(Row(k, width, tag, Contribution(e)), e.bestBid.value, e.bestAsk.value)
  {
    var s := Contribution(e);
    RatioIs(s.spreadSum, 1.0, s.spreadSum);
    RatioIs(s.midSum, 1.0, s.midSum);
  }

  /** The row of a lone event, in raw fields. */
  lemma LoneEventRow(e: MarketEvent, width: nat, tag: string)
    requires width > 0 && Complete(e)
    ensures |WindowTable([e], width, tag)| == 1
    ensures var m := WindowTable([e], width, tag)[0];
            && m.symbol == e.symbol && m.windowSize == tag
            && m.windowStart <= e.tsEvent < m.windowEnd == m.windowStart + width * 1_000_000
            && m.windowStart % (width * 1_000_000) == 0
            && match e.eventType
               case Trade => IsTradeRow(m, e.price.value, e.size.value)
               case Ticker => IsTickRow(m, e.bestBid.value, e.bestAsk.value)
  {
    LoneTable(e, width, tag);
    WindowStartIsMultiple(e.tsEvent, width);
    if e.eventType.Trade? {
      TradeRowFields(EventKey(e, width), width, tag, e);
    } else {
      TickRowFields(EventKey(e, width), width, tag, e);
    }
  }

  /** A row is in the reference when its window holds an event and its fields are the window's. */
  lemma WindowTableRow(es: seq<MarketEvent>, width: nat, tag: string, m: WindowMetrics)
    requires width > 0
    ensures m in WindowTable(es, width, tag)
       <==> RowKey(m) in WindowKeys(es, width) && m == RowAt(es, RowKey(m), width, tag)
  {
    RowsAtMember(es, WindowKeys(es, width), width, tag, m);
  }

  /** In a sorted list the last row is the largest, and the others are the rest. */
  lemma LastRow(rows: seq<WindowMetrics>, m: WindowMetrics)
    requires SortedRows(rows) && rows != []
    ensures var last := rows[|rows| - 1];
            && (m in rows[..|rows| - 1] <==> m in rows && m != last)
            && (m in rows && m != last ==> KeyLess(RowKey(m), RowKey(last)))
  {
    var n := |rows| - 1;
    KeyLessTotal(RowKey(rows[n]), RowKey(rows[n]));
    assert rows == rows[..n] + [rows[n]];
  }

  /** A sorted list of rows is determined by its members. */
  lemma {:induction false} SortedRowsUnique(a: seq<WindowMetrics>, b: seq<WindowMetrics>)
    requires SortedRows(a) && SortedRows(b)
    requires forall m :: m in a <==> m in b
    ensures a == b
  {
    assert b != [] ==> b[0] in a;
    assert a != [] ==> a[0] in b;
    if a != [] && b != [] {
      var x, y := a[|a| - 1], b[|b| - 1];
      assert x in a && y in b;
      LastRow(b, x);
      LastRow(a, y);
      KeyLessTotal(RowKey(x), RowKey(y));
      var front, rest := a[..|a| - 1], b[..|b| - 1];
      forall m ensures m in front <==> m in rest {
        LastRow(a, m);
        LastRow(b, m);
      }
      SortedRowsUnique(front, rest);
    }
  }

  /** Arrival order does not matter: every permutation of the events gives the identical list. */
  lemma OrderIndependent(a: seq<MarketEvent>, b: seq<MarketEvent>, width: nat, tag: string)
    requires width > 0
    requires multiset(a) == multiset(b)
    ensures WindowTable(a, width, tag) == WindowTable(b, width, tag)
  {
    PermutedMembers(a, b);
    forall k: Key ensures RowAt(a, k, width, tag) == RowAt(b, k, width, tag) {
      FilterPermuted(a, b, InWindow(k, width));
      TotalPermuted(Filter(a, InWindow(k, width)), Filter(b, InWindow(k, width)));
    }
    forall m ensures m in WindowTable(a, width, tag) <==> m in WindowTable(b, width, tag) {
      WindowTableRow(a, width, tag, m);
      WindowTableRow(b, width, tag, m);
    }
    WindowTableSorted(a, width, tag);
    WindowTableSorted(b, width, tag);
    SortedRowsUnique(WindowTable(a, width, tag), WindowTable(b, width, tag));
  }

  // ---- Per-symbol watermarks and closing ----

  /** The latest event time seen for each symbol. */
  function MaxTs(es: seq<MarketEvent>): map<string, nat> {
    if es == [] then map[]
    else
      var seen, e := MaxTs(es[..|es| - 1]), es[|es| - 1];
      if e.symbol !in seen || e.tsEvent > seen[e.symbol] then seen[e.symbol := e.tsEvent] else seen
  }

  /** A symbol has a watermark when it has an event, and then it is the latest of their times. */
  lemma {:induction false} MaxTsIsLatest(es: seq<MarketEvent>, symbol: string)
    ensures symbol in MaxTs(es) <==> exists e :: e in es && e.symbol == symbol
    ensures forall e :: e in es && e.symbol == symbol ==> e.tsEvent <= MaxTs(es)[symbol]
    ensures symbol in MaxTs(es) ==> exists e :: e in es && e.symbol == symbol && e.tsEvent == MaxTs(es)[symbol]
  {
    if es != [] {
      var n := |es| - 1;
      assert forall e :: e in es <==> e in es[..n] || e == es[n];
      MaxTsIsLatest(es[..n], symbol);
    }
  }

  function IsClosed(marks: map<string, nat>, grace: int): WindowMetrics -> bool {
    (m: WindowMetrics) => m.symbol in marks && marks[m.symbol] >= m.windowEnd + grace * MICROS_PER_SECOND
  }

  /** The rows whose window the watermark of their symbol has passed by the grace period. */
  function Closed(rows: seq<WindowMetrics>, marks: map<string, nat>, grace: int): seq<WindowMetrics> {
    Filter(rows, IsClosed(marks, grace))
  }

  lemma SortedRowsDistinct(rows: seq<WindowMetrics>)
    requires SortedRows(rows)
    ensures NoDuplicates(rows)
  {
    forall i, j | 0 <= i < j < |rows| ensures rows[i] != rows[j] {
      KeyLessTotal(RowKey(rows[i]), RowKey(rows[j]));
    }
  }

  lemma {:induction false} FilterKeepsSorted(rows: seq<WindowMetrics>, p: WindowMetrics -> bool)
    requires SortedRows(rows)
    ensures SortedRows(Filter(rows, p))
  {
    if rows != [] {
      var n := |rows| - 1;
      var front := Filter(rows[..n], p);
      FilterKeepsSorted(rows[..n], p);
      forall i | 0 <= i < |front| ensures KeyLess(RowKey(front[i]), RowKey(rows[n])) {
        assert front[i] in front;
      }
    }
  }

  // ---- The accumulating loops ----

  /** The running sums of one window, updated in place as events arrive. */
  class Acc {
    var pv: real
    var vol: real
    var trades: nat
    var spreadSum: real
    var midSum: real
    var tickers: nat

    constructor ()
      ensures Value() == Zero()
    {
      pv, vol, trades, spreadSum, midSum, tickers := 0.0, 0.0, 0, 0.0, 0.0, 0;
    }

    function Value(): Stats
      reads this
    {
      Stats(pv, vol, trades, spreadSum, midSum, tickers)
    }

    /** The body of the accumulating loop: one event folded in, in place. */
    method Add(e: MarketEvent)
      modifies this
      ensures Value() == Plus(old(Value()), Contribution(e))
    {
      if e.eventType.Trade? && e.price.Some? && e.size.Some? {
        pv := pv + e.price.value * e.size.value;
        vol := vol + e.size.value;
        trades := trades + 1;
      } else if e.eventType.Ticker? && e.bestBid.Some? && e.bestAsk.Some? {
        spreadSum := spreadSum + (e.bestAsk.value - e.bestBid.value);
        midSum := midSum + (e.bestAsk.value + e.bestBid.value) / 2.0;
        tickers := tickers + 1;
      }
    }
  }

  /** Every window has an accumulator of its own, holding what `es` contribute to the window. */
  ghost predicate Accumulates(acc: map<Key, Acc>, es: seq<MarketEvent>, width: nat)
    requires width > 0
    reads acc.Values
  {
    && (forall j, k :: j in acc && k in acc && j != k ==> acc[j] != acc[k])
    && (forall k :: k in acc ==> acc[k].Value() == WindowStats(es, k, width))
  }

  /** The dictionary's keys in insertion order. */
  ghost predicate Lists(order: seq<Key>, acc: map<Key, Acc>) {
    NoDuplicates(order) && forall k :: k in acc <==> k in order
  }

  function InsertRow(rows: seq<WindowMetrics>, m: WindowMetrics): (r: seq<WindowMetrics>)
    requires SortedRows(rows)
    requires forall x :: x in rows ==> RowKey(x) != RowKey(m)
    ensures SortedRows(r)
    ensures forall x :: x in r <==> x in rows || x == m
  {
    if rows == [] then [m]
    else
      var n := |rows| - 1;
      assert rows[n] in rows;
      KeyLessTotal(RowKey(rows[n]), RowKey(m));
      assert forall x :: x in rows <==> x in rows[..n] || x == rows[n];
      if KeyLess(RowKey(rows[n]), RowKey(m)) then
        assert forall i :: 0 <= i < n ==> KeyLess(RowKey(rows[i]), RowKey(m)) by {
          forall i | 0 <= i < n ensures KeyLess(RowKey(rows[i]), RowKey(m)) {
            KeyLessTransitive(RowKey(rows[i]), RowKey(rows[n]), RowKey(m));
          }
        }
        rows + [m]
      else
        var front := InsertRow(rows[..n], m);
        assert forall i :: 0 <= i < |front| ==> KeyLess(RowKey(front[i]), RowKey(rows[n])) by {
          forall i | 0 <= i < |front| ensures KeyLess(RowKey(front[i]), RowKey(rows[n])) { assert front[i] in front; }
        }
        front + [rows[n]]
  }

  /** Sorting rows by (symbol, window start). */
  function SortRows(rows: seq<WindowMetrics>): (r: seq<WindowMetrics>)
    requires forall i, j :: 0 <= i < j < |rows| ==> RowKey(rows[i]) != RowKey(rows[j])
    ensures SortedRows(r)
    ensures forall m :: m in r <==> m in rows
  {
    if rows == [] then []
    else
      var n := |rows| - 1;
      var front := SortRows(rows[..n]);
      assert forall m :: m in front ==> RowKey(m) != RowKey(rows[n]);
      assert forall m :: m in rows <==> m in rows[..n] || m == rows[n];
      InsertRow(front, rows[n])
  }

  /** One more event changes the contents of its own window only. */
  lemma WindowStatsAppend(es: seq<MarketEvent>, e: MarketEvent, k: Key, width: nat)
    requires width > 0
    ensures WindowStats(es + [e], k, width)
         == if EventKey(e, width) == k then Plus(WindowStats(es, k, width), Contribution(e)) else WindowStats(es, k, width)
  {
    var inside := Filter(es, InWindow(k, width));
    FilterAppend(es, e, InWindow(k, width));
    if EventKey(e, width) == k {
      TotalAppend(inside, e);
    } else {
      assert inside + [] == inside;
    }
  }

  lemma WindowKeysAppend(es: seq<MarketEvent>, e: MarketEvent, width: nat)
    requires width > 0
    ensures WindowKeys(es + [e], width) == InsertKey(WindowKeys(es, width), EventKey(e, width))
  {
    assert (es + [e])[..|es|] == es;
  }

  /** The bounds `[start, end)` of the window holding an instant. */
  method WindowBounds(ts: nat, width: nat) returns (start: nat, end: nat)
    requires width > 0
    ensures start == WindowStart(ts, width) && end == start + width * MICROS_PER_SECOND
  {
    FormulasNameTheWindow(ts, width);
    start := BatchStart(ts, width);
    end := start + width * MICROS_PER_SECOND;
  }

  /** The accumulator of a window, made on demand. */
  method Lookup(acc: map<Key, Acc>, order: seq<Key>, k: Key, ghost es: seq<MarketEvent>, width: nat)
    returns (acc': map<Key, Acc>, order': seq<Key>)
    requires width > 0
    requires Accumulates(acc, es, width) && Lists(order, acc)
    requires k !in acc ==> k !in WindowKeys(es, width)
    ensures Accumulates(acc', es, width) && Lists(order', acc')
    ensures acc'.Keys == acc.Keys + {k}
    ensures forall j :: j in acc' ==> (j in acc && acc'[j] == acc[j]) || fresh(acc'[j])
  {
    acc', order' := acc, order;
    if k !in acc {
      var a := new Acc();
      acc' := acc[k := a];
      order' := order + [k];
      assert WindowStats(es, k, width) == Zero() by { FilterNone(es, InWindow(k, width)); }
    }
  }

  /** Add an event to the accumulator of its window. */
  method FoldIn(acc: map<Key, Acc>, e: MarketEvent, ghost es: seq<MarketEvent>, width: nat)
    requires width > 0
    requires Accumulates(acc, es, width)
    requires EventKey(e, width) in acc
    modifies acc.Values
    ensures Accumulates(acc, es + [e], width)
  {
    var start, _ := WindowBounds(e.tsEvent, width);
    var k := Key(e.symbol, start);
    acc[k].Add(e);
    forall j | j in acc ensures acc[j].Value() == WindowStats(es + [e], j, width) {
      WindowStatsAppend(es, e, j, width);
      assert j != k ==> acc[j].Value() == old(acc[j].Value());
    }
  }

  lemma RowsOfAllKeys(es: seq<MarketEvent>, order: seq<Key>, width: nat, tag: string, rows: seq<WindowMetrics>)
    requires width > 0
    requires forall k :: k in order <==> k in WindowKeys(es, width)
    requires rows == RowsAt(es, order, width, tag)
    ensures forall m :: m in rows <==> m in WindowTable(es, width, tag)
  {
    forall m ensures m in rows <==> m in WindowTable(es, width, tag) {
      RowsAtMember(es, order, width, tag, m);
      WindowTableRow(es, width, tag, m);
    }
  }

  /** The body of the first loop. */
  method AddEvent(acc: map<Key, Acc>, order: seq<Key>, e: MarketEvent, ghost es: seq<MarketEvent>, width: nat)
    returns (acc': map<Key, Acc>, order': seq<Key>)
    requires width > 0
    requires Accumulates(acc, es, width) && Lists(order, acc)
    requires forall k :: k in acc <==> k in WindowKeys(es, width)
    modifies acc.Values
    ensures Accumulates(acc', es + [e], width) && Lists(order', acc')
    ensures forall k :: k in acc' <==> k in WindowKeys(es + [e], width)
    ensures forall j :: j in acc' ==> (j in acc && acc'[j] == acc[j]) || fresh(acc'[j])
  {
    var start, _ := WindowBounds(e.tsEvent, width);
    acc', order' := Lookup(acc, order, Key(e.symbol, start), es, width);
    FoldIn(acc', e, es, width);
    WindowKeysAppend(es, e, width);
  }

  /** The first loop: every event folded into the accumulator of its window. */
  method AccumulateAll(events: seq<MarketEvent>, width: nat) returns (acc: map<Key, Acc>, order: seq<Key>)
    requires width > 0
    ensures Accumulates(acc, events, width) && Lists(order, acc)
    ensures forall k :: k in acc <==> k in WindowKeys(events, width)
  {
    acc, order := map[], [];
    ghost var es := [];
    for i := 0 to |events|
      invariant es == events[..i]
      invariant forall k :: k in acc ==> fresh(acc[k])
      invariant Accumulates(acc, es, width) && Lists(order, acc)
      invariant forall k :: k in acc <==> k in WindowKeys(es, width)
    {
      acc, order := AddEvent(acc, order, events[i], es, width);
      es := es + [events[i]];
    }
    assert es == events;
  }

  /** The second loop: one row from each accumulator, in the dictionary's order. */
  method ReadRows(acc: map<Key, Acc>, order: seq<Key>, ghost events: seq<MarketEvent>, width: nat, tag: string)
    returns (out: seq<WindowMetrics>)
    requires width > 0
    requires Accumulates(acc, events, width) && Lists(order, acc)
    ensures out == RowsAt(events, order, width, tag)
  {
    out := [];
    for i := 0 to |order|
      invariant |out| == i
      invariant forall j :: 0 <= j < i ==> out[j] == RowAt(events, order[j], width, tag)
    {
      assert order[i] in order;
      var a := acc[order[i]];
      out := out + [Row(order[i], width, tag, a.Value())];
    }
  }

  /** The reference implementation computes the reference. */
  method ComputeWindows(events: seq<MarketEvent>, width: nat, tag: string) returns (out: seq<WindowMetrics>)
    requires width > 0
    ensures out == WindowTable(events, width, tag)
    ensures InTupleOrder(out)
  {
    WindowTableOrder(events, width, tag);
    var acc, order := AccumulateAll(events, width);
    out := ReadRows(acc, order, events, width, tag);
    RowsOfAllKeys(events, order, width, tag, out);
    out := SortRows(out);
    WindowTableSorted(events, width, tag);
    SortedRowsUnique(out, WindowTable(events, width, tag));
  }

  method MaxEventTsBySymbol(events: seq<MarketEvent>) returns (out: map<string, nat>)
    ensures out == MaxTs(events)
  {
    out := map[];
    for i := 0 to |events|
      invariant out == MaxTs(events[..i])
    {
      var e := events[i];
      assert events[..i + 1][..i] == events[..i];
      if e.symbol !in out || e.tsEvent > out[e.symbol] {
        out := out[e.symbol := e.tsEvent];
      }
    }
    assert events[..|events|] == events;
  }

  method ClosedWindows(metrics: seq<WindowMetrics>, marks: map<string, nat>, grace: int) returns (out: seq<WindowMetrics>)
    ensures out == Closed(metrics, marks, grace)
  {
    out := [];
    for i := 0 to |metrics|
      invariant out == Closed(metrics[..i], marks, grace)
    {
      var m := metrics[i];
      assert metrics[..i + 1] == metrics[..i] + [m];
      FilterAppend(metrics[..i], m, IsClosed(marks, grace));
      if m.symbol !in marks {
        continue;
      }
      if marks[m.symbol] >= m.windowEnd + grace * MICROS_PER_SECOND {
        out := out + [m];
      }
    }
    assert metrics[..|metrics|] == metrics;
  }
}
