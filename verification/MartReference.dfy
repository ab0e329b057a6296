/** The mart computes the reference: gold over any silver tables is, row for row, the batch
    reference at both sizes, and its full outer join gives each key exactly one row. */
module MartReference {
  import opened Basics
  import opened Schema
  import opened Time
  import opened Metrics
  import opened Mart
  import opened Silver

  // ---- SQL aggregates are the reference's statistics ----

  ghost predicate SilverTables(trades: seq<MarketEvent>, tickers: seq<MarketEvent>) {
    (forall e :: e in trades ==> TradeValid()(e)) && (forall e :: e in tickers ==> TickerValid()(e))
  }

  lemma {:induction false} TradeSums(rows: seq<MarketEvent>)
    requires forall e :: e in rows ==> TradeValid()(e)
    ensures Total(rows) == Stats(Sum(rows, Notional()), Sum(rows, Size()), |rows|, 0.0, 0.0, 0)
    ensures Sum(rows, Size()) >= 0.0
  {
    if rows != [] {
      var n := |rows| - 1;
      assert rows[n] in rows;
      TradeSums(rows[..n]);
    }
  }

  lemma {:induction false} TickerSums(rows: seq<MarketEvent>)
    requires forall e :: e in rows ==> TickerValid()(e)
    ensures Total(rows) == Stats(0.0, 0.0, 0, Sum(rows, Spread()), Sum(rows, Mid()), |rows|)
  {
    if rows != [] {
      var n := |rows| - 1;
      assert rows[n] in rows;
      TickerSums(rows[..n]);
    }
  }

  // ---- The groups ----

  function WidthOf(size: string): (w: nat)
    ensures w > 0
  {
    if size == "1m" then 60 else 300
  }

  predicate KnownSize(size: string) {
    size == "1m" || size == "5m"
  }

  function Narrow(key: WideKey): Key {
    Key(key.symbol, key.start)
  }

  /** Grouping by the macro's window start is grouping by the reference's window. */
  lemma GroupsAreWindows(rows: seq<MarketEvent>, k: Key, width: nat)
    requires width > 0
    ensures Filter(rows, InGroup(k, width)) == Filter(rows, InWindow(k, width))
    ensures k in GroupKeys(rows, width) <==> k in WindowKeys(rows, width)
  {
    forall e ensures GroupKey(e, width) == EventKey(e, width) { FormulasNameTheWindow(e.tsEvent, width); }
    FilterCongruent(rows, InGroup(k, width), InWindow(k, width));
  }

  /** The key names a window, at its own size, that holds a row. */
  predicate Occurs(rows: seq<MarketEvent>, key: WideKey) {
    KnownSize(key.windowSize) && Narrow(key) in WindowKeys(rows, WidthOf(key.windowSize))
  }

  function TradeWindowOf(rows: seq<MarketEvent>, key: WideKey): TradeWindow {
    TradeGroup(rows, Narrow(key), WidthOf(key.windowSize), key.windowSize)
  }

  function TickerWindowOf(rows: seq<MarketEvent>, key: WideKey): TickerWindow {
    TickerGroup(rows, Narrow(key), WidthOf(key.windowSize), key.windowSize)
  }

  lemma TradeGroupsMember(rows: seq<MarketEvent>, tag: string, t: TradeWindow)
    requires KnownSize(tag)
    ensures t in TradeGroups(rows, WidthOf(tag), tag)
       <==> t.key.windowSize == tag && Occurs(rows, t.key) && t == TradeWindowOf(rows, t.key)
  {
    var ks, out := GroupKeys(rows, WidthOf(tag)), TradeGroups(rows, WidthOf(tag), tag);
    GroupsAreWindows(rows, Narrow(t.key), WidthOf(tag));
    if t in out {
      var i :| 0 <= i < |out| && out[i] == t;
      assert ks[i] == Narrow(t.key);
    }
    if t.key.windowSize == tag && Occurs(rows, t.key) && t == TradeWindowOf(rows, t.key) {
      var i :| 0 <= i < |ks| && ks[i] == Narrow(t.key);
      assert out[i] == t;
    }
  }

  lemma TickerGroupsMember(rows: seq<MarketEvent>, tag: string, k: TickerWindow)
    requires KnownSize(tag)
    ensures k in TickerGroups(rows, WidthOf(tag), tag)
       <==> k.key.windowSize == tag && Occurs(rows, k.key) && k == TickerWindowOf(rows, k.key)
  {
    var ks, out := GroupKeys(rows, WidthOf(tag)), TickerGroups(rows, WidthOf(tag), tag);
    GroupsAreWindows(rows, Narrow(k.key), WidthOf(tag));
    if k in out {
      var i :| 0 <= i < |out| && out[i] == k;
      assert ks[i] == Narrow(k.key);
    }
    if k.key.windowSize == tag && Occurs(rows, k.key) && k == TickerWindowOf(rows, k.key) {
      var i :| 0 <= i < |ks| && ks[i] == Narrow(k.key);
      assert out[i] == k;
    }
  }

  /** Both sizes of the trade side: a row for exactly the keys that occur. */
  lemma TradeWindowsMember(rows: seq<MarketEvent>, t: TradeWindow)
    ensures t in TradeWindows(rows) <==> Occurs(rows, t.key) && t == TradeWindowOf(rows, t.key)
  {
    TradeGroupsMember(rows, "1m", t);
    TradeGroupsMember(rows, "5m", t);
  }

  lemma TickerWindowsMember(rows: seq<MarketEvent>, k: TickerWindow)
    ensures k in TickerWindows(rows) <==> Occurs(rows, k.key) && k == TickerWindowOf(rows, k.key)
  {
    TickerGroupsMember(rows, "1m", k);
    TickerGroupsMember(rows, "5m", k);
  }

  ghost predicate UniqueTrades(ts: seq<TradeWindow>) {
    forall i, j :: 0 <= i < j < |ts| ==> ts[i].key != ts[j].key
  }

  ghost predicate UniqueTickers(ks: seq<TickerWindow>) {
    forall i, j :: 0 <= i < j < |ks| ==> ks[i].key != ks[j].key
  }

  lemma TradeWindowsUnique(rows: seq<MarketEvent>)
    ensures UniqueTrades(TradeWindows(rows))
  {
    var a, b := TradeGroups(rows, 60, "1m"), TradeGroups(rows, 300, "5m");
    assert forall i :: 0 <= i < |a| ==> Narrow(a[i].key) == GroupKeys(rows, 60)[i] && a[i].key.windowSize == "1m";
    assert forall i :: 0 <= i < |b| ==> Narrow(b[i].key) == GroupKeys(rows, 300)[i] && b[i].key.windowSize == "5m";
  }

  lemma TickerWindowsUnique(rows: seq<MarketEvent>)
    ensures UniqueTickers(TickerWindows(rows))
  {
    var a, b := TickerGroups(rows, 60, "1m"), TickerGroups(rows, 300, "5m");
    assert forall i :: 0 <= i < |a| ==> Narrow(a[i].key) == GroupKeys(rows, 60)[i] && a[i].key.windowSize == "1m";
    assert forall i :: 0 <= i < |b| ==> Narrow(b[i].key) == GroupKeys(rows, 300)[i] && b[i].key.windowSize == "5m";
  }

  // ---- The full outer join ----

  /** A joined row is made of the rows of its key on both sides, and lacks a side only when that
      side has no row of the key. */
  ghost predicate WellJoined(ts: seq<TradeWindow>, ks: seq<TickerWindow>, j: Joined) {
    && (j.t.Some? || j.k.Some?)
    && (j.t.Some? ==> j.t.value in ts)
    && (j.k.Some? ==> j.k.value in ks && j.k.value.key == JoinedKey(j))
    && (j.t == None ==> forall t :: t in ts ==> t.key != JoinedKey(j))
    && (j.k == None ==> forall k :: k in ks ==> k.key != JoinedKey(j))
  }

  /** With distinct keys on the right, a left row matches at most once: no fan-out. */
  lemma {:induction false} MatchesOnce(t: TradeWindow, ks: seq<TickerWindow>)
    requires UniqueTickers(ks)
    ensures |Matches(t, ks)| <= 1
    ensures Matches(t, ks) == [] <==> forall k :: k in ks ==> k.key != t.key
    ensures Matches(t, ks) != [] ==>
              var j := Matches(t, ks)[0]; j.t == Some(t) && j.k.Some? && j.k.value in ks && j.k.value.key == t.key
  {
    if ks != [] {
      var n := |ks| - 1;
      assert forall k :: k in ks <==> k in ks[..n] || k == ks[n];
      MatchesOnce(t, ks[..n]);
    }
  }

  /** What the join makes of one left row. */
  ghost predicate LeftJoined(t: TradeWindow, ks: seq<TickerWindow>, j: Joined) {
    && j.t == Some(t)
    && (j.k.Some? ==> j.k.value in ks && j.k.value.key == t.key)
    && (j.k == None ==> forall k :: k in ks ==> k.key != t.key)
  }

  lemma {:induction false} LeftJoinShape(ts: seq<TradeWindow>, ks: seq<TickerWindow>)
    requires UniqueTickers(ks)
    ensures |LeftJoin(ts, ks)| == |ts|
    ensures forall i :: 0 <= i < |ts| ==> LeftJoined(ts[i], ks, LeftJoin(ts, ks)[i])
  {
    if ts != [] {
      var n := |ts| - 1;
      var front, matches := LeftJoin(ts[..n], ks), Matches(ts[n], ks);
      LeftJoinShape(ts[..n], ks);
      MatchesOnce(ts[n], ks);
      var last := if matches == [] then Joined(Some(ts[n]), None) else matches[0];
      assert LeftJoined(ts[n], ks, last);
      assert LeftJoin(ts, ks) == front + [last];
    }
  }

  lemma LeftWellJoined(ts: seq<TradeWindow>, ks: seq<TickerWindow>, a: nat)
    requires UniqueTickers(ks) && a < |ts|
    ensures a < |FullOuterJoin(ts, ks)| && FullOuterJoin(ts, ks)[a].t == Some(ts[a])
    ensures WellJoined(ts, ks, FullOuterJoin(ts, ks)[a])
  {
    LeftJoinShape(ts, ks);
    assert LeftJoined(ts[a], ks, LeftJoin(ts, ks)[a]);
    assert FullOuterJoin(ts, ks)[a] == LeftJoin(ts, ks)[a] && ts[a] in ts;
  }

  lemma RightWellJoined(ts: seq<TradeWindow>, ks: seq<TickerWindow>, b: nat)
    requires b < |Filter(ks, Unmatched(ts))|
    ensures var k := Filter(ks, Unmatched(ts))[b];
            WellJoined(ts, ks, Joined(None, Some(k))) && k in ks && forall t :: t in ts ==> t.key != k.key
  {
    assert Filter(ks, Unmatched(ts))[b] in Filter(ks, Unmatched(ts));
  }

  /** The join is the left rows in place, then the unmatched right rows. */
  lemma RightInPlace(ts: seq<TradeWindow>, ks: seq<TickerWindow>, a: nat)
    requires UniqueTickers(ks) && |ts| <= a < |FullOuterJoin(ts, ks)|
    ensures a - |ts| < |Filter(ks, Unmatched(ts))|
    ensures FullOuterJoin(ts, ks)[a] == Joined(None, Some(Filter(ks, Unmatched(ts))[a - |ts|]))
  {
    LeftJoinShape(ts, ks);
    assert FullOuterJoin(ts, ks)[a] == RightOnly(Filter(ks, Unmatched(ts)))[a - |ts|];
  }

  lemma JoinedInPlace(ts: seq<TradeWindow>, ks: seq<TickerWindow>, a: nat)
    requires UniqueTickers(ks) && a < |FullOuterJoin(ts, ks)|
    ensures WellJoined(ts, ks, FullOuterJoin(ts, ks)[a])
    ensures a >= |ts| ==> a - |ts| < |Filter(ks, Unmatched(ts))|
    ensures JoinedKey(FullOuterJoin(ts, ks)[a]) == if a < |ts| then ts[a].key else Filter(ks, Unmatched(ts))[a - |ts|].key
  {
    if a < |ts| {
      LeftWellJoined(ts, ks, a);
    } else {
      RightInPlace(ts, ks, a);
      RightWellJoined(ts, ks, a - |ts|);
    }
  }

  lemma {:induction false} UnmatchedDistinct(ts: seq<TradeWindow>, ks: seq<TickerWindow>)
    requires UniqueTickers(ks)
    ensures UniqueTickers(Filter(ks, Unmatched(ts)))
  {
    if ks != [] {
      var n := |ks| - 1;
      var front := Filter(ks[..n], Unmatched(ts));
      UnmatchedDistinct(ts, ks[..n]);
      forall i | 0 <= i < |front| ensures front[i].key != ks[n].key { assert front[i] in front; }
    }
  }

  lemma JoinedKeysDiffer(ts: seq<TradeWindow>, ks: seq<TickerWindow>, a: nat, b: nat)
    requires UniqueTrades(ts) && UniqueTickers(ks)
    requires a < b < |FullOuterJoin(ts, ks)|
    ensures JoinedKey(FullOuterJoin(ts, ks)[a]) != JoinedKey(FullOuterJoin(ts, ks)[b])
  {
    JoinedInPlace(ts, ks, a);
    JoinedInPlace(ts, ks, b);
    if |ts| <= b {
      if a < |ts| {
        RightWellJoined(ts, ks, b - |ts|);
        assert ts[a] in ts;
      } else {
        UnmatchedDistinct(ts, ks);
      }
    }
  }

  /** One row for each key of either side, and every row well joined. */
  lemma JoinIsOneToOne(ts: seq<TradeWindow>, ks: seq<TickerWindow>)
    requires UniqueTrades(ts) && UniqueTickers(ks)
    ensures forall j :: j in FullOuterJoin(ts, ks) ==> WellJoined(ts, ks, j)
    ensures forall a, b :: 0 <= a < b < |FullOuterJoin(ts, ks)| ==>
              JoinedKey(FullOuterJoin(ts, ks)[a]) != JoinedKey(FullOuterJoin(ts, ks)[b])
  {
    var js := FullOuterJoin(ts, ks);
    forall a | 0 <= a < |js| ensures WellJoined(ts, ks, js[a]) { JoinedInPlace(ts, ks, a); }
    forall a, b | 0 <= a < b < |js| ensures JoinedKey(js[a]) != JoinedKey(js[b]) { JoinedKeysDiffer(ts, ks, a, b); }
  }

  ghost predicate Joins(js: seq<Joined>, key: WideKey) {
    exists j :: j in js && JoinedKey(j) == key
  }

  lemma JoinKeepsLeft(ts: seq<TradeWindow>, ks: seq<TickerWindow>, t: TradeWindow)
    requires UniqueTickers(ks) && t in ts
    ensures Joins(FullOuterJoin(ts, ks), t.key)
  {
    var i :| 0 <= i < |ts| && ts[i] == t;
    LeftWellJoined(ts, ks, i);
    assert FullOuterJoin(ts, ks)[i] in FullOuterJoin(ts, ks);
  }

  lemma JoinKeepsUnmatched(ts: seq<TradeWindow>, ks: seq<TickerWindow>, k: TickerWindow)
    requires k in ks && forall t :: t in ts ==> t.key != k.key
    ensures Joins(FullOuterJoin(ts, ks), k.key)
  {
    var rest := Filter(ks, Unmatched(ts));
    assert k in rest;
    var i :| 0 <= i < |rest| && rest[i] == k;
    var a := |LeftJoin(ts, ks)| + i;
    assert FullOuterJoin(ts, ks)[a] == RightOnly(rest)[i] == Joined(None, Some(k));
    assert FullOuterJoin(ts, ks)[a] in FullOuterJoin(ts, ks);
  }

  /** No key of either side is lost, and none is made up. */
  lemma JoinKeepsKeys(ts: seq<TradeWindow>, ks: seq<TickerWindow>, key: WideKey)
    requires UniqueTickers(ks)
    ensures Joins(FullOuterJoin(ts, ks), key) <==> (exists t :: t in ts && t.key == key) || (exists k :: k in ks && k.key == key)
  {
    if t :| t in ts && t.key == key {
      JoinKeepsLeft(ts, ks, t);
    } else if k :| k in ks && k.key == key {
      JoinKeepsUnmatched(ts, ks, k);
    } else if Joins(FullOuterJoin(ts, ks), key) {
      var a: nat :| a < |FullOuterJoin(ts, ks)| && JoinedKey(FullOuterJoin(ts, ks)[a]) == key;
      JoinedInPlace(ts, ks, a);
    }
  }

  // ---- Gold is the reference ----

  lemma KeysOfConcat(a: seq<MarketEvent>, b: seq<MarketEvent>, k: Key, width: nat)
    requires width > 0
    ensures k in WindowKeys(a + b, width) <==> k in WindowKeys(a, width) || k in WindowKeys(b, width)
  {
    if e :| e in a && EventKey(e, width) == k { assert e in a + b; }
    if e :| e in b && EventKey(e, width) == k { assert e in a + b; }
    if e :| e in a + b && EventKey(e, width) == k { assert e in a || e in b; }
  }

  lemma MembersOfConcat(a: seq<MarketEvent>, b: seq<MarketEvent>, k: Key, width: nat)
    requires width > 0
    ensures k in WindowKeys(a + b, width) <==> k in WindowKeys(a, width) || k in WindowKeys(b, width)
    ensures WindowStats(a + b, k, width) == Plus(WindowStats(a, k, width), WindowStats(b, k, width))
  {
    FilterConcat(a, b, InWindow(k, width));
    TotalConcat(Filter(a, InWindow(k, width)), Filter(b, InWindow(k, width)));
    KeysOfConcat(a, b, k, width);
  }

  /** The statistics behind a side of the join, present or null. */
  lemma TradeSide(trades: seq<MarketEvent>, key: WideKey)
    requires forall e :: e in trades ==> TradeValid()(e)
    ensures var s, t := WindowStats(trades, Narrow(key), WidthOf(key.windowSize)), TradeWindowOf(trades, key);
            && t.vwap == Ratio(s.pv, s.vol) && t.tradeVolume == s.vol && t.tradeCount == s.trades
            && s.spreadSum == 0.0 && s.midSum == 0.0 && s.tickers == 0
            && (KnownSize(key.windowSize) && !Occurs(trades, key) ==> s == Zero())
  {
    var k, w := Narrow(key), WidthOf(key.windowSize);
    GroupsAreWindows(trades, k, w);
    TradeSums(Filter(trades, InWindow(k, w)));
    if k !in WindowKeys(trades, w) {
      FilterNone(trades, InWindow(k, w));
    }
  }

  lemma TickerSide(tickers: seq<MarketEvent>, key: WideKey)
    requires forall e :: e in tickers ==> TickerValid()(e)
    ensures var s, t := WindowStats(tickers, Narrow(key), WidthOf(key.windowSize)), TickerWindowOf(tickers, key);
            && t.avgSpread == Ratio(s.spreadSum, s.tickers as real) && t.avgMid == Ratio(s.midSum, s.tickers as real)
            && t.tickerCount == s.tickers && s.pv == 0.0 && s.vol == 0.0 && s.trades == 0
            && (KnownSize(key.windowSize) && !Occurs(tickers, key) ==> s == Zero())
  {
    var k, w := Narrow(key), WidthOf(key.windowSize);
    GroupsAreWindows(tickers, k, w);
    TickerSums(Filter(tickers, InWindow(k, w)));
    if k !in WindowKeys(tickers, w) {
      FilterNone(tickers, InWindow(k, w));
    }
  }

  /** The reference's row for a key, at the size the key names. */
  function ReferenceRow(es: seq<MarketEvent>, key: WideKey): WindowMetrics {
    RowAt(es, Narrow(key), WidthOf(key.windowSize), key.windowSize)
  }

  /** A joined row holds, on each side, the group of its key if the key occurs there and null if not. */
  lemma SidesOfJoined(trades: seq<MarketEvent>, tickers: seq<MarketEvent>, j: Joined)
    requires WellJoined(TradeWindows(trades), TickerWindows(tickers), j)
    ensures var key := JoinedKey(j);
            && (Occurs(trades, key) || Occurs(tickers, key))
            && j.t == (if Occurs(trades, key) then Some(TradeWindowOf(trades, key)) else None)
            && j.k == (if Occurs(tickers, key) then Some(TickerWindowOf(tickers, key)) else None)
  {
    var key := JoinedKey(j);
    TradeWindowsMember(trades, if j.t.Some? then j.t.value else TradeWindowOf(trades, key));
    TickerWindowsMember(tickers, if j.k.Some? then j.k.value else TickerWindowOf(tickers, key));
  }

  /** Coalescing the two sides gives the row of their combined statistics. */
  lemma CoalescedRow(key: WideKey, a: Stats, b: Stats, t: Option<TradeWindow>, k: Option<TickerWindow>)
    requires KnownSize(key.windowSize) && (t.Some? || k.Some?)
    requires a.spreadSum == 0.0 && a.midSum == 0.0 && a.tickers == 0
    requires b.pv == 0.0 && b.vol == 0.0 && b.trades == 0
    requires if t.Some? then t.value == TradeWindow(key, Ratio(a.pv, a.vol), a.vol, a.trades) else a == Zero()
    requires if k.Some? then k.value == TickerWindow(key, Ratio(b.spreadSum, b.tickers as real), Ratio(b.midSum, b.tickers as real), b.tickers)
             else b == Zero()
    ensures GoldRow(Joined(t, k)) == Row(Narrow(key), WidthOf(key.windowSize), key.windowSize, Plus(a, b))
  {
    assert Ratio(0.0, 0 as real) == None;
  }

  /** Each joined row projects to the reference's row of its key over all silver rows. */
  lemma JoinedRowIsReference(trades: seq<MarketEvent>, tickers: seq<MarketEvent>, j: Joined)
    requires SilverTables(trades, tickers)
    requires WellJoined(TradeWindows(trades), TickerWindows(tickers), j)
    ensures Occurs(trades, JoinedKey(j)) || Occurs(tickers, JoinedKey(j))
    ensures GoldRow(j) == ReferenceRow(trades + tickers, JoinedKey(j))
  {
    var key := JoinedKey(j);
    var k, w := Narrow(key), WidthOf(key.windowSize);
    SidesOfJoined(trades, tickers, j);
    TradeSide(trades, key);
    TickerSide(tickers, key);
    MembersOfConcat(trades, tickers, k, w);
    CoalescedRow(key, WindowStats(trades, k, w), WindowStats(tickers, k, w), j.t, j.k);
  }

  function RowWideKey(m: WindowMetrics): WideKey {
    WideKey(m.symbol, m.windowSize, m.windowStart)
  }

  /** The reference at both sizes, over all silver rows. */
  function ReferenceTables(es: seq<MarketEvent>): seq<WindowMetrics> {
    WindowTable(es, 60, "1m") + WindowTable(es, 300, "5m")
  }

  lemma ReferenceTablesMember(es: seq<MarketEvent>, m: WindowMetrics)
    ensures m in ReferenceTables(es) <==> Occurs(es, RowWideKey(m)) && m == ReferenceRow(es, RowWideKey(m))
  {
    WindowTableRow(es, 60, "1m", m);
    WindowTableRow(es, 300, "5m", m);
  }

  lemma ReferenceTablesDistinct(es: seq<MarketEvent>)
    ensures NoDuplicates(ReferenceTables(es))
  {
    var a, b := WindowTable(es, 60, "1m"), WindowTable(es, 300, "5m");
    WindowTableSorted(es, 60, "1m");
    WindowTableSorted(es, 300, "5m");
    SortedRowsDistinct(a);
    SortedRowsDistinct(b);
    assert forall i :: 0 <= i < |a| ==> a[i].windowSize == "1m";
    assert forall i :: 0 <= i < |b| ==> b[i].windowSize == "5m";
  }

  lemma GoldRowKey(j: Joined)
    ensures RowWideKey(GoldRow(j)) == JoinedKey(j)
  {
  }

  /** Gold has one row per (symbol, size, start). */
  lemma GoldKeysDistinct(trades: seq<MarketEvent>, tickers: seq<MarketEvent>)
    ensures var g := GoldOver(trades, tickers);
            forall a, b :: 0 <= a < b < |g| ==> RowWideKey(g[a]) != RowWideKey(g[b])
  {
    TradeWindowsUnique(trades);
    TickerWindowsUnique(tickers);
    JoinIsOneToOne(TradeWindows(trades), TickerWindows(tickers));
    var js := FullOuterJoin(TradeWindows(trades), TickerWindows(tickers));
    forall a | 0 <= a < |js| ensures RowWideKey(GoldOver(trades, tickers)[a]) == JoinedKey(js[a]) { GoldRowKey(js[a]); }
  }

  lemma GoldWithinReference(trades: seq<MarketEvent>, tickers: seq<MarketEvent>, m: WindowMetrics)
    requires SilverTables(trades, tickers) && m in GoldOver(trades, tickers)
    ensures m in ReferenceTables(trades + tickers)
  {
    var js := FullOuterJoin(TradeWindows(trades), TickerWindows(tickers));
    var i :| 0 <= i < |js| && GoldRow(js[i]) == m;
    assert js[i] in js;
    TradeWindowsUnique(trades);
    TickerWindowsUnique(tickers);
    JoinIsOneToOne(TradeWindows(trades), TickerWindows(tickers));
    JoinedRowIsReference(trades, tickers, js[i]);
    GoldRowKey(js[i]);
    var key := JoinedKey(js[i]);
    KeysOfConcat(trades, tickers, Narrow(key), WidthOf(key.windowSize));
    ReferenceTablesMember(trades + tickers, m);
  }

  /** The join has a row for every key that occurs on either side. */
  lemma OccurringKeyJoined(trades: seq<MarketEvent>, tickers: seq<MarketEvent>, key: WideKey)
    requires Occurs(trades, key) || Occurs(tickers, key)
    ensures exists j :: && j in FullOuterJoin(TradeWindows(trades), TickerWindows(tickers)) && JoinedKey(j) == key
                        && WellJoined(TradeWindows(trades), TickerWindows(tickers), j)
  {
    TradeWindowsMember(trades, TradeWindowOf(trades, key));
    TickerWindowsMember(tickers, TickerWindowOf(tickers, key));
    TradeWindowsUnique(trades);
    TickerWindowsUnique(tickers);
    JoinKeepsKeys(TradeWindows(trades), TickerWindows(tickers), key);
    JoinIsOneToOne(TradeWindows(trades), TickerWindows(tickers));
  }

  lemma GoldRowsMember(js: seq<Joined>, j: Joined)
    requires j in js
    ensures GoldRow(j) in GoldRows(js)
  {
    var i :| 0 <= i < |js| && js[i] == j;
    assert GoldRows(js)[i] == GoldRow(j);
  }

  lemma ReferenceWithinGold(trades: seq<MarketEvent>, tickers: seq<MarketEvent>, m: WindowMetrics)
    requires SilverTables(trades, tickers) && m in ReferenceTables(trades + tickers)
    ensures m in GoldOver(trades, tickers)
  {
    var key, js := RowWideKey(m), FullOuterJoin(TradeWindows(trades), TickerWindows(tickers));
    ReferenceTablesMember(trades + tickers, m);
    KeysOfConcat(trades, tickers, Narrow(key), WidthOf(key.windowSize));
    OccurringKeyJoined(trades, tickers, key);
    var j :| j in js && JoinedKey(j) == key && WellJoined(TradeWindows(trades), TickerWindows(tickers), j);
    JoinedRowIsReference(trades, tickers, j);
    GoldRowsMember(js, j);
  }

  /** Gold over any silver tables is the reference at both sizes over all their rows: the same
      windows, equal in every field, one row each. */
  lemma GoldIsReference(trades: seq<MarketEvent>, tickers: seq<MarketEvent>)
    requires SilverTables(trades, tickers)
    ensures multiset(GoldOver(trades, tickers)) == multiset(ReferenceTables(trades + tickers))
  {
    forall m | m in GoldOver(trades, tickers) ensures m in ReferenceTables(trades + tickers) {
      GoldWithinReference(trades, tickers, m);
    }
    forall m | m in ReferenceTables(trades + tickers) ensures m in GoldOver(trades, tickers) {
      ReferenceWithinGold(trades, tickers, m);
    }
    GoldKeysDistinct(trades, tickers);
    ReferenceTablesDistinct(trades + tickers);
    assert forall a, b :: 0 <= a < b < |GoldOver(trades, tickers)| ==>
      RowWideKey(GoldOver(trades, tickers)[a]) != RowWideKey(GoldOver(trades, tickers)[b]);
    SameMembersPermuted(GoldOver(trades, tickers), ReferenceTables(trades + tickers));
  }

  // ---- From bronze ----

  lemma SilverIsValid(bronze: seq<MarketEvent>)
    ensures SilverTables(SilverTrades(bronze), SilverTicker(bronze))
    ensures IsDedup(Filter(bronze, TradeValid()), SilverTrades(bronze))
  {
    var src := Filter(bronze, TradeValid());
    RowNumberDedups(src);
    forall e | e in SilverTrades(bronze) ensures TradeValid()(e) {
      assert Least(src, e);
    }
  }

  function SilverRows(bronze: seq<MarketEvent>): seq<MarketEvent> {
    SilverTrades(bronze) + SilverTicker(bronze)
  }

  /** For every bronze table, valid or not, gold is the reference over the silver rows. */
  lemma MartIsReference(bronze: seq<MarketEvent>)
    ensures multiset(Gold(bronze)) == multiset(ReferenceTables(SilverRows(bronze)))
  {
    SilverIsValid(bronze);
    GoldIsReference(SilverTrades(bronze), SilverTicker(bronze));
  }

  /** A gold row is the reference row of a window that holds a silver row. */
  lemma GoldRowIsReference(bronze: seq<MarketEvent>, m: WindowMetrics)
    requires m in Gold(bronze)
    ensures KnownSize(m.windowSize) && RowKey(m) in WindowKeys(SilverRows(bronze), WidthOf(m.windowSize))
    ensures m == RowAt(SilverRows(bronze), RowKey(m), WidthOf(m.windowSize), m.windowSize)
  {
    MartIsReference(bronze);
    PermutedMembers(Gold(bronze), ReferenceTables(SilverRows(bronze)));
    ReferenceTablesMember(SilverRows(bronze), m);
  }

  // ---- Input order ----

  lemma ColumnsKeepWindow(e: MarketEvent, width: nat)
    requires width > 0 && TradeValid()(e)
    ensures EventKey(Columns(e), width) == EventKey(e, width)
    ensures Contribution(Columns(e)) == Contribution(e)
  {
  }

  /** Events of the same window and contribution extend equal statistics equally. */
  lemma StatsAfter(a: seq<MarketEvent>, x: MarketEvent, b: seq<MarketEvent>, y: MarketEvent, k: Key, width: nat)
    requires width > 0 && EventKey(x, width) == EventKey(y, width) && Contribution(x) == Contribution(y)
    requires WindowStats(a, k, width) == WindowStats(b, k, width)
    requires k in WindowKeys(a, width) <==> k in WindowKeys(b, width)
    ensures WindowStats(a + [x], k, width) == WindowStats(b + [y], k, width)
    ensures k in WindowKeys(a + [x], width) <==> k in WindowKeys(b + [y], width)
  {
    WindowStatsAppend(a, x, k, width);
    WindowStatsAppend(b, y, k, width);
    WindowKeysAppend(a, x, width);
    WindowKeysAppend(b, y, width);
  }

  lemma AllColumnsAppend(es: seq<MarketEvent>, e: MarketEvent)
    ensures AllColumns(es + [e]) == AllColumns(es) + [Columns(e)]
  {
  }

  lemma {:induction false} StatsOfColumns(es: seq<MarketEvent>, k: Key, width: nat)
    requires width > 0
    requires forall e :: e in es ==> TradeValid()(e)
    ensures WindowStats(AllColumns(es), k, width) == WindowStats(es, k, width)
    ensures k in WindowKeys(AllColumns(es), width) <==> k in WindowKeys(es, width)
  {
    if es == [] {
      assert AllColumns(es) == [];
    } else {
      var n := |es| - 1;
      var before, e := es[..n], es[n];
      assert TradeValid()(e) by { assert e in es; }
      StatsOfColumns(before, k, width);
      ColumnsKeepWindow(e, width);
      StatsAfter(before, e, AllColumns(before), Columns(e), k, width);
      AllColumnsAppend(before, e);
      assert es == before + [e];
    }
  }

  lemma StatsPermuted(a: seq<MarketEvent>, b: seq<MarketEvent>, k: Key, width: nat)
    requires width > 0 && multiset(a) == multiset(b)
    ensures WindowStats(a, k, width) == WindowStats(b, k, width)
    ensures k in WindowKeys(a, width) <==> k in WindowKeys(b, width)
  {
    PermutedMembers(a, b);
    FilterPermuted(a, b, InWindow(k, width));
    TotalPermuted(Filter(a, InWindow(k, width)), Filter(b, InWindow(k, width)));
  }

  /** Statistics of the silver trades do not depend on bronze order or on tie-breaking. */
  lemma SilverStatsDetermined(a: seq<MarketEvent>, b: seq<MarketEvent>, x: seq<MarketEvent>, y: seq<MarketEvent>, k: Key, width: nat)
    requires width > 0
    requires forall e :: e in a <==> e in b
    requires forall e :: e in a ==> TradeValid()(e)
    requires IsDedup(a, x) && IsDedup(b, y)
    ensures WindowStats(x, k, width) == WindowStats(y, k, width)
    ensures k in WindowKeys(x, width) <==> k in WindowKeys(y, width)
  {
    assert forall e :: e in x ==> Least(a, e);
    assert forall e :: e in y ==> Least(b, e);
    DedupDetermined(a, b, x, y);
    StatsOfColumns(x, k, width);
    StatsOfColumns(y, k, width);
    StatsPermuted(AllColumns(x), AllColumns(y), k, width);
  }

  lemma SameStatsSameTables(a: seq<MarketEvent>, b: seq<MarketEvent>)
    requires forall k: Key, w: nat :: w > 0 ==>
               WindowStats(a, k, w) == WindowStats(b, k, w) && (k in WindowKeys(a, w) <==> k in WindowKeys(b, w))
    ensures multiset(ReferenceTables(a)) == multiset(ReferenceTables(b))
  {
    forall m ensures m in ReferenceTables(a) <==> m in ReferenceTables(b) {
      ReferenceTablesMember(a, m);
      ReferenceTablesMember(b, m);
      var key := RowWideKey(m);
      assert WindowStats(a, Narrow(key), WidthOf(key.windowSize)) == WindowStats(b, Narrow(key), WidthOf(key.windowSize));
    }
    ReferenceTablesDistinct(a);
    ReferenceTablesDistinct(b);
    SameMembersPermuted(ReferenceTables(a), ReferenceTables(b));
  }

  /** Gold does not depend on the order of bronze, nor on how the engine breaks numbering ties. */
  lemma GoldOrderIndependent(bronze: seq<MarketEvent>, shuffled: seq<MarketEvent>, trades: seq<MarketEvent>)
    requires multiset(bronze) == multiset(shuffled)
    requires IsDedup(Filter(shuffled, TradeValid()), trades)
    ensures multiset(Gold(bronze)) == multiset(GoldOver(trades, SilverTicker(shuffled)))
  {
    var a, b := Filter(bronze, TradeValid()), Filter(shuffled, TradeValid());
    var x, u, v := SilverTrades(bronze), SilverTicker(bronze), SilverTicker(shuffled);
    SilverIsValid(bronze);
    FilterPermuted(bronze, shuffled, TradeValid());
    PermutedMembers(a, b);
    FilterPermuted(bronze, shuffled, TickerValid());
    forall e | e in trades ensures TradeValid()(e) { assert Least(b, e); }
    GoldIsReference(x, u);
    GoldIsReference(trades, v);
    forall k: Key, w: nat | w > 0
      ensures WindowStats(x + u, k, w) == WindowStats(trades + v, k, w)
      ensures k in WindowKeys(x + u, w) <==> k in WindowKeys(trades + v, w)
    {
      SilverStatsDetermined(a, b, x, trades, k, w);
      StatsPermuted(u, v, k, w);
      MembersOfConcat(x, u, k, w);
      MembersOfConcat(trades, v, k, w);
    }
    SameStatsSameTables(x + u, trades + v);
  }
}
