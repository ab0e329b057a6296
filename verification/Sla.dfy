/** The SLA counters over the mart's output: windows expected against windows produced, and rows
    that breach the contract. */
module Sla {
  import opened Basics
  import opened Schema
  import opened Time
  import opened Metrics
  import opened MetricLaws
  import opened Mart
  import opened Silver
  import opened MartReference
  import opened Refinement

  // ---- Expected windows ----

  /** The baseline's population: silver's filters, without its deduplication. */
  function SilverValid(): MarketEvent -> bool {
    (e: MarketEvent) => TradeValid()(e) || TickerValid()(e)
  }

  function KeyFor(symbol: string): Key -> bool {
    (k: Key) => k.symbol == symbol
  }

  function KeysFor(es: seq<MarketEvent>, width: nat, symbol: string): nat
    requires width > 0
  {
    |Filter(WindowKeys(es, width), KeyFor(symbol))|
  }

  /** The distinct (size, window) buckets of a symbol's valid rows. */
  function Expected(bronze: seq<MarketEvent>, symbol: string): nat {
    var valid := Filter(bronze, SilverValid());
    KeysFor(valid, 60, symbol) + KeysFor(valid, 300, symbol)
  }

  function Produced(gold: seq<WindowMetrics>, symbol: string): nat {
    |Filter(gold, RowFor(symbol))|
  }

  /** Distinct (symbol, bucket) pairs in order of appearance. */
  method DropDuplicates(valid: seq<MarketEvent>, width: nat) returns (distinct: seq<Key>)
    requires width > 0
    ensures NoDuplicates(distinct)
    ensures forall k :: k in distinct <==> k in WindowKeys(valid, width)
  {
    distinct := [];
    for i := 0 to |valid|
      invariant NoDuplicates(distinct)
      invariant forall k :: k in distinct <==> k in WindowKeys(valid[..i], width)
    {
      var e := valid[i];
      assert valid[..i + 1] == valid[..i] + [e];
      WindowKeysAppend(valid[..i], e, width);
      FormulasNameTheWindow(e.tsEvent, width);
      var k := Key(e.symbol, BatchStart(e.tsEvent, width));
      if k !in distinct {
        distinct := distinct + [k];
      }
    }
    assert valid[..|valid|] == valid;
  }

  lemma SameMembersSameCount<T>(a: seq<T>, b: seq<T>, p: T -> bool)
    requires NoDuplicates(a) && NoDuplicates(b)
    requires forall x :: x in a <==> x in b
    ensures |Filter(a, p)| == |Filter(b, p)|
  {
    SameMembersPermuted(a, b);
    FilterPermuted(a, b, p);
    assert |Filter(a, p)| == |multiset(Filter(a, p))| == |multiset(Filter(b, p))| == |Filter(b, p)|;
  }

  /** The symbols with a bucket at this size. */
  function KeySymbols(ks: seq<Key>): (r: seq<string>)
    ensures NoDuplicates(r)
    ensures forall s :: s in r <==> exists k :: k in ks && k.symbol == s
  {
    if ks == [] then []
    else
      var n := |ks| - 1;
      var r := KeySymbols(ks[..n]);
      assert forall k :: k in ks <==> k in ks[..n] || k == ks[n];
      if ks[n].symbol in r then r else r + [ks[n].symbol]
  }

  /** Each symbol's number of buckets at this size, added to its total so far. */
  method AddGroupSizes(out: map<string, nat>, distinct: seq<Key>) returns (out': map<string, nat>)
    requires forall s :: s in out ==> out[s] > 0
    ensures forall s :: s in out' ==> out'[s] > 0
    ensures forall s :: CountFor(out', s) == CountFor(out, s) + |Filter(distinct, KeyFor(s))|
  {
    out' := out;
    var symbols := KeySymbols(distinct);
    for i := 0 to |symbols|
      invariant forall s :: s in out' ==> out'[s] > 0
      invariant forall s :: CountFor(out', s) == CountFor(out, s) + (if s in symbols[..i] then |Filter(distinct, KeyFor(s))| else 0)
    {
      var s := symbols[i];
      assert symbols[..i + 1] == symbols[..i] + [s];
      assert s !in symbols[..i];
      assert |Filter(distinct, KeyFor(s))| > 0 by {
        assert s in symbols;
        var k :| k in distinct && k.symbol == s;
        assert k in Filter(distinct, KeyFor(s));
      }
      out' := out'[s := CountFor(out', s) + |Filter(distinct, KeyFor(s))|];
    }
    assert symbols[..|symbols|] == symbols;
    forall s ensures CountFor(out', s) == CountFor(out, s) + |Filter(distinct, KeyFor(s))| {
      if s !in symbols {
        FilterNone(distinct, KeyFor(s));
      }
    }
  }

  method ExpectedWindowsBySymbol(bronze: seq<MarketEvent>) returns (out: map<string, nat>)
    ensures forall s :: s in out ==> out[s] > 0
    ensures forall s :: CountFor(out, s) == Expected(bronze, s)
  {
    var valid := Filter(bronze, SilverValid());
    out := map[];
    var minutes := DropDuplicates(valid, 60);
    out := AddGroupSizes(out, minutes);
    var fives := DropDuplicates(valid, 300);
    out := AddGroupSizes(out, fives);
    SortedKeysDistinct(WindowKeys(valid, 60));
    SortedKeysDistinct(WindowKeys(valid, 300));
    forall s ensures CountFor(out, s) == Expected(bronze, s) {
      SameMembersSameCount(minutes, WindowKeys(valid, 60), KeyFor(s));
      SameMembersSameCount(fives, WindowKeys(valid, 300), KeyFor(s));
    }
  }

  // ---- Completeness ----

  lemma {:induction false} RowsForSymbol(es: seq<MarketEvent>, ks: seq<Key>, width: nat, tag: string, symbol: string)
    requires width > 0
    ensures |Filter(RowsAt(es, ks, width, tag), RowFor(symbol))| == |Filter(ks, KeyFor(symbol))|
  {
    if ks != [] {
      var n := |ks| - 1;
      var front, k := ks[..n], ks[n];
      assert ks == front + [k];
      RowsForSymbol(es, front, width, tag, symbol);
      RowsAtAppend(es, front, k, width, tag);
      FilterCount(RowsAt(es, front, width, tag), RowAt(es, k, width, tag), RowFor(symbol));
      FilterCount(front, k, KeyFor(symbol));
      assert RowFor(symbol)(RowAt(es, k, width, tag)) == KeyFor(symbol)(k);
    }
  }

  /** What gold holds of a symbol is a count of the windows its silver rows fall in. */
  lemma ProducedIsSilverKeys(bronze: seq<MarketEvent>, symbol: string)
    ensures Produced(Gold(bronze), symbol)
         == KeysFor(SilverRows(bronze), 60, symbol) + KeysFor(SilverRows(bronze), 300, symbol)
  {
    var es := SilverRows(bronze);
    MartIsReference(bronze);
    FilterPermuted(Gold(bronze), ReferenceTables(es), RowFor(symbol));
    assert |multiset(Filter(Gold(bronze), RowFor(symbol)))| == |multiset(Filter(ReferenceTables(es), RowFor(symbol)))|;
    FilterConcat(WindowTable(es, 60, "1m"), WindowTable(es, 300, "5m"), RowFor(symbol));
    RowsForSymbol(es, WindowKeys(es, 60), 60, "1m", symbol);
    RowsForSymbol(es, WindowKeys(es, 300), 300, "5m", symbol);
  }

  /** A list without repetitions inside another is no longer, and as long only if they coincide. */
  lemma {:induction false} Within<T>(a: seq<T>, b: seq<T>)
    requires NoDuplicates(a)
    requires forall x :: x in a ==> x in b
    ensures |a| <= |b|
    ensures |a| == |b| ==> forall x :: x in b ==> x in a
  {
    if a != [] {
      var n := |a| - 1;
      assert a[n] in a;
      var j :| 0 <= j < |b| && b[j] == a[n];
      var rest := b[..j] + b[j + 1..];
      forall x | x in a[..n] ensures x in rest {
        var i :| 0 <= i < n && a[i] == x;
        assert a[i] in a;
      }
      Within(a[..n], rest);
      if |a| == |b| {
        forall x | x in b ensures x in a {
          assert x == b[j] || x in rest;
        }
      }
    }
  }

  /** A silver row is a valid bronze row. */
  lemma SilverWithinValid(bronze: seq<MarketEvent>, e: MarketEvent)
    requires e in SilverRows(bronze)
    ensures e in Filter(bronze, SilverValid())
  {
    SilverIsValid(bronze);
    if e in SilverTrades(bronze) {
      assert Least(Filter(bronze, TradeValid()), e);
    }
  }

  /** The symbol's expected windows of a size, and those that silver fills. */
  function ExpectedKeys(bronze: seq<MarketEvent>, width: nat, symbol: string): seq<Key>
    requires width > 0
  {
    Filter(WindowKeys(Filter(bronze, SilverValid()), width), KeyFor(symbol))
  }

  function FilledKeys(bronze: seq<MarketEvent>, width: nat, symbol: string): seq<Key>
    requires width > 0
  {
    Filter(WindowKeys(SilverRows(bronze), width), KeyFor(symbol))
  }

  lemma SilverKeysWithin(bronze: seq<MarketEvent>, width: nat, symbol: string)
    requires width > 0
    ensures var a, b := FilledKeys(bronze, width, symbol), ExpectedKeys(bronze, width, symbol);
            NoDuplicates(a) && NoDuplicates(b) && forall k :: k in a ==> k in b
  {
    var es, valid := SilverRows(bronze), Filter(bronze, SilverValid());
    SortedKeysDistinct(WindowKeys(es, width));
    SortedKeysDistinct(WindowKeys(valid, width));
    FilterKeepsNoDuplicates(WindowKeys(es, width), KeyFor(symbol));
    FilterKeepsNoDuplicates(WindowKeys(valid, width), KeyFor(symbol));
    forall k | k in WindowKeys(es, width) ensures k in WindowKeys(valid, width) {
      var e :| e in es && EventKey(e, width) == k;
      SilverWithinValid(bronze, e);
    }
  }

  /** Every expected window of a size is filled. */
  ghost predicate AllFilled(bronze: seq<MarketEvent>, width: nat, symbol: string)
    requires width > 0
  {
    forall k :: k in ExpectedKeys(bronze, width, symbol) ==> k in FilledKeys(bronze, width, symbol)
  }

  /** At one size no more windows are filled than expected, and as many only if all are. */
  lemma FilledWithinExpected(bronze: seq<MarketEvent>, width: nat, symbol: string)
    requires width > 0
    ensures |FilledKeys(bronze, width, symbol)| <= |ExpectedKeys(bronze, width, symbol)|
    ensures |FilledKeys(bronze, width, symbol)| == |ExpectedKeys(bronze, width, symbol)| <==> AllFilled(bronze, width, symbol)
  {
    SilverKeysWithin(bronze, width, symbol);
    Within(FilledKeys(bronze, width, symbol), ExpectedKeys(bronze, width, symbol));
    if AllFilled(bronze, width, symbol) {
      Within(ExpectedKeys(bronze, width, symbol), FilledKeys(bronze, width, symbol));
    }
  }

  /** Completeness never exceeds 100 percent, and reaches it exactly when every expected window of
      either size is filled. */
  lemma ProducedAtMostExpected(bronze: seq<MarketEvent>, symbol: string)
    ensures Produced(Gold(bronze), symbol) <= Expected(bronze, symbol)
    ensures Produced(Gold(bronze), symbol) == Expected(bronze, symbol)
       <==> AllFilled(bronze, 60, symbol) && AllFilled(bronze, 300, symbol)
  {
    ProducedIsSilverKeys(bronze, symbol);
    FilledWithinExpected(bronze, 60, symbol);
    FilledWithinExpected(bronze, 300, symbol);
  }

  /** Deduplication cannot remove this row's window: it is a quote, or the least of its trade id. */
  ghost predicate Survives(bronze: seq<MarketEvent>, e: MarketEvent) {
    TickerValid()(e) || Least(Filter(bronze, TradeValid()), e)
  }

  ghost predicate SurvivorIn(bronze: seq<MarketEvent>, k: Key, width: nat)
    requires width > 0
  {
    exists y :: y in bronze && SilverValid()(y) && EventKey(y, width) == k && Survives(bronze, y)
  }

  /** Every one-minute window of the symbol that holds a valid row holds one that survives. */
  ghost predicate MinutesSurvive(bronze: seq<MarketEvent>, symbol: string) {
    forall x :: x in bronze && SilverValid()(x) && x.symbol == symbol ==> SurvivorIn(bronze, EventKey(x, 60), 60)
  }

  /** A silver row survives. */
  lemma SilverRowSurvives(bronze: seq<MarketEvent>, e: MarketEvent)
    requires e in SilverRows(bronze)
    ensures e in bronze && SilverValid()(e) && Survives(bronze, e)
  {
    SilverIsValid(bronze);
    SilverWithinValid(bronze, e);
    assert e in SilverTrades(bronze) ==> Least(Filter(bronze, TradeValid()), e);
  }

  /** A trade's partition keeps a row in silver, a least one. */
  lemma TradeKept(bronze: seq<MarketEvent>, x: MarketEvent) returns (r: MarketEvent)
    requires x in bronze && TradeValid()(x)
    ensures r in SilverRows(bronze) && SamePartition(x, r) && Least(Filter(bronze, TradeValid()), r)
  {
    SilverIsValid(bronze);
    assert HasSurvivor(SilverTrades(bronze), x);
    r :| r in SilverTrades(bronze) && SamePartition(x, r);
  }

  /** A surviving row leaves a silver row at its time. */
  lemma SurvivorLeavesRow(bronze: seq<MarketEvent>, y: MarketEvent) returns (r: MarketEvent)
    requires y in bronze && SilverValid()(y) && Survives(bronze, y)
    ensures r in SilverRows(bronze) && r.symbol == y.symbol && r.tsEvent == y.tsEvent
  {
    r := y;
    if TickerValid()(y) {
      assert y in SilverTicker(bronze);
    } else {
      r := TradeKept(bronze, y);
    }
  }

  /** Silver holds a row of a window exactly when some row of the window survives. */
  lemma SilverKeysAreSurvivors(bronze: seq<MarketEvent>, k: Key, width: nat)
    requires width > 0
    ensures k in WindowKeys(SilverRows(bronze), width) <==> SurvivorIn(bronze, k, width)
  {
    if k in WindowKeys(SilverRows(bronze), width) {
      var e :| e in SilverRows(bronze) && EventKey(e, width) == k;
      SilverRowSurvives(bronze, e);
    }
    if SurvivorIn(bronze, k, width) {
      var y :| y in bronze && SilverValid()(y) && EventKey(y, width) == k && Survives(bronze, y);
      var r := SurvivorLeavesRow(bronze, y);
      assert EventKey(r, width) == k;
    }
  }

  // ---- The shortfall ----

  ghost function IsLost(bronze: seq<MarketEvent>, width: nat): Key -> bool
    requires width > 0
  {
    (k: Key) => !SurvivorIn(bronze, k, width)
  }

  /** The symbol's expected windows of a size in which no row survives deduplication. */
  ghost function LostKeys(bronze: seq<MarketEvent>, width: nat, symbol: string): seq<Key>
    requires width > 0
  {
    Filter(ExpectedKeys(bronze, width, symbol), IsLost(bronze, width))
  }

  function IsIn(ks: seq<Key>): Key -> bool {
    (k: Key) => k in ks
  }

  /** Of a list without repetitions, those that are in another such list within it are as many as it. */
  lemma CountWithin(a: seq<Key>, b: seq<Key>)
    requires NoDuplicates(a) && NoDuplicates(b) && forall k :: k in a ==> k in b
    ensures |Filter(b, IsIn(a))| == |a|
  {
    FilterKeepsNoDuplicates(b, IsIn(a));
    SameMembersPermuted(Filter(b, IsIn(a)), a);
    assert |multiset(Filter(b, IsIn(a)))| == |multiset(a)|;
  }

  /** At one size, each expected window is filled or lost. */
  lemma FilledOrLost(bronze: seq<MarketEvent>, width: nat, symbol: string)
    requires width > 0
    ensures |FilledKeys(bronze, width, symbol)| + |LostKeys(bronze, width, symbol)| == |ExpectedKeys(bronze, width, symbol)|
  {
    var filled, expected := FilledKeys(bronze, width, symbol), ExpectedKeys(bronze, width, symbol);
    SilverKeysWithin(bronze, width, symbol);
    CountWithin(filled, expected);
    forall i | 0 <= i < |expected| ensures IsIn(filled)(expected[i]) <==> !IsLost(bronze, width)(expected[i]) {
      assert expected[i] in expected;
      SilverKeysAreSurvivors(bronze, expected[i], width);
    }
    FilterSplits(expected, IsIn(filled), IsLost(bronze, width));
  }

  /** What gold lacks of a symbol's expected windows are exactly those in which no row survives
      deduplication; so the 99 percent target is met exactly when they are at most one percent. */
  lemma Shortfall(bronze: seq<MarketEvent>, symbol: string)
    ensures var lost := |LostKeys(bronze, 60, symbol)| + |LostKeys(bronze, 300, symbol)|;
            && Produced(Gold(bronze), symbol) + lost == Expected(bronze, symbol)
            && (100 * Produced(Gold(bronze), symbol) >= 99 * Expected(bronze, symbol) <==> 100 * lost <= Expected(bronze, symbol))
  {
    ProducedIsSilverKeys(bronze, symbol);
    FilledOrLost(bronze, 60, symbol);
    FilledOrLost(bronze, 300, symbol);
  }

  /** A five-minute window is occupied as soon as one of its minutes is. */
  lemma MinutesFillFives(a: seq<MarketEvent>, b: seq<MarketEvent>, symbol: string, k: Key)
    requires forall j :: j in WindowKeys(b, 60) && j.symbol == symbol ==> j in WindowKeys(a, 60)
    requires k in WindowKeys(b, 300) && k.symbol == symbol
    ensures k in WindowKeys(a, 300)
  {
    var x :| x in b && EventKey(x, 300) == k;
    assert EventKey(x, 60) in WindowKeys(b, 60);
    var y :| y in a && EventKey(y, 60) == EventKey(x, 60);
    FineWindowNests(x.tsEvent, 60, 5);
    FineWindowNests(y.tsEvent, 60, 5);
  }

  /** The minutes are filled exactly when each keeps a row through deduplication. */
  lemma MinutesFilled(bronze: seq<MarketEvent>, symbol: string)
    ensures AllFilled(bronze, 60, symbol) <==> MinutesSurvive(bronze, symbol)
  {
    var valid := Filter(bronze, SilverValid());
    if MinutesSurvive(bronze, symbol) {
      forall k | k in ExpectedKeys(bronze, 60, symbol) ensures k in FilledKeys(bronze, 60, symbol) {
        var x :| x in valid && EventKey(x, 60) == k;
        SilverKeysAreSurvivors(bronze, k, 60);
      }
    }
    if AllFilled(bronze, 60, symbol) {
      forall x | x in bronze && SilverValid()(x) && x.symbol == symbol ensures SurvivorIn(bronze, EventKey(x, 60), 60) {
        assert x in valid && EventKey(x, 60) in ExpectedKeys(bronze, 60, symbol);
        SilverKeysAreSurvivors(bronze, EventKey(x, 60), 60);
      }
    }
  }

  /** A symbol is 100 percent complete exactly when each of its occupied minutes keeps a row through
      deduplication; the five-minute windows then follow. */
  lemma CompleteIffMinutesSurvive(bronze: seq<MarketEvent>, symbol: string)
    ensures Produced(Gold(bronze), symbol) == Expected(bronze, symbol) <==> MinutesSurvive(bronze, symbol)
  {
    var es, valid := SilverRows(bronze), Filter(bronze, SilverValid());
    ProducedAtMostExpected(bronze, symbol);
    MinutesFilled(bronze, symbol);
    if MinutesSurvive(bronze, symbol) {
      forall k | k in ExpectedKeys(bronze, 300, symbol) ensures k in FilledKeys(bronze, 300, symbol) {
        assert forall j :: j in WindowKeys(valid, 60) && j.symbol == symbol ==> j in ExpectedKeys(bronze, 60, symbol);
        MinutesFillFives(es, valid, symbol, k);
      }
    }
  }

  /** Rows that share a symbol and trade id share a minute. */
  ghost predicate DuplicatesShareMinute(bronze: seq<MarketEvent>, symbol: string) {
    forall x, y | x in bronze && y in bronze && TradeValid()(x) && TradeValid()(y) ::
      x.symbol == symbol && SamePartition(x, y) ==> EventKey(x, 60) == EventKey(y, 60)
  }

  /** Then nothing is lost to deduplication. */
  lemma SharedMinutesComplete(bronze: seq<MarketEvent>, symbol: string)
    requires DuplicatesShareMinute(bronze, symbol)
    ensures Produced(Gold(bronze), symbol) == Expected(bronze, symbol)
  {
    forall x | x in bronze && SilverValid()(x) && x.symbol == symbol ensures SurvivorIn(bronze, EventKey(x, 60), 60) {
      if TickerValid()(x) {
        assert Survives(bronze, x);
      } else {
        var r := TradeKept(bronze, x);
        SilverRowSurvives(bronze, r);
        assert EventKey(r, 60) == EventKey(x, 60);
      }
    }
    CompleteIffMinutesSurvive(bronze, symbol);
  }

  /** A trade of one symbol, priced 1, for the examples. */
  function Example(id: string, size: real, ts: nat): MarketEvent {
    MarketEvent("coinbase", "BTC-USD", Trade, Some(1.0), Some(size), Some(Buy), Some(id), None, None, None, None, ts, ts)
  }

  lemma {:induction false} FilterShortens<T>(s: seq<T>, p: T -> bool)
    ensures |Filter(s, p)| <= |s|
  {
    if s != [] {
      FilterShortens(s[..|s| - 1], p);
    }
  }

  lemma {:induction false} InsertKeyGrows(ks: seq<Key>, k: Key)
    requires SortedKeys(ks)
    ensures |InsertKey(ks, k)| <= |ks| + 1
  {
    if ks != [] {
      InsertKeyGrows(ks[..|ks| - 1], k);
    }
  }

  lemma {:induction false} KeysAtMostEvents(es: seq<MarketEvent>, width: nat)
    requires width > 0
    ensures |WindowKeys(es, width)| <= |es|
  {
    if es != [] {
      var n := |es| - 1;
      KeysAtMostEvents(es[..n], width);
      InsertKeyGrows(WindowKeys(es[..n], width), EventKey(es[n], width));
    }
  }

  /** A table has at most two windows for each of its rows. */
  lemma ExpectedIsFew(bronze: seq<MarketEvent>, symbol: string)
    ensures Expected(bronze, symbol) <= 2 * |bronze|
  {
    var valid := Filter(bronze, SilverValid());
    FilterShortens(bronze, SilverValid());
    KeysAtMostEvents(valid, 60);
    KeysAtMostEvents(valid, 300);
    FilterShortens(WindowKeys(valid, 60), KeyFor(symbol));
    FilterShortens(WindowKeys(valid, 300), KeyFor(symbol));
  }

  /** The 99 percent target can be missed on valid data: an id seen again a minute later loses its
      window. */
  lemma RepeatedIdIncomplete()
    ensures var a, b := Example("1", 1.0, 0), Example("1", 1.0, 60_000_000);
            && SchemaValid(a) && SchemaValid(b) && TradeValid()(a) && TradeValid()(b)
            && 100 * Produced(Gold([a, b]), "BTC-USD") < 99 * Expected([a, b], "BTC-USD")
  {
    var a, b := Example("1", 1.0, 0), Example("1", 1.0, 60_000_000);
    var bronze := [a, b];
    assert EventKey(a, 60) == Key("BTC-USD", 0);
    assert EventKey(b, 60) == Key("BTC-USD", 60_000_000);
    assert a in bronze && b in bronze;
    assert a in Filter(bronze, TradeValid());
    assert SamePartition(a, b) && OrderedBefore(a, b);
    assert !Least(Filter(bronze, TradeValid()), b);
    assert forall y :: y in bronze ==> y == a || y == b;
    assert !SurvivorIn(bronze, EventKey(b, 60), 60);
    CompleteIffMinutesSurvive(bronze, "BTC-USD");
    ProducedAtMostExpected(bronze, "BTC-USD");
    ExpectedIsFew(bronze, "BTC-USD");
  }

  // ---- Violations reaching gold ----

  /** A missing value fails every comparison. */
  predicate BadSpread(m: WindowMetrics) {
    m.tickerCount > 0 && m.avgSpread.Some? && m.avgSpread.value < 0.0
  }

  predicate BadVwap(m: WindowMetrics) {
    m.tradeCount > 0 && (m.vwap == None || m.vwap.value <= 0.0)
  }

  predicate BadCount(m: WindowMetrics) {
    m.eventCount != m.tradeCount + m.tickerCount
  }

  function Breaches(): WindowMetrics -> bool {
    (m: WindowMetrics) => BadSpread(m) || BadVwap(m) || BadCount(m)
  }

  function GoldViolations(gold: seq<WindowMetrics>): nat {
    |Filter(gold, Breaches())|
  }

  /** Each row adds to the count unless it keeps the contract: no negative spread where there are
      ticks, a positive vwap where there are trades, a consistent event count. */
  lemma RowCounts(gold: seq<WindowMetrics>, m: WindowMetrics)
    ensures GoldViolations([]) == 0
    ensures GoldViolations(gold + [m]) == GoldViolations(gold)
            + if && (m.tickerCount == 0 || m.avgSpread == None || m.avgSpread.value >= 0.0)
                 && (m.tradeCount == 0 || (m.vwap != None && m.vwap.value > 0.0))
                 && m.eventCount == m.tradeCount + m.tickerCount then 0 else 1
  {
    FilterCount(gold, m, Breaches());
  }

  /** A window that has trades and no volume. */
  function TradedNothing(): WindowMetrics -> bool {
    (m: WindowMetrics) => m.tradeCount > 0 && m.tradeVolume == 0.0
  }

  predicate SilverSigns(s: Stats) {
    && s.vol >= 0.0 && s.pv >= 0.0 && s.spreadSum >= 0.0
    && (s.vol > 0.0 ==> s.pv > 0.0 && s.trades > 0)
  }

  lemma PositiveProduct(x: real, y: real)
    requires x > 0.0 && y >= 0.0
    ensures x * y >= 0.0 && (y > 0.0 ==> x * y > 0.0)
  {
  }

  lemma SilverSignsStep(s: Stats, e: MarketEvent)
    requires SilverSigns(s) && SilverValid()(e)
    ensures SilverSigns(Plus(s, Contribution(e)))
  {
    if TradeValid()(e) {
      PositiveProduct(e.price.value, e.size.value);
    }
  }

  lemma {:induction false} SilverTotals(es: seq<MarketEvent>)
    requires forall e :: e in es ==> SilverValid()(e)
    ensures SilverSigns(Total(es))
  {
    if es != [] {
      assert es[|es| - 1] in es;
      SilverTotals(es[..|es| - 1]);
      SilverSignsStep(Total(es[..|es| - 1]), es[|es| - 1]);
    }
  }

  /** The vwap check fires on empty volume, and the columns of the other two are in order. */
  lemma OnlyVwapBreaches(k: Key, width: nat, tag: string, s: Stats)
    requires SilverSigns(s)
    ensures var m := Row(k, width, tag, s);
            && (BadVwap(m) <==> TradedNothing()(m))
            && (m.avgSpread.Some? ==> m.avgSpread.value >= 0.0) && m.eventCount == m.tradeCount + m.tickerCount
  {
    if s.vol > 0.0 { assert s.pv / s.vol > 0.0; }
    if s.tickers > 0 { assert s.spreadSum / (s.tickers as real) >= 0.0; }
  }

  lemma GoldRowSigns(bronze: seq<MarketEvent>, m: WindowMetrics)
    requires m in Gold(bronze)
    ensures KnownSize(m.windowSize)
    ensures var s := WindowStats(SilverRows(bronze), RowKey(m), WidthOf(m.windowSize));
            m == Row(RowKey(m), WidthOf(m.windowSize), m.windowSize, s) && SilverSigns(s)
  {
    GoldRowIsReference(bronze, m);
    SilverIsValid(bronze);
    SilverTotals(Filter(SilverRows(bronze), InWindow(RowKey(m), WidthOf(m.windowSize))));
  }

  /** On gold built from any bronze, no spread is negative and every event count adds up, so two of
      the three checks never fire; the violation count is the number of windows that have trades but
      no volume. */
  lemma ViolationsAreEmptyVolumes(bronze: seq<MarketEvent>)
    ensures forall m :: m in Gold(bronze) ==>
              && (m.avgSpread.Some? ==> m.avgSpread.value >= 0.0) && m.eventCount == m.tradeCount + m.tickerCount
              && !BadSpread(m) && !BadCount(m) && (BadVwap(m) <==> TradedNothing()(m))
    ensures GoldViolations(Gold(bronze)) == |Filter(Gold(bronze), TradedNothing())|
  {
    forall m | m in Gold(bronze)
      ensures && (m.avgSpread.Some? ==> m.avgSpread.value >= 0.0) && m.eventCount == m.tradeCount + m.tickerCount
              && (BadVwap(m) <==> TradedNothing()(m))
    {
      GoldRowSigns(bronze, m);
      OnlyVwapBreaches(RowKey(m), WidthOf(m.windowSize), m.windowSize,
                       WindowStats(SilverRows(bronze), RowKey(m), WidthOf(m.windowSize)));
    }
    FilterCongruent(Gold(bronze), Breaches(), TradedNothing());
  }

  predicate HasSize(e: MarketEvent) {
    e.size.Some? && e.size.value > 0.0
  }

  /** A window's volume is positive exactly when one of its silver trades has positive size. */
  lemma {:induction false} VolumeIffSize(es: seq<MarketEvent>)
    requires forall e :: e in es ==> SilverValid()(e)
    ensures Total(es).vol > 0.0 <==> exists e :: e in es && TradeValid()(e) && HasSize(e)
    ensures Total(es).trades > 0 <==> exists e :: e in es && TradeValid()(e)
  {
    if es != [] {
      var n := |es| - 1;
      assert es[n] in es && forall e :: e in es <==> e in es[..n] || e == es[n];
      VolumeIffSize(es[..n]);
      SilverTotals(es[..n]);
    }
  }

  /** A trade that deduplication keeps, up to a tie in every ordering column: a least valid one of its id. */
  ghost predicate Kept(bronze: seq<MarketEvent>, x: MarketEvent) {
    Least(Filter(bronze, TradeValid()), x)
  }

  ghost predicate VolumeIn(bronze: seq<MarketEvent>, k: Key) {
    exists y :: Kept(bronze, y) && EventKey(y, 60) == k && HasSize(y)
  }

  /** Every minute with a valid trade that is kept has one of positive size. */
  ghost predicate MinutesTrade(bronze: seq<MarketEvent>) {
    forall x :: Kept(bronze, x) ==> VolumeIn(bronze, EventKey(x, 60))
  }

  lemma SilverTradeKept(bronze: seq<MarketEvent>, r: MarketEvent)
    requires r in SilverTrades(bronze)
    ensures Kept(bronze, r)
  {
    SilverIsValid(bronze);
  }

  /** Every trade that is kept has its counterpart in silver, equal in the columns gold reads. */
  lemma KeptInSilver(bronze: seq<MarketEvent>, x: MarketEvent) returns (r: MarketEvent)
    requires Kept(bronze, x)
    ensures r in SilverTrades(bronze) && Columns(r) == Columns(x)
  {
    var src := Filter(bronze, TradeValid());
    SilverIsValid(bronze);
    assert HasSurvivor(SilverTrades(bronze), x);
    r :| r in SilverTrades(bronze) && SamePartition(x, r);
    assert Least(src, r);
    LeastRowsAgree(src, src, x, r);
  }

  /** The same minute, with the same size. */
  lemma ColumnsFixMinute(x: MarketEvent, y: MarketEvent)
    requires Columns(x) == Columns(y)
    ensures EventKey(x, 60) == EventKey(y, 60) && (HasSize(x) <==> HasSize(y))
  {
    assert x.symbol == Columns(x).symbol && x.tsEvent == Columns(x).tsEvent && x.size == Columns(x).size;
  }

  /** A silver trade's window, at a size, has volume when some silver trade in it has. */
  lemma WindowVolume(bronze: seq<MarketEvent>, k: Key, width: nat)
    requires width > 0
    ensures var s := WindowStats(SilverRows(bronze), k, width);
            && (s.vol > 0.0 <==> exists y :: y in SilverTrades(bronze) && EventKey(y, width) == k && HasSize(y))
            && (s.trades > 0 <==> exists y :: y in SilverTrades(bronze) && EventKey(y, width) == k)
            && SilverSigns(s)
  {
    var es := SilverRows(bronze);
    var inside := Filter(es, InWindow(k, width));
    SilverIsValid(bronze);
    VolumeIffSize(inside);
    SilverTotals(inside);
    assert forall y :: y in inside && TradeValid()(y) ==> y in SilverTrades(bronze);
    assert forall y :: y in SilverTrades(bronze) && EventKey(y, width) == k ==> y in inside && TradeValid()(y);
  }

  /** Events of one minute share their window at either size. */
  lemma MinuteInWindow(x: MarketEvent, y: MarketEvent, size: string)
    requires KnownSize(size) && EventKey(x, 60) == EventKey(y, 60)
    ensures EventKey(x, WidthOf(size)) == EventKey(y, WidthOf(size))
  {
    FineWindowNests(x.tsEvent, 60, 5);
    FineWindowNests(y.tsEvent, 60, 5);
  }

  lemma TradedWindowHasVolume(bronze: seq<MarketEvent>, k: Key, size: string)
    requires MinutesTrade(bronze) && KnownSize(size)
    requires WindowStats(SilverRows(bronze), k, WidthOf(size)).trades > 0
    ensures WindowStats(SilverRows(bronze), k, WidthOf(size)).vol > 0.0
  {
    WindowVolume(bronze, k, WidthOf(size));
    var x :| x in SilverTrades(bronze) && EventKey(x, WidthOf(size)) == k;
    SilverTradeKept(bronze, x);
    assert VolumeIn(bronze, EventKey(x, 60));
    var y :| Kept(bronze, y) && EventKey(y, 60) == EventKey(x, 60) && HasSize(y);
    var r := KeptInSilver(bronze, y);
    ColumnsFixMinute(r, y);
    MinuteInWindow(x, r, size);
  }

  /** The minute of a silver row has its row in gold. */
  lemma MinuteInGold(bronze: seq<MarketEvent>, x: MarketEvent)
    requires x in SilverRows(bronze)
    ensures RowAt(SilverRows(bronze), EventKey(x, 60), 60, "1m") in Gold(bronze)
  {
    var es, m := SilverRows(bronze), RowAt(SilverRows(bronze), EventKey(x, 60), 60, "1m");
    assert EventKey(x, 60) in WindowKeys(es, 60);
    MartIsReference(bronze);
    PermutedMembers(Gold(bronze), ReferenceTables(es));
    ReferenceTablesMember(es, m);
  }

  lemma MinuteOfTrade(bronze: seq<MarketEvent>, x: MarketEvent)
    requires Filter(Gold(bronze), TradedNothing()) == [] && x in SilverTrades(bronze)
    ensures VolumeIn(bronze, EventKey(x, 60))
  {
    var k := EventKey(x, 60);
    var m := RowAt(SilverRows(bronze), k, 60, "1m");
    assert x in SilverRows(bronze);
    MinuteInGold(bronze, x);
    assert !TradedNothing()(m);
    WindowVolume(bronze, k, 60);
    var y :| y in SilverTrades(bronze) && EventKey(y, 60) == k && HasSize(y);
    SilverTradeKept(bronze, y);
  }

  /** The "no violations reach gold" target holds exactly when every traded minute has volume. */
  lemma NoViolationsIff(bronze: seq<MarketEvent>)
    ensures GoldViolations(Gold(bronze)) == 0 <==> MinutesTrade(bronze)
  {
    ViolationsAreEmptyVolumes(bronze);
    var bad := Filter(Gold(bronze), TradedNothing());
    if MinutesTrade(bronze) && bad != [] {
      assert bad[0] in bad;
      GoldRowSigns(bronze, bad[0]);
      TradedWindowHasVolume(bronze, RowKey(bad[0]), bad[0].windowSize);
    }
    if bad == [] {
      forall x | Kept(bronze, x) ensures VolumeIn(bronze, EventKey(x, 60)) {
        var r := KeptInSilver(bronze, x);
        ColumnsFixMinute(r, x);
        MinuteOfTrade(bronze, r);
      }
    }
  }

  /** The target is missed on valid data: a lone trade of size zero satisfies every contract. */
  lemma ZeroSizeTradeViolates()
    ensures SchemaValid(Example("1", 0.0, 0)) && GoldViolations(Gold([Example("1", 0.0, 0)])) > 0
  {
    var e := Example("1", 0.0, 0);
    assert e in [e] && Kept([e], e);
    assert forall y :: Kept([e], y) ==> y == e;
    assert !VolumeIn([e], EventKey(e, 60));
    NoViolationsIff([e]);
  }
}
