/** Laws of the reference metrics: where averages lie, and how windows of one size add up to windows
    of another and to the whole. */
module MetricLaws {
  import opened Basics
  import opened Schema
  import opened Time
  import opened Metrics

  ghost predicate AllValid(es: seq<MarketEvent>) {
    forall e :: e in es ==> SchemaValid(e)
  }

  predicate IsTrade(e: MarketEvent) {
    e.eventType.Trade? && e.price.Some? && e.size.Some?
  }

  predicate IsQuote(e: MarketEvent) {
    e.eventType.Ticker? && e.bestBid.Some? && e.bestAsk.Some?
  }

  // ---- Bounds ----

  /** Valid events accumulate no negative volume or spread, and no notional without volume. */
  predicate Signs(s: Stats) {
    && s.vol >= 0.0 && s.pv >= 0.0 && s.spreadSum >= 0.0
    && (s.vol == 0.0 ==> s.pv == 0.0)
    && (s.tickers == 0 ==> s.spreadSum == 0.0 && s.midSum == 0.0)
  }

  lemma NonNegativeProduct(x: real, y: real)
    requires x >= 0.0 && y >= 0.0
    ensures x * y >= 0.0 && (y == 0.0 ==> x * y == 0.0)
  {
  }

  lemma SignsStep(s: Stats, e: MarketEvent)
    requires Signs(s) && SchemaValid(e)
    ensures Signs(Plus(s, Contribution(e)))
  {
    assert e.size in {e.size, e.bestBid, e.bestAsk, e.bestBidSize, e.bestAskSize};
    if IsTrade(e) {
      NonNegativeProduct(e.price.value, e.size.value);
    }
  }

  lemma {:induction false} TotalSigns(es: seq<MarketEvent>)
    requires AllValid(es)
    ensures Signs(Total(es))
  {
    if es != [] {
      assert es[|es| - 1] in es;
      TotalSigns(es[..|es| - 1]);
      SignsStep(Total(es[..|es| - 1]), es[|es| - 1]);
    }
  }

  /** The vwap is absent exactly when nothing was traded. */
  lemma VwapAbsentIffNoVolume(es: seq<MarketEvent>, k: Key, width: nat, tag: string)
    requires width > 0 && AllValid(es)
    ensures RowAt(es, k, width, tag).vwap == None <==> RowAt(es, k, width, tag).tradeVolume == 0.0
  {
    TotalSigns(Filter(es, InWindow(k, width)));
  }

  /** A running sum stays above `v` times its running weight while its terms do. */
  lemma StepAbove(sum: real, weight: real, x: real, w: real, v: real)
    requires weight >= 0.0 && w >= 0.0 && (w > 0.0 ==> x > v)
    requires sum >= v * weight && (weight > 0.0 ==> sum > v * weight)
    ensures sum + x * w >= v * (weight + w)
    ensures weight + w > 0.0 ==> sum + x * w > v * (weight + w)
  {
    assert v * (weight + w) == v * weight + v * w;
    if w > 0.0 { assert (x - v) * w > 0.0; }
  }

  lemma StepBelow(sum: real, weight: real, x: real, w: real, v: real)
    requires weight >= 0.0 && w >= 0.0 && (w > 0.0 ==> x < v)
    requires sum <= v * weight && (weight > 0.0 ==> sum < v * weight)
    ensures sum + x * w <= v * (weight + w)
    ensures weight + w > 0.0 ==> sum + x * w < v * (weight + w)
  {
    assert v * (weight + w) == v * weight + v * w;
    if w > 0.0 { assert (v - x) * w > 0.0; }
  }

  /** The accumulated prices, weighted by size, are above `v`. */
  predicate PricesAbove(s: Stats, v: real) {
    s.vol >= 0.0 && s.pv >= v * s.vol && (s.vol > 0.0 ==> s.pv > v * s.vol)
  }

  predicate PricesBelow(s: Stats, v: real) {
    s.vol >= 0.0 && s.pv <= v * s.vol && (s.vol > 0.0 ==> s.pv < v * s.vol)
  }

  lemma PricesStep(s: Stats, e: MarketEvent, v: real)
    requires SchemaValid(e)
    ensures PricesAbove(s, v) && (IsTrade(e) && e.size.value > 0.0 ==> e.price.value > v) ==> PricesAbove(Plus(s, Contribution(e)), v)
    ensures PricesBelow(s, v) && (IsTrade(e) && e.size.value > 0.0 ==> e.price.value < v) ==> PricesBelow(Plus(s, Contribution(e)), v)
  {
    assert e.size in {e.size, e.bestBid, e.bestAsk, e.bestBidSize, e.bestAskSize};
    if IsTrade(e) {
      var p, w := e.price.value, e.size.value;
      assert Plus(s, Contribution(e)).pv == s.pv + p * w && Plus(s, Contribution(e)).vol == s.vol + w;
      if PricesAbove(s, v) && (w > 0.0 ==> p > v) { StepAbove(s.pv, s.vol, p, w, v); }
      if PricesBelow(s, v) && (w > 0.0 ==> p < v) { StepBelow(s.pv, s.vol, p, w, v); }
    }
  }

  predicate QuotesAbove(s: Stats, v: real) {
    s.midSum >= v * (s.tickers as real) && (s.tickers > 0 ==> s.midSum > v * (s.tickers as real))
  }

  predicate QuotesBelow(s: Stats, v: real) {
    s.midSum <= v * (s.tickers as real) && (s.tickers > 0 ==> s.midSum < v * (s.tickers as real))
  }

  lemma NothingAboveOrBelow(v: real)
    ensures PricesAbove(Zero(), v) && PricesBelow(Zero(), v) && QuotesAbove(Zero(), v) && QuotesBelow(Zero(), v)
  {
  }

  /** If every trade of positive size is priced above `v`, so is their volume-weighted mean. */
  lemma {:induction false} PricedAbove(es: seq<MarketEvent>, v: real)
    requires AllValid(es)
    requires forall e :: e in es && IsTrade(e) && e.size.value > 0.0 ==> e.price.value > v
    ensures PricesAbove(Total(es), v)
  {
    if es == [] {
      NothingAboveOrBelow(v);
    } else {
      assert es[|es| - 1] in es;
      PricedAbove(es[..|es| - 1], v);
      PricesStep(Total(es[..|es| - 1]), es[|es| - 1], v);
    }
  }

  lemma {:induction false} PricedBelow(es: seq<MarketEvent>, v: real)
    requires AllValid(es)
    requires forall e :: e in es && IsTrade(e) && e.size.value > 0.0 ==> e.price.value < v
    ensures PricesBelow(Total(es), v)
  {
    if es == [] {
      NothingAboveOrBelow(v);
    } else {
      assert es[|es| - 1] in es;
      PricedBelow(es[..|es| - 1], v);
      PricesStep(Total(es[..|es| - 1]), es[|es| - 1], v);
    }
  }

  /** The vwap lies between the prices of two trades of positive size in its window. */
  lemma VwapBetweenPrices(es: seq<MarketEvent>, k: Key, width: nat, tag: string)
    requires width > 0 && AllValid(es)
    requires RowAt(es, k, width, tag).vwap.Some?
    ensures exists a :: a in es && EventKey(a, width) == k && IsTrade(a) && a.size.value > 0.0
                     && a.price.value <= RowAt(es, k, width, tag).vwap.value
    ensures exists b :: b in es && EventKey(b, width) == k && IsTrade(b) && b.size.value > 0.0
                     && b.price.value >= RowAt(es, k, width, tag).vwap.value
  {
    var inside, v := Filter(es, InWindow(k, width)), RowAt(es, k, width, tag).vwap.value;
    assert Total(inside).pv == v * Total(inside).vol;
    if forall a :: a in inside && IsTrade(a) && a.size.value > 0.0 ==> a.price.value > v {
      PricedAbove(inside, v);
    }
    if forall b :: b in inside && IsTrade(b) && b.size.value > 0.0 ==> b.price.value < v {
      PricedBelow(inside, v);
    }
  }

  lemma QuotesStep(s: Stats, e: MarketEvent, v: real)
    requires SchemaValid(e)
    ensures QuotesAbove(s, v) && (IsQuote(e) ==> e.bestBid.value > v) ==> QuotesAbove(Plus(s, Contribution(e)), v)
    ensures QuotesBelow(s, v) && (IsQuote(e) ==> e.bestAsk.value < v) ==> QuotesBelow(Plus(s, Contribution(e)), v)
  {
    if IsQuote(e) {
      var mid := (e.bestAsk.value + e.bestBid.value) / 2.0;
      if QuotesAbove(s, v) && e.bestBid.value > v { StepAbove(s.midSum, s.tickers as real, mid, 1.0, v); }
      if QuotesBelow(s, v) && e.bestAsk.value < v { StepBelow(s.midSum, s.tickers as real, mid, 1.0, v); }
    }
  }

  /** If every bid is above `v`, so is the mean mid, since no book is crossed. */
  lemma {:induction false} QuotedAbove(es: seq<MarketEvent>, v: real)
    requires AllValid(es)
    requires forall e :: e in es && IsQuote(e) ==> e.bestBid.value > v
    ensures QuotesAbove(Total(es), v)
  {
    if es == [] {
      NothingAboveOrBelow(v);
    } else {
      assert es[|es| - 1] in es;
      QuotedAbove(es[..|es| - 1], v);
      QuotesStep(Total(es[..|es| - 1]), es[|es| - 1], v);
    }
  }

  lemma {:induction false} QuotedBelow(es: seq<MarketEvent>, v: real)
    requires AllValid(es)
    requires forall e :: e in es && IsQuote(e) ==> e.bestAsk.value < v
    ensures QuotesBelow(Total(es), v)
  {
    if es == [] {
      NothingAboveOrBelow(v);
    } else {
      assert es[|es| - 1] in es;
      QuotedBelow(es[..|es| - 1], v);
      QuotesStep(Total(es[..|es| - 1]), es[|es| - 1], v);
    }
  }

  /** Some bid is at or below the mean mid, and some ask at or above it. */
  lemma MidBetweenQuotes(es: seq<MarketEvent>, v: real)
    requires AllValid(es) && Total(es).tickers > 0
    requires Total(es).midSum == v * (Total(es).tickers as real)
    ensures exists a :: a in es && IsQuote(a) && a.bestBid.value <= v
    ensures exists b :: b in es && IsQuote(b) && b.bestAsk.value >= v
  {
    if forall a :: a in es && IsQuote(a) ==> a.bestBid.value > v {
      QuotedAbove(es, v);
    }
    if forall b :: b in es && IsQuote(b) ==> b.bestAsk.value < v {
      QuotedBelow(es, v);
    }
  }

  lemma MeanOf(sum: real, n: real)
    requires n > 0.0
    ensures sum == sum / n * n && (sum >= 0.0 ==> sum / n >= 0.0)
  {
  }

  /** The mean spread is not negative, and the mean mid lies between some bid and some ask. */
  lemma QuotesBounded(es: seq<MarketEvent>, k: Key, width: nat, tag: string)
    requires width > 0 && AllValid(es)
    requires RowAt(es, k, width, tag).tickerCount > 0
    ensures var m := RowAt(es, k, width, tag);
            && m.avgSpread.Some? && m.avgSpread.value >= 0.0 && m.avgMid.Some?
            && (exists a :: a in es && EventKey(a, width) == k && IsQuote(a) && a.bestBid.value <= m.avgMid.value)
            && (exists b :: b in es && EventKey(b, width) == k && IsQuote(b) && b.bestAsk.value >= m.avgMid.value)
  {
    var inside := Filter(es, InWindow(k, width));
    var s := Total(inside);
    TotalSigns(inside);
    MeanOf(s.midSum, s.tickers as real);
    MeanOf(s.spreadSum, s.tickers as real);
    MidBetweenQuotes(inside, s.midSum / (s.tickers as real));
  }

  lemma CountedIffComplete(e: MarketEvent)
    ensures Contribution(e).trades + Contribution(e).tickers == if Complete(e) then 1 else 0
  {
  }

  /** The reference keeps a row with no event counted for a window of incomplete events only. */
  lemma {:induction false} NothingCounted(es: seq<MarketEvent>)
    ensures Total(es).trades + Total(es).tickers == 0 <==> forall e :: e in es ==> !Complete(e)
  {
    if es != [] {
      var n := |es| - 1;
      assert forall e :: e in es <==> e in es[..n] || e == es[n];
      NothingCounted(es[..n]);
      CountedIffComplete(es[n]);
      assert Total(es) == Plus(Total(es[..n]), Contribution(es[n]));
    }
  }

  lemma EmptyRowIff(es: seq<MarketEvent>, k: Key, width: nat, tag: string)
    requires width > 0
    ensures RowAt(es, k, width, tag).eventCount == 0
       <==> forall e :: e in es && EventKey(e, width) == k ==> !Complete(e)
  {
    NothingCounted(Filter(es, InWindow(k, width)));
  }

  // ---- Conservation and roll-up ----

  /** The statistics a published row stands for: means times their weights. */
  function RowStats(m: WindowMetrics): Stats {
    Stats((if m.vwap.Some? then m.vwap.value * m.tradeVolume else 0.0), m.tradeVolume, m.tradeCount,
          (if m.avgSpread.Some? then m.avgSpread.value * (m.tickerCount as real) else 0.0),
          (if m.avgMid.Some? then m.avgMid.value * (m.tickerCount as real) else 0.0), m.tickerCount)
  }

  /** Publishing loses nothing: a row's statistics are its window's. */
  lemma RowKeepsStats(k: Key, width: nat, tag: string, es: seq<MarketEvent>)
    requires width > 0 && AllValid(es)
    ensures RowStats(RowAt(es, k, width, tag)) == WindowStats(es, k, width)
  {
    TotalSigns(Filter(es, InWindow(k, width)));
    var s := WindowStats(es, k, width);
    if s.vol > 0.0 { assert s.pv / s.vol * s.vol == s.pv; }
    if s.tickers > 0 {
      assert s.spreadSum / (s.tickers as real) * (s.tickers as real) == s.spreadSum;
      assert s.midSum / (s.tickers as real) * (s.tickers as real) == s.midSum;
    }
  }

  /** The statistics of several rows, merged. */
  function Merge(rows: seq<WindowMetrics>): Stats {
    if rows == [] then Zero() else Plus(Merge(rows[..|rows| - 1]), RowStats(rows[|rows| - 1]))
  }

  function KeyIn(ks: seq<Key>, width: nat): MarketEvent -> bool
    requires width > 0
  {
    (e: MarketEvent) => EventKey(e, width) in ks
  }

  /** The contributions of the selected events, added up. */
  function TotalWhere(es: seq<MarketEvent>, p: MarketEvent -> bool): Stats {
    if es == [] then Zero()
    else if p(es[|es| - 1]) then Plus(TotalWhere(es[..|es| - 1], p), Contribution(es[|es| - 1]))
    else TotalWhere(es[..|es| - 1], p)
  }

  lemma {:induction false} TotalWhereIsTotal(es: seq<MarketEvent>, p: MarketEvent -> bool)
    ensures TotalWhere(es, p) == Total(Filter(es, p))
  {
    if es != [] {
      var n := |es| - 1;
      TotalWhereIsTotal(es[..n], p);
      TotalAppend(Filter(es[..n], p), es[n]);
      assert Filter(es[..n], p) + [] == Filter(es[..n], p);
    }
  }

  /** Two ways to be selected that exclude each other split a total. */
  lemma {:induction false} TotalSplits(es: seq<MarketEvent>, p: MarketEvent -> bool, q: MarketEvent -> bool, r: MarketEvent -> bool)
    requires forall e :: e in es ==> !(p(e) && q(e)) && (r(e) <==> p(e) || q(e))
    ensures TotalWhere(es, r) == Plus(TotalWhere(es, p), TotalWhere(es, q))
  {
    if es != [] {
      var before, e := es[..|es| - 1], es[|es| - 1];
      assert e in es;
      TotalSplits(before, p, q, r);
      PlusLaws(TotalWhere(before, p), TotalWhere(before, q), Contribution(e));
    }
  }

  /** The rows of distinct windows merge to the total of the events in those windows. */
  lemma {:induction false} MergeIsTotal(es: seq<MarketEvent>, ks: seq<Key>, width: nat, tag: string)
    requires width > 0 && AllValid(es) && NoDuplicates(ks)
    ensures Merge(RowsAt(es, ks, width, tag)) == Total(Filter(es, KeyIn(ks, width)))
  {
    if ks == [] {
      FilterNone(es, KeyIn(ks, width));
    } else {
      var n := |ks| - 1;
      assert RowsAt(es, ks, width, tag)[..n] == RowsAt(es, ks[..n], width, tag);
      MergeIsTotal(es, ks[..n], width, tag);
      RowKeepsStats(ks[n], width, tag, es);
      assert forall k :: k in ks <==> k in ks[..n] || k == ks[n];
      TotalSplits(es, KeyIn(ks[..n], width), InWindow(ks[n], width), KeyIn(ks, width));
      TotalWhereIsTotal(es, KeyIn(ks[..n], width));
      TotalWhereIsTotal(es, InWindow(ks[n], width));
      TotalWhereIsTotal(es, KeyIn(ks, width));
    }
  }

  /** Conservation: all the windows together hold every event's contribution, once. */
  lemma WindowsConserveTotals(es: seq<MarketEvent>, width: nat, tag: string)
    requires width > 0 && AllValid(es)
    ensures Merge(WindowTable(es, width, tag)) == Total(es)
  {
    var ks := WindowKeys(es, width);
    SortedKeysDistinct(ks);
    MergeIsTotal(es, ks, width, tag);
    FilterAll(es, KeyIn(ks, width));
  }

  /** The fine windows that lie inside a coarse one. */
  function Inside(k: Key, width: nat): WindowMetrics -> bool {
    (m: WindowMetrics) => m.symbol == k.symbol && k.start <= m.windowStart && m.windowEnd <= k.start + width * MICROS_PER_SECOND
  }

  function KeyInside(k: Key, fine: nat, width: nat): Key -> bool {
    (j: Key) => j.symbol == k.symbol && k.start <= j.start && j.start + fine * MICROS_PER_SECOND <= k.start + width * MICROS_PER_SECOND
  }

  /** Aligning commutes with moving by a multiple of the unit. */
  lemma {:induction false} AlignDownShifts(t: nat, unit: nat, shift: nat)
    requires unit > 0 && AlignDown(shift, unit) == shift
    ensures AlignDown(t + shift, unit) == AlignDown(t, unit) + shift
    decreases shift
  {
    if shift > 0 {
      AlignDownShifts(t, unit, shift - unit);
    }
  }

  /** An interval that starts before a multiple of the unit ends by it. */
  lemma {:induction false} EndsByMultiple(t: nat, unit: nat, size: nat)
    requires unit > 0 && t < size && AlignDown(size, unit) == size
    ensures AlignDown(t, unit) + unit <= size
  {
    if t >= unit {
      EndsByMultiple(t - unit, unit, size - unit);
    }
  }

  lemma {:induction false} AlignDownNests(t: nat, unit: nat, size: nat)
    requires unit > 0 && size > 0 && AlignDown(size, unit) == size
    ensures var outer, inner := AlignDown(t, size), AlignDown(t, unit);
            && outer <= inner && inner + unit <= outer + size
            && AlignDown(inner, size) == outer
    decreases t
  {
    if t < size {
      EndsByMultiple(t, unit, size);
    } else {
      AlignDownNests(t - size, unit, size);
      AlignDownShifts(t - size, unit, size);
    }
  }

  /** A window whose width is a multiple holds each finer window whole or not at all. */
  lemma FineWindowNests(ts: nat, fine: nat, factor: nat)
    requires fine > 0 && factor > 0
    ensures fine * factor > 0
    ensures var outer, inner := WindowStart(ts, fine * factor), WindowStart(ts, fine);
            && outer <= inner && inner + fine * MICROS_PER_SECOND <= outer + fine * factor * MICROS_PER_SECOND
            && WindowStart(inner, fine * factor) == outer
  {
    var unit := fine * MICROS_PER_SECOND;
    assert unit * factor == fine * factor * MICROS_PER_SECOND;
    MultipleGrows(factor, unit);
    MultipleHasNoRemainder(factor, unit);
    assert factor * unit == unit * factor;
    AlignDownIsMultiple(unit * factor, unit);
    AlignDownNests(ts, unit, unit * factor);
  }

  /** An aligned instant is the start of every instant of its interval. */
  lemma {:induction false} AlignedStart(start: nat, t: nat, size: nat)
    requires size > 0 && AlignDown(start, size) == start && start <= t < start + size
    ensures AlignDown(t, size) == start
  {
    if start >= size {
      AlignedStart(start - size, t - size, size);
    }
  }

  lemma {:induction false} AlignDownTwice(t: nat, size: nat)
    requires size > 0
    ensures AlignDown(AlignDown(t, size), size) == AlignDown(t, size)
  {
    if t >= size {
      AlignDownTwice(t - size, size);
    }
  }

  lemma RowsAtAppend(es: seq<MarketEvent>, ks: seq<Key>, k: Key, width: nat, tag: string)
    requires width > 0
    ensures RowsAt(es, ks + [k], width, tag) == RowsAt(es, ks, width, tag) + [RowAt(es, k, width, tag)]
  {
  }

  lemma {:induction false} RowsInside(es: seq<MarketEvent>, ks: seq<Key>, fine: nat, tag: string, k: Key, width: nat)
    requires fine > 0
    ensures Filter(RowsAt(es, ks, fine, tag), Inside(k, width)) == RowsAt(es, Filter(ks, KeyInside(k, fine, width)), fine, tag)
  {
    if ks != [] {
      var n := |ks| - 1;
      var front, row := RowsAt(es, ks[..n], fine, tag), RowAt(es, ks[n], fine, tag);
      RowsInside(es, ks[..n], fine, tag, k, width);
      RowsAtAppend(es, ks[..n], ks[n], fine, tag);
      RowsAtAppend(es, Filter(ks[..n], KeyInside(k, fine, width)), ks[n], fine, tag);
      assert ks == ks[..n] + [ks[n]];
      FilterAppend(front, row, Inside(k, width));
      FilterAppend(ks[..n], ks[n], KeyInside(k, fine, width));
      assert Inside(k, width)(row) == KeyInside(k, fine, width)(ks[n]);
      if !KeyInside(k, fine, width)(ks[n]) {
        assert Filter(front, Inside(k, width)) + [] == Filter(front, Inside(k, width));
        assert Filter(ks[..n], KeyInside(k, fine, width)) + [] == Filter(ks[..n], KeyInside(k, fine, width));
      }
    }
  }

  /** An event is in a coarse window exactly when its fine window lies inside it. */
  lemma EventInsideIff(es: seq<MarketEvent>, e: MarketEvent, fine: nat, factor: nat, k: Key)
    requires fine > 0 && factor > 0 && fine * factor > 0
    requires k in WindowKeys(es, fine * factor)
    ensures KeyInside(k, fine, fine * factor)(EventKey(e, fine)) <==> EventKey(e, fine * factor) == k
  {
    var width := fine * factor;
    var size, inner := width * MICROS_PER_SECOND, WindowStart(e.tsEvent, fine);
    FineWindowNests(e.tsEvent, fine, factor);
    var x :| x in es && EventKey(x, width) == k;
    AlignDownTwice(x.tsEvent, size);
    if k.start <= inner && inner + fine * MICROS_PER_SECOND <= k.start + size {
      AlignedStart(k.start, inner, size);
    }
  }

  /** Roll-up: the finer windows inside a coarse one merge to it. Counts and volumes add, the vwap is
      the volume-weighted mean of theirs, spread and mid the ticker-count-weighted means. */
  lemma WindowsRollUp(es: seq<MarketEvent>, fine: nat, factor: nat, tag: string, coarseTag: string, k: Key)
    requires fine > 0 && factor > 0 && fine * factor > 0 && AllValid(es)
    requires k in WindowKeys(es, fine * factor)
    ensures Merge(Filter(WindowTable(es, fine, tag), Inside(k, fine * factor)))
         == RowStats(RowAt(es, k, fine * factor, coarseTag))
  {
    var width, ks := fine * factor, WindowKeys(es, fine);
    var inside := Filter(ks, KeyInside(k, fine, width));
    RowsInside(es, ks, fine, tag, k, width);
    SortedKeysDistinct(ks);
    FilterKeepsNoDuplicates(ks, KeyInside(k, fine, width));
    MergeIsTotal(es, inside, fine, tag);
    forall e | e in es ensures KeyIn(inside, fine)(e) == InWindow(k, width)(e) {
      EventInsideIff(es, e, fine, factor, k);
    }
    FilterCongruent(es, KeyIn(inside, fine), InWindow(k, width));
    RowKeepsStats(k, width, coarseTag, es);
  }

  /** The two sizes the system computes: each 5m row is the merge of the 1m rows inside it. */
  lemma MinutesRollUp(es: seq<MarketEvent>, m: WindowMetrics)
    requires AllValid(es) && m in WindowTable(es, 300, "5m")
    ensures Merge(Filter(WindowTable(es, 60, "1m"), Inside(RowKey(m), 300))) == RowStats(m)
  {
    WindowTableRow(es, 300, "5m", m);
    WindowsRollUp(es, 60, 5, "1m", "5m", RowKey(m));
  }
}
