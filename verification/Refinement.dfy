/** The streaming processor refines the batch reference: on every arrival sequence the windows it
    has emitted are those the reference calls closed, field by field. */
module Refinement {
  import opened Basics
  import opened Schema
  import opened Time
  import opened Metrics
  import opened Stream
  import opened StreamKeys

  function Rows(ms: seq<Emission>): seq<WindowMetrics> {
    seq(|ms|, i requires 0 <= i < |ms| => ms[i].metrics)
  }

  function RowFor(symbol: string): WindowMetrics -> bool {
    (m: WindowMetrics) => m.symbol == symbol
  }

  lemma RowsMember(ms: seq<Emission>, m: WindowMetrics)
    ensures m in Rows(ms) <==> exists x :: x in ms && x.metrics == m
  {
    if m in Rows(ms) {
      var i :| 0 <= i < |ms| && Rows(ms)[i] == m;
      assert ms[i] in ms;
    }
    if x :| x in ms && x.metrics == m {
      var i :| 0 <= i < |ms| && ms[i] == x;
      assert Rows(ms)[i] == m;
    }
  }

  /** The millisecond watermark of a symbol is its latest event time, cut to milliseconds. */
  lemma WatermarkIsMaxTs(symbol: string, es: seq<MarketEvent>, mark: nat)
    requires OneSymbol(symbol, es) && es != [] && Watermark(mark, es)
    ensures symbol in MaxTs(es) && MaxTs(es)[symbol] / MICROS_PER_MILLI == mark
  {
    assert es[0] in es;
    MaxTsIsLatest(es, symbol);
  }

  /** Comparing with a whole millisecond is the same before and after cutting to milliseconds. */
  lemma WholeMillisecond(ts: nat, start: nat, seconds: nat)
    requires start % MICROS_PER_MILLI == 0
    ensures start + seconds * MICROS_PER_SECOND <= Micros(ts / MICROS_PER_MILLI)
       <==> start + seconds * MICROS_PER_SECOND <= ts
  {
    var d := start + seconds * MICROS_PER_SECOND;
    assert d == (start / MICROS_PER_MILLI + seconds * 1000) * MICROS_PER_MILLI;
  }

  /** A row is past the grace period at the engine's watermark exactly when the reference closes it. */
  lemma PastIsClosed(c: Operator, symbol: string, es: seq<MarketEvent>, mark: nat, k: Key, s: Stats)
    requires OneSymbol(symbol, es) && es != [] && Watermark(mark, es)
    requires k.symbol == symbol && k.start % MICROS_PER_MILLI == 0
    ensures Past(c, Row(k, c.width, c.tag, s), mark)
       <==> IsClosed(MaxTs(es), c.grace)(Row(k, c.width, c.tag, s))
  {
    WatermarkIsMaxTs(symbol, es, mark);
    WholeMillisecond(MaxTs(es)[symbol], k.start, c.width + c.grace);
  }

  lemma EmittedAreSorted(c: Operator, symbol: string, t: KeyTrace)
    requires EmittedInv(c, symbol, t.emitted, t.accepted, t.state.watermark)
    ensures SortedRows(Rows(t.emitted))
  {
    forall i | 0 <= i < |t.emitted| ensures Rows(t.emitted)[i].symbol == symbol {
      assert t.emitted[i] in t.emitted;
    }
  }

  lemma WindowKeyOfSymbol(symbol: string, es: seq<MarketEvent>, width: nat, k: Key)
    requires width > 0 && OneSymbol(symbol, es) && k in WindowKeys(es, width)
    ensures k.symbol == symbol && k.start % MICROS_PER_MILLI == 0
  {
    var e :| e in es && EventKey(e, width) == k;
    StreamNamesTheWindow(e.tsEvent, width);
  }

  lemma KeyEmittedIsClosed(c: Operator, symbol: string, es: seq<MarketEvent>, t: KeyTrace, m: WindowMetrics)
    requires OneSymbol(symbol, es) && KeyInv(c, symbol, es, t)
    requires forall e :: e in t.accepted ==> e in es
    requires m in Rows(t.emitted)
    ensures m in Closed(WindowTable(t.accepted, c.width, c.tag), MaxTs(es), c.grace)
  {
    RowsMember(t.emitted, m);
    var x :| x in t.emitted && x.metrics == m;
    assert m.windowStart in OpenStarts(t.state.open) + EmittedStarts(t.emitted);
    var k := Key(symbol, m.windowStart);
    assert k in WindowKeys(t.accepted, c.width);
    WindowTableRow(t.accepted, c.width, c.tag, m);
    WindowKeyOfSymbol(symbol, t.accepted, c.width, k);
    PastIsClosed(c, symbol, es, t.state.watermark, k, WindowStats(t.accepted, k, c.width));
  }

  lemma KeyClosedIsEmitted(c: Operator, symbol: string, es: seq<MarketEvent>, t: KeyTrace, m: WindowMetrics)
    requires OneSymbol(symbol, es) && KeyInv(c, symbol, es, t)
    requires forall e :: e in t.accepted ==> e in es
    requires m in Closed(WindowTable(t.accepted, c.width, c.tag), MaxTs(es), c.grace)
    ensures m in Rows(t.emitted)
  {
    WindowTableRow(t.accepted, c.width, c.tag, m);
    var k := RowKey(m);
    WindowKeyOfSymbol(symbol, t.accepted, c.width, k);
    PastIsClosed(c, symbol, es, t.state.watermark, k, WindowStats(t.accepted, k, c.width));
    assert k.start in OpenStarts(t.state.open) + EmittedStarts(t.emitted);
    assert k.start !in OpenStarts(t.state.open);
    var x :| x in t.emitted && x.metrics.windowStart == k.start;
    RowsMember(t.emitted, m);
  }

  lemma {:induction false} KeyAcceptedAreRecords(c: Operator, es: seq<MarketEvent>)
    requires Feed(c.source, es)
    ensures forall e :: e in KeyRun(c, es).accepted ==> e in es
  {
    if es != [] {
      var n := |es| - 1;
      assert es[n] in es;
      KeyAcceptedAreRecords(c, es[..n]);
    }
  }

  /** One symbol: the emitted sequence is the reference's closed list, in the same order. */
  lemma KeyRefines(c: Operator, symbol: string, es: seq<MarketEvent>)
    requires Feed(c.source, es) && OneSymbol(symbol, es)
    ensures Rows(KeyRun(c, es).emitted)
         == Closed(WindowTable(KeyRun(c, es).accepted, c.width, c.tag), MaxTs(es), c.grace)
  {
    var t := KeyRun(c, es);
    KeyRunInv(c, symbol, es);
    KeyAcceptedAreRecords(c, es);
    EmittedAreSorted(c, symbol, t);
    WindowTableSorted(t.accepted, c.width, c.tag);
    var closed := Closed(WindowTable(t.accepted, c.width, c.tag), MaxTs(es), c.grace);
    FilterKeepsSorted(WindowTable(t.accepted, c.width, c.tag), IsClosed(MaxTs(es), c.grace));
    forall m ensures m in Rows(t.emitted) <==> m in closed {
      if m in Rows(t.emitted) { KeyEmittedIsClosed(c, symbol, es, t, m); }
      if m in closed { KeyClosedIsEmitted(c, symbol, es, t, m); }
    }
    SortedRowsUnique(Rows(t.emitted), closed);
  }

  // ---- The reference, symbol by symbol ----

  lemma WatermarkOfSymbol(es: seq<MarketEvent>, symbol: string)
    ensures var own := MaxTs(Filter(es, OfSymbol(symbol)));
            && (symbol in own <==> symbol in MaxTs(es))
            && (symbol in own ==> own[symbol] == MaxTs(es)[symbol])
  {
    MaxTsIsLatest(es, symbol);
    MaxTsIsLatest(Filter(es, OfSymbol(symbol)), symbol);
  }

  /** A symbol's rows depend on its own events only. */
  lemma RowOfSymbol(es: seq<MarketEvent>, k: Key, width: nat)
    requires width > 0
    ensures WindowStats(Filter(es, OfSymbol(k.symbol)), k, width) == WindowStats(es, k, width)
    ensures k in WindowKeys(Filter(es, OfSymbol(k.symbol)), width) <==> k in WindowKeys(es, width)
  {
    FilterTwice(es, OfSymbol(k.symbol), InWindow(k, width));
  }

  lemma ClosedOfSymbol(c: Operator, accepted: seq<MarketEvent>, es: seq<MarketEvent>, symbol: string)
    ensures Filter(Closed(WindowTable(accepted, c.width, c.tag), MaxTs(es), c.grace), RowFor(symbol))
         == Closed(WindowTable(Filter(accepted, OfSymbol(symbol)), c.width, c.tag), MaxTs(Filter(es, OfSymbol(symbol))), c.grace)
  {
    var own := Filter(accepted, OfSymbol(symbol));
    var table, ownTable := WindowTable(accepted, c.width, c.tag), WindowTable(own, c.width, c.tag);
    var marks, ownMarks := MaxTs(es), MaxTs(Filter(es, OfSymbol(symbol)));
    var a, b := Filter(Closed(table, marks, c.grace), RowFor(symbol)), Closed(ownTable, ownMarks, c.grace);
    WatermarkOfSymbol(es, symbol);
    forall m ensures m in a <==> m in b {
      WindowTableRow(accepted, c.width, c.tag, m);
      WindowTableRow(own, c.width, c.tag, m);
      if m.symbol == symbol {
        RowOfSymbol(accepted, RowKey(m), c.width);
      } else if m in b {
        WindowKeyOfSymbol(symbol, own, c.width, RowKey(m));
      }
    }
    WindowTableSorted(accepted, c.width, c.tag);
    WindowTableSorted(own, c.width, c.tag);
    FilterKeepsSorted(table, IsClosed(marks, c.grace));
    FilterKeepsSorted(Closed(table, marks, c.grace), RowFor(symbol));
    FilterKeepsSorted(ownTable, IsClosed(ownMarks, c.grace));
    SortedRowsUnique(a, b);
  }

  // ---- The main theorem ----

  /** The windows the reference closes over the records the engine accepted. */
  function ReferenceClosed(c: Operator, es: seq<MarketEvent>): seq<WindowMetrics>
    requires Feed(c.source, es)
  {
    Closed(WindowTable(Accepted(c, es), c.width, c.tag), MaxTs(es), c.grace)
  }

  /** For every arrival sequence and every grace period, each symbol's emissions are the reference's
      closed windows of that symbol, in the same order and equal in every field. */
  lemma StreamRefinesReference(c: Operator, es: seq<MarketEvent>, symbol: string)
    requires Feed(c.source, es)
    ensures Rows(Filter(Run(c, es).out, EmittedFor(symbol))) == Filter(ReferenceClosed(c, es), RowFor(symbol))
  {
    var own := Filter(es, OfSymbol(symbol));
    RunProjects(c, es, symbol);
    KeyRefines(c, symbol, own);
    ClosedOfSymbol(c, Accepted(c, es), es, symbol);
  }

  lemma RowsCommute(ms: seq<Emission>, symbol: string)
    ensures Rows(Filter(ms, EmittedFor(symbol))) == Filter(Rows(ms), RowFor(symbol))
  {
    if ms != [] {
      var n := |ms| - 1;
      RowsCommute(ms[..n], symbol);
      assert Rows(ms) == Rows(ms[..n]) + [ms[n].metrics];
      FilterAppend(Rows(ms[..n]), ms[n].metrics, RowFor(symbol));
      assert ms == ms[..n] + [ms[n]];
      FilterAppend(ms[..n], ms[n], EmittedFor(symbol));
    }
  }

  /** The whole output topic is a permutation of the reference's closed windows. */
  lemma OutputIsReference(c: Operator, es: seq<MarketEvent>)
    requires Feed(c.source, es)
    ensures multiset(Rows(Run(c, es).out)) == multiset(ReferenceClosed(c, es))
    ensures forall m :: m in Run(c, es).out ==> m.source == c.source
  {
    var out, ref := Run(c, es).out, ReferenceClosed(c, es);
    forall m ensures multiset(Rows(out))[m] == multiset(ref)[m] {
      StreamRefinesReference(c, es, m.symbol);
      RowsCommute(out, m.symbol);
      FilterMultiset(Rows(out), RowFor(m.symbol), m);
      FilterMultiset(ref, RowFor(m.symbol), m);
    }
    forall m | m in out ensures m.source == c.source {
      RunProjects(c, es, m.metrics.symbol);
      KeyRunInv(c, m.metrics.symbol, Filter(es, OfSymbol(m.metrics.symbol)));
      assert m in Filter(out, EmittedFor(m.metrics.symbol));
    }
  }

  /** Everything emitted carries the aggregation's size label. */
  lemma EmittedAreTagged(c: Operator, es: seq<MarketEvent>)
    requires Feed(c.source, es)
    ensures forall m :: m in Run(c, es).out ==> m.metrics.windowSize == c.tag
  {
    OutputIsReference(c, es);
    PermutedMembers(Rows(Run(c, es).out), ReferenceClosed(c, es));
    forall m | m in Run(c, es).out ensures m.metrics.windowSize == c.tag {
      RowsMember(Run(c, es).out, m.metrics);
      WindowTableRow(Accepted(c, es), c.width, c.tag, m.metrics);
    }
  }
}
