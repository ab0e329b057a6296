/** Safety of the streaming processor over whole runs: what is emitted, when, and how often; and
    exactly which records are dropped. */
module StreamSafety {
  import opened Basics
  import opened Schema
  import opened Time
  import opened Metrics
  import opened Ordering
  import opened Stream
  import opened StreamKeys
  import opened Refinement

  // ---- Exactly once, and for good ----

  lemma ReferenceClosedSorted(c: Operator, es: seq<MarketEvent>)
    requires Feed(c.source, es)
    ensures SortedRows(ReferenceClosed(c, es))
  {
    WindowTableSorted(Accepted(c, es), c.width, c.tag);
    FilterKeepsSorted(WindowTable(Accepted(c, es), c.width, c.tag), IsClosed(MaxTs(es), c.grace));
  }

  lemma SameKeySameRow(rows: seq<WindowMetrics>, x: WindowMetrics, y: WindowMetrics)
    requires SortedRows(rows) && x in rows && y in rows
    requires RowKey(x) == RowKey(y)
    ensures x == y
  {
    KeyLessTotal(RowKey(x), RowKey(y));
  }

  /** A permutation of a sorted list repeats no key. */
  lemma PermutationRepeatsNoKey(rows: seq<WindowMetrics>, ref: seq<WindowMetrics>, i: nat, j: nat)
    requires SortedRows(ref) && multiset(rows) == multiset(ref)
    requires i < j < |rows|
    ensures RowKey(rows[i]) != RowKey(rows[j])
  {
    PermutedMembers(rows, ref);
    SortedRowsDistinct(ref);
    OccursOnce(ref, rows[i]);
    if rows[i] == rows[j] {
      OccursTwice(rows, i, j);
    } else if RowKey(rows[i]) == RowKey(rows[j]) {
      SameKeySameRow(ref, rows[i], rows[j]);
    }
  }

  /** No window is emitted twice. */
  lemma EmittedOnce(c: Operator, es: seq<MarketEvent>, i: nat, j: nat)
    requires Feed(c.source, es)
    requires i < j < |Run(c, es).out|
    ensures RowKey(Run(c, es).out[i].metrics) != RowKey(Run(c, es).out[j].metrics)
  {
    OutputIsReference(c, es);
    ReferenceClosedSorted(c, es);
    PermutationRepeatsNoKey(Rows(Run(c, es).out), ReferenceClosed(c, es), i, j);
  }

  /** What has been emitted stays as it is: later records only append to the output and the log. */
  lemma {:induction false} OutputOnlyGrows(c: Operator, es: seq<MarketEvent>, more: seq<MarketEvent>)
    requires Feed(c.source, es + more)
    ensures Feed(c.source, es)
    ensures Run(c, es).out <= Run(c, es + more).out
    ensures Run(c, es).late <= Run(c, es + more).late
    decreases |more|
  {
    assert forall e :: e in es ==> e in es + more;
    if more == [] {
      assert es + more == es;
    } else {
      var n := |more| - 1;
      assert es + more == (es + more[..n]) + [more[n]];
      FeedAppend(c, es + more[..n], more[n]);
      OutputOnlyGrows(c, es, more[..n]);
    }
  }

  /** In every reachable state a symbol's open windows are those its watermark has not passed by the
      grace period, its emitted windows those it has; so no emitted window is open again. */
  lemma OpenAndEmittedApart(c: Operator, es: seq<MarketEvent>, symbol: string)
    requires Feed(c.source, es)
    ensures var ks := StateOf(Run(c, es), symbol);
            && Watermark(ks.watermark, Filter(es, OfSymbol(symbol)))
            && (forall w :: w in ks.open ==> ks.watermark < Deadline(c, w.start))
            && (forall m :: m in Run(c, es).out && m.metrics.symbol == symbol ==>
                  && m.metrics.windowEnd == m.metrics.windowStart + c.width * MICROS_PER_SECOND
                  && Past(c, m.metrics, ks.watermark))
            && (forall m, w :: m in Run(c, es).out && m.metrics.symbol == symbol && w in ks.open
                  ==> m.metrics.windowStart != Micros(w.start))
  {
    var own := Filter(es, OfSymbol(symbol));
    RunProjects(c, es, symbol);
    KeyRunInv(c, symbol, own);
    forall m | m in Run(c, es).out && m.metrics.symbol == symbol
      ensures Past(c, m.metrics, StateOf(Run(c, es), symbol).watermark)
      ensures m.metrics.windowEnd == m.metrics.windowStart + c.width * MICROS_PER_SECOND
    {
      assert m in Filter(Run(c, es).out, EmittedFor(symbol));
    }
  }

  /** The windows of a symbol that are open or emitted are exactly those of its accepted records. */
  lemma NothingLost(c: Operator, es: seq<MarketEvent>, symbol: string, start: nat)
    requires Feed(c.source, es)
    ensures Key(symbol, start) in WindowKeys(Accepted(c, es), c.width)
       <==> || start in OpenStarts(StateOf(Run(c, es), symbol).open)
            || exists m :: m in Run(c, es).out && RowKey(m.metrics) == Key(symbol, start)
  {
    var own := Filter(es, OfSymbol(symbol));
    RunProjects(c, es, symbol);
    KeyRunInv(c, symbol, own);
    var t := KeyRun(c, own);
    assert Covers(c, symbol, t.state.open, t.emitted, t.accepted);
    RowOfSymbol(Accepted(c, es), Key(symbol, start), c.width);
    assert start in EmittedStarts(t.emitted) <==> exists m :: m in Run(c, es).out && RowKey(m.metrics) == Key(symbol, start) by {
      if m :| m in Run(c, es).out && RowKey(m.metrics) == Key(symbol, start) {
        assert m in Filter(Run(c, es).out, EmittedFor(symbol));
      }
    }
  }

  lemma WatermarkOfLatest(c: Operator, es: seq<MarketEvent>, e: MarketEvent)
    requires Feed(c.source, es) && e in es
    requires forall r :: r in es && r.symbol == e.symbol ==> r.tsEvent <= e.tsEvent
    ensures StateOf(Run(c, es), e.symbol).watermark == ExtractTs(e)
  {
    OpenAndEmittedApart(c, es, e.symbol);
    assert e in Filter(es, OfSymbol(e.symbol));
  }

  /** A window with this event in it is not past the grace period at the event's own time. */
  lemma OwnWindowNotPast(c: Operator, e: MarketEvent, m: Emission)
    requires m.metrics.windowEnd == m.metrics.windowStart + c.width * MICROS_PER_SECOND
    requires Past(c, m.metrics, ExtractTs(e))
    ensures RowKey(m.metrics) != EventKey(e, c.width)
  {
    StreamNamesTheWindow(e.tsEvent, c.width);
  }

  /** The window holding a symbol's latest event is never emitted. */
  lemma LatestWindowStaysOpen(c: Operator, es: seq<MarketEvent>, e: MarketEvent)
    requires Feed(c.source, es) && e in es
    requires forall r :: r in es && r.symbol == e.symbol ==> r.tsEvent <= e.tsEvent
    ensures forall m :: m in Run(c, es).out ==> RowKey(m.metrics) != EventKey(e, c.width)
  {
    WatermarkOfLatest(c, es, e);
    OpenAndEmittedApart(c, es, e.symbol);
    forall m | m in Run(c, es).out && m.metrics.symbol == e.symbol ensures RowKey(m.metrics) != EventKey(e, c.width) {
      OwnWindowNotPast(c, e, m);
    }
  }

  /** Some record of the symbol is at or past the end of this window plus the grace. */
  ghost predicate Passed(c: Operator, es: seq<MarketEvent>, k: Key) {
    exists r :: r in es && r.symbol == k.symbol && r.tsEvent >= k.start + (c.width + c.grace) * 1_000_000
  }

  lemma ClosedIffPassed(c: Operator, es: seq<MarketEvent>, m: WindowMetrics)
    requires m.windowEnd == m.windowStart + c.width * MICROS_PER_SECOND
    ensures IsClosed(MaxTs(es), c.grace)(m) <==> Passed(c, es, RowKey(m))
  {
    MaxTsIsLatest(es, m.symbol);
  }

  /** Of the windows with accepted records, those emitted are the ones that the symbol's records have
      passed by the grace period, on exact event times. */
  lemma EmittedIffPassed(c: Operator, es: seq<MarketEvent>, k: Key)
    requires Feed(c.source, es) && k in WindowKeys(Accepted(c, es), c.width)
    ensures (exists m :: m in Run(c, es).out && RowKey(m.metrics) == k) <==> Passed(c, es, k)
  {
    var out, row := Run(c, es).out, RowAt(Accepted(c, es), k, c.width, c.tag);
    OutputIsReference(c, es);
    PermutedMembers(Rows(out), ReferenceClosed(c, es));
    WindowTableRow(Accepted(c, es), c.width, c.tag, row);
    ClosedIffPassed(c, es, row);
    RowsMember(out, row);
    forall m | m in out && RowKey(m.metrics) == k ensures m.metrics == row {
      RowsMember(out, m.metrics);
      WindowTableRow(Accepted(c, es), c.width, c.tag, m.metrics);
    }
  }

  // ---- Lateness ----

  /** An earlier record of the symbol is at or past the end of this record's window plus the grace. */
  ghost predicate Straggles(c: Operator, before: seq<MarketEvent>, e: MarketEvent) {
    exists r :: r in before && r.symbol == e.symbol
             && r.tsEvent >= WindowStart(e.tsEvent, c.width) + (c.width + c.grace) * MICROS_PER_SECOND
  }

  lemma DeadlineInMicros(c: Operator, e: MarketEvent, ts: nat)
    ensures Deadline(c, StartMillis(c, e)) <= ts / MICROS_PER_MILLI
       <==> WindowStart(e.tsEvent, c.width) + (c.width + c.grace) * MICROS_PER_SECOND <= ts
  {
    StreamNamesTheWindow(e.tsEvent, c.width);
    WholeMillisecond(ts, WindowStart(e.tsEvent, c.width), c.width + c.grace);
  }

  /** A record is dropped exactly when it straggles, judged on exact event times. */
  lemma LateIffStraggles(c: Operator, before: seq<MarketEvent>, e: MarketEvent)
    requires Feed(c.source, before)
    ensures IsLate(c, StateOf(Run(c, before), e.symbol), e) <==> Straggles(c, before, e)
  {
    var own := Filter(before, OfSymbol(e.symbol));
    RunProjects(c, before, e.symbol);
    KeyRunInv(c, e.symbol, own);
    var mark := StateOf(Run(c, before), e.symbol).watermark;
    StreamNamesTheWindow(e.tsEvent, c.width);
    assert ExtractTs(e) < Deadline(c, StartMillis(c, e));
    if IsLate(c, StateOf(Run(c, before), e.symbol), e) {
      var r :| r in own && ExtractTs(r) == mark;
      DeadlineInMicros(c, e, r.tsEvent);
    }
    if Straggles(c, before, e) {
      var r :| r in before && r.symbol == e.symbol
            && r.tsEvent >= WindowStart(e.tsEvent, c.width) + (c.width + c.grace) * MICROS_PER_SECOND;
      assert r in own;
      DeadlineInMicros(c, e, r.tsEvent);
    }
  }

  lemma LateStepIsIdle(c: Operator, ks: KeyState, e: MarketEvent)
    requires Complete(e) && e.eventType == c.source && Uniform(c.source, ks.open)
    requires IsLate(c, ks, e)
    requires forall w :: w in ks.open ==> ks.watermark < Deadline(c, w.start)
    ensures KeyStep(c, ks, e) == (ks, []) && ks.watermark > 0
  {
    StreamNamesTheWindow(e.tsEvent, c.width);
    assert ks.open != [] ==> ks.open[0] in ks.open;
    assert ks.open[0..] == ks.open;
    assert FinalizeAll(c, e.symbol, ks.open[..0]) == [];
  }

  lemma UpdateInPlace(m: map<string, KeyState>, s: string)
    requires s in m
    ensures m[s := m[s]] == m
  {
  }

  lemma StepOf(c: Operator, st: OpState, e: MarketEvent, ks: KeyState)
    requires Complete(e) && e.eventType == c.source && WellTyped(c, st)
    requires KeyStep(c, StateOf(st, e.symbol), e) == (ks, [])
    ensures Step(c, st, e) == OpState(st.keys[e.symbol := ks], st.out, if IsLate(c, StateOf(st, e.symbol), e) then st.late + [e] else st.late)
  {
    assert st.out + [] == st.out;
  }

  lemma IdleStep(c: Operator, st: OpState, e: MarketEvent)
    requires Complete(e) && e.eventType == c.source && WellTyped(c, st)
    requires IsLate(c, StateOf(st, e.symbol), e)
    requires KeyStep(c, StateOf(st, e.symbol), e) == (StateOf(st, e.symbol), [])
    requires e.symbol in st.keys
    ensures Step(c, st, e) == OpState(st.keys, st.out, st.late + [e])
  {
    StepOf(c, st, e, StateOf(st, e.symbol));
    UpdateInPlace(st.keys, e.symbol);
  }

  /** A dropped record changes nothing but the log: no window, no emission, no watermark. */
  lemma LateRecordChangesNothing(c: Operator, es: seq<MarketEvent>, e: MarketEvent)
    requires Feed(c.source, es + [e])
    requires Feed(c.source, es) && Straggles(c, es, e)
    ensures var st, st' := Run(c, es), Run(c, es + [e]);
            st' == OpState(st.keys, st.out, st.late + [e])
  {
    FeedAppend(c, es, e);
    LateIffStraggles(c, es, e);
    OpenAndEmittedApart(c, es, e.symbol);
    var st := Run(c, es);
    LateStepIsIdle(c, StateOf(st, e.symbol), e);
    IdleStep(c, st, e);
  }

  /** Every record is accepted or logged as late, once. */
  lemma {:induction false} AcceptedOrLate(c: Operator, es: seq<MarketEvent>)
    requires Feed(c.source, es)
    ensures multiset(Accepted(c, es)) + multiset(Run(c, es).late) == multiset(es)
    ensures |Accepted(c, es)| + |Run(c, es).late| == |es|
  {
    if es != [] {
      var n := |es| - 1;
      assert es == es[..n] + [es[n]];
      FeedAppend(c, es[..n], es[n]);
      AcceptedOrLate(c, es[..n]);
    }
  }

  /** A longer grace drops at most what a shorter one drops, record by record. */
  lemma LongerGraceDropsLess(c: Operator, d: Operator, before: seq<MarketEvent>, e: MarketEvent)
    requires d == c.(grace := d.grace) && c.grace <= d.grace
    requires Feed(c.source, before)
    requires IsLate(d, StateOf(Run(d, before), e.symbol), e)
    ensures IsLate(c, StateOf(Run(c, before), e.symbol), e)
  {
    LateIffStraggles(c, before, e);
    LateIffStraggles(d, before, e);
  }

  lemma {:induction false} LongerGraceAcceptsMore(c: Operator, d: Operator, es: seq<MarketEvent>)
    requires d == c.(grace := d.grace) && c.grace <= d.grace
    requires Feed(c.source, es)
    ensures multiset(Accepted(c, es)) <= multiset(Accepted(d, es))
  {
    if es != [] {
      var n := |es| - 1;
      assert es == es[..n] + [es[n]];
      FeedAppend(c, es[..n], es[n]);
      FeedAppend(d, es[..n], es[n]);
      LongerGraceAcceptsMore(c, d, es[..n]);
      if IsLate(d, StateOf(Run(d, es[..n]), es[n].symbol), es[n]) {
        LongerGraceDropsLess(c, d, es[..n], es[n]);
      }
    }
  }

  /** A straggler has been overtaken, so drops never exceed the out-of-order count. */
  lemma {:induction false} DropsAtMostOutOfOrder(c: Operator, es: seq<MarketEvent>)
    requires Feed(c.source, es)
    ensures |Run(c, es).late| <= OutOfOrder(es)
  {
    if es != [] {
      var n := |es| - 1;
      assert es == es[..n] + [es[n]];
      FeedAppend(c, es[..n], es[n]);
      DropsAtMostOutOfOrder(c, es[..n]);
      LateIffStraggles(c, es[..n], es[n]);
      OutOfOrderAppend(es[..n], es[n]);
      assert Straggles(c, es[..n], es[n]) ==> Overtaken(es[..n], es[n]);
    }
  }

  lemma {:induction false} AllAccepted(c: Operator, es: seq<MarketEvent>)
    requires Feed(c.source, es)
    requires forall i :: 0 <= i < |es| ==> !Straggles(c, es[..i], es[i])
    ensures Accepted(c, es) == es
  {
    if es != [] {
      var n := |es| - 1;
      assert es == es[..n] + [es[n]];
      FeedAppend(c, es[..n], es[n]);
      assert forall i :: 0 <= i < n ==> es[..n][..i] == es[..i];
      AllAccepted(c, es[..n]);
      LateIffStraggles(c, es[..n], es[n]);
    }
  }

  /** When nothing is late, the engine emits what the reference closes over all the records. */
  lemma NothingLateMeansReference(c: Operator, es: seq<MarketEvent>)
    requires Feed(c.source, es)
    requires forall i :: 0 <= i < |es| ==> !Straggles(c, es[..i], es[i])
    ensures Accepted(c, es) == es
    ensures multiset(Rows(Run(c, es).out)) == multiset(Closed(WindowTable(es, c.width, c.tag), MaxTs(es), c.grace))
  {
    AllAccepted(c, es);
    OutputIsReference(c, es);
  }

  /** In-order input is never dropped: no out-of-order record, no late record. */
  lemma InOrderNeverDrops(c: Operator, es: seq<MarketEvent>)
    requires Feed(c.source, es) && OutOfOrder(es) == 0
    ensures Run(c, es).late == [] && Accepted(c, es) == es
  {
    DropsAtMostOutOfOrder(c, es);
    OutOfOrderZero(es);
    assert forall i :: 0 <= i < |es| ==> !Straggles(c, es[..i], es[i]);
    AllAccepted(c, es);
  }

  /** An empty late log says that every record was accepted. */
  lemma {:induction false} EmptyLogAcceptsAll(c: Operator, es: seq<MarketEvent>)
    requires Feed(c.source, es) && Run(c, es).late == []
    ensures Accepted(c, es) == es
  {
    if es != [] {
      var n := |es| - 1;
      assert es == es[..n] + [es[n]];
      FeedAppend(c, es[..n], es[n]);
      EmptyLogAcceptsAll(c, es[..n]);
    }
  }

  /** The comparison of the acceptance test, over every input: run the operator and the reference
      code on the same records; unless a record was logged as late, the windows agree in every field. */
  method StreamAgainstReference(c: Operator, es: seq<MarketEvent>)
    returns (emitted: seq<Emission>, late: seq<MarketEvent>, reference: seq<WindowMetrics>)
    requires Feed(c.source, es)
    ensures emitted == Run(c, es).out && late == Run(c, es).late
    ensures late == [] ==> multiset(Rows(emitted)) == multiset(reference)
    ensures late == [] ==> forall s :: Rows(Filter(emitted, EmittedFor(s))) == Filter(reference, RowFor(s))
  {
    var op := Consume(c, es);
    emitted, late := op.out, op.late;
    assert op.Model() == Run(c, es);
    var table := ComputeWindows(es, c.width, c.tag);
    var marks := MaxEventTsBySymbol(es);
    reference := ClosedWindows(table, marks, c.grace);
    if late == [] {
      EmptyLogAcceptsAll(c, es);
      assert reference == ReferenceClosed(c, es);
      OutputIsReference(c, es);
      forall s ensures Rows(Filter(emitted, EmittedFor(s))) == Filter(reference, RowFor(s)) {
        StreamRefinesReference(c, es, s);
      }
    }
  }

  // ---- Interleavings ----

  /** Two arrival sequences that agree symbol by symbol give each symbol the same state, the same
      emissions in the same order, and the same drops. */
  lemma InterleavingsAgree(c: Operator, a: seq<MarketEvent>, b: seq<MarketEvent>, symbol: string)
    requires Feed(c.source, a) && Feed(c.source, b)
    requires Filter(a, OfSymbol(symbol)) == Filter(b, OfSymbol(symbol))
    ensures StateOf(Run(c, a), symbol) == StateOf(Run(c, b), symbol)
    ensures Filter(Run(c, a).out, EmittedFor(symbol)) == Filter(Run(c, b).out, EmittedFor(symbol))
    ensures Filter(Run(c, a).late, OfSymbol(symbol)) == Filter(Run(c, b).late, OfSymbol(symbol))
  {
    RunProjects(c, a, symbol);
    RunProjects(c, b, symbol);
  }
}
