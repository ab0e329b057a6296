/** One symbol at a time: an operator's run restricted to a symbol is the run of that symbol's own
    records, and what such a run keeps. */
module StreamKeys {
  import opened Basics
  import opened Schema
  import opened Time
  import opened Metrics
  import opened Stream

  /** The history of one symbol: its state, what it has emitted, accepted and dropped. */
  datatype KeyTrace = KeyTrace(state: KeyState, emitted: seq<Emission>, accepted: seq<MarketEvent>, late: seq<MarketEvent>)

  function KeyAdvance(c: Operator, t: KeyTrace, e: MarketEvent): (r: KeyTrace)
    requires Complete(e) && e.eventType == c.source && Uniform(c.source, t.state.open)
    ensures Uniform(c.source, r.state.open)
  {
    var (ks, emitted) := KeyStep(c, t.state, e);
    if IsLate(c, t.state, e) then KeyTrace(ks, t.emitted + emitted, t.accepted, t.late + [e])
    else KeyTrace(ks, t.emitted + emitted, t.accepted + [e], t.late)
  }

  function KeyRun(c: Operator, es: seq<MarketEvent>): (t: KeyTrace)
    requires Feed(c.source, es)
    ensures Uniform(c.source, t.state.open)
  {
    if es == [] then KeyTrace(UNSEEN, [], [], []) else
      assert es[|es| - 1] in es;
      KeyAdvance(c, KeyRun(c, es[..|es| - 1]), es[|es| - 1])
  }

  function EmittedFor(symbol: string): Emission -> bool {
    (m: Emission) => m.metrics.symbol == symbol
  }

  lemma FeedAppend(c: Operator, es: seq<MarketEvent>, e: MarketEvent)
    requires Feed(c.source, es + [e])
    ensures Feed(c.source, es) && Complete(e) && e.eventType == c.source
    ensures Run(c, es + [e]) == Step(c, Run(c, es), e)
    ensures Accepted(c, es + [e])
         == Accepted(c, es) + (if IsLate(c, StateOf(Run(c, es), e.symbol), e) then [] else [e])
    ensures KeyRun(c, es + [e]) == KeyAdvance(c, KeyRun(c, es), e)
  {
    assert e in es + [e];
    assert forall x :: x in es ==> x in es + [e];
    assert (es + [e])[..|es|] == es;
  }

  /** Emissions of one step belong to the record's symbol. */
  lemma StepEmitsForItsSymbol(c: Operator, ks: KeyState, e: MarketEvent, symbol: string)
    requires Complete(e) && e.eventType == c.source && Uniform(c.source, ks.open)
    ensures var emitted := KeyStep(c, ks, e).1;
            Filter(emitted, EmittedFor(symbol)) == if e.symbol == symbol then emitted else []
  {
    var emitted := KeyStep(c, ks, e).1;
    if e.symbol == symbol {
      FilterAll(emitted, EmittedFor(symbol));
    } else {
      FilterNone(emitted, EmittedFor(symbol));
    }
  }

  /** The part of a state that belongs to one symbol. */
  ghost function Project(c: Operator, es: seq<MarketEvent>, symbol: string): KeyTrace
    requires Feed(c.source, es)
  {
    KeyTrace(StateOf(Run(c, es), symbol),
             Filter(Run(c, es).out, EmittedFor(symbol)),
             Filter(Accepted(c, es), OfSymbol(symbol)),
             Filter(Run(c, es).late, OfSymbol(symbol)))
  }

  /** A step changes the state and the output of the record's own symbol as that symbol's step does,
      and of no other. */
  lemma StepOutputProjects(c: Operator, st: OpState, e: MarketEvent, symbol: string)
    requires Complete(e) && e.eventType == c.source && WellTyped(c, st)
    ensures var st', r, own := Step(c, st, e), KeyStep(c, StateOf(st, e.symbol), e), Filter(st.out, EmittedFor(symbol));
            && StateOf(st', symbol) == (if e.symbol == symbol then r.0 else StateOf(st, symbol))
            && Filter(st'.out, EmittedFor(symbol)) == (if e.symbol == symbol then own + r.1 else own)
  {
    var emitted := KeyStep(c, StateOf(st, e.symbol), e).1;
    var own := Filter(st.out, EmittedFor(symbol));
    StepEmitsForItsSymbol(c, StateOf(st, e.symbol), e, symbol);
    FilterConcat(st.out, emitted, EmittedFor(symbol));
    assert own + [] == own;
  }

  /** Appending a record, or not, appends it to its own symbol's part, or not. */
  lemma AppendProjects(es: seq<MarketEvent>, e: MarketEvent, symbol: string, appended: bool)
    ensures var own := Filter(es, OfSymbol(symbol));
            Filter(if appended then es + [e] else es, OfSymbol(symbol)) == if appended && e.symbol == symbol then own + [e] else own
  {
    var own := Filter(es, OfSymbol(symbol));
    FilterAppend(es, e, OfSymbol(symbol));
    assert own + [] == own;
  }

  /** A record shows in the projection to its own symbol as that symbol's step, and in no other. */
  lemma StepProjects(c: Operator, before: seq<MarketEvent>, e: MarketEvent, symbol: string)
    requires Feed(c.source, before + [e]) && Feed(c.source, before)
    requires Complete(e) && e.eventType == c.source
    ensures Uniform(c.source, StateOf(Run(c, before), symbol).open)
    ensures Project(c, before + [e], symbol)
         == if e.symbol == symbol then KeyAdvance(c, Project(c, before, symbol), e) else Project(c, before, symbol)
  {
    FeedAppend(c, before, e);
    var st, accepted := Run(c, before), Accepted(c, before);
    var late := IsLate(c, StateOf(st, e.symbol), e);
    StepOutputProjects(c, st, e, symbol);
    AppendProjects(st.late, e, symbol, late);
    AppendProjects(accepted, e, symbol, !late);
    assert Run(c, before + [e]).late == if late then st.late + [e] else st.late;
    assert Accepted(c, before + [e]) == if late then accepted else accepted + [e];
  }

  /** Non-interference: what the operator holds, emits, accepts and drops for a symbol is what it
      would for that symbol's records alone. */
  lemma {:induction false} RunProjects(c: Operator, es: seq<MarketEvent>, symbol: string)
    requires Feed(c.source, es)
    ensures Project(c, es, symbol) == KeyRun(c, Filter(es, OfSymbol(symbol)))
  {
    if es != [] {
      var before, e := es[..|es| - 1], es[|es| - 1];
      assert es == before + [e] && e in es;
      var own := Filter(before, OfSymbol(symbol));
      RunProjects(c, before, symbol);
      StepProjects(c, before, e, symbol);
      FilterAppend(before, e, OfSymbol(symbol));
      if e.symbol == symbol {
        FeedAppend(c, own, e);
      } else {
        assert own + [] == own;
      }
    }
  }

  // ---- What the run of one symbol keeps ----

  ghost predicate Watermark(mark: nat, es: seq<MarketEvent>) {
    && (forall e :: e in es ==> ExtractTs(e) <= mark)
    && (es == [] ==> mark == 0)
    && (es != [] ==> exists e :: e in es && ExtractTs(e) == mark)
  }

  ghost function OpenStarts(open: seq<OpenWindow>): set<nat> {
    set w | w in open :: Micros(w.start)
  }

  ghost function EmittedStarts(emitted: seq<Emission>): set<nat> {
    set m | m in emitted :: m.metrics.windowStart
  }

  /** An aggregate holds exactly the statistics `s`, and those are of its own topic only. */
  predicate Represents(a: Agg, s: Stats) {
    match a
    case TradeAgg(pv, volume, count) => s == Stats(pv, volume, count, 0.0, 0.0, 0)
    case TickerAgg(spreadSum, midSum, count) => s == Stats(0.0, 0.0, 0, spreadSum, midSum, count)
  }

  lemma FoldRepresents(a: Agg, s: Stats, e: MarketEvent)
    requires Complete(e)
    ensures Represents(First(e), Plus(Zero(), Contribution(e)))
    ensures Represents(a, s) && (a.TradeAgg? <==> e.eventType.Trade?) ==> Represents(Fold(a, e), Plus(s, Contribution(e)))
  {
  }

  /** A faithful aggregate is finalized to the reference row, tagged with its topic. */
  lemma FinalizeIsRow(c: Operator, symbol: string, w: OpenWindow, s: Stats)
    requires Represents(w.agg, s) && (w.agg.TradeAgg? <==> c.source.Trade?)
    ensures Finalize(c, symbol, w) == Emission(c.source, Row(Key(symbol, Micros(w.start)), c.width, c.tag, s))
  {
  }

  ghost predicate OpenInv(c: Operator, symbol: string, open: seq<OpenWindow>, accepted: seq<MarketEvent>, mark: nat) {
    && Ascending(open)
    && Uniform(c.source, open)
    && (forall w :: w in open ==> mark < Deadline(c, w.start))
    && (forall w :: w in open ==> Represents(w.agg, WindowStats(accepted, Key(symbol, Micros(w.start)), c.width)))
  }

  predicate Past(c: Operator, m: WindowMetrics, mark: nat) {
    m.windowEnd + c.grace * MICROS_PER_SECOND <= Micros(mark)
  }

  ghost predicate EmittedInv(c: Operator, symbol: string, emitted: seq<Emission>, accepted: seq<MarketEvent>, mark: nat) {
    && (forall i, j :: 0 <= i < j < |emitted| ==> emitted[i].metrics.windowStart < emitted[j].metrics.windowStart)
    && (forall m :: m in emitted ==> m == Emission(c.source, RowAt(accepted, Key(symbol, m.metrics.windowStart), c.width, c.tag)))
    && (forall m :: m in emitted ==> Past(c, m.metrics, mark))
  }

  /** The windows open or emitted are exactly those that an accepted record falls in. */
  ghost predicate Covers(c: Operator, symbol: string, open: seq<OpenWindow>, emitted: seq<Emission>, accepted: seq<MarketEvent>) {
    forall start: nat :: start in OpenStarts(open) + EmittedStarts(emitted) <==> Key(symbol, start) in WindowKeys(accepted, c.width)
  }

  /** At the given watermark, the open and the emitted windows account for the accepted records. */
  ghost predicate Faithful(c: Operator, symbol: string, open: seq<OpenWindow>, emitted: seq<Emission>,
                           accepted: seq<MarketEvent>, mark: nat)
  {
    && OpenInv(c, symbol, open, accepted, mark)
    && EmittedInv(c, symbol, emitted, accepted, mark)
    && Covers(c, symbol, open, emitted, accepted)
  }

  ghost predicate KeyInv(c: Operator, symbol: string, es: seq<MarketEvent>, t: KeyTrace) {
    && Watermark(t.state.watermark, es)
    && Faithful(c, symbol, t.state.open, t.emitted, t.accepted, t.state.watermark)
  }

  ghost predicate OneSymbol(symbol: string, es: seq<MarketEvent>) {
    forall e :: e in es ==> e.symbol == symbol
  }

  /** Folding a record in replaces the window that starts at `start`, or inserts one in its place. */
  predicate Replaced(open: seq<OpenWindow>, r: seq<OpenWindow>, i: nat, start: nat, e: MarketEvent)
    requires Complete(e) && Uniform(e.eventType, open)
  {
    && i < |open| && open[i].start == start
    && (assert open[i] in open; r == open[..i] + [OpenWindow(start, Fold(open[i].agg, e))] + open[i + 1..])
  }

  predicate Inserted(open: seq<OpenWindow>, r: seq<OpenWindow>, i: nat, start: nat, e: MarketEvent)
    requires Complete(e)
  {
    && i <= |open| && (i < |open| ==> start < open[i].start)
    && r == open[..i] + [OpenWindow(start, First(e))] + open[i..]
  }

  lemma {:induction false} UpsertAt(open: seq<OpenWindow>, start: nat, e: MarketEvent) returns (i: nat)
    requires Complete(e) && Uniform(e.eventType, open)
    ensures i <= |open| && forall j :: 0 <= j < i ==> open[j].start < start
    ensures Replaced(open, Upsert(open, start, e), i, start, e) || Inserted(open, Upsert(open, start, e), i, start, e)
  {
    if open != [] && open[0].start < start {
      var tail := open[1..];
      var j := UpsertAt(tail, start, e);
      i := j + 1;
      assert open[..i] == [open[0]] + tail[..j];
      assert open[i..] == tail[j..];
      if j < |tail| {
        assert open[i + 1..] == tail[j + 1..];
      }
    } else {
      i := 0;
    }
  }

  lemma ReplacedShape(open: seq<OpenWindow>, r: seq<OpenWindow>, i: nat, start: nat, e: MarketEvent)
    requires Complete(e) && Uniform(e.eventType, open) && Ascending(open)
    requires Replaced(open, r, i, start, e)
    ensures Ascending(r)
    ensures r[i].start == start && forall w :: w in r ==> w == r[i] || (w in open && w.start != start)
    ensures OpenStarts(r) == OpenStarts(open)
  {
    assert |r| == |open| && forall j :: 0 <= j < |r| && j != i ==> r[j] == open[j];
    assert forall j :: 0 <= j < |r| ==> r[j].start == open[j].start;
    forall w | w in open ensures Micros(w.start) in OpenStarts(r) {
      var j :| 0 <= j < |open| && open[j] == w;
      assert r[j] in r;
    }
  }

  lemma InsertedAscending(open: seq<OpenWindow>, r: seq<OpenWindow>, i: nat, start: nat, e: MarketEvent)
    requires Complete(e) && Ascending(open)
    requires Inserted(open, r, i, start, e)
    requires forall j :: 0 <= j < i ==> open[j].start < start
    ensures Ascending(r)
    ensures forall j :: 0 <= j < |open| ==> open[j].start != start
  {
    assert forall j :: i <= j < |open| ==> start < open[j].start;
    forall j, k | 0 <= j < k < |r| ensures r[j].start < r[k].start {
      assert r[j] == if j < i then open[j] else if j == i then r[i] else open[j - 1];
      assert r[k] == if k < i then open[k] else if k == i then r[i] else open[k - 1];
    }
  }

  lemma InsertedShape(open: seq<OpenWindow>, r: seq<OpenWindow>, i: nat, start: nat, e: MarketEvent)
    requires Complete(e)
    requires Inserted(open, r, i, start, e)
    requires forall j :: 0 <= j < |open| ==> open[j].start != start
    ensures r[i].start == start && forall w :: w in r ==> w == r[i] || (w in open && w.start != start)
    ensures OpenStarts(r) == OpenStarts(open) + {Micros(start)}
  {
    assert r[i] in r;
    forall w | w in open ensures w in r {
      var j :| 0 <= j < |open| && open[j] == w;
      assert w == if j < i then r[j] else r[j + 1];
    }
    forall w | w in r ensures w == r[i] || (w in open && w.start != start) {
      var k :| 0 <= k < |r| && r[k] == w;
      assert w == if k < i then open[k] else if k == i then r[i] else open[k - 1];
    }
  }

  lemma NoStatsYet(es: seq<MarketEvent>, k: Key, width: nat)
    requires width > 0 && k !in WindowKeys(es, width)
    ensures WindowStats(es, k, width) == Zero()
  {
    FilterNone(es, InWindow(k, width));
  }

  /** Folding in an admitted record keeps the windows faithful, and open at every earlier mark. */
  lemma UpsertKeepsOpenInv(c: Operator, symbol: string, open: seq<OpenWindow>, accepted: seq<MarketEvent>,
                           mark: nat, e: MarketEvent)
    requires Complete(e) && e.eventType == c.source && e.symbol == symbol
    requires OpenInv(c, symbol, open, accepted, mark)
    requires mark < Deadline(c, StartMillis(c, e))
    requires EventKey(e, c.width) in WindowKeys(accepted, c.width) ==> Micros(StartMillis(c, e)) in OpenStarts(open)
    ensures OpenInv(c, symbol, Upsert(open, StartMillis(c, e), e), accepted + [e], mark)
    ensures OpenStarts(Upsert(open, StartMillis(c, e), e)) == OpenStarts(open) + {Micros(StartMillis(c, e))}
  {
    var start := StartMillis(c, e);
    var r := Upsert(open, start, e);
    StreamNamesTheWindow(e.tsEvent, c.width);
    assert EventKey(e, c.width) == Key(symbol, Micros(start));
    var i := UpsertAt(open, start, e);
    if Replaced(open, r, i, start, e) {
      ReplacedShape(open, r, i, start, e);
      assert open[i] in open;
      FoldRepresents(open[i].agg, WindowStats(accepted, EventKey(e, c.width), c.width), e);
    } else {
      InsertedAscending(open, r, i, start, e);
      InsertedShape(open, r, i, start, e);
      NoStatsYet(accepted, EventKey(e, c.width), c.width);
      FoldRepresents(First(e), Zero(), e);
    }
    forall w | w in r
      ensures mark < Deadline(c, w.start)
      ensures Represents(w.agg, WindowStats(accepted + [e], Key(symbol, Micros(w.start)), c.width))
    {
      WindowStatsAppend(accepted, e, Key(symbol, Micros(w.start)), c.width);
    }
  }

  /** Emitted windows are never touched by a record that is not late. */
  lemma AcceptKeepsEmitted(c: Operator, symbol: string, emitted: seq<Emission>, accepted: seq<MarketEvent>, mark: nat, e: MarketEvent)
    requires EmittedInv(c, symbol, emitted, accepted, mark)
    requires mark < Deadline(c, StartMillis(c, e))
    ensures EmittedInv(c, symbol, emitted, accepted + [e], mark)
    ensures Micros(StartMillis(c, e)) !in EmittedStarts(emitted)
  {
    StreamNamesTheWindow(e.tsEvent, c.width);
    forall m | m in emitted
      ensures m.metrics.windowStart != Micros(StartMillis(c, e))
      ensures m == Emission(c.source, RowAt(accepted + [e], Key(symbol, m.metrics.windowStart), c.width, c.tag))
    {
      assert Past(c, m.metrics, mark);
      WindowStatsAppend(accepted, e, Key(symbol, m.metrics.windowStart), c.width);
    }
  }

  /** Closing the expired windows: each becomes the reference row of what was accepted into it. */
  lemma FinalizeAllIsRows(c: Operator, symbol: string, open: seq<OpenWindow>, accepted: seq<MarketEvent>, mark: nat, i: nat)
    requires OpenInv(c, symbol, open, accepted, mark)
    requires i < |open|
    ensures Finalize(c, symbol, open[i])
         == Emission(c.source, RowAt(accepted, Key(symbol, Micros(open[i].start)), c.width, c.tag))
  {
    assert open[i] in open;
    FinalizeIsRow(c, symbol, open[i], WindowStats(accepted, Key(symbol, Micros(open[i].start)), c.width));
  }

  lemma FinalizedIsPast(c: Operator, symbol: string, open: seq<OpenWindow>, accepted: seq<MarketEvent>,
                        mark: nat, mark': nat, i: nat)
    requires OpenInv(c, symbol, open, accepted, mark)
    requires i < ExpiredCount(c, open, mark')
    ensures var m := Finalize(c, symbol, open[i]);
            && m == Emission(c.source, RowAt(accepted, Key(symbol, m.metrics.windowStart), c.width, c.tag))
            && m.metrics.windowStart == Micros(open[i].start)
            && Past(c, m.metrics, mark') && !Past(c, m.metrics, mark)
  {
    FinalizeAllIsRows(c, symbol, open, accepted, mark, i);
    assert open[i] in open;
  }

  /** Whatever was past an earlier mark starts before whatever was not. */
  lemma PastStartsFirst(c: Operator, a: WindowMetrics, b: WindowMetrics, mark: nat)
    requires a.windowEnd == a.windowStart + c.width * MICROS_PER_SECOND
    requires b.windowEnd == b.windowStart + c.width * MICROS_PER_SECOND
    requires Past(c, a, mark) && !Past(c, b, mark)
    ensures a.windowStart < b.windowStart
  {
  }

  lemma ExpireKeepsOrder(c: Operator, symbol: string, open: seq<OpenWindow>, emitted: seq<Emission>,
                         accepted: seq<MarketEvent>, mark: nat, mark': nat, i: nat, j: nat)
    requires OpenInv(c, symbol, open, accepted, mark)
    requires EmittedInv(c, symbol, emitted, accepted, mark)
    requires i < j < |emitted| + ExpiredCount(c, open, mark')
    ensures var all := emitted + FinalizeAll(c, symbol, open[..ExpiredCount(c, open, mark')]);
            all[i].metrics.windowStart < all[j].metrics.windowStart
  {
    if |emitted| <= j {
      FinalizedIsPast(c, symbol, open, accepted, mark, mark', j - |emitted|);
      if i < |emitted| {
        assert emitted[i] in emitted;
        PastStartsFirst(c, emitted[i].metrics, Finalize(c, symbol, open[j - |emitted|]).metrics, mark);
      } else {
        FinalizedIsPast(c, symbol, open, accepted, mark, mark', i - |emitted|);
      }
    }
  }

  lemma ExpireKeepsEmitted(c: Operator, symbol: string, open: seq<OpenWindow>, emitted: seq<Emission>,
                           accepted: seq<MarketEvent>, mark: nat, mark': nat)
    requires mark <= mark'
    requires OpenInv(c, symbol, open, accepted, mark)
    requires EmittedInv(c, symbol, emitted, accepted, mark)
    ensures var n := ExpiredCount(c, open, mark');
            EmittedInv(c, symbol, emitted + FinalizeAll(c, symbol, open[..n]), accepted, mark')
  {
    var added := FinalizeAll(c, symbol, open[..ExpiredCount(c, open, mark')]);
    var all := emitted + added;
    forall m | m in all
      ensures Past(c, m.metrics, mark')
      ensures m == Emission(c.source, RowAt(accepted, Key(symbol, m.metrics.windowStart), c.width, c.tag))
    {
      if m in emitted {
        assert Past(c, m.metrics, mark);
      } else {
        var i :| 0 <= i < |added| && added[i] == m;
        FinalizedIsPast(c, symbol, open, accepted, mark, mark', i);
      }
    }
    forall i, j | 0 <= i < j < |all| ensures all[i].metrics.windowStart < all[j].metrics.windowStart {
      ExpireKeepsOrder(c, symbol, open, emitted, accepted, mark, mark', i, j);
    }
  }

  lemma SuffixMembers(open: seq<OpenWindow>, n: nat)
    requires n <= |open| && Ascending(open)
    ensures Ascending(open[n..])
    ensures forall w :: w in open[n..] ==> w in open && open[n].start <= w.start
  {
    forall w | w in open[n..] ensures w in open && open[n].start <= w.start {
      var i :| 0 <= i < |open| - n && open[n..][i] == w;
      assert open[n + i] == w;
    }
    assert forall i :: 0 <= i < |open| - n ==> open[n..][i] == open[n + i];
  }

  lemma ExpireKeepsOpen(c: Operator, symbol: string, open: seq<OpenWindow>, accepted: seq<MarketEvent>, mark: nat, mark': nat)
    requires OpenInv(c, symbol, open, accepted, mark)
    ensures OpenInv(c, symbol, open[ExpiredCount(c, open, mark')..], accepted, mark')
  {
    SuffixMembers(open, ExpiredCount(c, open, mark'));
  }

  lemma ExpireKeepsStarts(c: Operator, symbol: string, open: seq<OpenWindow>, emitted: seq<Emission>, n: nat)
    requires n <= |open|
    ensures OpenStarts(open) + EmittedStarts(emitted)
         == OpenStarts(open[n..]) + EmittedStarts(emitted + FinalizeAll(c, symbol, open[..n]))
  {
    var rest, done := open[n..], FinalizeAll(c, symbol, open[..n]);
    forall w | w in open ensures Micros(w.start) in OpenStarts(rest) + EmittedStarts(emitted + done) {
      var i :| 0 <= i < |open| && open[i] == w;
      if i < n {
        assert done[i] in emitted + done;
      } else {
        assert rest[i - n] == w;
      }
    }
    forall m | m in emitted + done ensures m.metrics.windowStart in OpenStarts(open) + EmittedStarts(emitted) {
      if m !in emitted {
        var i :| 0 <= i < n && done[i] == m;
        assert open[i] in open;
      }
    }
    assert EmittedStarts(emitted) <= EmittedStarts(emitted + done);
  }

  lemma WatermarkAdvances(mark: nat, es: seq<MarketEvent>, e: MarketEvent)
    requires Watermark(mark, es)
    ensures Watermark(Max(mark, ExtractTs(e)), es + [e])
  {
    assert e in es + [e];
    assert forall x :: x in es ==> x in es + [e];
  }

  lemma AdmitKeepsCovers(c: Operator, symbol: string, open: seq<OpenWindow>, r: seq<OpenWindow>, emitted: seq<Emission>,
                         accepted: seq<MarketEvent>, e: MarketEvent, start: nat)
    requires Covers(c, symbol, open, emitted, accepted)
    requires EventKey(e, c.width) == Key(symbol, start)
    requires OpenStarts(r) == OpenStarts(open) + {start}
    ensures Covers(c, symbol, r, emitted, accepted + [e])
  {
    WindowKeysAppend(accepted, e, c.width);
  }

  lemma AdmitKeepsFaithful(c: Operator, symbol: string, open: seq<OpenWindow>, emitted: seq<Emission>,
                           accepted: seq<MarketEvent>, mark: nat, e: MarketEvent)
    requires Complete(e) && e.eventType == c.source && e.symbol == symbol
    requires Faithful(c, symbol, open, emitted, accepted, mark)
    requires mark < Deadline(c, StartMillis(c, e))
    ensures Faithful(c, symbol, Upsert(open, StartMillis(c, e), e), emitted, accepted + [e], mark)
  {
    var start := Micros(StartMillis(c, e));
    StreamNamesTheWindow(e.tsEvent, c.width);
    AcceptKeepsEmitted(c, symbol, emitted, accepted, mark, e);
    assert Key(symbol, start) in WindowKeys(accepted, c.width) ==> start in OpenStarts(open) + EmittedStarts(emitted);
    UpsertKeepsOpenInv(c, symbol, open, accepted, mark, e);
    AdmitKeepsCovers(c, symbol, open, Upsert(open, StartMillis(c, e), e), emitted, accepted, e, start);
  }

  lemma ExpireKeepsFaithful(c: Operator, symbol: string, open: seq<OpenWindow>, emitted: seq<Emission>,
                            accepted: seq<MarketEvent>, mark: nat, mark': nat)
    requires mark <= mark'
    requires Faithful(c, symbol, open, emitted, accepted, mark)
    ensures var n := ExpiredCount(c, open, mark');
            Faithful(c, symbol, open[n..], emitted + FinalizeAll(c, symbol, open[..n]), accepted, mark')
  {
    ExpireKeepsOpen(c, symbol, open, accepted, mark, mark');
    ExpireKeepsEmitted(c, symbol, open, emitted, accepted, mark, mark');
    ExpireKeepsStarts(c, symbol, open, emitted, ExpiredCount(c, open, mark'));
  }

  /** Every record keeps the invariant, late or not. */
  lemma AdvanceKeepsInv(c: Operator, symbol: string, es: seq<MarketEvent>, t: KeyTrace, e: MarketEvent)
    requires Complete(e) && e.eventType == c.source && e.symbol == symbol && Uniform(c.source, t.state.open)
    requires KeyInv(c, symbol, es, t)
    ensures KeyInv(c, symbol, es + [e], KeyAdvance(c, t, e))
  {
    var mark, mark' := t.state.watermark, Max(t.state.watermark, ExtractTs(e));
    WatermarkAdvances(mark, es, e);
    if IsLate(c, t.state, e) {
      ExpireKeepsFaithful(c, symbol, t.state.open, t.emitted, t.accepted, mark, mark');
    } else {
      AdmitKeepsFaithful(c, symbol, t.state.open, t.emitted, t.accepted, mark, e);
      var open := Upsert(t.state.open, StartMillis(c, e), e);
      ExpireKeepsFaithful(c, symbol, open, t.emitted, t.accepted + [e], mark, mark');
    }
  }

  /** The invariant holds after every arrival sequence of one symbol. */
  lemma {:induction false} KeyRunInv(c: Operator, symbol: string, es: seq<MarketEvent>)
    requires Feed(c.source, es) && OneSymbol(symbol, es)
    ensures KeyInv(c, symbol, es, KeyRun(c, es))
  {
    if es != [] {
      var n := |es| - 1;
      assert es == es[..n] + [es[n]] && es[n] in es;
      FeedAppend(c, es[..n], es[n]);
      KeyRunInv(c, symbol, es[..n]);
      AdvanceKeepsInv(c, symbol, es[..n], KeyRun(c, es[..n]), es[n]);
    }
  }
}
