/** The registered pipeline: one aggregation per topic and window size, all writing one output topic. */
module Pipeline {
  import opened Basics
  import opened Schema
  import opened Time
  import opened Metrics
  import opened Stream
  import opened StreamKeys
  import opened Refinement
  import opened StreamSafety

  datatype WindowSize = WindowSize(tag: string, seconds: nat)

  ghost predicate Sizes(sizes: seq<WindowSize>) {
    && (forall s :: s in sizes ==> s.seconds > 0)
    && (forall i, j :: 0 <= i < j < |sizes| ==> sizes[i].tag != sizes[j].tag)
  }

  ghost predicate Separate(ops: seq<WindowOperator>) {
    forall i, j :: 0 <= i < j < |ops| ==> ops[i] != ops[j]
  }

  /** The configuration of the `i`-th registered aggregation: trades at every size, then tickers. */
  function ConfigAt(sizes: seq<WindowSize>, grace: nat, i: nat): Config
    requires i < 2 * |sizes|
  {
    if i < |sizes| then Config(Trade, sizes[i].tag, sizes[i].seconds, grace)
    else Config(Ticker, sizes[i - |sizes|].tag, sizes[i - |sizes|].seconds, grace)
  }

  /** No two aggregations share a topic and a size label. */
  lemma ConfigsLabelled(sizes: seq<WindowSize>, grace: nat, i: nat, j: nat)
    requires Sizes(sizes) && i < j < 2 * |sizes|
    ensures var a, b := ConfigAt(sizes, grace, i), ConfigAt(sizes, grace, j);
            a.source != b.source || a.tag != b.tag
  {
  }

  /** Register the trade aggregations, one for each size, then the ticker aggregations. */
  method BuildPipeline(sizes: seq<WindowSize>, grace: nat) returns (ops: seq<WindowOperator>)
    requires Sizes(sizes)
    ensures |ops| == 2 * |sizes| && Separate(ops) && forall op :: op in ops ==> fresh(op)
    ensures forall i :: 0 <= i < |ops| ==> ops[i].config == ConfigAt(sizes, grace, i) && ops[i].Model() == START
  {
    ops := [];
    for k := 0 to |sizes|
      invariant |ops| == k && Separate(ops) && forall op :: op in ops ==> fresh(op)
      invariant forall i :: 0 <= i < k ==> ops[i].config == ConfigAt(sizes, grace, i) && ops[i].Model() == START
    {
      assert sizes[k] in sizes;
      var op := new WindowOperator(Config(Trade, sizes[k].tag, sizes[k].seconds, grace));
      ops := ops + [op];
    }
    for k := 0 to |sizes|
      invariant |ops| == |sizes| + k && Separate(ops) && forall op :: op in ops ==> fresh(op)
      invariant forall i :: 0 <= i < |ops| ==> ops[i].config == ConfigAt(sizes, grace, i) && ops[i].Model() == START
    {
      assert sizes[k] in sizes;
      var op := new WindowOperator(Config(Ticker, sizes[k].tag, sizes[k].seconds, grace));
      ops := ops + [op];
    }
  }

  /** An aggregation offered a record processes one of its own topic and ignores any other. */
  function Offered(c: Operator, st: OpState, e: MarketEvent): (r: OpState)
    requires Complete(e) && WellTyped(c, st)
    ensures WellTyped(c, r)
  {
    if e.eventType == c.source then Step(c, st, e) else st
  }

  method Offer(op: WindowOperator, e: MarketEvent)
    requires Complete(e) && WellTyped(op.config, op.Model())
    modifies op
    ensures op.Model() == Offered(op.config, old(op.Model()), e)
  {
    if e.eventType == op.config.source {
      op.Process(e);
    }
  }

  /** One record from either raw topic, offered to every aggregation. */
  method Route(ops: seq<WindowOperator>, e: MarketEvent)
    requires Separate(ops) && Complete(e) && forall op :: op in ops ==> WellTyped(op.config, op.Model())
    modifies ops
    ensures forall op :: op in ops ==> op.Model() == Offered(op.config, old(op.Model()), e)
  {
    for k := 0 to |ops|
      invariant forall i :: k <= i < |ops| ==> ops[i].Model() == old(ops[i].Model())
      invariant forall i :: 0 <= i < k ==> ops[i].Model() == Offered(ops[i].config, old(ops[i].Model()), e)
    {
      assert ops[k] in ops;
      Offer(ops[k], e);
    }
  }

  predicate AllComplete(es: seq<MarketEvent>) {
    forall e :: e in es ==> Complete(e)
  }

  /** What an aggregation does with the records of its own topic. */
  function TopicRun(c: Operator, arrivals: seq<MarketEvent>): (st: OpState)
    requires AllComplete(arrivals)
    ensures WellTyped(c, st)
  {
    Run(c, Topic(arrivals, c.source))
  }

  lemma TopicRunAppend(c: Operator, before: seq<MarketEvent>, e: MarketEvent)
    requires AllComplete(before) && Complete(e)
    ensures AllComplete(before + [e])
    ensures TopicRun(c, before + [e]) == Offered(c, TopicRun(c, before), e)
  {
    var seen := Topic(before, c.source);
    FilterAppend(before, e, OfType(c.source));
    if e.eventType == c.source {
      FeedAppend(c, seen, e);
    } else {
      assert seen + [] == seen;
    }
  }

  /** Every aggregation has seen exactly the records of its own topic. */
  ghost predicate InStep(ops: seq<WindowOperator>, arrivals: seq<MarketEvent>)
    requires AllComplete(arrivals)
    reads ops
  {
    forall op :: op in ops ==> op.Model() == TopicRun(op.config, arrivals)
  }

  /** A whole arrival sequence, record by record. */
  method RouteAll(ops: seq<WindowOperator>, arrivals: seq<MarketEvent>)
    requires Separate(ops) && AllComplete(arrivals) && InStep(ops, [])
    modifies ops
    ensures InStep(ops, arrivals)
  {
    for i := 0 to |arrivals|
      invariant AllComplete(arrivals[..i]) && InStep(ops, arrivals[..i])
    {
      var e := arrivals[i];
      assert e in arrivals && arrivals[..i + 1] == arrivals[..i] + [e];
      forall op | op in ops ensures TopicRun(op.config, arrivals[..i + 1]) == Offered(op.config, TopicRun(op.config, arrivals[..i]), e) {
        TopicRunAppend(op.config, arrivals[..i], e);
      }
      Route(ops, e);
    }
    assert arrivals[..|arrivals|] == arrivals;
  }

  // ---- What the processor promises for each size and topic ----

  /** An earlier record of the symbol is at or past the end of this record's window plus the grace. */
  ghost predicate TooLate(seconds: nat, grace: nat, before: seq<MarketEvent>, e: MarketEvent)
    requires seconds > 0
  {
    exists r :: r in before && r.symbol == e.symbol && r.tsEvent >= WindowStart(e.tsEvent, seconds) + (seconds + grace) * 1_000_000
  }

  /** The records that come too late, in order. */
  ghost function LateRecords(seconds: nat, grace: nat, es: seq<MarketEvent>): seq<MarketEvent>
    requires seconds > 0
  {
    if es == [] then []
    else
      var before, e := es[..|es| - 1], es[|es| - 1];
      LateRecords(seconds, grace, before) + (if TooLate(seconds, grace, before, e) then [e] else [])
  }

  /** The others. */
  ghost function TimelyRecords(seconds: nat, grace: nat, es: seq<MarketEvent>): seq<MarketEvent>
    requires seconds > 0
  {
    if es == [] then []
    else
      var before, e := es[..|es| - 1], es[|es| - 1];
      TimelyRecords(seconds, grace, before) + (if TooLate(seconds, grace, before, e) then [] else [e])
  }

  lemma {:induction false} RunSplitsRecords(c: Operator, es: seq<MarketEvent>)
    requires Feed(c.source, es)
    ensures Run(c, es).late == LateRecords(c.width, c.grace, es)
    ensures Accepted(c, es) == TimelyRecords(c.width, c.grace, es)
  {
    if es != [] {
      var n := |es| - 1;
      assert es == es[..n] + [es[n]];
      FeedAppend(c, es[..n], es[n]);
      RunSplitsRecords(c, es[..n]);
      LateIffStraggles(c, es[..n], es[n]);
      assert Straggles(c, es[..n], es[n]) <==> TooLate(c.width, c.grace, es[..n], es[n]);
    }
  }

  /** The windows of a size over the timely records of a topic, closed by the topic's watermarks. */
  ghost function ClosedTimely(s: WindowSize, grace: nat, es: seq<MarketEvent>): seq<WindowMetrics>
    requires s.seconds > 0
  {
    Closed(WindowTable(TimelyRecords(s.seconds, grace, es), s.seconds, s.tag), MaxTs(es), grace)
  }

  /** The operator aggregates this topic at this size, under this grace. */
  ghost predicate Serves(op: WindowOperator, source: EventType, s: WindowSize, grace: nat, arrivals: seq<MarketEvent>)
    requires s.seconds > 0
    reads op
  {
    var es := Filter(arrivals, OfType(source));
    && op.config.source == source && op.config.tag == s.tag
    && op.late == LateRecords(s.seconds, grace, es)
    && multiset(Rows(op.out)) == multiset(ClosedTimely(s, grace, es))
    && forall m :: m in op.out ==> m.source == source
  }

  /** It is the only one for its topic and label. */
  ghost predicate OnlyOne(ops: seq<WindowOperator>, k: nat)
    requires k < |ops|
  {
    forall j :: 0 <= j < |ops| && ops[j].config.source == ops[k].config.source && ops[j].config.tag == ops[k].config.tag ==> j == k
  }

  /** Exactly one operator aggregates the topic under the label, and it does so at this size and grace. */
  ghost predicate ServedOnce(ops: seq<WindowOperator>, source: EventType, s: WindowSize, grace: nat, arrivals: seq<MarketEvent>)
    requires s.seconds > 0
    reads ops
  {
    exists k :: 0 <= k < |ops| && Serves(ops[k], source, s, grace, arrivals) && OnlyOne(ops, k)
  }

  lemma TopicServed(op: WindowOperator, s: WindowSize, arrivals: seq<MarketEvent>)
    requires AllComplete(arrivals) && op.Model() == TopicRun(op.config, arrivals)
    requires op.config.tag == s.tag && op.config.width == s.seconds
    ensures Serves(op, op.config.source, s, op.config.grace, arrivals)
  {
    var es := Topic(arrivals, op.config.source);
    RunSplitsRecords(op.config, es);
    OutputIsReference(op.config, es);
  }

  ghost predicate Registered(ops: seq<WindowOperator>, sizes: seq<WindowSize>, grace: nat) {
    |ops| == 2 * |sizes| && forall i :: 0 <= i < |ops| ==> ops[i].config == ConfigAt(sizes, grace, i)
  }

  lemma NoOtherRegistered(ops: seq<WindowOperator>, sizes: seq<WindowSize>, grace: nat, k: nat)
    requires Sizes(sizes) && Registered(ops, sizes, grace) && k < |ops|
    ensures OnlyOne(ops, k)
  {
    forall j | 0 <= j < |ops| && ops[j].config.source == ops[k].config.source && ops[j].config.tag == ops[k].config.tag ensures j == k {
      if j < k {
        ConfigsLabelled(sizes, grace, j, k);
      } else if k < j {
        ConfigsLabelled(sizes, grace, k, j);
      }
    }
  }

  lemma SizeServed(ops: seq<WindowOperator>, sizes: seq<WindowSize>, grace: nat, arrivals: seq<MarketEvent>, s: WindowSize, source: EventType)
    requires Sizes(sizes) && Registered(ops, sizes, grace) && s in sizes
    requires AllComplete(arrivals) && InStep(ops, arrivals)
    ensures ServedOnce(ops, source, s, grace, arrivals)
  {
    var i :| 0 <= i < |sizes| && sizes[i] == s;
    var k := if source.Trade? then i else i + |sizes|;
    assert ops[k] in ops;
    TopicServed(ops[k], s, arrivals);
    NoOtherRegistered(ops, sizes, grace, k);
  }

  /** The processor over a whole arrival sequence: each aggregation ends as if it alone had read its
      topic, whatever the interleaving of the two topics. */
  method RunProcessor(sizes: seq<WindowSize>, grace: nat, arrivals: seq<MarketEvent>) returns (ops: seq<WindowOperator>)
    requires Sizes(sizes) && AllComplete(arrivals)
    ensures Registered(ops, sizes, grace) && InStep(ops, arrivals)
    ensures forall s, source :: s in sizes ==> ServedOnce(ops, source, s, grace, arrivals)
  {
    ops := BuildPipeline(sizes, grace);
    assert forall i :: 0 <= i < |ops| ==> ops[i] in ops;
    RouteAll(ops, arrivals);
    forall s, source | s in sizes ensures ServedOnce(ops, source, s, grace, arrivals) {
      SizeServed(ops, sizes, grace, arrivals, s, source);
    }
  }

  /** A window of the output topic: its symbol, its size, its start and the topic it is from. */
  datatype OutputKey = OutputKey(symbol: string, windowSize: string, start: nat, source: EventType)

  function KeyOf(m: Emission): OutputKey {
    OutputKey(m.metrics.symbol, m.metrics.windowSize, m.metrics.windowStart, m.source)
  }

  lemma EmittedAreLabelled(c: Operator, es: seq<MarketEvent>, m: Emission)
    requires Feed(c.source, es) && m in Run(c, es).out
    ensures m.source == c.source && m.metrics.windowSize == c.tag
  {
    OutputIsReference(c, es);
    EmittedAreTagged(c, es);
  }

  /** Exactly once over the whole output topic: no two records sent, by one aggregation or by two,
      have the same symbol, size, start and source. */
  lemma OutputKeysDistinct(sizes: seq<WindowSize>, grace: nat, arrivals: seq<MarketEvent>, x: nat, y: nat, i: nat, j: nat)
    requires Sizes(sizes) && AllComplete(arrivals)
    requires x <= y < 2 * |sizes| && (x == y ==> i < j)
    requires ConfigAt(sizes, grace, x).width > 0 && ConfigAt(sizes, grace, y).width > 0
    requires i < |TopicRun(ConfigAt(sizes, grace, x), arrivals).out| && j < |TopicRun(ConfigAt(sizes, grace, y), arrivals).out|
    ensures KeyOf(TopicRun(ConfigAt(sizes, grace, x), arrivals).out[i]) != KeyOf(TopicRun(ConfigAt(sizes, grace, y), arrivals).out[j])
  {
    var a: Operator, b: Operator := ConfigAt(sizes, grace, x), ConfigAt(sizes, grace, y);
    var m, n := TopicRun(a, arrivals).out[i], TopicRun(b, arrivals).out[j];
    assert m in TopicRun(a, arrivals).out && n in TopicRun(b, arrivals).out;
    if x == y {
      EmittedOnce(a, Topic(arrivals, a.source), i, j);
    } else {
      ConfigsLabelled(sizes, grace, x, y);
      EmittedAreLabelled(a, Topic(arrivals, a.source), m);
      EmittedAreLabelled(b, Topic(arrivals, b.source), n);
    }
  }
}
