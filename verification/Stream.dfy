/** The streaming processor: one windowed aggregation over one topic, a record at a time. The state
    of a symbol is its watermark and its open windows in order of start; times are milliseconds. */
module Stream {
  import opened Basics
  import opened Schema
  import opened Time
  import opened Metrics

  /** One registered aggregation: the topic it reads, its window and its grace period in seconds. */
  datatype Config = Config(source: EventType, tag: string, width: nat, grace: nat)

  type Operator = c: Config | c.width > 0 witness Config(Trade, "1m", 60, 5)

  type Pos = n: nat | n > 0 witness 1

  /** The records of one raw topic, in arrival order. */
  function Topic(arrivals: seq<MarketEvent>, source: EventType): seq<MarketEvent> {
    Filter(arrivals, OfType(source))
  }

  /** What the engine keeps for an open window: sums and a count, or the parts of two means. */
  datatype Agg =
    | TradeAgg(pv: real, volume: real, count: Pos)
    | TickerAgg(spreadSum: real, midSum: real, count: Pos)

  function First(e: MarketEvent): Agg
    requires Complete(e)
  {
    match e.eventType
    case Trade => TradeAgg(e.price.value * e.size.value, e.size.value, 1)
    case Ticker => TickerAgg(e.bestAsk.value - e.bestBid.value, (e.bestAsk.value + e.bestBid.value) / 2.0, 1)
  }

  function Fold(a: Agg, e: MarketEvent): Agg
    requires Complete(e)
    requires a.TradeAgg? <==> e.eventType.Trade?
  {
    match a
    case TradeAgg(pv, volume, count) =>
      TradeAgg(pv + e.price.value * e.size.value, volume + e.size.value, count + 1)
    case TickerAgg(spreadSum, midSum, count) =>
      TickerAgg(spreadSum + (e.bestAsk.value - e.bestBid.value),
                midSum + (e.bestAsk.value + e.bestBid.value) / 2.0, count + 1)
  }

  /** A record of the output topic: the metrics and the topic they come from. */
  datatype Emission = Emission(source: EventType, metrics: WindowMetrics)

  datatype OpenWindow = OpenWindow(start: nat, agg: Agg)

  function Micros(millis: nat): nat {
    millis * MICROS_PER_MILLI
  }

  /** The finalizers: an aggregate becomes the record sent downstream. */
  function Finalize(c: Operator, symbol: string, w: OpenWindow): Emission {
    var start, end := Micros(w.start), Micros(w.start + c.width * MILLIS_PER_SECOND);
    match w.agg
    case TradeAgg(pv, volume, count) =>
      Emission(Trade, WindowMetrics(symbol, c.tag, start, end,
                                    if volume > 0.0 then Some(pv / volume) else None, volume, count,
                                    None, None, 0, count))
    case TickerAgg(spreadSum, midSum, count) =>
      Emission(Ticker, WindowMetrics(symbol, c.tag, start, end, None, 0.0, 0,
                                     Some(spreadSum / (count as real)), Some(midSum / (count as real)), count, count))
  }

  function FinalizeAll(c: Operator, symbol: string, ws: seq<OpenWindow>): seq<Emission> {
    seq(|ws|, i requires 0 <= i < |ws| => Finalize(c, symbol, ws[i]))
  }

  /** Event time in milliseconds. */
  function ExtractTs(e: MarketEvent): nat {
    e.tsEvent / MICROS_PER_MILLI
  }

  function StartMillis(c: Operator, e: MarketEvent): nat {
    AlignDown(ExtractTs(e), c.width * MILLIS_PER_SECOND)
  }

  /** The watermark at which the window starting at `start` closes. */
  function Deadline(c: Operator, start: nat): nat {
    start + c.width * MILLIS_PER_SECOND + c.grace * MILLIS_PER_SECOND
  }

  datatype KeyState = KeyState(watermark: nat, open: seq<OpenWindow>)

  const UNSEEN := KeyState(0, [])

  ghost predicate Ascending(open: seq<OpenWindow>) {
    forall i, j :: 0 <= i < j < |open| ==> open[i].start < open[j].start
  }

  predicate Uniform(source: EventType, open: seq<OpenWindow>) {
    forall w :: w in open ==> (w.agg.TradeAgg? <==> source.Trade?)
  }

  /** Fold a record into its window, opening the window when it is the first. */
  function Upsert(open: seq<OpenWindow>, start: nat, e: MarketEvent): (r: seq<OpenWindow>)
    requires Complete(e) && Uniform(e.eventType, open)
    ensures Uniform(e.eventType, r)
  {
    if open == [] then [OpenWindow(start, First(e))]
    else
      assert open[0] in open;
      if open[0].start < start then [open[0]] + Upsert(open[1..], start, e)
      else if open[0].start == start then [OpenWindow(start, Fold(open[0].agg, e))] + open[1..]
      else [OpenWindow(start, First(e))] + open
  }

  /** How many of the windows, oldest first, the watermark has closed. */
  function ExpiredCount(c: Operator, open: seq<OpenWindow>, watermark: nat): (n: nat)
    ensures n <= |open|
    ensures forall i :: 0 <= i < n ==> Deadline(c, open[i].start) <= watermark
    ensures n < |open| ==> watermark < Deadline(c, open[n].start)
  {
    if open != [] && Deadline(c, open[0].start) <= watermark
    then 1 + ExpiredCount(c, open[1..], watermark)
    else 0
  }

  function Max(a: nat, b: nat): nat {
    if a >= b then a else b
  }

  /** The record lands in a window that has already closed. */
  predicate IsLate(c: Operator, ks: KeyState, e: MarketEvent) {
    Deadline(c, StartMillis(c, e)) <= Max(ks.watermark, ExtractTs(e))
  }

  /** The windows of a symbol once a record of it has been folded in, before closing any. */
  function Admit(c: Operator, ks: KeyState, e: MarketEvent): seq<OpenWindow>
    requires Complete(e) && e.eventType == c.source && Uniform(c.source, ks.open)
  {
    if IsLate(c, ks, e) then ks.open else Upsert(ks.open, StartMillis(c, e), e)
  }

  /** One record of a symbol: the symbol's next state and the windows that the record closes. */
  function KeyStep(c: Operator, ks: KeyState, e: MarketEvent): (r: (KeyState, seq<Emission>))
    requires Complete(e) && e.eventType == c.source && Uniform(c.source, ks.open)
    ensures Uniform(c.source, r.0.open)
  {
    var watermark := Max(ks.watermark, ExtractTs(e));
    var open := Admit(c, ks, e);
    var n := ExpiredCount(c, open, watermark);
    (KeyState(watermark, open[n..]), FinalizeAll(c, e.symbol, open[..n]))
  }

  /** The operator: a state per symbol, the output topic and the late-record log. */
  datatype OpState = OpState(keys: map<string, KeyState>, out: seq<Emission>, late: seq<MarketEvent>)

  const START := OpState(map[], [], [])

  predicate WellTyped(c: Operator, st: OpState) {
    forall s :: s in st.keys ==> Uniform(c.source, st.keys[s].open)
  }

  function StateOf(st: OpState, symbol: string): KeyState {
    if symbol in st.keys then st.keys[symbol] else UNSEEN
  }

  function Step(c: Operator, st: OpState, e: MarketEvent): (r: OpState)
    requires Complete(e) && e.eventType == c.source && WellTyped(c, st)
    ensures WellTyped(c, r)
  {
    var ks := StateOf(st, e.symbol);
    var (ks', emitted) := KeyStep(c, ks, e);
    OpState(st.keys[e.symbol := ks'], st.out + emitted, if IsLate(c, ks, e) then st.late + [e] else st.late)
  }

  /** The records a topic can hold: of one type and with the fields the aggregation reads. */
  predicate Feed(source: EventType, es: seq<MarketEvent>) {
    forall e :: e in es ==> Complete(e) && e.eventType == source
  }

  /** The whole run over an arrival sequence. */
  function Run(c: Operator, es: seq<MarketEvent>): (st: OpState)
    requires Feed(c.source, es)
    ensures WellTyped(c, st)
  {
    if es == [] then START else
      assert es[|es| - 1] in es;
      Step(c, Run(c, es[..|es| - 1]), es[|es| - 1])
  }

  /** The records that were not dropped as late. */
  function Accepted(c: Operator, es: seq<MarketEvent>): (r: seq<MarketEvent>)
    requires Feed(c.source, es)
    ensures forall e :: e in r ==> e in es
  {
    if es == [] then [] else
      var before, e := es[..|es| - 1], es[|es| - 1];
      Accepted(c, before) + (if IsLate(c, StateOf(Run(c, before), e.symbol), e) then [] else [e])
  }

  /** The engine's operator, updated in place by each record. */
  class WindowOperator {
    const config: Operator
    var keys: map<string, KeyState>
    var out: seq<Emission>
    var late: seq<MarketEvent>

    function Model(): OpState
      reads this
    {
      OpState(keys, out, late)
    }

    constructor (config: Operator)
      ensures this.config == config && Model() == Run(config, [])
    {
      this.config := config;
      keys, out, late := map[], [], [];
    }

    /** Emit and forget the windows of a symbol that the watermark has closed, oldest first. */
    method Expire(symbol: string, open: seq<OpenWindow>, watermark: nat) returns (rest: seq<OpenWindow>)
      modifies this`out
      ensures var n := ExpiredCount(config, open, watermark);
              rest == open[n..] && out == old(out) + FinalizeAll(config, symbol, open[..n])
    {
      var i := 0;
      while i < |open| && Deadline(config, open[i].start) <= watermark
        invariant i <= ExpiredCount(config, open, watermark)
        invariant out == old(out) + FinalizeAll(config, symbol, open[..i])
      {
        out := out + [Finalize(config, symbol, open[i])];
        i := i + 1;
      }
      rest := open[i..];
    }

    /** One record: advance the watermark, fold or drop, then emit what has closed. */
    method Process(e: MarketEvent)
      requires Complete(e) && e.eventType == config.source && WellTyped(config, Model())
      modifies this
      ensures Model() == Step(config, old(Model()), e)
    {
      var ks := StateOf(Model(), e.symbol);
      var ts := ExtractTs(e);
      var watermark := if ts > ks.watermark then ts else ks.watermark;
      StreamNamesTheWindow(e.tsEvent, config.width);
      var start := StreamStart(ts, config.width);
      var open := ks.open;
      if Deadline(config, start) <= watermark {
        late := late + [e];
      } else {
        open := Upsert(open, start, e);
      }
      open := Expire(e.symbol, open, watermark);
      keys := keys[e.symbol := KeyState(watermark, open)];
    }
  }

  /** The operator fed a whole arrival sequence. */
  method Consume(config: Operator, es: seq<MarketEvent>) returns (op: WindowOperator)
    requires Feed(config.source, es)
    ensures op.config == config && op.Model() == Run(config, es)
  {
    op := new WindowOperator(config);
    for i := 0 to |es|
      invariant fresh(op) && op.config == config
      invariant op.Model() == Run(config, es[..i])
    {
      assert es[..i + 1][..i] == es[..i];
      op.Process(es[i]);
    }
    assert es[..|es|] == es;
  }
}
