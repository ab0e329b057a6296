/** The offline replay: one pass over the recorded messages, counting and routing. */
module Replay {
  import opened Basics
  import opened Schema
  import opened Normalize
  import opened Service
  import opened Outcomes
  import opened Routing
  import opened Ordering

  datatype Summary = Summary(messages: nat, events: nat, trades: nat, tickers: nat, quarantined: nat, bySymbol: map<string, nat>)

  /** The counts of a sequence of events: by type and by symbol. */
  datatype Tally = Tally(trades: nat, tickers: nat, bySymbol: map<string, nat>)

  function TallyEvent(t: Tally, e: MarketEvent): Tally {
    Tally(if e.eventType.Ticker? then t.trades else t.trades + 1,
          if e.eventType.Ticker? then t.tickers + 1 else t.tickers,
          t.bySymbol[e.symbol := CountFor(t.bySymbol, e.symbol) + 1])
  }

  function TallyOf(es: seq<MarketEvent>): Tally {
    if es == [] then Tally(0, 0, map[]) else TallyEvent(TallyOf(es[..|es| - 1]), es[|es| - 1])
  }

  lemma TallyAppend(es: seq<MarketEvent>, e: MarketEvent)
    ensures TallyOf(es + [e]) == TallyEvent(TallyOf(es), e)
  {
    assert (es + [e])[..|es|] == es;
  }

  /** A recorded message with its position in the recording. */
  datatype Recorded = Recorded(number: int, message: RawMessage)

  /** The recorded messages that a limit lets through. */
  function Limited(recs: seq<Recorded>, limit: Option<int>): seq<Recorded> {
    if limit == None || limit.value >= |recs| then recs
    else if limit.value < 0 then []
    else recs[..limit.value]
  }

  /** How many of the first `n` messages come before one that raises. */
  function BeforeRaise(recs: seq<Recorded>, symbols: seq<string>, n: nat): (k: nat)
    requires n <= |recs|
    ensures k <= n && forall i :: 0 <= i < k ==> !Unprocessable(recs[i].message, symbols)
    ensures k < n ==> Unprocessable(recs[k].message, symbols)
  {
    if n == 0 then 0
    else
      var k := BeforeRaise(recs, symbols, n - 1);
      if k < n - 1 || Unprocessable(recs[k].message, symbols) then k else n
  }

  /** The messages the replay gets through. */
  function Processed(recs: seq<Recorded>, limit: Option<int>, symbols: seq<string>): (done: seq<Recorded>)
    ensures forall r :: r in done ==> !Unprocessable(r.message, symbols)
  {
    var all := Limited(recs, limit);
    all[..BeforeRaise(all, symbols, |all|)]
  }

  /** Each message normalized with the time it is replayed at. */
  function NormalizeAll(recs: seq<Recorded>, ingest: nat -> nat, symbols: seq<string>): seq<Normalized>
    requires forall r :: r in recs ==> !Unprocessable(r.message, symbols)
  {
    seq(|recs|, i requires 0 <= i < |recs| =>
      assert recs[i] in recs; OfMessage(recs[i].message, ingest(i), symbols).value)
  }

  /** A replayed reject is quarantined under the number of its recorded message. */
  function Numbers(recs: seq<Recorded>): nat -> int {
    (i: nat) => if i < |recs| then recs[i].number else 0
  }

  /** What a replay sends. */
  function Replayed(recs: seq<Recorded>, limit: Option<int>, ingest: nat -> nat, symbols: seq<string>): seq<Message> {
    AllMessages(NormalizeAll(Processed(recs, limit, symbols), ingest, symbols), Numbers(recs))
  }

  /** The inner loop over one message's events. */
  method TallyMessage(t: Tally, es: seq<MarketEvent>, ghost before: seq<MarketEvent>) returns (r: Tally)
    requires t == TallyOf(before)
    ensures r == TallyOf(before + es)
  {
    r := t;
    assert before + [] == before;
    for i := 0 to |es|
      invariant r == TallyOf(before + es[..i])
    {
      var e := es[i];
      TallyAppend(before + es[..i], e);
      assert before + es[..i + 1] == before + es[..i] + [e];
      if e.eventType == Ticker {
        r := r.(tickers := r.tickers + 1);
      } else {
        r := r.(trades := r.trades + 1);
      }
      r := r.(bySymbol := r.bySymbol[e.symbol := CountFor(r.bySymbol, e.symbol) + 1]);
    }
    assert es[..|es|] == es;
  }

  /** The state of the loop after `n` messages. */
  ghost predicate Progress(ns: seq<Normalized>, numbers: nat -> int, n: nat, sent: seq<Message>, quarantined: nat, t: Tally) {
    n <= |ns| && sent == AllMessages(ns[..n], numbers) && quarantined == CountRejects(ns[..n]) && t == TallyOf(EventsOf(ns[..n]))
  }

  lemma ProgressStep(ns: seq<Normalized>, numbers: nat -> int, n: nat, sent: seq<Message>, quarantined: nat, t: Tally, t': Tally)
    requires n < |ns| && Progress(ns, numbers, n, sent, quarantined, t)
    requires t' == TallyOf(EventsOf(ns[..n]) + ns[n].events)
    ensures Progress(ns, numbers, n + 1, sent + MessagesOf(ns[n], numbers(n)), quarantined + |ns[n].rejects|, t')
  {
    CountsAppend(ns, numbers, n);
    assert ns[..n + 1][..n] == ns[..n];
  }

  lemma BeforeRaiseStays(recs: seq<Recorded>, symbols: seq<string>, i: nat)
    requires i < |recs| && Unprocessable(recs[i].message, symbols)
    requires forall j :: 0 <= j < i ==> !Unprocessable(recs[j].message, symbols)
    ensures BeforeRaise(recs, symbols, |recs|) == i
  {
  }

  /** The replay: it fails on a message that raises and on incomplete delivery, and otherwise reports
      what it sent. */
  method RunReplay(recs: seq<Recorded>, limit: Option<int>, ingest: nat -> nat, symbols: seq<string>,
                   undelivered: nat, failed: nat) returns (result: Option<Summary>, sent: seq<Message>)
    ensures sent == Replayed(recs, limit, ingest, symbols)
    ensures result == None <==> |Processed(recs, limit, symbols)| < |Limited(recs, limit)| || undelivered > 0 || failed > 0
    ensures var ns := NormalizeAll(Processed(recs, limit, symbols), ingest, symbols);
            var t := TallyOf(EventsOf(ns));
            result.Some? ==>
              result.value == Summary(|ns|, t.trades + t.tickers, t.trades, t.tickers, CountRejects(ns), t.bySymbol)
  {
    ghost var all, done, numbers := Limited(recs, limit), Processed(recs, limit, symbols), Numbers(recs);
    ghost var ns := NormalizeAll(done, ingest, symbols);
    var messages: nat, quarantined: nat := 0, 0;
    var t := Tally(0, 0, map[]);
    sent := [];
    while messages < |recs| && (limit == None || messages < limit.value)
      invariant Progress(ns, numbers, messages, sent, quarantined, t)
      decreases |recs| - messages
    {
      assert recs[messages] == all[messages];
      var m := OfMessage(recs[messages].message, ingest(messages), symbols);
      if m == None {
        BeforeRaiseStays(all, symbols, messages);
        assert ns[..messages] == ns;
        return None, sent;
      }
      assert m.value == ns[messages];
      ghost var was := t;
      t := TallyMessage(t, m.value.events, EventsOf(ns[..messages]));
      ProgressStep(ns, numbers, messages, sent, quarantined, was, t);
      sent := sent + MessagesOf(m.value, recs[messages].number);
      quarantined := quarantined + |m.value.rejects|;
      messages := messages + 1;
    }
    assert ns[..messages] == ns;
    if undelivered > 0 || failed > 0 {
      return None, sent;
    }
    result := Some(Summary(messages, t.trades + t.tickers, t.trades, t.tickers, quarantined, t.bySymbol));
  }

  // ---- The totals add up ----

  function SumFor(m: map<string, nat>, symbols: seq<string>): nat {
    if symbols == [] then 0 else SumFor(m, symbols[..|symbols| - 1]) + CountFor(m, symbols[|symbols| - 1])
  }

  lemma {:induction false} SumForIncrement(m: map<string, nat>, s: string, symbols: seq<string>)
    requires NoDuplicates(symbols)
    ensures SumFor(m[s := CountFor(m, s) + 1], symbols) == SumFor(m, symbols) + (if s in symbols then 1 else 0)
  {
    if symbols != [] {
      SumForIncrement(m, s, symbols[..|symbols| - 1]);
    }
  }

  lemma {:induction false} SumForEmpty(symbols: seq<string>)
    ensures SumFor(map[], symbols) == 0
  {
    if symbols != [] {
      SumForEmpty(symbols[..|symbols| - 1]);
    }
  }

  /** The per-symbol counts are the numbers of events of each symbol. */
  lemma {:induction false} TallyCounts(es: seq<MarketEvent>, symbol: string)
    ensures CountFor(TallyOf(es).bySymbol, symbol) == |Filter(es, OfSymbol(symbol))|
    ensures TallyOf(es).trades == |Filter(es, OfType(Trade))| && TallyOf(es).tickers == |Filter(es, OfType(Ticker))|
    ensures TallyOf(es).trades + TallyOf(es).tickers == |es|
  {
    if es != [] {
      TallyCounts(es[..|es| - 1], symbol);
    }
  }

  /** Summed over the symbols that occur, the per-symbol counts are all the events. */
  lemma {:induction false} BySymbolSums(es: seq<MarketEvent>, symbols: seq<string>)
    requires NoDuplicates(symbols)
    requires forall e :: e in es ==> e.symbol in symbols
    ensures SumFor(TallyOf(es).bySymbol, symbols) == |es|
  {
    if es == [] {
      SumForEmpty(symbols);
    } else {
      var n := |es| - 1;
      assert es[n] in es;
      BySymbolSums(es[..n], symbols);
      SumForIncrement(TallyOf(es[..n]).bySymbol, es[n].symbol, symbols);
    }
  }

  /** The totals of a replay: events are trades plus tickers, the sum over symbols, and what was sent
      to the raw topics; quarantined is everything else that was sent. */
  lemma TotalsAgree(ns: seq<Normalized>, numbers: nat -> int)
    ensures var t := TallyOf(EventsOf(ns));
            && t.trades + t.tickers == CountEvents(ns) == CountPublished(AllMessages(ns, numbers))
            && SumFor(t.bySymbol, Symbols(EventsOf(ns))) == CountEvents(ns)
            && CountRejects(ns) == |AllMessages(ns, numbers)| - CountPublished(AllMessages(ns, numbers))
  {
    TallyCounts(EventsOf(ns), "");
    BySymbolSums(EventsOf(ns), Symbols(EventsOf(ns)));
    EventsAndRejectsCounted(ns);
    MessagesCounted(ns, numbers);
  }

  // ---- Replay against the live producer ----

  /** A live producer without a message limit sends everything its connections deliver, however the
      messages are spread over the connections. */
  lemma {:induction false} LiveSendsDelivered(cs: seq<Connection>, limits: Limits, draw: nat -> real)
    requires limits.messages == None || limits.messages == Some(0)
    requires Produce(cs, limits, draw).connections == |cs|
    ensures Produce(cs, limits, draw).sent == AllMessages(Delivered(cs), Unnumbered())
  {
    if cs != [] {
      var n := |cs| - 1;
      var before, ms := Produce(cs[..n], limits, draw), cs[n].messages;
      RunningWithinLimits(cs[..n], limits, draw);
      LiveSendsDelivered(cs[..n], limits, draw);
      ConsumedIsFirstStop(before.published, ms, limits.messages, |ms|);
      assert ms[..|ms|] == ms;
      AllMessagesConcat(Delivered(cs[..n]), ms);
    }
  }

  function IsPublished(): Message -> bool {
    (m: Message) => m.Published?
  }

  /** What reaches the raw topics, in order. */
  function OnRawTopics(sent: seq<Message>): seq<Message> {
    Filter(sent, IsPublished())
  }

  lemma RawTopicsOfMessage(m: Normalized, number: int)
    ensures OnRawTopics(MessagesOf(m, number)) == Publications(m.events)
  {
    FilterConcat(Quarantines(m.rejects, number), Publications(m.events), IsPublished());
    FilterNone(Quarantines(m.rejects, number), IsPublished());
    FilterAll(Publications(m.events), IsPublished());
  }

  /** The numbering of rejects does not show on the raw topics. */
  lemma {:induction false} RawTopicsIgnoreNumbers(ns: seq<Normalized>, a: nat -> int, b: nat -> int)
    ensures OnRawTopics(AllMessages(ns, a)) == OnRawTopics(AllMessages(ns, b))
  {
    if ns != [] {
      var n := |ns| - 1;
      RawTopicsIgnoreNumbers(ns[..n], a, b);
      FilterConcat(AllMessages(ns[..n], a), MessagesOf(ns[n], a(n)), IsPublished());
      FilterConcat(AllMessages(ns[..n], b), MessagesOf(ns[n], b(n)), IsPublished());
      RawTopicsOfMessage(ns[n], a(n));
      RawTopicsOfMessage(ns[n], b(n));
    }
  }

  lemma SplitsEqually<T>(x: seq<T>, u: seq<T>, y: seq<T>, v: seq<T>)
    requires |x| == |y|
    ensures x + u == y + v <==> x == y && u == v
  {
    if x + u == y + v {
      assert x == (x + u)[..|x|] && y == (y + v)[..|y|];
      assert u == (x + u)[|x|..] && v == (y + v)[|y|..];
    }
  }

  lemma SameMessageNumbers(m: Normalized, a: int, b: int)
    ensures MessagesOf(m, a) == MessagesOf(m, b) <==> m.rejects == [] || a == b
  {
    if m.rejects != [] && a != b {
      assert MessagesOf(m, a)[0] == Quarantined(m.rejects[0], a);
      assert MessagesOf(m, b)[0] == Quarantined(m.rejects[0], b);
    } else if m.rejects == [] {
      assert Quarantines(m.rejects, a) == Quarantines(m.rejects, b);
    }
  }

  /** The numberings agree on every message that has rejects. */
  predicate NumbersAgree(ns: seq<Normalized>, a: nat -> int, b: nat -> int) {
    forall i: nat :: i < |ns| && ns[i].rejects != [] ==> a(i) == b(i)
  }

  lemma AgreeStep(ns: seq<Normalized>, a: nat -> int, b: nat -> int)
    requires ns != []
    ensures var n := |ns| - 1; NumbersAgree(ns, a, b) <==> NumbersAgree(ns[..n], a, b) && (ns[n].rejects == [] || a(n) == b(n))
  {
    forall i: nat | i < |ns| - 1 ensures ns[..|ns| - 1][i] == ns[i] {}
  }

  /** Two numberings send the same exactly when they agree on every message that has rejects. */
  lemma {:induction false} SameWhenNumbersAgree(ns: seq<Normalized>, a: nat -> int, b: nat -> int)
    ensures AllMessages(ns, a) == AllMessages(ns, b)
       <==> NumbersAgree(ns, a, b)
  {
    if ns != [] {
      var n := |ns| - 1;
      var x, y := AllMessages(ns[..n], a), AllMessages(ns[..n], b);
      var u, v := MessagesOf(ns[n], a(n)), MessagesOf(ns[n], b(n));
      SameWhenNumbersAgree(ns[..n], a, b);
      MessagesCounted(ns[..n], a);
      MessagesCounted(ns[..n], b);
      SplitsEqually(x, u, y, v);
      SameMessageNumbers(ns[n], a(n), b(n));
      AgreeStep(ns, a, b);
    }
  }

  /** Replay against live, on the same messages, however connections deliver them: the raw topics
      receive the same events in the same order, and quarantine the same records exactly when every
      message with a reject has number zero, as the live producer does not number its rejects. */
  lemma ReplayAgainstLive(recs: seq<Recorded>, limit: Option<int>, ingest: nat -> nat, symbols: seq<string>,
                          cs: seq<Connection>, limits: Limits, draw: nat -> real)
    requires limits.messages == None || limits.messages == Some(0)
    requires Produce(cs, limits, draw).connections == |cs|
    requires Delivered(cs) == NormalizeAll(Processed(recs, limit, symbols), ingest, symbols)
    ensures var live, replayed, ns := Produce(cs, limits, draw).sent, Replayed(recs, limit, ingest, symbols), Delivered(cs);
            && OnRawTopics(replayed) == OnRawTopics(live)
            && (replayed == live <==> forall i: nat :: i < |ns| && ns[i].rejects != [] ==> recs[i].number == 0)
  {
    var ns := Delivered(cs);
    LiveSendsDelivered(cs, limits, draw);
    RawTopicsIgnoreNumbers(ns, Numbers(recs), Unnumbered());
    SameWhenNumbersAgree(ns, Numbers(recs), Unnumbered());
    assert forall i: nat :: i < |ns| ==> Numbers(recs)(i) == recs[i].number;
  }

  /** A limit k >= 0 lets through the first k messages, or all there are. */
  lemma LimitedIsFirst(recs: seq<Recorded>, k: nat)
    ensures Limited(recs, Some(k)) <= recs && |Limited(recs, Some(k))| == (if k <= |recs| then k else |recs|)
    ensures Limited(recs, None) == recs
  {
  }

  /** A replay normalizes the first messages one by one, each at its own time; it sends the events of
      each type to the topic of that type, and the rejects to quarantine, in the order of the messages. */
  lemma ReplayRouting(recs: seq<Recorded>, limit: Option<int>, ingest: nat -> nat, symbols: seq<string>)
    ensures var sent, done := Replayed(recs, limit, ingest, symbols), Processed(recs, limit, symbols);
            var ns := NormalizeAll(done, ingest, symbols);
            && done <= recs && |ns| == |done|
            && (forall i :: 0 <= i < |ns| ==> OfMessage(recs[i].message, ingest(i), symbols) == Some(ns[i]))
            && (forall x :: x in sent && x.Published? ==> x.topic == x.event.eventType)
            && EventsTo(Trade, sent) == Filter(EventsOf(ns), OfType(Trade))
            && EventsTo(Ticker, sent) == Filter(EventsOf(ns), OfType(Ticker))
            && RejectsIn(sent) == RejectsOf(ns)
  {
    var done := Processed(recs, limit, symbols);
    var ns := NormalizeAll(done, ingest, symbols);
    forall i | 0 <= i < |ns| ensures OfMessage(recs[i].message, ingest(i), symbols) == Some(ns[i]) {
      assert done[i] in done && done[i] == recs[i];
    }
    TopicsAreTypes(ns, Numbers(recs));
    AllMessagesRouted(ns, Numbers(recs), Trade);
    AllMessagesRouted(ns, Numbers(recs), Ticker);
  }
}
