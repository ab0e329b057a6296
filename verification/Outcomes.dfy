/** How a run of the live producer ends, from the messages its connections deliver and its limits. */
module Outcomes {
  import opened Basics
  import opened Normalize
  import opened Service

  // ---- When it runs on, stops and raises ----

  /** The messages of several connections, in order. */
  function Delivered(cs: seq<Connection>): seq<Normalized> {
    if cs == [] then [] else Delivered(cs[..|cs| - 1]) + cs[|cs| - 1].messages
  }

  /** These messages, if there are any, publish too little to hit the limit. */
  predicate ShortOf(limit: Option<int>, ms: seq<Normalized>) {
    ms == [] || !LimitHit(limit, CountEvents(ms))
  }

  /** The limit on reconnects lets connection `i` be opened; the first one always is. */
  predicate MayOpen(limit: Option<int>, i: nat) {
    i == 0 || limit == None || i <= limit.value
  }

  lemma {:induction false} CountEventsConcat(a: seq<Normalized>, b: seq<Normalized>)
    ensures CountEvents(a + b) == CountEvents(a) + CountEvents(b)
  {
    if b == [] {
      assert a + b == a;
    } else {
      var n := |b| - 1;
      CountEventsConcat(a, b[..n]);
      assert (a + b)[..|a + b| - 1] == a + b[..n];
    }
  }

  lemma {:induction false} PrefixCounts(ms: seq<Normalized>, k: nat)
    requires k <= |ms|
    ensures CountEvents(ms[..k]) <= CountEvents(ms)
  {
    if k == |ms| {
      assert ms[..k] == ms;
    } else {
      var n := |ms| - 1;
      PrefixCounts(ms[..n], k);
      assert ms[..n][..k] == ms[..k];
    }
  }

  lemma ConsumedStops(before: nat, ms: seq<Normalized>, limit: Option<int>)
    ensures StopsOn(before, ms, limit) || Taken(before, ms, limit) == ms
  {
    ConsumedIsFirstStop(before, ms, limit, |ms|);
    assert ms[..|ms|] == ms;
  }

  /** A connection is cut short exactly when all its messages together hit the limit. */
  lemma StopsOnIff(before: nat, ms: seq<Normalized>, limit: Option<int>)
    ensures StopsOn(before, ms, limit) <==> ms != [] && LimitHit(limit, before + CountEvents(ms))
    ensures !StopsOn(before, ms, limit) ==> Taken(before, ms, limit) == ms
  {
    var k := Consumed(before, ms, limit, |ms|);
    ConsumedStops(before, ms, limit);
    PrefixCounts(ms, k);
  }

  /** The connection's messages, after `before` events, hit the limit. */
  predicate Hits(limit: Option<int>, before: nat, c: Connection) {
    c.messages != [] && LimitHit(limit, before + CountEvents(c.messages))
  }

  /** What one connection makes of a running producer. */
  lemma ConnectOutcome(p: Producer, c: Connection, limits: Limits, u: real)
    requires p.status.Running?
    ensures var q, hits := Connect(p, c, limits, u), Hits(limits.messages, p.published, c);
            && q.connections == p.connections + 1 && (!hits ==> q.published == p.published + CountEvents(c.messages))
            && q.status == if hits then ReachedMessages
                           else if c.raises then Raised
                           else if MayOpen(limits.reconnects, p.connections + 1) then Running
                           else ReachedReconnects
  {
    StopsOnIff(p.published, c.messages, limits.messages);
  }

  /** Consuming the messages of one more connection. */
  lemma DeliveredMore(limit: Option<int>, cs: seq<Connection>)
    requires cs != []
    ensures var before, last := Delivered(cs[..|cs| - 1]), cs[|cs| - 1];
            && CountEvents(Delivered(cs)) == CountEvents(before) + CountEvents(last.messages)
            && (ShortOf(limit, Delivered(cs)) <==> ShortOf(limit, before) && !Hits(limit, CountEvents(before), last))
  {
    var a, b := Delivered(cs[..|cs| - 1]), cs[|cs| - 1].messages;
    CountEventsConcat(a, b);
    assert a + b == [] <==> a == [] && b == [];
    assert b == [] ==> a + b == a;
  }

  lemma {:induction false} ShortOfPrefix(limit: Option<int>, cs: seq<Connection>, i: nat)
    requires i <= |cs| && ShortOf(limit, Delivered(cs))
    ensures ShortOf(limit, Delivered(cs[..i]))
  {
    if i == |cs| {
      assert cs[..i] == cs;
    } else {
      var n := |cs| - 1;
      DeliveredMore(limit, cs);
      ShortOfPrefix(limit, cs[..n], i);
      assert cs[..n][..i] == cs[..i];
    }
  }

  lemma ShortOfEarlier(limit: Option<int>, cs: seq<Connection>, i: nat, n: nat)
    requires i <= n <= |cs| && ShortOf(limit, Delivered(cs[..n]))
    ensures ShortOf(limit, Delivered(cs[..i]))
  {
    ShortOfPrefix(limit, cs[..n], i);
    assert cs[..n][..i] == cs[..i];
  }

  predicate NoneRaises(cs: seq<Connection>) {
    forall i :: 0 <= i < |cs| ==> !cs[i].raises
  }

  lemma NoneRaisesStep(cs: seq<Connection>)
    requires cs != []
    ensures NoneRaises(cs) <==> NoneRaises(cs[..|cs| - 1]) && !cs[|cs| - 1].raises
  {
    forall i | 0 <= i < |cs| - 1 ensures cs[i] == cs[..|cs| - 1][i] {}
  }

  /** What keeps a producer running: no connection raises, the reconnects allow for them all, and their
      messages do not hit the message limit. */
  predicate KeepsRunning(cs: seq<Connection>, limits: Limits) {
    && NoneRaises(cs) && MayOpen(limits.reconnects, |cs|) && ShortOf(limits.messages, Delivered(cs))
  }

  lemma KeepsRunningStep(cs: seq<Connection>, limits: Limits)
    requires cs != []
    ensures KeepsRunning(cs, limits)
       <==> && KeepsRunning(cs[..|cs| - 1], limits) && !cs[|cs| - 1].raises && MayOpen(limits.reconnects, |cs|)
            && !Hits(limits.messages, CountEvents(Delivered(cs[..|cs| - 1])), cs[|cs| - 1])
  {
    DeliveredMore(limits.messages, cs);
    NoneRaisesStep(cs);
  }

  /** The producer still runs after its connections exactly when they keep it running; everything they
      delivered is then published. */
  lemma {:induction false} RunningIff(cs: seq<Connection>, limits: Limits, draw: nat -> real)
    ensures var p := Produce(cs, limits, draw);
            && (p.status.Running? <==> KeepsRunning(cs, limits))
            && (p.status.Running? ==> p.connections == |cs| && p.published == CountEvents(Delivered(cs)))
  {
    if cs != [] {
      var n := |cs| - 1;
      var before := Produce(cs[..n], limits, draw);
      RunningIff(cs[..n], limits, draw);
      KeepsRunningStep(cs, limits);
      DeliveredMore(limits.messages, cs);
      if before.status.Running? {
        ConnectOutcome(before, cs[n], limits, draw(|before.sleeps|));
      }
    }
  }

  /** What connection `i` makes of a producer that is running before it. */
  lemma OutcomeAt(cs: seq<Connection>, limits: Limits, draw: nat -> real, i: nat)
    requires i < |cs| && Produce(cs[..i], limits, draw).status.Running?
    ensures KeepsRunning(cs[..i], limits)
    ensures Produce(cs[..i + 1], limits, draw).status.ReachedMessages? <==> !ShortOf(limits.messages, Delivered(cs[..i + 1]))
    ensures Produce(cs[..i + 1], limits, draw).status.Raised? <==> cs[i].raises && ShortOf(limits.messages, Delivered(cs[..i + 1]))
  {
    var before := Produce(cs[..i], limits, draw);
    assert cs[..i + 1][..i] == cs[..i];
    RunningIff(cs[..i], limits, draw);
    OpenedStep(cs, limits, draw, i);
    ConnectOutcome(before, cs[i], limits, draw(|before.sleeps|));
    DeliveredMore(limits.messages, cs[..i + 1]);
  }

  /** The message that raises in connection `i` is reached: the connection may be opened, and what is
      delivered up to there does not hit the message limit. */
  predicate RaiseReached(cs: seq<Connection>, limits: Limits, i: nat)
    requires i < |cs|
  {
    cs[i].raises && MayOpen(limits.reconnects, i) && ShortOf(limits.messages, Delivered(cs[..i + 1]))
  }

  lemma RaiseFound(cs: seq<Connection>, limits: Limits, draw: nat -> real) returns (i: nat)
    requires Produce(cs, limits, draw).status.Raised?
    ensures i < |cs| && RaiseReached(cs, limits, i)
  {
    RunningWithinLimits(cs, limits, draw);
    OpenedInOrder(cs, limits, draw);
    i := Produce(cs, limits, draw).connections - 1;
    OpenedWhileRunning(cs, limits, draw, i);
    OutcomeAt(cs, limits, draw, i);
  }

  lemma FirstRaiseStops(cs: seq<Connection>, limits: Limits, draw: nat -> real, i: nat)
    requires i < |cs| && RaiseReached(cs, limits, i) && NoneRaises(cs[..i])
    ensures Produce(cs, limits, draw).status.Raised?
  {
    ShortOfEarlier(limits.messages, cs, i, i + 1);
    RunningIff(cs[..i], limits, draw);
    OutcomeAt(cs, limits, draw, i);
    ProduceStops(cs, limits, draw, i + 1);
  }

  lemma EarlierRaiseReached(cs: seq<Connection>, limits: Limits, j: nat, i: nat)
    requires j < i < |cs| && cs[j].raises && RaiseReached(cs, limits, i)
    ensures RaiseReached(cs, limits, j)
  {
    ShortOfEarlier(limits.messages, cs, j + 1, i + 1);
  }

  /** If an earlier connection raises, it does so first. */
  lemma {:induction false} RaiseStops(cs: seq<Connection>, limits: Limits, draw: nat -> real, i: nat)
    requires i < |cs| && RaiseReached(cs, limits, i)
    ensures Produce(cs, limits, draw).status.Raised?
    decreases i
  {
    if NoneRaises(cs[..i]) {
      FirstRaiseStops(cs, limits, draw, i);
    } else {
      var j :| 0 <= j < i && cs[..i][j].raises;
      EarlierRaiseReached(cs, limits, j, i);
      RaiseStops(cs, limits, draw, j);
    }
  }

  /** The producer raises exactly when one of its connections delivers a message that raises, may be
      opened, and is not cut short: the messages up to there publish less than the limit. */
  lemma RaisesIff(cs: seq<Connection>, limits: Limits, draw: nat -> real)
    ensures Produce(cs, limits, draw).status.Raised? <==> exists i :: 0 <= i < |cs| && RaiseReached(cs, limits, i)
  {
    if Produce(cs, limits, draw).status.Raised? {
      var i := RaiseFound(cs, limits, draw);
    } else if i :| 0 <= i < |cs| && RaiseReached(cs, limits, i) {
      RaiseStops(cs, limits, draw, i);
    }
  }

  /** The producer is still running before connection `i`, and the messages up to its end hit the limit. */
  predicate LimitReached(cs: seq<Connection>, limits: Limits, i: nat)
    requires i < |cs|
  {
    KeepsRunning(cs[..i], limits) && !ShortOf(limits.messages, Delivered(cs[..i + 1]))
  }

  lemma LimitStops(cs: seq<Connection>, limits: Limits, draw: nat -> real, i: nat)
    requires i < |cs| && LimitReached(cs, limits, i)
    ensures Produce(cs, limits, draw).status.ReachedMessages?
  {
    RunningIff(cs[..i], limits, draw);
    OutcomeAt(cs, limits, draw, i);
    ProduceStops(cs, limits, draw, i + 1);
  }

  lemma LimitFound(cs: seq<Connection>, limits: Limits, draw: nat -> real) returns (i: nat)
    requires Produce(cs, limits, draw).status.ReachedMessages?
    ensures i < |cs| && LimitReached(cs, limits, i)
  {
    RunningWithinLimits(cs, limits, draw);
    OpenedInOrder(cs, limits, draw);
    i := Produce(cs, limits, draw).connections - 1;
    OpenedWhileRunning(cs, limits, draw, i);
    OutcomeAt(cs, limits, draw, i);
  }

  /** The producer stops on its message limit exactly when the limit is reached in some connection. */
  lemma ReachesLimitIff(cs: seq<Connection>, limits: Limits, draw: nat -> real)
    ensures Produce(cs, limits, draw).status.ReachedMessages? <==> exists i :: 0 <= i < |cs| && LimitReached(cs, limits, i)
  {
    if Produce(cs, limits, draw).status.ReachedMessages? {
      var i := LimitFound(cs, limits, draw);
    } else if i :| 0 <= i < |cs| && LimitReached(cs, limits, i) {
      LimitStops(cs, limits, draw, i);
    }
  }

  /** The connection that delivers these raw messages, the i-th normalized at the time `ingest(i)`. */
  function Deliver(raw: seq<RawMessage>, ingest: nat -> nat, symbols: seq<string>): Connection {
    if raw == [] then Connection([], false)
    else
      var n := |raw| - 1;
      var c := Deliver(raw[..n], ingest, symbols);
      if c.raises then c
      else match OfMessage(raw[n], ingest(n), symbols)
        case None => c.(raises := true)
        case Some(m) => c.(messages := c.messages + [m])
  }

  /** It delivers them, normalized, up to the first that raises. */
  lemma {:induction false} DeliverUpToRaise(raw: seq<RawMessage>, ingest: nat -> nat, symbols: seq<string>)
    ensures var c := Deliver(raw, ingest, symbols);
            && |c.messages| <= |raw|
            && (forall i :: 0 <= i < |c.messages| ==> OfMessage(raw[i], ingest(i), symbols) == Some(c.messages[i]))
            && (if c.raises then |c.messages| < |raw| && Unprocessable(raw[|c.messages|], symbols) else |c.messages| == |raw|)
  {
    if raw != [] {
      DeliverUpToRaise(raw[..|raw| - 1], ingest, symbols);
    }
  }

  /** It raises exactly when one of them does. */
  lemma DeliverRaisesIff(raw: seq<RawMessage>, ingest: nat -> nat, symbols: seq<string>)
    ensures Deliver(raw, ingest, symbols).raises <==> exists m :: m in raw && Unprocessable(m, symbols)
  {
    var c := Deliver(raw, ingest, symbols);
    DeliverUpToRaise(raw, ingest, symbols);
    if c.raises {
      assert raw[|c.messages|] in raw;
    } else {
      forall m | m in raw ensures !Unprocessable(m, symbols) {
        var i :| 0 <= i < |raw| && raw[i] == m;
        assert OfMessage(raw[i], ingest(i), symbols) == Some(c.messages[i]);
      }
    }
  }

  lemma DeliverOne(m: RawMessage, ingest: nat -> nat, symbols: seq<string>)
    ensures Deliver([m], ingest, symbols)
         == match OfMessage(m, ingest(0), symbols) case None => Connection([], true) case Some(r) => Connection([r], false)
  {
    assert [m][..0] == [];
  }

  lemma ConnectOnce(c: Connection, limits: Limits, draw: nat -> real)
    ensures Produce([c], limits, draw) == Connect(Fresh(), c, limits, draw(0))
  {
    assert [c][..0] == [];
  }

  lemma RaisesAtOnce(limits: Limits, u: real)
    ensures var p := Connect(Fresh(), Connection([], true), limits, u); p.status.Raised? && p.published == 0
  {
    assert Taken(0, [], limits.messages) == [];
  }

  lemma PublishesOne(m: Normalized, limits: Limits, u: real)
    ensures Connect(Fresh(), Connection([m], false), limits, u).published == |m.events|
  {
    assert [m][..1] == [m] && [m][..0] == [];
    assert Consumed(0, [m], limits.messages, 1) == 1;
    assert CountEvents([m]) == |m.events|;
  }

  /** One malformed trade, with a null time and next to a trade that alone is published, ends the run
      with nothing published, whatever the limits. */
  lemma MalformedMessageEndsRun(symbols: seq<string>, ingest: nat -> nat, limits: Limits, draw: nat -> real)
    requires "BTC-USD" in symbols
    ensures var plain := PlainTrade();
            var alone := Deliver([FromCoinbase(TradeMessage([plain]))], ingest, symbols);
            var both := Deliver([FromCoinbase(TradeMessage([plain, plain.(time := OddTime)]))], ingest, symbols);
            && Produce([alone], limits, draw).published == 1
            && Produce([both], limits, draw).status.Raised? && Produce([both], limits, draw).published == 0
  {
    var alone := FromCoinbase(TradeMessage([PlainTrade()]));
    var both := FromCoinbase(TradeMessage([PlainTrade(), PlainTrade().(time := OddTime)]));
    SymbolMapSound(Dash, symbols);
    assert Native(Dash, "BTC-USD") in BuildSymbolMap(Dash, symbols);
    NullTimeLosesSibling(ingest(0), BuildSymbolMap(Dash, symbols));
    DeliverOne(alone, ingest, symbols);
    DeliverOne(both, ingest, symbols);
    ConnectOnce(Deliver([alone], ingest, symbols), limits, draw);
    ConnectOnce(Deliver([both], ingest, symbols), limits, draw);
    PublishesOne(OfMessage(alone, ingest(0), symbols).value, limits, draw(0));
    RaisesAtOnce(limits, draw(0));
  }

  /** Without a limit, or with zero, the producer never stops on messages. */
  lemma {:induction false} NoLimitNoStop(cs: seq<Connection>, limits: Limits, draw: nat -> real)
    requires limits.messages == None || limits.messages == Some(0)
    ensures !Produce(cs, limits, draw).status.ReachedMessages?
  {
    if cs != [] {
      NoLimitNoStop(cs[..|cs| - 1], limits, draw);
    }
  }

  // ---- The limits, exactly ----

  /** Nothing but the reconnects can stop the producer. */
  predicate OnlyReconnectsStop(cs: seq<Connection>, limits: Limits, m: nat) {
    limits.reconnects == Some(m) && (limits.messages == None || limits.messages == Some(0)) && NoneRaises(cs)
  }

  lemma RunsUpToLimit(cs: seq<Connection>, limits: Limits, draw: nat -> real, m: nat)
    requires OnlyReconnectsStop(cs, limits, m) && |cs| <= m
    ensures var p := Produce(cs, limits, draw); p.status.Running? && p.connections == |cs| && |p.sleeps| == |cs|
  {
    RunningIff(cs, limits, draw);
    RunningWithinLimits(cs, limits, draw);
  }

  lemma StopsPastLimit(p: Producer, c: Connection, limits: Limits, u: real, m: nat)
    requires p.status.Running? && p.connections == m && OnlyReconnectsStop([c], limits, m)
    ensures var q := Connect(p, c, limits, u); q.status.ReachedReconnects? && q.connections == m + 1 && q.sleeps == p.sleeps
  {
    ConnectOutcome(p, c, limits, u);
    assert !([c][0].raises);
  }

  lemma StopsAtConnection(cs: seq<Connection>, limits: Limits, draw: nat -> real, m: nat)
    requires OnlyReconnectsStop(cs, limits, m) && |cs| > m
    ensures var p := Produce(cs[..m + 1], limits, draw); p.status.ReachedReconnects? && p.connections == m + 1 && |p.sleeps| == m
  {
    var before := Produce(cs[..m], limits, draw);
    RunsUpToLimit(cs[..m], limits, draw, m);
    OpenedStep(cs, limits, draw, m);
    StopsPastLimit(before, cs[m], limits, draw(|before.sleeps|), m);
  }

  /** With m reconnects allowed, no message limit and no exception, exactly m + 1 connections are opened
      and m sleeps taken, if so many are offered; the producer returns no sooner. */
  lemma ReconnectsExactly(cs: seq<Connection>, limits: Limits, draw: nat -> real, m: nat)
    requires OnlyReconnectsStop(cs, limits, m)
    ensures var p := Produce(cs, limits, draw);
            if |cs| <= m then p.status.Running? && p.connections == |cs| && |p.sleeps| == |cs|
            else p.status.ReachedReconnects? && p.connections == m + 1 && |p.sleeps| == m
  {
    if |cs| <= m {
      RunsUpToLimit(cs, limits, draw, m);
    } else {
      StopsAtConnection(cs, limits, draw, m);
      ProduceStops(cs, limits, draw, m + 1);
    }
  }

  /** A negative message limit stops the producer on its first message, whatever that holds. */
  lemma NegativeLimit(cs: seq<Connection>, limits: Limits, draw: nat -> real)
    requires limits.messages.Some? && limits.messages.value < 0 && cs != [] && cs[0].messages != []
    ensures var p := Produce(cs, limits, draw);
            p.status.ReachedMessages? && p.connections == 1 && p.sent == MessagesOf(cs[0].messages[0], 0)
  {
    var ms := cs[0].messages;
    assert cs[..1][..0] == [] && ms[..1][..0] == [];
    ConsumedStays(0, ms, limits.messages, 1, |ms|);
    assert AllMessages(ms[..1], Unnumbered()) == MessagesOf(ms[0], 0);
    ProduceStops(cs, limits, draw, 1);
  }

  lemma {:induction false} SinceResetIs(log: seq<bool>, j: nat, n: nat)
    requires j + n < |log| && (j == 0 || log[j]) && forall i :: j < i <= j + n ==> !log[i]
    ensures SinceReset(log, j + n) == n
  {
    if n > 0 {
      SinceResetIs(log, j, n - 1);
    }
  }

  lemma SleepAt(s: Schedule, p: Producer, log: seq<bool>, draw: nat -> real, j: nat, n: nat)
    requires DelaysFollow(s, p, log, draw) && j + n < |p.sleeps|
    requires (j == 0 || log[j]) && forall i :: j < i <= j + n ==> !log[i]
    ensures p.sleeps[j + n] == Delay(s, draw(j + n), n)
  {
    SinceResetIs(log, j, n);
  }

  /** The published count grows over connection `i`. */
  predicate Grows(cs: seq<Connection>, limits: Limits, draw: nat -> real, i: nat)
    requires i < |cs|
  {
    Produce(cs[..i + 1], limits, draw).published > Produce(cs[..i], limits, draw).published
  }

  /** Connection `j` published something, or is the first, and none of the `n` after it did. */
  predicate QuietSince(cs: seq<Connection>, limits: Limits, draw: nat -> real, j: nat, n: nat)
    requires j + n < |cs|
  {
    (j == 0 || Grows(cs, limits, draw, j)) && forall i :: j < i <= j + n ==> !Grows(cs, limits, draw, i)
  }

  lemma LogIsGrowth(cs: seq<Connection>, limits: Limits, draw: nat -> real, i: nat)
    requires i < Produce(cs, limits, draw).connections
    ensures i < |cs| && ProductiveLog(cs, limits, draw)[i] == Grows(cs, limits, draw, i)
  {
    ProductivePublishes(cs, limits, draw, i);
  }

  lemma QuietLog(cs: seq<Connection>, limits: Limits, draw: nat -> real, j: nat, n: nat)
    requires j + n < |cs| && j + n < Produce(cs, limits, draw).connections && QuietSince(cs, limits, draw, j, n)
    ensures var log := ProductiveLog(cs, limits, draw); (j == 0 || log[j]) && forall i :: j < i <= j + n ==> !log[i]
  {
    LogIsGrowth(cs, limits, draw, j);
    forall i | j < i <= j + n ensures !ProductiveLog(cs, limits, draw)[i] {
      LogIsGrowth(cs, limits, draw, i);
    }
  }

  /** After a connection over which something was published, or from the first, the n-th unproductive
      reconnect in a row sleeps for the n-th delay of the schedule. */
  lemma SleepAfterProductive(cs: seq<Connection>, limits: Limits, draw: nat -> real, j: nat, n: nat)
    requires j + n < |cs| && j + n < |Produce(cs, limits, draw).sleeps|
    requires QuietSince(cs, limits, draw, j, n)
    ensures Produce(cs, limits, draw).sleeps[j + n] == Delay(limits.backoff, draw(j + n), n)
  {
    DelaysFollowResets(cs, limits, draw);
    RunningWithinLimits(cs, limits, draw);
    QuietLog(cs, limits, draw, j, n);
    SleepAt(limits.backoff, Produce(cs, limits, draw), ProductiveLog(cs, limits, draw), draw, j, n);
  }
}
