/** The live producer's reconnect loop and its jittered backoff, over reals. A connection is the
    finite stream of messages it delivers, already normalized; whether it then ends in a transport
    error or in a clean close makes no difference to the loop. */
module Service {
  import opened Basics
  import opened Schema
  import opened Normalize

  // ---- Backoff ----

  function Pow(x: real, n: nat): real {
    if n == 0 then 1.0 else x * Pow(x, n - 1)
  }

  function Min(a: real, b: real): real {
    if a <= b then a else b
  }

  /** The parameters of a backoff schedule. */
  datatype Schedule = Schedule(base: real, cap: real, factor: real, jitter: bool)

  /** The ceiling of an attempt: exponential growth from the base, cut off at the cap. */
  function Bound(s: Schedule, attempt: nat): real {
    Min(s.cap, s.base * Pow(s.factor, attempt))
  }

  /** With jitter a draw `u` in [0, 1] scales the ceiling down; without, the delay is the ceiling. */
  function Delay(s: Schedule, u: real, attempt: nat): real {
    if s.jitter then u * Bound(s, attempt) else Bound(s, attempt)
  }

  lemma ScaledDown(u: real, b: real)
    requires 0.0 <= u <= 1.0 && b >= 0.0
    ensures 0.0 <= u * b <= b
  {
    assert (1.0 - u) * b >= 0.0;
  }

  /** The generator of a schedule's delays. */
  class BackoffDelays {
    const schedule: Schedule
    var attempt: nat

    constructor (schedule: Schedule)
      ensures this.schedule == schedule && attempt == 0
    {
      this.schedule, attempt := schedule, 0;
    }

    /** The next delay: the ceiling itself without jitter, and with jitter somewhere below it. */
    method Next(u: real) returns (delay: real)
      modifies this
      ensures delay == Delay(schedule, u, old(attempt)) && attempt == old(attempt) + 1
      ensures !schedule.jitter ==> delay == Bound(schedule, old(attempt))
      ensures 0.0 <= u <= 1.0 && 0.0 <= Bound(schedule, old(attempt)) ==> 0.0 <= delay <= Bound(schedule, old(attempt))
      ensures schedule.jitter && u == 0.0 ==> delay == 0.0
      ensures schedule.jitter && u == 1.0 ==> delay == Bound(schedule, old(attempt))
    {
      var ceiling := Bound(schedule, attempt);
      if schedule.jitter {
        delay := u * ceiling;
        if 0.0 <= u <= 1.0 && 0.0 <= ceiling {
          ScaledDown(u, ceiling);
        }
      } else {
        delay := ceiling;
      }
      attempt := attempt + 1;
    }
  }

  /** The producer's schedule: half a second, doubling, capped at thirty, with jitter. */
  function Doubling(): Schedule {
    Schedule(0.5, 30.0, 2.0, true)
  }

  lemma {:induction false} PowerGrows(n: nat)
    ensures Pow(2.0, n) >= 1.0
    ensures n >= 6 ==> Pow(2.0, n) >= 64.0
  {
    if n > 6 {
      PowerGrows(n - 1);
    } else if n > 0 {
      PowerGrows(n - 1);
      assert n == 6 ==> Pow(2.0, 6) == 2.0 * (2.0 * (2.0 * (2.0 * (2.0 * (2.0 * Pow(2.0, 0))))));
    }
  }

  /** Each bound is the smaller of the cap and the one before it, grown by the factor. */
  lemma BoundGrows(s: Schedule, n: nat)
    requires s.cap >= 0.0 && s.factor >= 1.0
    ensures Bound(s, 0) == Min(s.cap, s.base) && Bound(s, n + 1) == Min(s.cap, s.factor * Bound(s, n))
  {
    var x := s.base * Pow(s.factor, n);
    assert s.base * Pow(s.factor, n + 1) == s.factor * x;
    assert x > s.cap ==> (s.factor - 1.0) * x >= 0.0;
    assert (s.factor - 1.0) * s.cap >= 0.0;
  }

  /** The bounds rise from a half to thirty seconds and stay there from the seventh attempt on. */
  lemma BoundSchedule(n: nat)
    ensures 0.0 < Bound(Doubling(), n) <= 30.0 && Bound(Doubling(), n) <= Bound(Doubling(), n + 1)
    ensures Bound(Doubling(), 0) == 0.5 && (n >= 6 ==> Bound(Doubling(), n) == 30.0)
  {
    PowerGrows(n);
  }

  // ---- One connection ----

  /** The messages a connection delivers, and whether one follows them whose normalization raises:
      that exception is not a transport error, and nothing in the loop catches it. */
  datatype Connection = Connection(messages: seq<Normalized>, raises: bool)

  /** What is handed to the broker client: rejects to quarantine, under a sequence number, and events
      to the topic of their type. */
  datatype Message = Quarantined(reject: Rejected, number: int) | Published(topic: EventType, event: MarketEvent)

  function Quarantines(rs: seq<Rejected>, number: int): seq<Message> {
    seq(|rs|, i requires 0 <= i < |rs| => Quarantined(rs[i], number))
  }

  function Publications(es: seq<MarketEvent>): seq<Message> {
    seq(|es|, i requires 0 <= i < |es| => Published(es[i].eventType, es[i]))
  }

  /** Everything one raw message makes a producer send, in order. */
  function MessagesOf(m: Normalized, number: int): seq<Message> {
    Quarantines(m.rejects, number) + Publications(m.events)
  }

  /** Everything several make it send, the rejects of message `i` under the number `numbers(i)`. */
  function AllMessages(ms: seq<Normalized>, numbers: nat -> int): seq<Message> {
    if ms == [] then []
    else AllMessages(ms[..|ms| - 1], numbers) + MessagesOf(ms[|ms| - 1], numbers(|ms| - 1))
  }

  /** The live producer quarantines every reject under the number zero. */
  function Unnumbered(): nat -> int {
    (i: nat) => 0
  }

  function CountEvents(ms: seq<Normalized>): nat {
    if ms == [] then 0 else CountEvents(ms[..|ms| - 1]) + |ms[|ms| - 1].events|
  }

  function CountRejects(ms: seq<Normalized>): nat {
    if ms == [] then 0 else CountRejects(ms[..|ms| - 1]) + |ms[|ms| - 1].rejects|
  }

  /** A limit that is set and reached; absent and zero both mean no limit. */
  predicate LimitHit(limit: Option<int>, published: nat) {
    limit.Some? && limit.value != 0 && published >= limit.value
  }

  /** The limit is hit right after the first `k` messages, not counting an empty prefix. */
  predicate Stops(before: nat, ms: seq<Normalized>, limit: Option<int>, k: nat)
    requires k <= |ms|
  {
    k > 0 && LimitHit(limit, before + CountEvents(ms[..k]))
  }

  /** How many of the first `n` messages are consumed: up to and including the one that hits the limit. */
  function Consumed(before: nat, ms: seq<Normalized>, limit: Option<int>, n: nat): (k: nat)
    requires n <= |ms|
    ensures k <= n
  {
    if n == 0 then 0
    else
      var k := Consumed(before, ms, limit, n - 1);
      if k < n - 1 || Stops(before, ms, limit, k) then k else n
  }

  lemma {:induction false} ConsumedIsFirstStop(before: nat, ms: seq<Normalized>, limit: Option<int>, n: nat)
    requires n <= |ms|
    ensures var k := Consumed(before, ms, limit, n);
            && (forall j: nat :: j < k ==> !Stops(before, ms, limit, j))
            && (k < n ==> Stops(before, ms, limit, k))
  {
    if n > 0 {
      ConsumedIsFirstStop(before, ms, limit, n - 1);
    }
  }

  // ---- The run ----

  datatype Status = Running | ReachedMessages | ReachedReconnects | Raised

  /** `connections` counts the connections opened, `attempt` is the backoff generator's position. */
  datatype Producer = Producer(
    status: Status, published: nat, quarantined: nat, sent: seq<Message>,
    connections: nat, sleeps: seq<real>, attempt: nat)

  /** What a run is configured with: its two optional limits and its backoff schedule. */
  datatype Limits = Limits(messages: Option<int>, reconnects: Option<int>, backoff: Schedule)

  function Fresh(): Producer {
    Producer(Running, 0, 0, [], 0, [], 0)
  }

  /** The messages consumed of a connection that starts with `before` events published. */
  function Taken(before: nat, ms: seq<Normalized>, limit: Option<int>): seq<Normalized> {
    ms[..Consumed(before, ms, limit, |ms|)]
  }

  predicate StopsOn(before: nat, ms: seq<Normalized>, limit: Option<int>) {
    Stops(before, ms, limit, Consumed(before, ms, limit, |ms|))
  }

  /** One connection: consume it, then stop on a limit or back off. `u` is the next random draw. */
  function Connect(p: Producer, c: Connection, limits: Limits, u: real): Producer {
    var ms := Taken(p.published, c.messages, limits.messages);
    var q := p.(published := p.published + CountEvents(ms), quarantined := p.quarantined + CountRejects(ms),
                sent := p.sent + AllMessages(ms, Unnumbered()), connections := p.connections + 1);
    if StopsOn(p.published, c.messages, limits.messages) then q.(status := ReachedMessages)
    else if c.raises then q.(status := Raised)
    else if limits.reconnects.Some? && q.connections > limits.reconnects.value then q.(status := ReachedReconnects)
    else
      var attempt := if CountEvents(ms) > 0 then 0 else p.attempt;
      q.(sleeps := p.sleeps + [Delay(limits.backoff, u, attempt)], attempt := attempt + 1)
  }

  /** The state after the given connections, each consumed only while the producer still runs. */
  function Produce(cs: seq<Connection>, limits: Limits, draw: nat -> real): Producer {
    if cs == [] then Fresh()
    else
      var p := Produce(cs[..|cs| - 1], limits, draw);
      if p.status.Running? then Connect(p, cs[|cs| - 1], limits, draw(|p.sleeps|)) else p
  }

  lemma CountsAppend(ms: seq<Normalized>, numbers: nat -> int, i: nat)
    requires i < |ms|
    ensures CountEvents(ms[..i + 1]) == CountEvents(ms[..i]) + |ms[i].events|
    ensures CountRejects(ms[..i + 1]) == CountRejects(ms[..i]) + |ms[i].rejects|
    ensures AllMessages(ms[..i + 1], numbers) == AllMessages(ms[..i], numbers) + MessagesOf(ms[i], numbers(i))
  {
    assert ms[..i + 1][..i] == ms[..i];
  }

  /** The inner loops: one message's rejects to quarantine, then its events to their topics. */
  method Send(m: Normalized, published: nat, quarantined: nat, sent: seq<Message>)
    returns (published': nat, quarantined': nat, sent': seq<Message>)
    ensures published' == published + |m.events| && quarantined' == quarantined + |m.rejects|
    ensures sent' == sent + MessagesOf(m, 0)
  {
    published', quarantined', sent' := published, quarantined, sent;
    for i := 0 to |m.rejects|
      invariant quarantined' == quarantined + i && sent' == sent + Quarantines(m.rejects[..i], 0)
    {
      quarantined' := quarantined' + 1;
      sent' := sent' + [Quarantined(m.rejects[i], 0)];
    }
    assert m.rejects[..|m.rejects|] == m.rejects;
    for i := 0 to |m.events|
      invariant published' == published + i && sent' == sent + Quarantines(m.rejects, 0) + Publications(m.events[..i])
    {
      sent' := sent' + [Published(m.events[i].eventType, m.events[i])];
      published' := published' + 1;
    }
    assert m.events[..|m.events|] == m.events;
  }

  /** Once a prefix stops, consumption never goes past it. */
  lemma {:induction false} ConsumedStays(before: nat, ms: seq<Normalized>, limit: Option<int>, i: nat, n: nat)
    requires i <= n <= |ms| && Consumed(before, ms, limit, i) == i
    requires i == n || Stops(before, ms, limit, i)
    ensures Consumed(before, ms, limit, n) == i
  {
    if i < n {
      ConsumedStays(before, ms, limit, i, n - 1);
    }
  }

  /** The loop over one connection's messages, left early when the message limit is hit. */
  method Stream(ms: seq<Normalized>, limit: Option<int>, published: nat, quarantined: nat, sent: seq<Message>)
    returns (published': nat, quarantined': nat, sent': seq<Message>, stopped: bool)
    ensures var taken := Taken(published, ms, limit);
            && published' == published + CountEvents(taken)
            && quarantined' == quarantined + CountRejects(taken)
            && sent' == sent + AllMessages(taken, Unnumbered())
    ensures stopped <==> StopsOn(published, ms, limit)
  {
    published', quarantined', sent', stopped := published, quarantined, sent, false;
    var i := 0;
    while i < |ms| && !stopped
      invariant i <= |ms|
      invariant published' == published + CountEvents(ms[..i])
      invariant quarantined' == quarantined + CountRejects(ms[..i])
      invariant sent' == sent + AllMessages(ms[..i], Unnumbered())
      invariant Consumed(published, ms, limit, i) == i
      invariant stopped <==> Stops(published, ms, limit, i)
    {
      published', quarantined', sent' := Send(ms[i], published', quarantined', sent');
      CountsAppend(ms, Unnumbered(), i);
      i := i + 1;
      if LimitHit(limit, published') {
        stopped := true;
      }
    }
    ConsumedStays(published, ms, limit, i, |ms|);
  }

  /** The reconnect path shared by transport errors and clean ends: reset the schedule after a
      productive connection, then sleep for its next delay. */
  method BackOff(delays: BackoffDelays, limits: Limits, productive: bool, u: real) returns (delays': BackoffDelays, delay: real)
    requires delays.schedule == limits.backoff
    modifies delays
    ensures delays' == delays || fresh(delays')
    ensures delays'.schedule == limits.backoff
    ensures var attempt := if productive then 0 else old(delays.attempt);
            delay == Delay(limits.backoff, u, attempt) && delays'.attempt == attempt + 1
  {
    delays' := delays;
    if productive {
      delays' := new BackoffDelays(limits.backoff);
    }
    delay := delays'.Next(u);
  }

  /** One turn of the loop. */
  method OneConnection(p: Producer, delays: BackoffDelays, c: Connection, limits: Limits, u: real)
    returns (p': Producer, delays': BackoffDelays)
    requires p.status.Running? && delays.schedule == limits.backoff && delays.attempt == p.attempt
    modifies delays
    ensures p' == Connect(p, c, limits, u)
    ensures delays' == delays || fresh(delays')
    ensures delays'.schedule == limits.backoff
    ensures p'.status == p.status ==> delays'.attempt == p'.attempt
  {
    delays' := delays;
    var published, quarantined, sent, stopped := Stream(c.messages, limits.messages, p.published, p.quarantined, p.sent);
    p' := p.(published := published, quarantined := quarantined, sent := sent, connections := p.connections + 1);
    if stopped {
      p' := p'.(status := ReachedMessages);
      return;
    }
    if c.raises {
      p' := p'.(status := Raised);
      return;
    }
    if limits.reconnects.Some? && p'.connections > limits.reconnects.value {
      p' := p'.(status := ReachedReconnects);
      return;
    }
    var productive, delay := published > p.published, 0.0;
    delays', delay := BackOff(delays, limits, productive, u);
    p' := p'.(sleeps := p.sleeps + [delay], attempt := delays'.attempt);
  }

  lemma {:induction false} ProduceStops(cs: seq<Connection>, limits: Limits, draw: nat -> real, i: nat)
    requires i <= |cs| && !Produce(cs[..i], limits, draw).status.Running?
    ensures Produce(cs, limits, draw) == Produce(cs[..i], limits, draw)
  {
    if i == |cs| {
      assert cs[..i] == cs;
    } else {
      var n := |cs| - 1;
      assert cs[..n][..i] == cs[..i];
      ProduceStops(cs[..n], limits, draw, i);
    }
  }

  /** The reconnect loop. It ends on a limit or an exception, or with the supplied connections while
      still running. */
  method RunProducer(cs: seq<Connection>, limits: Limits, draw: nat -> real) returns (p: Producer)
    ensures p == Produce(cs, limits, draw)
  {
    p := Fresh();
    var delays := new BackoffDelays(limits.backoff);
    for i := 0 to |cs|
      invariant fresh(delays) && delays.schedule == limits.backoff
      invariant p == Produce(cs[..i], limits, draw)
      invariant p.status.Running? && delays.attempt == p.attempt
    {
      assert cs[..i + 1][..i] == cs[..i];
      p, delays := OneConnection(p, delays, cs[i], limits, draw(|p.sleeps|));
      if !p.status.Running? {
        ProduceStops(cs, limits, draw, i + 1);
        return;
      }
    }
    assert cs[..|cs|] == cs;
  }

  // ---- Whole runs ----

  /** While it runs, the producer has slept once after every connection, and no limit is passed. */
  lemma {:induction false} RunningWithinLimits(cs: seq<Connection>, limits: Limits, draw: nat -> real)
    ensures var p := Produce(cs, limits, draw);
            && p.connections <= |cs|
            && p.connections == |p.sleeps| + (if p.status.Running? then 0 else 1)
            && (p.status.Running? ==> p.connections == |cs|)
            && (limits.reconnects.Some? && |p.sleeps| > 0 ==> |p.sleeps| <= limits.reconnects.value)
  {
    if cs != [] {
      RunningWithinLimits(cs[..|cs| - 1], limits, draw);
    }
  }

  /** With at most `m` reconnects allowed, m + 1 connections suffice for the producer to return,
      after at most m sleeps. */
  lemma ReturnsWithin(cs: seq<Connection>, limits: Limits, draw: nat -> real, m: nat)
    requires limits.reconnects == Some(m)
    ensures var p := Produce(cs, limits, draw);
            && p.connections <= m + 1 && |p.sleeps| <= m
            && (|cs| > m ==> !p.status.Running?)
  {
    RunningWithinLimits(cs, limits, draw);
  }

  /** What the producer consumes of connection `i`. */
  function ConsumedOf(cs: seq<Connection>, limits: Limits, draw: nat -> real, i: nat): seq<Normalized>
    requires i < |cs|
  {
    Taken(Produce(cs[..i], limits, draw).published, cs[i].messages, limits.messages)
  }

  /** Connection `i` publishes something. */
  predicate Productive(cs: seq<Connection>, limits: Limits, draw: nat -> real, i: nat)
    requires i < |cs|
  {
    CountEvents(ConsumedOf(cs, limits, draw, i)) > 0
  }

  /** A connection is opened by a producer that is still running. */
  lemma {:induction false} OpenedWhileRunning(cs: seq<Connection>, limits: Limits, draw: nat -> real, i: nat)
    requires i < Produce(cs, limits, draw).connections
    ensures i < |cs| && Produce(cs[..i], limits, draw).status.Running?
  {
    var n := |cs| - 1;
    RunningWithinLimits(cs[..n], limits, draw);
    if i < Produce(cs[..n], limits, draw).connections {
      OpenedWhileRunning(cs[..n], limits, draw, i);
      assert cs[..n][..i] == cs[..i];
    }
  }

  /** The connections opened are a prefix; what comes after them is never reached. */
  lemma {:induction false} OpenedInOrder(cs: seq<Connection>, limits: Limits, draw: nat -> real)
    ensures var p := Produce(cs, limits, draw);
            p.connections <= |cs| && p == Produce(cs[..p.connections], limits, draw)
  {
    var c := Produce(cs, limits, draw).connections;
    RunningWithinLimits(cs, limits, draw);
    if cs == [] || c == |cs| {
      assert cs[..|cs|] == cs;
    } else {
      var n := |cs| - 1;
      RunningWithinLimits(cs[..n], limits, draw);
      OpenedInOrder(cs[..n], limits, draw);
      assert cs[..n][..c] == cs[..c];
    }
  }

  /** What opening connection `i` makes of the run so far. */
  lemma OpenedStep(cs: seq<Connection>, limits: Limits, draw: nat -> real, i: nat)
    requires i < |cs| && Produce(cs[..i], limits, draw).status.Running?
    ensures var p := Produce(cs[..i], limits, draw);
            Produce(cs[..i + 1], limits, draw) == Connect(p, cs[i], limits, draw(|p.sleeps|))
  {
    assert cs[..i + 1][..i] == cs[..i];
  }

  /** A connection that is opened is productive exactly when the published count grows over it. */
  lemma ProductivePublishes(cs: seq<Connection>, limits: Limits, draw: nat -> real, i: nat)
    requires i < Produce(cs, limits, draw).connections
    ensures i < |cs|
    ensures Productive(cs, limits, draw, i)
       <==> Produce(cs[..i + 1], limits, draw).published > Produce(cs[..i], limits, draw).published
  {
    OpenedWhileRunning(cs, limits, draw, i);
    OpenedStep(cs, limits, draw, i);
  }

  /** Of each connection, whether it is productive. */
  function ProductiveLog(cs: seq<Connection>, limits: Limits, draw: nat -> real): seq<bool> {
    seq(|cs|, i requires 0 <= i < |cs| => Productive(cs, limits, draw, i))
  }

  lemma ProductiveLogPrefix(cs: seq<Connection>, limits: Limits, draw: nat -> real)
    requires cs != []
    ensures var n := |cs| - 1;
            ProductiveLog(cs, limits, draw) == ProductiveLog(cs[..n], limits, draw) + [Productive(cs, limits, draw, n)]
  {
    var n := |cs| - 1;
    forall i | 0 <= i < n ensures Productive(cs[..n], limits, draw, i) == Productive(cs, limits, draw, i) {
      assert cs[..n][..i] == cs[..i];
    }
  }

  /** Sleeps since the last reset of the backoff, which follows each productive connection. */
  function SinceReset(log: seq<bool>, i: nat): nat
    requires i < |log|
  {
    if log[i] || i == 0 then 0 else SinceReset(log, i - 1) + 1
  }

  lemma {:induction false} SinceResetPrefix(log: seq<bool>, x: bool, i: nat)
    requires i < |log|
    ensures SinceReset(log + [x], i) == SinceReset(log, i)
  {
    if i > 0 && !log[i] {
      SinceResetPrefix(log, x, i - 1);
    }
  }

  /** Each sleep is the delay of its place since the last productive connection, and the backoff
      stands one further than the last of them. */
  ghost predicate DelaysFollow(s: Schedule, p: Producer, log: seq<bool>, draw: nat -> real) {
    && |p.sleeps| <= |log|
    && p.attempt == (if p.sleeps == [] then 0 else SinceReset(log, |p.sleeps| - 1) + 1)
    && forall i :: 0 <= i < |p.sleeps| ==> p.sleeps[i] == Delay(s, draw(i), SinceReset(log, i))
  }

  /** A further connection: the producer does not sleep, or sleeps as its productivity says. */
  lemma SleepFollows(s: Schedule, p: Producer, q: Producer, log: seq<bool>, productive: bool, draw: nat -> real)
    requires DelaysFollow(s, p, log, draw)
    requires var attempt := if productive then 0 else p.attempt;
             || (q.sleeps == p.sleeps && q.attempt == p.attempt)
             || (|p.sleeps| == |log| && q.attempt == attempt + 1 && q.sleeps == p.sleeps + [Delay(s, draw(|p.sleeps|), attempt)])
    ensures DelaysFollow(s, q, log + [productive], draw)
  {
    forall i | 0 <= i < |p.sleeps| ensures SinceReset(log + [productive], i) == SinceReset(log, i) {
      SinceResetPrefix(log, productive, i);
    }
    var n := |log|;
    assert |p.sleeps| == n ==> SinceReset(log + [productive], n) == if productive then 0 else p.attempt;
  }

  /** Every delay is set by the sleeps since the last reset, and resets follow exactly the connections
      that publish something. */
  lemma {:induction false} DelaysFollowResets(cs: seq<Connection>, limits: Limits, draw: nat -> real)
    ensures DelaysFollow(limits.backoff, Produce(cs, limits, draw), ProductiveLog(cs, limits, draw), draw)
  {
    if cs != [] {
      var n := |cs| - 1;
      DelaysFollowResets(cs[..n], limits, draw);
      RunningWithinLimits(cs[..n], limits, draw);
      ProductiveLogPrefix(cs, limits, draw);
      SleepFollows(limits.backoff, Produce(cs[..n], limits, draw), Produce(cs, limits, draw),
                   ProductiveLog(cs[..n], limits, draw), Productive(cs, limits, draw, n), draw);
    }
  }

  lemma SleepBounded(p: Producer, log: seq<bool>, draw: nat -> real, i: nat)
    requires forall j :: 0.0 <= draw(j) <= 1.0
    requires DelaysFollow(Doubling(), p, log, draw) && i < |p.sleeps|
    ensures 0.0 <= p.sleeps[i] <= Bound(Doubling(), SinceReset(log, i)) <= 30.0
  {
    var n := SinceReset(log, i);
    BoundSchedule(n);
    ScaledDown(draw(i), Bound(Doubling(), n));
  }

  /** Every sleep lies between zero and the bound of its place since the last productive connection,
      so never above thirty seconds. */
  lemma SleepsBounded(cs: seq<Connection>, limits: Limits, draw: nat -> real, i: nat)
    requires forall j :: 0.0 <= draw(j) <= 1.0
    requires limits.backoff == Doubling()
    requires i < |Produce(cs, limits, draw).sleeps|
    ensures i < |cs|
    ensures 0.0 <= Produce(cs, limits, draw).sleeps[i] <= Bound(Doubling(), SinceReset(ProductiveLog(cs, limits, draw), i)) <= 30.0
  {
    DelaysFollowResets(cs, limits, draw);
    SleepBounded(Produce(cs, limits, draw), ProductiveLog(cs, limits, draw), draw, i);
  }

  function CountPublished(ms: seq<Message>): nat {
    if ms == [] then 0 else CountPublished(ms[..|ms| - 1]) + (if ms[|ms| - 1].Published? then 1 else 0)
  }

  lemma {:induction false} CountPublishedConcat(a: seq<Message>, b: seq<Message>)
    ensures CountPublished(a + b) == CountPublished(a) + CountPublished(b)
  {
    if b == [] {
      assert a + b == a;
    } else {
      var n := |b| - 1;
      CountPublishedConcat(a, b[..n]);
      assert (a + b)[..|a + b| - 1] == a + b[..n];
    }
  }

  lemma {:induction false} CountPublishedIn(ms: seq<Message>, published: bool)
    requires forall i :: 0 <= i < |ms| ==> ms[i].Published? == published
    ensures CountPublished(ms) == if published then |ms| else 0
  {
    if ms != [] {
      CountPublishedIn(ms[..|ms| - 1], published);
    }
  }

  lemma {:induction false} MessagesCounted(ms: seq<Normalized>, numbers: nat -> int)
    ensures CountPublished(AllMessages(ms, numbers)) == CountEvents(ms)
    ensures |AllMessages(ms, numbers)| == CountEvents(ms) + CountRejects(ms)
  {
    if ms != [] {
      var n := |ms| - 1;
      var last := ms[n];
      MessagesCounted(ms[..n], numbers);
      CountPublishedConcat(AllMessages(ms[..n], numbers), MessagesOf(last, numbers(n)));
      CountPublishedConcat(Quarantines(last.rejects, numbers(n)), Publications(last.events));
      CountPublishedIn(Quarantines(last.rejects, numbers(n)), false);
      CountPublishedIn(Publications(last.events), true);
    }
  }

  /** The counters are the messages sent: events to the raw topics, rejects to quarantine. */
  lemma {:induction false} CountersMatchMessages(cs: seq<Connection>, limits: Limits, draw: nat -> real)
    ensures var p := Produce(cs, limits, draw);
            p.published == CountPublished(p.sent) && p.published + p.quarantined == |p.sent|
  {
    if cs != [] {
      var before, c := Produce(cs[..|cs| - 1], limits, draw), cs[|cs| - 1];
      CountersMatchMessages(cs[..|cs| - 1], limits, draw);
      if before.status.Running? {
        var taken := Taken(before.published, c.messages, limits.messages);
        MessagesCounted(taken, Unnumbered());
        CountPublishedConcat(before.sent, AllMessages(taken, Unnumbered()));
      }
    }
  }

  /** The run stopped within its last connection, right after a message that took it to the limit:
      without that message's events it would still be short of it. */
  ghost predicate JustReached(cs: seq<Connection>, limits: Limits, draw: nat -> real, limit: int) {
    var p := Produce(cs, limits, draw);
    && 0 < p.connections <= |cs|
    && var before := Produce(cs[..p.connections - 1], limits, draw);
       var taken := ConsumedOf(cs, limits, draw, p.connections - 1);
       && before.status.Running? && taken != []
       && p.sent == before.sent + AllMessages(taken, Unnumbered())
       && p.published - |taken[|taken| - 1].events| < limit <= p.published
  }

  /** One connection of a producer that is short of its limit: it stops on the last message it
      consumes, or stays short. */
  lemma ConnectWithinLimit(p: Producer, c: Connection, limits: Limits, u: real)
    requires limits.messages.Some? && limits.messages.value > 0
    requires p.status.Running? && p.published < limits.messages.value
    ensures var q, taken := Connect(p, c, limits, u), Taken(p.published, c.messages, limits.messages);
            if q.status.ReachedMessages?
            then taken != [] && q.published - |taken[|taken| - 1].events| < limits.messages.value <= q.published
            else q.published < limits.messages.value
  {
    var ms := c.messages;
    var k := Consumed(p.published, ms, limits.messages, |ms|);
    ConsumedIsFirstStop(p.published, ms, limits.messages, |ms|);
    if k > 0 {
      CountsAppend(ms, Unnumbered(), k - 1);
      assert !Stops(p.published, ms, limits.messages, k - 1);
      assert k == 1 ==> CountEvents(ms[..k - 1]) == 0;
    } else {
      assert ms[..k] == [];
    }
  }

  lemma {:induction false} ShortUnlessReached(cs: seq<Connection>, limits: Limits, draw: nat -> real)
    requires limits.messages.Some? && limits.messages.value > 0
    ensures var p := Produce(cs, limits, draw); !p.status.ReachedMessages? ==> p.published < limits.messages.value
  {
    if cs != [] {
      var before := Produce(cs[..|cs| - 1], limits, draw);
      ShortUnlessReached(cs[..|cs| - 1], limits, draw);
      if before.status.Running? {
        ConnectWithinLimit(before, cs[|cs| - 1], limits, draw(|before.sleeps|));
      }
    }
  }

  /** A run that has opened connections is what the last of them made of the run before it. */
  lemma LastConnection(cs: seq<Connection>, limits: Limits, draw: nat -> real)
    requires Produce(cs, limits, draw).connections > 0
    ensures var n := Produce(cs, limits, draw).connections;
            && n <= |cs|
            && var before := Produce(cs[..n - 1], limits, draw);
               before.status.Running? && Produce(cs, limits, draw) == Connect(before, cs[n - 1], limits, draw(|before.sleeps|))
  {
    OpenedInOrder(cs, limits, draw);
    OpenedWhileRunning(cs, limits, draw, Produce(cs, limits, draw).connections - 1);
    OpenedStep(cs, limits, draw, Produce(cs, limits, draw).connections - 1);
  }

  /** Under a positive message limit, a run that has not stopped on it is short of it, and one that
      has overshoots it by less than the events of the last message consumed. */
  lemma MessageLimit(cs: seq<Connection>, limits: Limits, draw: nat -> real)
    requires limits.messages.Some? && limits.messages.value > 0
    ensures var p := Produce(cs, limits, draw);
            if p.status.ReachedMessages? then JustReached(cs, limits, draw, limits.messages.value)
            else p.published < limits.messages.value
  {
    ShortUnlessReached(cs, limits, draw);
    RunningWithinLimits(cs, limits, draw);
    var p := Produce(cs, limits, draw);
    if p.status.ReachedMessages? {
      LastConnection(cs, limits, draw);
      var before := Produce(cs[..p.connections - 1], limits, draw);
      ShortUnlessReached(cs[..p.connections - 1], limits, draw);
      ConnectWithinLimit(before, cs[p.connections - 1], limits, draw(|before.sleeps|));
    }
  }
}
