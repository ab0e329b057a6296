/** What the producers send to which topic, in which order. */
module Routing {
  import opened Basics
  import opened Schema
  import opened Normalize
  import opened Service
  import opened Outcomes

  /** The events of several messages, in order. */
  function EventsOf(ms: seq<Normalized>): seq<MarketEvent> {
    if ms == [] then [] else EventsOf(ms[..|ms| - 1]) + ms[|ms| - 1].events
  }

  function RejectsOf(ms: seq<Normalized>): seq<Rejected> {
    if ms == [] then [] else RejectsOf(ms[..|ms| - 1]) + ms[|ms| - 1].rejects
  }

  /** What a raw topic receives, in order. */
  function EventsTo(topic: EventType, sent: seq<Message>): seq<MarketEvent> {
    if sent == [] then []
    else
      var x := sent[|sent| - 1];
      EventsTo(topic, sent[..|sent| - 1]) + (if x.Published? && x.topic == topic then [x.event] else [])
  }

  /** What the quarantine topic receives, in order. */
  function RejectsIn(sent: seq<Message>): seq<Rejected> {
    if sent == [] then []
    else
      var x := sent[|sent| - 1];
      RejectsIn(sent[..|sent| - 1]) + (if x.Quarantined? then [x.reject] else [])
  }

  lemma {:induction false} EventsToConcat(a: seq<Message>, b: seq<Message>, topic: EventType)
    ensures EventsTo(topic, a + b) == EventsTo(topic, a) + EventsTo(topic, b)
  {
    if b == [] {
      assert a + b == a;
    } else {
      LastOfConcat(a, b);
      EventsToConcat(a, b[..|b| - 1], topic);
    }
  }

  lemma {:induction false} RejectsInConcat(a: seq<Message>, b: seq<Message>)
    ensures RejectsIn(a + b) == RejectsIn(a) + RejectsIn(b)
  {
    if b == [] {
      assert a + b == a;
    } else {
      LastOfConcat(a, b);
      RejectsInConcat(a, b[..|b| - 1]);
    }
  }

  lemma {:induction false} QuarantinesSent(rs: seq<Rejected>, number: int, topic: EventType)
    ensures EventsTo(topic, Quarantines(rs, number)) == [] && RejectsIn(Quarantines(rs, number)) == rs
  {
    if rs != [] {
      var n := |rs| - 1;
      QuarantinesSent(rs[..n], number, topic);
      assert Quarantines(rs, number)[..n] == Quarantines(rs[..n], number);
      assert rs == rs[..n] + [rs[n]];
    }
  }

  lemma {:induction false} PublicationsSent(es: seq<MarketEvent>, topic: EventType)
    ensures EventsTo(topic, Publications(es)) == Filter(es, OfType(topic)) && RejectsIn(Publications(es)) == []
  {
    if es != [] {
      var n := |es| - 1;
      PublicationsSent(es[..n], topic);
      assert Publications(es)[..n] == Publications(es[..n]);
    }
  }

  lemma MessageRouted(m: Normalized, number: int, topic: EventType)
    ensures EventsTo(topic, MessagesOf(m, number)) == Filter(m.events, OfType(topic))
    ensures RejectsIn(MessagesOf(m, number)) == m.rejects
  {
    EventsToConcat(Quarantines(m.rejects, number), Publications(m.events), topic);
    RejectsInConcat(Quarantines(m.rejects, number), Publications(m.events));
    QuarantinesSent(m.rejects, number, topic);
    PublicationsSent(m.events, topic);
  }

  /** Each topic receives the events of its own type, and quarantine the rejects, in the order of the
      messages. */
  lemma {:induction false} AllMessagesRouted(ms: seq<Normalized>, numbers: nat -> int, topic: EventType)
    ensures EventsTo(topic, AllMessages(ms, numbers)) == Filter(EventsOf(ms), OfType(topic))
    ensures RejectsIn(AllMessages(ms, numbers)) == RejectsOf(ms)
  {
    if ms != [] {
      var n := |ms| - 1;
      var m := ms[n];
      AllMessagesRouted(ms[..n], numbers, topic);
      EventsToConcat(AllMessages(ms[..n], numbers), MessagesOf(m, numbers(n)), topic);
      RejectsInConcat(AllMessages(ms[..n], numbers), MessagesOf(m, numbers(n)));
      MessageRouted(m, numbers(n), topic);
      FilterConcat(EventsOf(ms[..n]), m.events, OfType(topic));
    }
  }

  lemma {:induction false} AllMessagesExtend(ms: seq<Normalized>, numbers: nat -> int, i: nat)
    requires i <= |ms|
    ensures AllMessages(ms[..i], numbers) <= AllMessages(ms, numbers)
  {
    if i == |ms| {
      assert ms[..i] == ms;
    } else {
      AllMessagesExtend(ms[..|ms| - 1], numbers, i);
      assert ms[..|ms| - 1][..i] == ms[..i];
    }
  }

  lemma {:induction false} EventsAndRejectsCounted(ms: seq<Normalized>)
    ensures |EventsOf(ms)| == CountEvents(ms) && |RejectsOf(ms)| == CountRejects(ms)
  {
    if ms != [] {
      EventsAndRejectsCounted(ms[..|ms| - 1]);
    }
  }

  /** From `start` on stand the rejects of a message, under a number, and then its events, each for the
      topic of its own type. */
  predicate BlockAt(sent: seq<Message>, start: nat, m: Normalized, number: int) {
    && start + |m.rejects| + |m.events| <= |sent|
    && (forall j :: 0 <= j < |m.rejects| ==> sent[start + j] == Quarantined(m.rejects[j], number))
    && (forall j :: 0 <= j < |m.events| ==> sent[start + |m.rejects| + j] == Published(m.events[j].eventType, m.events[j]))
  }

  lemma BlockWithin(a: seq<Message>, m: Normalized, number: int, sent: seq<Message>)
    requires a + MessagesOf(m, number) <= sent
    ensures BlockAt(sent, |a|, m, number)
  {
    var b := a + MessagesOf(m, number);
    forall j | 0 <= j < |m.rejects| ensures sent[|a| + j] == Quarantined(m.rejects[j], number) {
      assert sent[|a| + j] == b[|a| + j] == MessagesOf(m, number)[j];
    }
    forall j | 0 <= j < |m.events| ensures sent[|a| + |m.rejects| + j] == Published(m.events[j].eventType, m.events[j]) {
      assert sent[|a| + |m.rejects| + j] == b[|a| + (|m.rejects| + j)] == MessagesOf(m, number)[|m.rejects| + j];
    }
  }

  lemma BlockStart(ms: seq<Normalized>, numbers: nat -> int, i: nat)
    requires i < |ms|
    ensures |AllMessages(ms[..i], numbers)| == |EventsOf(ms[..i])| + |RejectsOf(ms[..i])|
    ensures AllMessages(ms[..i], numbers) + MessagesOf(ms[i], numbers(i)) <= AllMessages(ms, numbers)
  {
    EventsAndRejectsCounted(ms[..i]);
    MessagesCounted(ms[..i], numbers);
    CountsAppend(ms, numbers, i);
    AllMessagesExtend(ms, numbers, i + 1);
  }

  /** The messages sent for raw message `i` start where those of the messages before it end. */
  lemma SentInBlocks(ms: seq<Normalized>, numbers: nat -> int, i: nat)
    requires i < |ms|
    ensures BlockAt(AllMessages(ms, numbers), |EventsOf(ms[..i])| + |RejectsOf(ms[..i])|, ms[i], numbers(i))
  {
    BlockStart(ms, numbers, i);
    BlockWithin(AllMessages(ms[..i], numbers), ms[i], numbers(i), AllMessages(ms, numbers));
  }

  lemma {:induction false} TopicsAreTypes(ms: seq<Normalized>, numbers: nat -> int)
    ensures forall x :: x in AllMessages(ms, numbers) && x.Published? ==> x.topic == x.event.eventType
  {
    if ms != [] {
      TopicsAreTypes(ms[..|ms| - 1], numbers);
    }
  }

  lemma {:induction false} AllMessagesConcat(a: seq<Normalized>, b: seq<Normalized>)
    ensures AllMessages(a + b, Unnumbered()) == AllMessages(a, Unnumbered()) + AllMessages(b, Unnumbered())
  {
    if b == [] {
      assert a + b == a;
    } else {
      var n := |b| - 1;
      AllMessagesConcat(a, b[..n]);
      assert (a + b)[..|a + b| - 1] == a + b[..n];
    }
  }

  lemma FirstOfMore(all: seq<Normalized>, more: seq<Normalized>, k: nat)
    requires k <= |more|
    ensures (all + more)[..|all| + k] == all + more[..k]
  {
  }

  /** One connection more: its first messages follow those before it. */
  lemma SendsMore(p: Producer, c: Connection, limits: Limits, u: real, all: seq<Normalized>) returns (n: nat)
    requires p.sent == AllMessages(all, Unnumbered())
    ensures n <= |all + c.messages|
    ensures Connect(p, c, limits, u).sent == AllMessages((all + c.messages)[..n], Unnumbered())
    ensures Connect(p, c, limits, u).status.Running? || limits.messages == None ==> n == |all + c.messages|
  {
    var taken := Taken(p.published, c.messages, limits.messages);
    ConsumedStops(p.published, c.messages, limits.messages);
    AllMessagesConcat(all, taken);
    FirstOfMore(all, c.messages, |taken|);
    n := |all| + |taken|;
  }

  /** Whatever its limits, the producer has sent what some first messages of its connections make it
      send: all of them, while it runs. */
  lemma {:induction false} SendsFirstMessages(cs: seq<Connection>, limits: Limits, draw: nat -> real) returns (n: nat)
    ensures n <= |Delivered(cs)|
    ensures Produce(cs, limits, draw).sent == AllMessages(Delivered(cs)[..n], Unnumbered())
    ensures Produce(cs, limits, draw).status.Running? ==> n == |Delivered(cs)|
    ensures limits.messages == None && Produce(cs, limits, draw).connections == |cs| ==> n == |Delivered(cs)|
  {
    if cs == [] {
      n := 0;
      assert Delivered(cs)[..0] == [];
    } else {
      var k := |cs| - 1;
      var before, all := Produce(cs[..k], limits, draw), Delivered(cs[..k]);
      n := SendsFirstMessages(cs[..k], limits, draw);
      RunningWithinLimits(cs[..k], limits, draw);
      if before.status.Running? {
        assert all[..n] == all;
        n := SendsMore(before, cs[k], limits, draw(|before.sleeps|), all);
      } else {
        assert (all + cs[k].messages)[..n] == all[..n];
      }
    }
  }

  /** Over every run: an event is sent to the topic of its own type; each raw topic has received the
      events of its type, and quarantine the rejects, of the first messages delivered, in order. */
  lemma LiveRouting(cs: seq<Connection>, limits: Limits, draw: nat -> real) returns (n: nat)
    ensures n <= |Delivered(cs)|
    ensures Produce(cs, limits, draw).status.Running? ==> n == |Delivered(cs)|
    ensures limits.messages == None && Produce(cs, limits, draw).connections == |cs| ==> n == |Delivered(cs)|
    ensures var sent, ms := Produce(cs, limits, draw).sent, Delivered(cs)[..n];
            && (forall x :: x in sent && x.Published? ==> x.topic == x.event.eventType)
            && EventsTo(Trade, sent) == Filter(EventsOf(ms), OfType(Trade))
            && EventsTo(Ticker, sent) == Filter(EventsOf(ms), OfType(Ticker))
            && RejectsIn(sent) == RejectsOf(ms)
  {
    n := SendsFirstMessages(cs, limits, draw);
    TopicsAreTypes(Delivered(cs)[..n], Unnumbered());
    AllMessagesRouted(Delivered(cs)[..n], Unnumbered(), Trade);
    AllMessagesRouted(Delivered(cs)[..n], Unnumbered(), Ticker);
  }
}
