/** What a SUBSCRIBE delivers (sections 3.8.4 and 3.3.1.3 of MQTT 3.1.1): for each of its filters whose
    topic retains a message one delivery of it, in the order of the filters, to the subscriber and to
    nobody else. */
module RetainedDeliveries {
  import opened Protocol
  import opened Delivery
  import opened Births
  import opened Retained
  import opened EventLoop
  import opened Runs

  function RetainedFor(b: Broker, topic: Topic): Option<Id> {
    if topic in b.retained && b.retained[topic] in b.store then Some(b.retained[topic]) else None
  }

  /** The delivery of a retained message: at the lower of the two QoS, with its RETAIN bit kept. */
  function DeliveryOf(b: Broker, id: Id, requested: nat): Entry
    requires id in b.store
  {
    Entry(id, SendPublish, Min(Min(requested, 2), b.store[id].qos), false)
  }

  /** The deliveries that are due to a SUBSCRIBE. */
  function Due(b: Broker, filters: seq<(Topic, nat)>): seq<Entry>
    decreases |filters|
  {
    if filters == [] then []
    else
      (match RetainedFor(b, filters[0].0)
       case None => []
       case Some(id) => [DeliveryOf(b, id, filters[0].1)])
      + Due(b, filters[1..])
  }

  /** The table with those of the deliveries whose write requests the queue accepts; the first one's is the
      turn's `n`-th attempt to send. */
  function AddAccepted(t: seq<Entry>, es: seq<Entry>, n: nat, lost: set<nat>): seq<Entry>
    decreases |es|
  {
    if es == [] then t else AddAccepted(if n in lost then t else AddEntry(t, es[0]), es[1..], n + 1, lost)
  }

  /** What is due does not depend on how often the messages are referred to. */
  lemma {:induction false} DueSame(b: Broker, c: Broker, filters: seq<(Topic, nat)>)
    requires SameMessages(b, c) && c.store.Keys == b.store.Keys
    ensures Due(c, filters) == Due(b, filters)
    decreases |filters|
  {
    if filters != [] {
      DueSame(b, c, filters[1..]);
    }
  }

  lemma SubscribeOneDelivers(b: Broker, s: Sock, k: nat, topic: Topic, requested: nat, lost: set<nat>)
    requires b.Shape() && k < |b.clients|
    ensures var r := SubscribeOne(b, s, k, topic, requested, lost);
            && SameMessages(b, r) && r.store.Keys == b.store.Keys
            && match RetainedFor(b, topic)
               case None => r.conns == b.conns && r.tries == b.tries
               case Some(id) =>
                 r.tries == b.tries + 1 && r.conns == if b.tries in lost then b.conns else Enqueue(b, s, DeliveryOf(b, id, requested)).conns
  {
  }

  /** The subscriber's table gains what is due, in order, as far as the queue takes the requests, and no other
      connection changes. */
  lemma {:induction false} SubscribeDelivers(b: Broker, s: Sock, k: nat, filters: seq<(Topic, nat)>, lost: set<nat>)
    requires b.Shape() && k < |b.clients|
    ensures SubscribeAll(b, s, k, filters, lost).conns
         == SetTable(b, s, AddAccepted(b.conns[s].table, Due(b, filters), b.tries, lost)).conns
    decreases |filters|
  {
    if filters == [] {
      assert b.conns[s := b.conns[s]] == b.conns;
    } else {
      var r := SubscribeOne(b, s, k, filters[0].0, filters[0].1, lost);
      SubscribeOneDelivers(b, s, k, filters[0].0, filters[0].1, lost);
      SubscribeDelivers(r, s, k, filters[1..], lost);
      DueSame(b, r, filters[1..]);
      var rest := Due(b, filters[1..]);
      match RetainedFor(b, filters[0].0)
      case None => assert Due(b, filters) == [] + rest == rest;
      case Some(id) =>
        var first := DeliveryOf(b, id, filters[0].1);
        assert Due(b, filters) == [first] + rest && ([first] + rest)[1..] == rest;
        assert r.conns[s].table == if b.tries in lost then b.conns[s].table else AddEntry(b.conns[s].table, first);
        var t := AddAccepted(r.conns[s].table, rest, r.tries, lost);
        assert SetTable(r, s, t).conns == SetTable(b, s, t).conns;
    }
  }

  /** How many of the filters are for a topic of the map. */
  function Hits(filters: seq<(Topic, nat)>, expected: map<Topic, Bytes>): nat
    decreases |filters|
  {
    if filters == [] then 0 else (if filters[0].0 in expected then 1 else 0) + Hits(filters[1..], expected)
  }

  /** Each filter for a topic with a retained message has its delivery, of the bytes that are expected, and
      there are no others. */
  lemma {:induction false} DueIs(b: Broker, filters: seq<(Topic, nat)>, expected: map<Topic, Bytes>)
    requires Holds(b, expected)
    ensures |Due(b, filters)| == Hits(filters, expected)
    ensures forall i :: 0 <= i < |filters| && filters[i].0 in expected ==>
              var j := Hits(filters[..i], expected);
              var id := b.retained[filters[i].0];
              j < |Due(b, filters)| && id in b.store && b.store[id].data == expected[filters[i].0]
              && Due(b, filters)[j] == DeliveryOf(b, id, filters[i].1)
    decreases |filters|
  {
    if filters != [] {
      var rest := filters[1..];
      DueIs(b, rest, expected);
      forall i | 0 <= i < |filters| && filters[i].0 in expected
        ensures var j := Hits(filters[..i], expected);
                var id := b.retained[filters[i].0];
                j < |Due(b, filters)| && id in b.store && b.store[id].data == expected[filters[i].0]
                && Due(b, filters)[j] == DeliveryOf(b, id, filters[i].1)
      {
        if i > 0 {
          assert rest[i - 1] == filters[i] && filters[..i][1..] == rest[..i - 1] && filters[..i][0] == filters[0];
          assert Hits(filters[..i], expected) == (if filters[0].0 in expected then 1 else 0) + Hits(rest[..i - 1], expected);
        }
      }
    }
  }

  /** After any run, a SUBSCRIBE gives the subscriber one delivery for each filter whose topic has had a retained
      PUBLISH, of the bytes of the latest one, unless the queue refuses its request, and changes no other
      connection. */
  lemma SubscribeSendsLatest(sys: System, evs: seq<Event>, d: Demand, before: map<Topic, Bytes>, inp: Input, s: Sock)
    requires Good(sys) && Holds(sys.b, before) && Legal(sys, evs, d)
    requires var end := Run(sys, evs, d); end.b.Shape() && OnSession(Start(end.b), Message(s, Read))
    requires inp.packet.Subscribe?
    ensures var b, latest, filters := Run(sys, evs, d).b, Latest(sys, evs, d, before), inp.packet.filters;
            var r := Handle(Start(b), Message(s, Read), inp);
            && r.conns == SetTable(b, s, AddAccepted(b.conns[s].table, Due(b, filters), 0, inp.lost)).conns
            && |Due(b, filters)| == Hits(filters, latest) && latest.Keys == b.retained.Keys
            && forall i :: 0 <= i < |filters| && filters[i].0 in latest && filters[i].0 in b.retained ==>
                 var j := Hits(filters[..i], latest);
                 var id := b.retained[filters[i].0];
                 j < |Due(b, filters)| && id in b.store && b.store[id].data == latest[filters[i].0]
                 && Due(b, filters)[j] == DeliveryOf(b, id, filters[i].1)
  {
    var b := Run(sys, evs, d).b;
    AlwaysRetained(sys, evs, d, before);
    DueIs(b, inp.packet.filters, Latest(sys, evs, d, before));
    var b0, k := Start(b), ClientAt(b.clients, b.conns[s].cid);
    SubscribeDelivers(b0, s, k, inp.packet.filters, inp.lost);
    DueSame(b, b0, inp.packet.filters);
    assert Handle(b0, Message(s, Read), inp) == Send(SubscribeAll(b0, s, k, inp.packet.filters, inp.lost), Message(s, Read), inp.lost);
  }
}
