/** Retained messages (section 3.3.1.3 of MQTT 3.1.1): the slot of a topic always leads to the bytes of
    the latest retained PUBLISH on it. A message of no bytes is retained like any other. */
module Retained {
  import opened Protocol
  import opened Delivery
  import opened Conservation
  import opened ConservationSteps

  /** Retained slots as they were, and no stored message altered. */
  ghost predicate SameMessages(b: Broker, c: Broker) {
    && c.retained == b.retained
    && forall id :: id in b.store && id in c.store ==> c.store[id].data == b.store[id].data && c.store[id].qos == b.store[id].qos
  }

  /** Every retained slot leads to a stored message with the expected bytes. */
  ghost predicate Holds(b: Broker, expected: map<Topic, Bytes>) {
    && b.retained.Keys == expected.Keys
    && forall t :: t in b.retained ==> b.retained[t] in b.store && b.store[b.retained[t]].data == expected[t]
  }

  /** A retained message is stored for as long as a slot names it. */
  lemma RetainedIsStored(b: Broker, t: Topic)
    requires Conserved(b, 0) && t in b.retained
    ensures b.retained[t] in b.store
  {
    assert t in RetainedTopics(b.retained, b.retained[t]);
    assert StoredCount(b.store, b.retained[t]) == Refs(b, b.retained[t]) + 0;
  }

  lemma HoldsFrame(b: Broker, c: Broker, expected: map<Topic, Bytes>)
    requires Holds(b, expected) && SameMessages(b, c) && Conserved(c, 0)
    ensures Holds(c, expected)
  {
    forall t | t in c.retained ensures c.retained[t] in c.store { RetainedIsStored(c, t); }
  }

  /** A fan-out alters no message; other messages stay stored as they were. */
  lemma {:induction false} FanOutSame(b: Broker, i: nat, topic: Topic, qos: nat, id: Id, lost: set<nat>)
    requires b.Shape() && id in b.store && i <= |b.clients|
    ensures var r := FanOut(b, i, topic, qos, id, lost); SameMessages(b, r) && r.store.Keys == b.store.Keys
    decreases |b.clients| - i
  {
    if i < |b.clients| {
      var c := b.clients[i];
      if !Considered(c, topic) {
        FanOutSame(b, i + 1, topic, qos, id, lost);
      } else if c.sock != -1 {
        FanOutSame(Deliver(b, c.sock, id, Min(c.subs[topic], qos), lost), i + 1, topic, qos, id, lost);
      }
    }
  }

  lemma PublishByTopicSame(b: Broker, topic: Topic, qos: nat, id: Id, data: Bytes, lost: set<nat>)
    requires b.Shape()
    ensures SameMessages(b, PublishByTopic(b, topic, qos, id, data, lost))
  {
    if data != [] {
      var b0 := if id in b.store then b else b.(store := b.store[id := Node(1, qos, data)]);
      FanOutSame(b0, 0, topic, qos, id, lost);
    }
  }

  lemma DropSame(b: Broker, s: Sock, sendWill: bool, willId: Id, lost: set<nat>)
    requires b.Shape()
    ensures SameMessages(b, Drop(b, s, sendWill, willId, lost))
  {
    var b1 := Send(b, Message(s, DelAll), lost);
    var k := ClientAt(b.clients, b.conns[s].cid);
    if b.conns[s].cid != "" && k < |b.clients| && b.clients[k].will.Some? && sendWill {
      var w := b.clients[k].will.value;
      PublishByTopicSame(b1.(clients := b.clients[k := b.clients[k].(sock := -1)]), w.topic, w.qos, willId, w.data, lost);
    }
  }

  lemma {:induction false} SubscribeAllSame(b: Broker, s: Sock, k: nat, filters: seq<(Topic, nat)>, lost: set<nat>)
    requires b.Shape() && k < |b.clients|
    ensures var r := SubscribeAll(b, s, k, filters, lost); SameMessages(b, r) && r.store.Keys == b.store.Keys
    decreases |filters|
  {
    if filters != [] {
      SubscribeAllSame(SubscribeOne(b, s, k, filters[0].0, filters[0].1, lost), s, k, filters[1..], lost);
    }
  }

  lemma WriteEventSame(b: Broker, s: Sock, written: bool, lost: set<nat>)
    requires b.Shape()
    ensures SameMessages(b, WriteEvent(b, s, written, lost))
  {
    var t, i, r := b.conns[s].table, First(b.conns[s].table, AnyPending), WriteEvent(b, s, written, lost);
    if i < |t| {
      assert r.store == Serve(b, s, i, written).store;
      assert r.store == b.store || r.store == Release(b.store, t[i].id);
      ReleaseSame(b, r, t[i].id);
    }
  }

  lemma SameFrame(b: Broker, c: Broker, d: Broker)
    requires SameMessages(b, c) && d.store == c.store && d.retained == c.retained
    ensures SameMessages(b, d)
  {
  }

  /** Giving a reference back alters no message. */
  lemma ReleaseSame(b: Broker, c: Broker, id: Id)
    requires c.retained == b.retained && (c.store == b.store || c.store == Release(b.store, id))
    ensures SameMessages(b, c)
  {
  }

  lemma OnTlsSame(b: Broker, s: Sock, inp: Input)
    requires b.Shape()
    ensures SameMessages(b, OnTls(b, s, inp))
  {
    if inp.tls == Failed {
      DropSame(b, s, true, inp.willId, inp.lost);
    }
  }

  /** A PUBLISH that is not retained. */
  lemma OnPublishSame(b: Broker, s: Sock, topic: Topic, qos: nat, retain: bool, id: Id, data: Bytes, lost: set<nat>)
    requires b.Shape() && (!retain || data == [])
    ensures SameMessages(b, OnPublish(b, s, topic, qos, retain, id, data, lost))
  {
    var b2 := if qos == 1 then Answer(b, s, Entry(id, SendPuback, qos, true), lost)
              else if qos == 2 then Answer(b, s, Entry(id, SendPubrec, qos, true), lost)
              else Send(b, Message(s, Read), lost);
    PublishByTopicSame(b2, topic, qos, id, data, lost);
    assert OnPublish(b, s, topic, qos, retain, id, data, lost) == PublishByTopic(b2, topic, qos, id, data, lost);
    assert b2.store == b.store && b2.retained == b.retained;
  }

  lemma AckSame(b: Broker, s: Sock, id: Id, wellFormed: bool, written: bool, lost: set<nat>)
    requires b.Shape()
    ensures var r := OnPuback(b, s, id, wellFormed, written, lost); r.Some? ==> SameMessages(b, r.value)
    ensures var r := OnPubrec(b, s, id, wellFormed, written, lost); r.Some? ==> SameMessages(b, r.value)
  {
    var r := OnPuback(b, s, id, wellFormed, written, lost);
    if r.Some? { ReleaseSame(b, r.value, id); }
    r := OnPubrec(b, s, id, wellFormed, written, lost);
    if r.Some? { ReleaseSame(b, r.value, id); }
  }

  /** The retained PUBLISH that a turn processes, if it processes one. */
  function Retaining(b: Broker, m: Message, inp: Input): Option<(Topic, Bytes)>
    requires b.Shape()
  {
    if b.conns[m.sock].phase == Mqtt && m.op == Read && b.conns[m.sock].cid != ""
       && ClientAt(b.clients, b.conns[m.sock].cid) < |b.clients|
       && inp.packet.Publish? && inp.packet.retain && inp.packet.qos <= 2 && inp.packet.data != []
    then Some((inp.packet.topic, inp.packet.data))
    else None
  }

  function Expect(expected: map<Topic, Bytes>, latest: Option<(Topic, Bytes)>): map<Topic, Bytes> {
    match latest
    case None => expected
    case Some((topic, data)) => expected[topic := data]
  }

  lemma DisconnectSame(b: Broker, s: Sock, k: nat, lost: set<nat>)
    requires b.Shape() && k < |b.clients|
    ensures SameMessages(b, Drop(b.(clients := b.clients[k := b.clients[k].(clean := true)]), s, false, 0, lost))
  {
    DropSame(b.(clients := b.clients[k := b.clients[k].(clean := true)]), s, false, 0, lost);
  }

  /** Only a retained PUBLISH changes a retained slot, and only its own topic's. */
  lemma ReactSame(b: Broker, m: Message, k: nat, inp: Input)
    requires b.Shape() && k < |b.clients| && k == ClientAt(b.clients, b.conns[m.sock].cid) && b.conns[m.sock].cid != ""
    requires b.conns[m.sock].phase == Mqtt && m.op == Read && Retaining(b, m, inp) == None
    ensures var r := React(b, m.sock, k, inp.packet, inp.written, inp.lost); r.Some? ==> SameMessages(b, r.value)
  {
    var s, lost := m.sock, inp.lost;
    match inp.packet
    case Publish(topic, qos, retain, id, data) =>
      if qos <= 2 {
        OnPublishSame(b, s, topic, qos, retain, id, data, lost);
      }
    case Puback(id, wellFormed) => AckSame(b, s, id, wellFormed, inp.written, lost);
    case Pubrec(id, wellFormed) => AckSame(b, s, id, wellFormed, inp.written, lost);
    case Subscribe(filters) =>
      SubscribeAllSame(b, s, k, filters, lost);
      SameFrame(b, SubscribeAll(b, s, k, filters, lost), React(b, s, k, inp.packet, inp.written, lost).value);
    case Disconnect => DisconnectSame(b, s, k, lost);
    case Pubrel(id, wellFormed) =>
    case Pubcomp(id, wellFormed) =>
    case _ =>
  }

  /** Replacing a retained message takes exactly one reference from the old one, whose deliveries in
      flight keep it stored, and leads the slot to the new bytes. */
  lemma ReplaceRetained(b: Broker, topic: Topic, qos: nat, id: Id, data: Bytes)
    requires Conserved(b, 0) && Fresh(b, id)
    ensures var r := StoreRetained(b, topic, qos, id, data);
            && r.retained == b.retained[topic := id] && r.store[id].data == data
            && (topic in b.retained ==>
                  && StoredCount(r.store, b.retained[topic]) == StoredCount(b.store, b.retained[topic]) - 1
                  && (Total(b.conns, RefsTo(b.retained[topic])) > 0 ==> b.retained[topic] in r.store))
            && (forall x :: x in b.store && (topic in b.retained ==> x != b.retained[topic]) ==> x in r.store && r.store[x] == b.store[x])
            && (forall x :: x in r.store && x != id ==> x in b.store && r.store[x].data == b.store[x].data)
  {
    if topic in b.retained {
      RetainedIsStored(b, topic);
      var was := b.retained[topic];
      StoreRetainedConserves(b, topic, qos, id, data);
      var r := StoreRetained(b, topic, qos, id, data);
      assert StoredCount(r.store, was) == Refs(r, was) + 0;
    }
  }

  /** The slot of the topic leads to the new bytes, and every other slot where it led before. */
  lemma StoreRetainedHolds(b: Broker, topic: Topic, qos: nat, id: Id, data: Bytes, expected: map<Topic, Bytes>)
    requires Conserved(b, 0) && Fresh(b, id) && Holds(b, expected)
    ensures Holds(StoreRetained(b, topic, qos, id, data), expected[topic := data])
  {
    var b1 := StoreRetained(b, topic, qos, id, data);
    ReplaceRetained(b, topic, qos, id, data);
    StoreRetainedConserves(b, topic, qos, id, data);
    forall t | t in b1.retained
      ensures b1.retained[t] in b1.store && b1.store[b1.retained[t]].data == expected[topic := data][t]
    {
      if t != topic {
        assert t in RetainedTopics(b1.retained, b1.retained[t]);
        assert StoredCount(b1.store, b1.retained[t]) == Refs(b1, b1.retained[t]) + (if b1.retained[t] == id then 1 else 0);
      }
    }
  }

  /** The effect of a retained PUBLISH on the slots. */
  lemma OnPublishHolds(b: Broker, s: Sock, topic: Topic, qos: nat, id: Id, data: Bytes, lost: set<nat>, expected: map<Topic, Bytes>)
    requires b.Shape() && Conserved(b, 0) && DistinctSocks(b.clients) && Fresh(b, id) && Holds(b, expected) && data != []
    requires !OnPublish(b, s, topic, qos, true, id, data, lost).fault
    ensures Holds(OnPublish(b, s, topic, qos, true, id, data, lost), expected[topic := data])
  {
    var b1 := StoreRetained(b, topic, qos, id, data);
    StoreRetainedHolds(b, topic, qos, id, data, expected);
    var b2 := if qos == 1 then Answer(b1, s, Entry(id, SendPuback, qos, true), lost)
              else if qos == 2 then Answer(b1, s, Entry(id, SendPubrec, qos, true), lost)
              else Send(b1, Message(s, Read), lost);
    PublishByTopicSame(b2, topic, qos, id, data, lost);
    OnPublishConserves(b, s, topic, qos, true, id, data, lost);
    var r := OnPublish(b, s, topic, qos, true, id, data, lost);
    assert SameMessages(b1, r);
    HoldsFrame(b1, r, expected[topic := data]);
  }

  lemma OnPacketSame(b: Broker, m: Message, inp: Input)
    requires b.Shape() && b.conns[m.sock].phase == Mqtt && m.op == Read && Retaining(b, m, inp) == None
    ensures SameMessages(b, OnPacket(b, m.sock, inp))
  {
    DropSame(b, m.sock, true, inp.willId, inp.lost);
    var k := ClientAt(b.clients, b.conns[m.sock].cid);
    if b.conns[m.sock].cid != "" && k < |b.clients| {
      ReactSame(b, m, k, inp);
    }
  }

  /** Only a retained PUBLISH changes a retained slot. */
  lemma HandleSame(b: Broker, m: Message, inp: Input)
    requires b.Shape() && Retaining(b, m, inp) == None
    ensures SameMessages(b, Handle(b, m, inp))
  {
    if b.conns[m.sock].phase != Mqtt {
      OnTlsSame(b, m.sock, inp);
    } else if m.op == Read {
      OnPacketSame(b, m, inp);
    } else {
      WriteEventSame(b, m.sock, inp.written, inp.lost);
    }
  }

  /** One turn of the worker: the slots hold what was published last. */
  lemma HandleHolds(b: Broker, m: Message, inp: Input, expected: map<Topic, Bytes>)
    requires Linked(b) && Conserved(b, 0) && Admissible(b, m, inp) && Holds(b, expected)
    requires !Handle(b, m, inp).fault
    ensures Holds(Handle(b, m, inp), Expect(expected, Retaining(b, m, inp)))
  {
    if Retaining(b, m, inp).Some? {
      var p := inp.packet;
      LinkedDistinct(b);
      assert Handle(b, m, inp) == OnPublish(b, m.sock, p.topic, p.qos, true, p.id, p.data, inp.lost);
      OnPublishHolds(b, m.sock, p.topic, p.qos, p.id, p.data, inp.lost, expected);
    } else {
      HandleConserves(b, m, inp);
      HandleSame(b, m, inp);
      HoldsFrame(b, Handle(b, m, inp), expected);
    }
  }
}
