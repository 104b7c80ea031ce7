/** Where deliveries come from. An entry that needs a stored message is born in a turn that offers the
    message - a PUBLISH, a SUBSCRIBE to a retained topic, or a will - at a QoS no higher than the
    message's. As long as it lives the message under its identifier stays as it was offered. */
module Births {
  import opened Protocol
  import opened Delivery
  import opened Conservation
  import opened ConservationSteps
  import opened Retained

  /** Messages by identifier; their counts do not matter. */
  type Offer = map<Id, Node>

  /** The slot held the same delivery before. */
  predicate Old(t: seq<Entry>, i: nat, f: Entry) {
    i < |t| && t[i].Counted() && t[i].id == f.id && t[i].qos == f.qos
  }

  predicate SlotBorn(t: seq<Entry>, i: nat, f: Entry, offer: Offer) {
    f.Counted() ==> Old(t, i, f) || (f.id in offer && f.qos <= offer[f.id].qos)
  }

  ghost predicate TableBorn(t: seq<Entry>, u: seq<Entry>, offer: Offer) {
    forall i :: 0 <= i < |u| ==> SlotBorn(t, i, u[i], offer)
  }

  /** Every delivery in `c` is one of `b` or of a message on offer. */
  ghost predicate Births(b: Broker, c: Broker, offer: Offer) {
    b.Shape() && c.Shape() && forall s: Sock :: TableBorn(b.conns[s].table, c.conns[s].table, offer)
  }

  lemma SameTablesBirths(b: Broker, c: Broker, offer: Offer)
    requires b.Shape() && c.Shape() && forall s: Sock :: c.conns[s].table == b.conns[s].table
    ensures Births(b, c, offer)
  {
    forall s: Sock ensures TableBorn(b.conns[s].table, c.conns[s].table, offer) {}
  }

  lemma BirthsTrans(a: Broker, b: Broker, c: Broker, offer: Offer)
    requires Births(a, b, offer) && Births(b, c, offer)
    ensures Births(a, c, offer)
  {
    forall s: Sock
      ensures TableBorn(a.conns[s].table, c.conns[s].table, offer)
    {
      var t, u := b.conns[s].table, c.conns[s].table;
      assert TableBorn(a.conns[s].table, t, offer) && TableBorn(t, u, offer);
      forall i | 0 <= i < |u| ensures SlotBorn(a.conns[s].table, i, u[i], offer) {
        assert SlotBorn(t, i, u[i], offer);
        assert i < |t| ==> SlotBorn(a.conns[s].table, i, t[i], offer);
      }
    }
  }

  lemma SetEntryBirths(b: Broker, c: Broker, s: Sock, i: nat, e: Entry, offer: Offer)
    requires b.Shape() && i < |b.conns[s].table| && SlotBorn(b.conns[s].table, i, e, offer)
    requires c.conns == SetEntry(b, s, i, e).conns
    ensures Births(b, c, offer)
  {
    forall x: Sock ensures TableBorn(b.conns[x].table, c.conns[x].table, offer) {}
  }

  lemma EnqueueBirths(b: Broker, c: Broker, s: Sock, e: Entry, offer: Offer)
    requires b.Shape() && (e.Counted() ==> e.id in offer && e.qos <= offer[e.id].qos)
    requires c.conns == Enqueue(b, s, e).conns
    ensures Births(b, c, offer)
  {
    forall x: Sock ensures TableBorn(b.conns[x].table, c.conns[x].table, offer) {}
  }

  // ---------- handlers ----------

  lemma DeliverBirths(b: Broker, s: Sock, id: Id, qos: nat, lost: set<nat>, offer: Offer)
    requires b.Shape() && id in b.store && id in offer && qos <= offer[id].qos
    ensures Births(b, Deliver(b, s, id, qos, lost), offer)
  {
    var d, e := Deliver(b, s, id, qos, lost), Entry(id, SendPublish, qos, true);
    if d.conns == b.conns {
      SameTablesBirths(b, d, offer);
    } else {
      EnqueueBirths(b, d, s, e, offer);
    }
  }

  lemma {:induction false} FanOutBirths(b: Broker, i: nat, topic: Topic, qos: nat, id: Id, lost: set<nat>, offer: Offer)
    requires b.Shape() && id in b.store && i <= |b.clients| && id in offer && qos <= offer[id].qos
    ensures Births(b, FanOut(b, i, topic, qos, id, lost), offer)
    decreases |b.clients| - i
  {
    SameTablesBirths(b, b, offer);
    if i < |b.clients| {
      var c := b.clients[i];
      if !Considered(c, topic) {
        FanOutBirths(b, i + 1, topic, qos, id, lost, offer);
      } else if c.sock == -1 {
        SameTablesBirths(b, b.(fault := true), offer);
      } else {
        var d := Deliver(b, c.sock, id, Min(c.subs[topic], qos), lost);
        DeliverBirths(b, c.sock, id, Min(c.subs[topic], qos), lost, offer);
        FanOutBirths(d, i + 1, topic, qos, id, lost, offer);
        BirthsTrans(b, d, FanOut(b, i, topic, qos, id, lost), offer);
      }
    }
  }

  lemma PublishByTopicBirths(b: Broker, topic: Topic, qos: nat, id: Id, data: Bytes, lost: set<nat>, offer: Offer)
    requires b.Shape() && id in offer && qos <= offer[id].qos
    ensures Births(b, PublishByTopic(b, topic, qos, id, data, lost), offer)
  {
    var r := PublishByTopic(b, topic, qos, id, data, lost);
    if data == [] {
      SameTablesBirths(b, r, offer);
    } else {
      var b0 := if id in b.store then b else b.(store := b.store[id := Node(1, qos, data)]);
      SameTablesBirths(b, b0, offer);
      FanOutBirths(b0, 0, topic, qos, id, lost, offer);
      BirthsTrans(b, b0, FanOut(b0, 0, topic, qos, id, lost), offer);
      SameTablesBirths(FanOut(b0, 0, topic, qos, id, lost), r, offer);
      BirthsTrans(b, FanOut(b0, 0, topic, qos, id, lost), r, offer);
    }
  }

  /** The will of the client on a connection. */
  function WillOf(b: Broker, s: Sock): Option<Will>
    requires b.Shape()
  {
    var k := ClientAt(b.clients, b.conns[s].cid);
    if b.conns[s].cid != "" && k < |b.clients| then b.clients[k].will else None
  }

  function WillOffer(b: Broker, s: Sock, willId: Id): Offer
    requires b.Shape()
  {
    match WillOf(b, s)
    case None => map[]
    case Some(w) => map[willId := Node(0, w.qos, w.data)]
  }

  lemma DropBirths(b: Broker, s: Sock, sendWill: bool, willId: Id, lost: set<nat>)
    requires b.Shape()
    ensures Births(b, Drop(b, s, sendWill, willId, lost), WillOffer(b, s, willId))
  {
    var b1, r, offer := Send(b, Message(s, DelAll), lost), Drop(b, s, sendWill, willId, lost), WillOffer(b, s, willId);
    var k := ClientAt(b.clients, b.conns[s].cid);
    if b.conns[s].cid != "" && k < |b.clients| && b.clients[k].will.Some? && sendWill {
      var w, c := b.clients[k].will.value, b.clients[k];
      var hidden := b1.(clients := b.clients[k := c.(sock := -1)]);
      var told := PublishByTopic(hidden, w.topic, w.qos, willId, w.data, lost);
      SameTablesBirths(b, hidden, offer);
      PublishByTopicBirths(hidden, w.topic, w.qos, willId, w.data, lost, offer);
      BirthsTrans(b, hidden, told, offer);
      SameTablesBirths(told, r, offer);
      BirthsTrans(b, told, r, offer);
    } else {
      SameTablesBirths(b, r, offer);
    }
  }

  lemma OnPublishBirths(b: Broker, s: Sock, topic: Topic, qos: nat, retain: bool, id: Id, data: Bytes, lost: set<nat>, offer: Offer)
    requires b.Shape() && id in offer && qos <= offer[id].qos
    ensures Births(b, OnPublish(b, s, topic, qos, retain, id, data, lost), offer)
  {
    var b1 := if retain && data != [] then StoreRetained(b, topic, qos, id, data) else b;
    var b2 := if qos == 1 then Answer(b1, s, Entry(id, SendPuback, qos, true), lost)
              else if qos == 2 then Answer(b1, s, Entry(id, SendPubrec, qos, true), lost)
              else Send(b1, Message(s, Read), lost);
    if b2.conns == b.conns {
      SameTablesBirths(b, b2, offer);
    } else {
      EnqueueBirths(b, b2, s, Entry(id, if qos == 1 then SendPuback else SendPubrec, qos, true), offer);
    }
    PublishByTopicBirths(b2, topic, qos, id, data, lost, offer);
    BirthsTrans(b, b2, PublishByTopic(b2, topic, qos, id, data, lost), offer);
  }

  /** One of the filters is for a topic that retains this message. */
  predicate Asked(retained: map<Topic, Id>, filters: seq<(Topic, nat)>, id: Id) {
    exists i :: 0 <= i < |filters| && filters[i].0 in retained && retained[filters[i].0] == id
  }

  /** The retained messages of the filters' topics. */
  function RetainedOffer(b: Broker, filters: seq<(Topic, nat)>): Offer {
    map id | id in b.store && Asked(b.retained, filters, id) :: b.store[id]
  }

  /** The retained messages that the filters ask for are on offer as they are stored. */
  ghost predicate Covers(offer: Offer, b: Broker, filters: seq<(Topic, nat)>) {
    forall id :: id in b.store && Asked(b.retained, filters, id) ==> id in offer && b.store[id].qos <= offer[id].qos
  }

  lemma SubscribeOneBirths(b: Broker, s: Sock, k: nat, filters: seq<(Topic, nat)>, lost: set<nat>, offer: Offer)
    requires b.Shape() && k < |b.clients| && filters != [] && Covers(offer, b, filters)
    ensures var r := SubscribeOne(b, s, k, filters[0].0, filters[0].1, lost);
            Births(b, r, offer) && Covers(offer, r, filters[1..])
  {
    var topic, r := filters[0].0, SubscribeOne(b, s, k, filters[0].0, filters[0].1, lost);
    if r.conns == b.conns {
      SameTablesBirths(b, r, offer);
    } else {
      var id := b.retained[topic];
      assert Asked(b.retained, filters, id);
      EnqueueBirths(b, r, s, Entry(id, SendPublish, Min(Min(filters[0].1, 2), b.store[id].qos), false), offer);
    }
    forall id | Asked(r.retained, filters[1..], id) ensures Asked(b.retained, filters, id) {
      var i :| 0 <= i < |filters[1..]| && filters[1..][i].0 in r.retained && r.retained[filters[1..][i].0] == id;
      assert filters[i + 1] == filters[1..][i];
    }
  }

  lemma {:induction false} SubscribeAllBirths(b: Broker, s: Sock, k: nat, filters: seq<(Topic, nat)>, lost: set<nat>, offer: Offer)
    requires b.Shape() && k < |b.clients| && Covers(offer, b, filters)
    ensures Births(b, SubscribeAll(b, s, k, filters, lost), offer)
    decreases |filters|
  {
    if filters == [] {
      SameTablesBirths(b, b, offer);
    } else {
      var r := SubscribeOne(b, s, k, filters[0].0, filters[0].1, lost);
      SubscribeOneBirths(b, s, k, filters, lost, offer);
      SubscribeAllBirths(r, s, k, filters[1..], lost, offer);
      BirthsTrans(b, r, SubscribeAll(b, s, k, filters, lost), offer);
    }
  }

  lemma WriteEventBirths(b: Broker, s: Sock, written: bool, lost: set<nat>, offer: Offer)
    requires b.Shape()
    ensures Births(b, WriteEvent(b, s, written, lost), offer)
  {
    var t, i, r := b.conns[s].table, First(b.conns[s].table, AnyPending), WriteEvent(b, s, written, lost);
    if i == |t| {
      SameTablesBirths(b, r, offer);
    } else {
      var c := Serve(b, s, i, written);
      assert c.conns == b.conns || c.conns == SetEntry(b, s, i, c.conns[s].table[i]).conns;
      if c.conns == b.conns {
        SameTablesBirths(b, r, offer);
      } else {
        SetEntryBirths(b, r, s, i, c.conns[s].table[i], offer);
      }
    }
  }

  lemma PubackBirths(b: Broker, s: Sock, id: Id, wellFormed: bool, written: bool, lost: set<nat>, offer: Offer)
    requires b.Shape() && 0 !in b.store
    ensures var r := OnPuback(b, s, id, wellFormed, written, lost); r.Some? ==> Births(b, r.value, offer)
  {
    var r, i := OnPuback(b, s, id, wellFormed, written, lost), First(b.conns[s].table, Waiting(id, GetPuback));
    if r.Some? {
      SetEntryBirths(b, r.value, s, i, r.value.conns[s].table[i], offer);
    }
  }

  lemma PubrecBirths(b: Broker, s: Sock, id: Id, wellFormed: bool, written: bool, lost: set<nat>, offer: Offer)
    requires b.Shape() && 0 !in b.store
    ensures var r := OnPubrec(b, s, id, wellFormed, written, lost); r.Some? ==> Births(b, r.value, offer)
  {
    var r, i := OnPubrec(b, s, id, wellFormed, written, lost), First(b.conns[s].table, Waiting(id, GetPubrec));
    if r.Some? {
      SetEntryBirths(b, r.value, s, i, r.value.conns[s].table[i], offer);
    }
  }

  lemma FinalAckBirths(b: Broker, s: Sock, id: Id, wellFormed: bool, lost: set<nat>, offer: Offer)
    requires b.Shape()
    ensures var r := OnPubrel(b, s, id, wellFormed, lost); r.Some? ==> Births(b, r.value, offer)
    ensures var r := OnPubcomp(b, s, id, wellFormed, lost); r.Some? ==> Births(b, r.value, offer)
  {
    var t := b.conns[s].table;
    var i := First(t, Waiting(id, GetPubrel));
    if i < |t| && wellFormed {
      SetEntryBirths(b, OnPubrel(b, s, id, wellFormed, lost).value, s, i, t[i].(state := SendPubcomp), offer);
    }
    var j := First(t, Waiting(id, GetPubcomp));
    if j < |t| && wellFormed {
      SetEntryBirths(b, OnPubcomp(b, s, id, wellFormed, lost).value, s, j, Freed(t[j]), offer);
    }
  }

  // ---------- one turn ----------

  /** The packet is one on a connection whose client is known. */
  predicate OnSession(b: Broker, m: Message)
    requires b.Shape()
  {
    b.conns[m.sock].phase == Mqtt && m.op == Read && b.conns[m.sock].cid != "" && ClientAt(b.clients, b.conns[m.sock].cid) < |b.clients|
  }

  /** The turn drops the connection for a reason other than a DISCONNECT, so a will is published. */
  predicate Drops(b: Broker, m: Message, inp: Input)
    requires b.Shape()
  {
    if b.conns[m.sock].phase != Mqtt then inp.tls.Failed?
    else if OnSession(b, m) then React(b, m.sock, ClientAt(b.clients, b.conns[m.sock].cid), inp.packet, inp.written, inp.lost) == None
    else m.op == Read && !(inp.packet.Connect? && inp.packet.accepted && inp.packet.cid != "")
  }

  /** The messages that a turn may make deliveries of: the one that is published, those that are retained
      for the topics of a SUBSCRIBE, or the will of a connection that is dropped. */
  function Offered(b: Broker, m: Message, inp: Input): Offer
    requires b.Shape()
  {
    if OnSession(b, m) && inp.packet.Publish? && inp.packet.qos <= 2 then map[inp.packet.id := Node(0, inp.packet.qos, inp.packet.data)]
    else if OnSession(b, m) && inp.packet.Subscribe? then RetainedOffer(b, inp.packet.filters)
    else if Drops(b, m, inp) then WillOffer(b, m.sock, inp.willId)
    else map[]
  }

  lemma ReactBirths(b: Broker, m: Message, inp: Input)
    requires b.Shape() && OnSession(b, m) && 0 !in b.store
    ensures var r := React(b, m.sock, ClientAt(b.clients, b.conns[m.sock].cid), inp.packet, inp.written, inp.lost);
            r.Some? ==> Births(b, r.value, Offered(b, m, inp))
  {
    var s, k, p, offer := m.sock, ClientAt(b.clients, b.conns[m.sock].cid), inp.packet, Offered(b, m, inp);
    var r := React(b, s, k, p, inp.written, inp.lost);
    match p
    case Closed =>
    case Publish(topic, qos, retain, id, data) =>
      if qos <= 2 { OnPublishBirths(b, s, topic, qos, retain, id, data, inp.lost, offer); }
    case Puback(id, wellFormed) => PubackBirths(b, s, id, wellFormed, inp.written, inp.lost, offer);
    case Pubrec(id, wellFormed) => PubrecBirths(b, s, id, wellFormed, inp.written, inp.lost, offer);
    case Pubrel(id, wellFormed) => FinalAckBirths(b, s, id, wellFormed, inp.lost, offer);
    case Pubcomp(id, wellFormed) => FinalAckBirths(b, s, id, wellFormed, inp.lost, offer);
    case Subscribe(filters) =>
      SubscribeAllBirths(b, s, k, filters, inp.lost, offer);
      SameTablesBirths(SubscribeAll(b, s, k, filters, inp.lost), r.value, offer);
      BirthsTrans(b, SubscribeAll(b, s, k, filters, inp.lost), r.value, offer);
    case Disconnect => DisconnectBirths(b, s, k, inp.lost, offer);
    case _ => SameTablesBirths(b, r.value, offer);
  }

  /** A client that takes its leave has no will published. */
  lemma DisconnectBirths(b: Broker, s: Sock, k: nat, lost: set<nat>, offer: Offer)
    requires b.Shape() && k < |b.clients|
    ensures Births(b, Drop(b.(clients := b.clients[k := b.clients[k].(clean := true)]), s, false, 0, lost), offer)
  {
    SameTablesBirths(b, Drop(b.(clients := b.clients[k := b.clients[k].(clean := true)]), s, false, 0, lost), offer);
  }

  /** Every delivery after a turn was there before or is of a message that the turn offers. */
  lemma HandleBirths(b: Broker, m: Message, inp: Input)
    requires b.Shape() && 0 !in b.store
    ensures Births(b, Handle(b, m, inp), Offered(b, m, inp))
  {
    var s, r, offer := m.sock, Handle(b, m, inp), Offered(b, m, inp);
    if b.conns[s].phase != Mqtt {
      OnTlsBirths(b, m, inp);
    } else if m.op == Write {
      WriteEventBirths(b, s, inp.written, inp.lost, offer);
    } else if m.op == Read {
      OnPacketBirths(b, m, inp);
    } else {
      SameTablesBirths(b, r, offer);
    }
  }

  lemma OnTlsBirths(b: Broker, m: Message, inp: Input)
    requires b.Shape() && b.conns[m.sock].phase != Mqtt
    ensures Births(b, OnTls(b, m.sock, inp), Offered(b, m, inp))
  {
    if inp.tls == Failed {
      DropBirths(b, m.sock, true, inp.willId, inp.lost);
    } else {
      SameTablesBirths(b, OnTls(b, m.sock, inp), Offered(b, m, inp));
    }
  }

  /** What a packet on a session comes to. */
  lemma OnSessionIs(b: Broker, m: Message, inp: Input)
    requires b.Shape() && OnSession(b, m)
    ensures var o := React(b, m.sock, ClientAt(b.clients, b.conns[m.sock].cid), inp.packet, inp.written, inp.lost);
            && OnPacket(b, m.sock, inp) == (if o.Some? then o.value else Drop(b, m.sock, true, inp.willId, inp.lost))
            && (o == None <==> Drops(b, m, inp))
            && (o == None ==> Offered(b, m, inp) == WillOffer(b, m.sock, inp.willId))
  {
  }

  lemma OnPacketBirths(b: Broker, m: Message, inp: Input)
    requires b.Shape() && 0 !in b.store && b.conns[m.sock].phase == Mqtt && m.op == Read
    ensures Births(b, OnPacket(b, m.sock, inp), Offered(b, m, inp))
  {
    if !OnSession(b, m) {
      OutsideBirths(b, m, inp);
    } else if Drops(b, m, inp) {
      OnSessionIs(b, m, inp);
      DropBirths(b, m.sock, true, inp.willId, inp.lost);
    } else {
      OnSessionIs(b, m, inp);
      ReactBirths(b, m, inp);
    }
  }

  lemma OutsideBirths(b: Broker, m: Message, inp: Input)
    requires b.Shape() && b.conns[m.sock].phase == Mqtt && m.op == Read && !OnSession(b, m)
    ensures Births(b, OnPacket(b, m.sock, inp), Offered(b, m, inp))
  {
    var p := inp.packet;
    if p.Connect? && p.accepted && p.cid != "" {
      SameTablesBirths(b, Accept(b, m.sock, p.cid, p.clean, p.will, inp.lost), Offered(b, m, inp));
    } else {
      DropBirths(b, m.sock, true, inp.willId, inp.lost);
    }
  }

  // ---------- what is stored under an identifier ----------

  predicate SameContent(x: Node, y: Node) { x.data == y.data && x.qos == y.qos }

  /** What stays stored stays as it is, and nothing is stored anew but what is on offer. */
  ghost predicate Keeps(b: Broker, c: Broker, offer: Offer) {
    forall id :: id in c.store ==>
      if id in b.store then SameContent(b.store[id], c.store[id]) else id in offer && SameContent(offer[id], c.store[id])
  }

  /** The messages on offer are not stored otherwise. */
  ghost predicate Agrees(b: Broker, offer: Offer) {
    forall id :: id in offer && id in b.store ==> SameContent(offer[id], b.store[id])
  }

  lemma {:induction false} FanOutKeepsNodes(b: Broker, i: nat, topic: Topic, qos: nat, id: Id, lost: set<nat>)
    requires b.Shape() && id in b.store && i <= |b.clients|
    ensures var r := FanOut(b, i, topic, qos, id, lost); Keeps(b, r, map[]) && r.store.Keys == b.store.Keys
  {
    FanOutSame(b, i, topic, qos, id, lost);
  }

  lemma PublishByTopicKeeps(b: Broker, topic: Topic, qos: nat, id: Id, data: Bytes, lost: set<nat>, offer: Offer)
    requires b.Shape() && id in offer && offer[id].data == data && offer[id].qos == qos
    ensures Keeps(b, PublishByTopic(b, topic, qos, id, data, lost), offer)
  {
    if data != [] {
      var b0 := if id in b.store then b else b.(store := b.store[id := Node(1, qos, data)]);
      FanOutKeepsNodes(b0, 0, topic, qos, id, lost);
    }
  }

  lemma DropKeeps(b: Broker, s: Sock, sendWill: bool, willId: Id, lost: set<nat>)
    requires b.Shape()
    ensures Keeps(b, Drop(b, s, sendWill, willId, lost), WillOffer(b, s, willId))
  {
    var b1 := Send(b, Message(s, DelAll), lost);
    var k := ClientAt(b.clients, b.conns[s].cid);
    if b.conns[s].cid != "" && k < |b.clients| && b.clients[k].will.Some? && sendWill {
      var w := b.clients[k].will.value;
      PublishByTopicKeeps(b1.(clients := b.clients[k := b.clients[k].(sock := -1)]), w.topic, w.qos, willId, w.data, lost, WillOffer(b, s, willId));
    }
  }

  lemma OnPublishKeeps(b: Broker, s: Sock, topic: Topic, qos: nat, retain: bool, id: Id, data: Bytes, lost: set<nat>)
    requires b.Shape() && Fresh(b, id)
    ensures Keeps(b, OnPublish(b, s, topic, qos, retain, id, data, lost), map[id := Node(0, qos, data)])
  {
    var offer := map[id := Node(0, qos, data)];
    var b1 := if retain && data != [] then StoreRetained(b, topic, qos, id, data) else b;
    var b2 := if qos == 1 then Answer(b1, s, Entry(id, SendPuback, qos, true), lost)
              else if qos == 2 then Answer(b1, s, Entry(id, SendPubrec, qos, true), lost)
              else Send(b1, Message(s, Read), lost);
    assert b2.store == b1.store;
    StoreRetainedKeeps(b, topic, qos, id, data);
    PublishByTopicKeeps(b2, topic, qos, id, data, lost, offer);
    KeepsOn(b, b2, PublishByTopic(b2, topic, qos, id, data, lost), id, offer);
  }

  lemma StoreRetainedKeeps(b: Broker, topic: Topic, qos: nat, id: Id, data: Bytes)
    requires Fresh(b, id)
    ensures Keeps(b, StoreRetained(b, topic, qos, id, data), map[id := Node(0, qos, data)])
  {
  }

  lemma KeepsOn(a: Broker, b: Broker, c: Broker, id: Id, offer: Offer)
    requires id !in a.store && offer.Keys == {id} && Keeps(a, b, offer) && Keeps(b, c, offer)
    ensures Keeps(a, c, offer)
  {
  }

  /** Without a PUBLISH and a will nothing is stored anew. */
  lemma SameKeeps(b: Broker, c: Broker, offer: Offer)
    requires SameMessages(b, c) && c.store.Keys <= b.store.Keys
    ensures Keeps(b, c, offer)
  {
  }

  /** One turn: stored messages stay as they are, and a new one is as the turn offers it. */
  lemma HandleKeeps(b: Broker, m: Message, inp: Input)
    requires b.Shape() && Conserved(b, 0) && Admissible(b, m, inp)
    ensures Keeps(b, Handle(b, m, inp), Offered(b, m, inp))
  {
    if b.conns[m.sock].phase != Mqtt {
      OnTlsKeeps(b, m, inp);
    } else if m.op == Write {
      WriteEventKeeps(b, m, inp);
    } else if m.op == Read {
      OnPacketKeeps(b, m, inp);
    }
  }

  /** A turn offers nothing under an identifier that stands for another message. */
  lemma OfferAgrees(b: Broker, m: Message, inp: Input)
    requires b.Shape() && Admissible(b, m, inp)
    ensures Agrees(b, Offered(b, m, inp))
  {
  }

  lemma OnTlsKeeps(b: Broker, m: Message, inp: Input)
    requires b.Shape() && b.conns[m.sock].phase != Mqtt
    ensures Keeps(b, OnTls(b, m.sock, inp), Offered(b, m, inp))
  {
    if inp.tls == Failed {
      DropKeeps(b, m.sock, true, inp.willId, inp.lost);
    }
  }

  lemma WriteEventKeeps(b: Broker, m: Message, inp: Input)
    requires b.Shape()
    ensures Keeps(b, WriteEvent(b, m.sock, inp.written, inp.lost), Offered(b, m, inp))
  {
    var r := WriteEvent(b, m.sock, inp.written, inp.lost);
    WriteEventSame(b, m.sock, inp.written, inp.lost);
    SameKeeps(b, r, Offered(b, m, inp));
  }

  lemma OnPacketKeeps(b: Broker, m: Message, inp: Input)
    requires b.Shape() && Admissible(b, m, inp) && b.conns[m.sock].phase == Mqtt && m.op == Read
    ensures Keeps(b, OnPacket(b, m.sock, inp), Offered(b, m, inp))
  {
    var p := inp.packet;
    if OnSession(b, m) {
      OnSessionIs(b, m, inp);
      if Drops(b, m, inp) {
        DropKeeps(b, m.sock, true, inp.willId, inp.lost);
      } else {
        ReactKeeps(b, m, inp);
      }
    } else if !(p.Connect? && p.accepted && p.cid != "") {
      DropKeeps(b, m.sock, true, inp.willId, inp.lost);
    }
  }

  lemma ReactKeeps(b: Broker, m: Message, inp: Input)
    requires b.Shape() && Admissible(b, m, inp) && OnSession(b, m)
    ensures var o := React(b, m.sock, ClientAt(b.clients, b.conns[m.sock].cid), inp.packet, inp.written, inp.lost);
            o.Some? ==> Keeps(b, o.value, Offered(b, m, inp))
  {
    var s, p, k := m.sock, inp.packet, ClientAt(b.clients, b.conns[m.sock].cid);
    var o := React(b, s, k, p, inp.written, inp.lost);
    if o.Some? {
      if p.Publish? {
        OnPublishKeeps(b, s, p.topic, p.qos, p.retain, p.id, p.data, inp.lost);
      } else {
        ReactSame(b, m, k, inp);
        ReactStoresNothing(b, m, inp);
        SameKeeps(b, o.value, Offered(b, m, inp));
      }
    }
  }

  lemma ReactStoresNothing(b: Broker, m: Message, inp: Input)
    requires b.Shape() && OnSession(b, m) && !inp.packet.Publish?
    ensures var r := React(b, m.sock, ClientAt(b.clients, b.conns[m.sock].cid), inp.packet, inp.written, inp.lost);
            r.Some? ==> r.value.store.Keys <= b.store.Keys
  {
    match inp.packet
    case Subscribe(filters) => SubscribeAllSame(b, m.sock, ClientAt(b.clients, b.conns[m.sock].cid), filters, inp.lost);
    case Puback(id, wellFormed) => AckStoresNothing(b, m.sock, id, wellFormed, inp.written, inp.lost);
    case Pubrec(id, wellFormed) => AckStoresNothing(b, m.sock, id, wellFormed, inp.written, inp.lost);
    case _ =>
  }

  lemma AckStoresNothing(b: Broker, s: Sock, id: Id, wellFormed: bool, written: bool, lost: set<nat>)
    requires b.Shape()
    ensures var r := OnPuback(b, s, id, wellFormed, written, lost); r.Some? ==> r.value.store.Keys <= b.store.Keys
    ensures var r := OnPubrec(b, s, id, wellFormed, written, lost); r.Some? ==> r.value.store.Keys <= b.store.Keys
  {
  }

  // ---------- deliveries and their messages ----------

  /** No delivery is made at a higher QoS than its message was published with. */
  ghost predicate Bounded(b: Broker) {
    b.Shape() && forall s: Sock, i {:trigger b.conns[s].table[i]} :: 0 <= i < |b.conns[s].table| && b.conns[s].table[i].Counted() ==>
      b.conns[s].table[i].id in b.store && b.conns[s].table[i].qos <= b.store[b.conns[s].table[i].id].qos
  }

  /** What is known of a delivery after a turn. */
  lemma DeliveryAfter(b: Broker, m: Message, inp: Input, s: Sock, i: nat)
    requires b.Shape() && Conserved(b, 0) && Admissible(b, m, inp)
    requires var r := Handle(b, m, inp); Conserved(r, 0) && i < |r.conns[s].table| && r.conns[s].table[i].Counted()
    ensures var r, offer := Handle(b, m, inp), Offered(b, m, inp);
            var f := r.conns[s].table[i];
            && f.id in r.store
            && if Old(b.conns[s].table, i, f) then f.id in b.store && SameContent(b.store[f.id], r.store[f.id])
               else f.id in offer && f.qos <= offer[f.id].qos && SameContent(offer[f.id], r.store[f.id])
  {
    var r, offer := Handle(b, m, inp), Offered(b, m, inp);
    var f := r.conns[s].table[i];
    NothingDangles(r, 0, s, i);
    HandleKeeps(b, m, inp);
    OfferAgrees(b, m, inp);
    HandleBirths(b, m, inp);
    assert TableBorn(b.conns[s].table, r.conns[s].table, offer);
    assert SlotBorn(b.conns[s].table, i, f, offer);
    if Old(b.conns[s].table, i, f) {
      NothingDangles(b, 0, s, i);
    }
  }

  lemma HandleBounded(b: Broker, m: Message, inp: Input)
    requires Linked(b) && Conserved(b, 0) && Bounded(b) && Admissible(b, m, inp) && !Handle(b, m, inp).fault
    ensures Bounded(Handle(b, m, inp))
  {
    var r := Handle(b, m, inp);
    HandleConserves(b, m, inp);
    forall s: Sock, i | 0 <= i < |r.conns[s].table| && r.conns[s].table[i].Counted()
      ensures r.conns[s].table[i].id in r.store && r.conns[s].table[i].qos <= r.store[r.conns[s].table[i].id].qos
    {
      DeliveryAfter(b, m, inp, s, i);
    }
  }
}
