/** Every turn of the worker keeps the books balanced, and keeps clients and connections linked. */
module ConservationSteps {
  import opened Protocol
  import opened Delivery
  import opened Conservation

  /** A new message identifier is non-zero and does not name a stored message. */
  ghost predicate Fresh(b: Broker, id: Id) { id != 0 && id !in b.store }

  /** The 8-bit counter of every retained message that these filters deliver can take one more. */
  ghost predicate Room(b: Broker, s: Sock, k: nat, filters: seq<(Topic, nat)>, lost: set<nat>)
    requires b.Shape() && k < |b.clients|
    decreases |filters|
  {
    filters != [] ==>
    && (RetainedDelivery(b, filters[0].0, lost) ==> b.store[b.retained[filters[0].0]].count < 0xFF)
    && Room(SubscribeOne(b, s, k, filters[0].0, filters[0].1, lost), s, k, filters[1..], lost)
  }

  /** A SUBSCRIBE to this topic makes a delivery of its retained message. */
  ghost predicate RetainedDelivery(b: Broker, topic: Topic, lost: set<nat>) {
    topic in b.retained && b.retained[topic] in b.store && b.tries !in lost
  }

  /** What the theorems ask of the environment: fresh identifiers, and room in the counters. */
  ghost predicate Admissible(b: Broker, m: Message, inp: Input)
    requires b.Shape()
  {
    && Fresh(b, inp.willId)
    && (inp.packet.Publish? ==> Fresh(b, inp.packet.id))
    && (inp.packet.Subscribe? ==>
          var k := ClientAt(b.clients, b.conns[m.sock].cid);
          k < |b.clients| ==> Room(b, m.sock, k, inp.packet.filters, inp.lost))
  }

  lemma DropConserves(b: Broker, s: Sock, sendWill: bool, willId: Id, lost: set<nat>)
    requires b.Shape() && Conserved(b, 0) && DistinctSocks(b.clients) && (sendWill ==> Fresh(b, willId))
    requires !Drop(b, s, sendWill, willId, lost).fault
    ensures Conserved(Drop(b, s, sendWill, willId, lost), 0)
  {
    var b1 := Send(b, Message(s, DelAll), lost);
    var k := ClientAt(b.clients, b.conns[s].cid);
    ConservedFrame(b, b1, 0);
    if b.conns[s].cid == "" || k == |b.clients| {
      SetConnConserves(b1, s, Uninit, "", 0);
    } else {
      var c := b.clients[k];
      var b2 := b1;
      if c.will.Some? && sendWill {
        var w := c.will.value;
        var hidden := b1.(clients := b.clients[k := c.(sock := -1)]);
        ConservedFrame(b1, hidden, 0);
        PublishByTopicConserves(hidden, w.topic, w.qos, willId, w.data, lost);
        b2 := PublishByTopic(hidden, w.topic, w.qos, willId, w.data, lost);
      }
      var rest := if c.clean then b.clients[..k] + b.clients[k + 1..] else b.clients[k := c.(sock := -1)];
      ConservedFrame(b2, b2.(clients := rest), 0);
      SetConnConserves(b2.(clients := rest), s, Uninit, "", 0);
    }
  }

  lemma AcceptConserves(b: Broker, s: Sock, cid: string, clean: bool, will: Option<Will>, lost: set<nat>)
    requires b.Shape() && Conserved(b, 0)
    ensures Conserved(Accept(b, s, cid, clean, will, lost), 0)
  {
    var r := Accept(b, s, cid, clean, will, lost);
    var b1 := SetConn(b, s, b.conns[s].phase, cid);
    SetConnConserves(b, s, b.conns[s].phase, cid, 0);
    var k := ClientAt(b.clients, cid);
    if k < |b.clients| && b.clients[k].sock != -1 {
      var b2 := Send(b1, Message(b.clients[k].sock, DelAll), lost);
      ConservedFrame(b1, b2, 0);
      SetConnConserves(b2, b.clients[k].sock, Uninit, "", 0);
      ConservedFrame(SetConn(b2, b.clients[k].sock, Uninit, ""), r, 0);
    } else {
      ConservedFrame(b1, r, 0);
    }
  }

  lemma AnswerConserves(b: Broker, s: Sock, e: Entry, lost: set<nat>, extra: Id)
    requires b.Shape() && Conserved(b, extra) && !e.Counted()
    ensures Conserved(Answer(b, s, e, lost), extra)
  {
    var b1 := Send(b, Message(s, Write), lost);
    ConservedFrame(b, b1, extra);
    EnqueueConserves(b1, s, e, extra);
  }

  lemma OnPublishConserves(b: Broker, s: Sock, topic: Topic, qos: nat, retain: bool, id: Id, data: Bytes, lost: set<nat>)
    requires b.Shape() && Conserved(b, 0) && DistinctSocks(b.clients) && Fresh(b, id)
    requires !OnPublish(b, s, topic, qos, retain, id, data, lost).fault
    ensures Conserved(OnPublish(b, s, topic, qos, retain, id, data, lost), 0)
  {
    var kept := retain && data != [];
    var b1 := if kept then StoreRetained(b, topic, qos, id, data) else b;
    var extra: Id := if kept then id else 0;
    if kept {
      StoreRetainedConserves(b, topic, qos, id, data);
    }
    var b2 := Answered(b1, s, qos, id, lost);
    AnsweredConserves(b1, s, qos, id, lost, extra);
    assert OnPublish(b, s, topic, qos, retain, id, data, lost) == PublishByTopic(b2, topic, qos, id, data, lost);
    PublishByTopicConserves(b2, topic, qos, id, data, lost);
  }

  /** What the sender of a PUBLISH is owed. */
  function Answered(b: Broker, s: Sock, qos: nat, id: Id, lost: set<nat>): Broker
    requires b.Shape()
  {
    if qos == 1 then Answer(b, s, Entry(id, SendPuback, qos, true), lost)
    else if qos == 2 then Answer(b, s, Entry(id, SendPubrec, qos, true), lost)
    else Send(b, Message(s, Read), lost)
  }

  lemma AnsweredConserves(b: Broker, s: Sock, qos: nat, id: Id, lost: set<nat>, extra: Id)
    requires b.Shape() && Conserved(b, extra)
    ensures var r := Answered(b, s, qos, id, lost); r.Shape() && Conserved(r, extra) && r.clients == b.clients && r.store == b.store && r.fault == b.fault
  {
    AnswerConserves(b, s, Entry(id, SendPuback, qos, true), lost, extra);
    AnswerConserves(b, s, Entry(id, SendPubrec, qos, true), lost, extra);
    ConservedFrame(b, Send(b, Message(s, Read), lost), extra);
  }

  /** Writing a message that is still stored either keeps the entry's reference or gives it back. */
  lemma PublishEntryConserves(b: Broker, s: Sock, i: nat, data: Bytes, qos: nat, deleteRetain: bool, written: bool)
    requires b.Shape() && Conserved(b, 0) && i < |b.conns[s].table| && b.conns[s].table[i].Counted()
    ensures Conserved(PublishEntry(b, s, i, data, qos, b.conns[s].table[i].id, deleteRetain, written), 0)
  {
    var e := b.conns[s].table[i];
    NothingDangles(b, 0, s, i);
    GiveUpConserves(b, s, i, Freed(e), 0);
    MoveConserves(b, s, i, e.(state := if qos == 1 then GetPuback else GetPubrec), 0);
    var r := PublishEntry(b, s, i, data, qos, e.id, deleteRetain, written);
    if qos == 0 || !written {
      ConservedFrame(SetEntry(b, s, i, Freed(e)).(store := Release(b.store, e.id)), r, 0);
    } else {
      ConservedFrame(SetEntry(b, s, i, e.(state := if qos == 1 then GetPuback else GetPubrec)), r, 0);
    }
  }

  lemma ServeConserves(b: Broker, s: Sock, i: nat, written: bool)
    requires b.Shape() && Conserved(b, 0) && i < |b.conns[s].table| && b.conns[s].table[i].Pending()
    ensures Conserved(Serve(b, s, i, written), 0)
  {
    var e := b.conns[s].table[i];
    if e.state.SendPublish? {
      NothingDangles(b, 0, s, i);
      PublishEntryConserves(b, s, i, b.store[e.id].data, e.qos, e.deleteRetain, written);
    } else {
      var r := Serve(b, s, i, written);
      MoveConserves(b, s, i, r.conns[s].table[i], 0);
      ConservedFrame(SetEntry(b, s, i, r.conns[s].table[i]), r, 0);
    }
  }

  lemma WriteEventConserves(b: Broker, s: Sock, written: bool, lost: set<nat>)
    requires b.Shape() && Conserved(b, 0)
    ensures Conserved(WriteEvent(b, s, written, lost), 0)
  {
    var t := b.conns[s].table;
    var i := First(t, AnyPending);
    if i < |t| {
      ServeConserves(b, s, i, written);
      ConservedFrame(Serve(b, s, i, written), WriteEvent(b, s, written, lost), 0);
    } else {
      ConservedFrame(b, WriteEvent(b, s, written, lost), 0);
    }
  }

  /** An acknowledgement with identifier 0 can find a free slot of the table, and no message. */
  lemma ZeroAckConserves(b: Broker, s: Sock, i: nat, e: Entry, op: Operation, lost: set<nat>)
    requires b.Shape() && Conserved(b, 0) && i < |b.conns[s].table| && b.conns[s].table[i].id == 0 && e.id == 0
    ensures Release(b.store, 0) == b.store && Conserved(Send(SetEntry(b, s, i, e), Message(s, op), lost), 0)
  {
    MoveConserves(b, s, i, e, 0);
    ConservedFrame(SetEntry(b, s, i, e), Send(SetEntry(b, s, i, e), Message(s, op), lost), 0);
  }

  /** PUBACK and PUBREC, well formed or not. */
  lemma AckConserves(b: Broker, s: Sock, id: Id, wellFormed: bool, written: bool, lost: set<nat>)
    requires b.Shape() && Conserved(b, 0)
    ensures var r := OnPuback(b, s, id, wellFormed, written, lost); r.Some? ==> Conserved(r.value, 0)
    ensures var r := OnPubrec(b, s, id, wellFormed, written, lost); r.Some? ==> Conserved(r.value, 0)
  {
    var t := b.conns[s].table;
    var i := First(t, Waiting(id, GetPuback));
    if i < |t| && id == 0 {
      ZeroAckConserves(b, s, i, Freed(t[i]), Read, lost);
    } else if i < |t| {
      NothingDangles(b, 0, s, i);
      PublishEntryConserves(b, s, i, b.store[id].data, b.store[id].qos, true, written);
      GiveUpConserves(b, s, i, Freed(t[i]), 0);
      var c := SetEntry(b, s, i, Freed(t[i])).(store := Release(b.store, id));
      ConservedFrame(c, Send(c, Message(s, Read), lost), 0);
    }
    var j := First(t, Waiting(id, GetPubrec));
    if j < |t| && id == 0 {
      ZeroAckConserves(b, s, j, t[j].(state := SendPubrel), Write, lost);
    } else if j < |t| {
      NothingDangles(b, 0, s, j);
      PublishEntryConserves(b, s, j, b.store[id].data, b.store[id].qos, true, written);
      GiveUpConserves(b, s, j, t[j].(state := SendPubrel), 0);
      var c := SetEntry(b, s, j, t[j].(state := SendPubrel)).(store := Release(b.store, id));
      ConservedFrame(c, Send(c, Message(s, Write), lost), 0);
    }
  }

  /** PUBREL and PUBCOMP never touch a stored message. */
  lemma FinalAckConserves(b: Broker, s: Sock, id: Id, wellFormed: bool, lost: set<nat>)
    requires b.Shape() && Conserved(b, 0)
    ensures var r := OnPubrel(b, s, id, wellFormed, lost); r.Some? ==> Conserved(r.value, 0)
    ensures var r := OnPubcomp(b, s, id, wellFormed, lost); r.Some? ==> Conserved(r.value, 0)
  {
    var t := b.conns[s].table;
    var i := First(t, Waiting(id, GetPubrel));
    if i < |t| {
      MoveConserves(b, s, i, t[i].(state := SendPubcomp), 0);
      var c := SetEntry(b, s, i, t[i].(state := SendPubcomp));
      ConservedFrame(c, Send(c, Message(s, Write), lost), 0);
    }
    var j := First(t, Waiting(id, GetPubcomp));
    if j < |t| {
      MoveConserves(b, s, j, Freed(t[j]), 0);
      var c := SetEntry(b, s, j, Freed(t[j]));
      ConservedFrame(c, Send(c, Message(s, Read), lost), 0);
    }
  }

  /** A retained delivery keeps the books exactly when the 8-bit counter does not wrap around. */
  lemma SubscribeOneConserves(b: Broker, s: Sock, k: nat, topic: Topic, requested: nat, lost: set<nat>)
    requires b.Shape() && Conserved(b, 0) && k < |b.clients|
    ensures Conserved(SubscribeOne(b, s, k, topic, requested, lost), 0)
       <==> (RetainedDelivery(b, topic, lost) ==> b.store[b.retained[topic]].count < 0xFF)
  {
    var r := SubscribeOne(b, s, k, topic, requested, lost);
    if RetainedDelivery(b, topic, lost) {
      var id := b.retained[topic];
      var e := Entry(id, SendPublish, Min(Min(requested, 2), b.store[id].qos), false);
      if b.store[id].count < 0xFF {
        EnqueueDeliveryConserves(b, s, e, 0);
        ConservedFrame(Enqueue(b, s, e).(store := Acquire(b.store, id)), r, 0);
      } else {
        assert r.store[id].count == 0;
      }
    } else {
      ConservedFrame(b, r, 0);
    }
  }

  lemma {:induction false} SubscribeAllConserves(b: Broker, s: Sock, k: nat, filters: seq<(Topic, nat)>, lost: set<nat>)
    requires b.Shape() && Conserved(b, 0) && k < |b.clients| && Room(b, s, k, filters, lost)
    ensures Conserved(SubscribeAll(b, s, k, filters, lost), 0)
    decreases |filters|
  {
    if filters != [] {
      SubscribeOneConserves(b, s, k, filters[0].0, filters[0].1, lost);
      SubscribeAllConserves(SubscribeOne(b, s, k, filters[0].0, filters[0].1, lost), s, k, filters[1..], lost);
    }
  }

  lemma ReactConserves(b: Broker, m: Message, k: nat, p: Packet, written: bool, lost: set<nat>)
    requires b.Shape() && Conserved(b, 0) && DistinctSocks(b.clients) && k < |b.clients|
    requires p.Publish? ==> Fresh(b, p.id)
    requires p.Subscribe? ==> Room(b, m.sock, k, p.filters, lost)
    requires var r := React(b, m.sock, k, p, written, lost); r.Some? && !r.value.fault
    ensures Conserved(React(b, m.sock, k, p, written, lost).value, 0)
  {
    var s := m.sock;
    match p
    case Publish(topic, qos, retain, id, data) => OnPublishConserves(b, s, topic, qos, retain, id, data, lost);
    case Puback(id, wellFormed) => AckConserves(b, s, id, wellFormed, written, lost);
    case Pubrec(id, wellFormed) => AckConserves(b, s, id, wellFormed, written, lost);
    case Pubrel(id, wellFormed) => FinalAckConserves(b, s, id, wellFormed, lost);
    case Pubcomp(id, wellFormed) => FinalAckConserves(b, s, id, wellFormed, lost);
    case Subscribe(filters) =>
      SubscribeAllConserves(b, s, k, filters, lost);
      ConservedFrame(SubscribeAll(b, s, k, filters, lost), React(b, s, k, p, written, lost).value, 0);
    case Disconnect =>
      var b1 := b.(clients := b.clients[k := b.clients[k].(clean := true)]);
      ConservedFrame(b, b1, 0);
      DropConserves(b1, s, false, 0, lost);
    case Closed =>
    case _ => ConservedFrame(b, React(b, s, k, p, written, lost).value, 0);
  }

  lemma OnPacketConserves(b: Broker, m: Message, inp: Input)
    requires Linked(b) && Conserved(b, 0) && Admissible(b, m, inp)
    requires !OnPacket(b, m.sock, inp).fault
    ensures Conserved(OnPacket(b, m.sock, inp), 0)
  {
    var s, p := m.sock, inp.packet;
    LinkedDistinct(b);
    var k := ClientAt(b.clients, b.conns[s].cid);
    if b.conns[s].cid == "" || k == |b.clients| {
      if p.Connect? && p.accepted && p.cid != "" {
        AcceptConserves(b, s, p.cid, p.clean, p.will, inp.lost);
      } else {
        DropConserves(b, s, true, inp.willId, inp.lost);
      }
    } else if React(b, s, k, p, inp.written, inp.lost) == None {
      DropConserves(b, s, true, inp.willId, inp.lost);
    } else {
      ReactConserves(b, m, k, p, inp.written, inp.lost);
    }
  }

  /** One turn of the worker, whatever the packet, the result of its writes and of its queue sends. */
  lemma HandleConserves(b: Broker, m: Message, inp: Input)
    requires Linked(b) && Conserved(b, 0) && Admissible(b, m, inp)
    requires !Handle(b, m, inp).fault
    ensures Conserved(Handle(b, m, inp), 0)
  {
    var s := m.sock;
    LinkedDistinct(b);
    if b.conns[s].phase != Mqtt {
      match inp.tls
      case NoMemory =>
      case Failed => DropConserves(b, s, true, inp.willId, inp.lost);
      case Done =>
        SetConnConserves(b, s, Mqtt, b.conns[s].cid, 0);
        ConservedFrame(SetConn(b, s, Mqtt, b.conns[s].cid), OnTls(b, s, inp), 0);
      case _ =>
        SetConnConserves(b, s, Handshake, b.conns[s].cid, 0);
        ConservedFrame(SetConn(b, s, Handshake, b.conns[s].cid), OnTls(b, s, inp), 0);
    } else if m.op == Read {
      OnPacketConserves(b, m, inp);
    } else if m.op == Write {
      WriteEventConserves(b, s, inp.written, inp.lost);
    }
  }
}
