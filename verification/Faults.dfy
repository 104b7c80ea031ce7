/** Exactly which turns make the code index its table with -1: those that publish, or drop a connection whose
    client has left a will, on a topic with a subscriber that is kept while it is offline. A client whose own
    will is published counts as offline then. */
module Faults {
  import opened Protocol
  import opened Delivery
  import opened FanOuts
  import opened Births

  /** The clients as a will finds them. */
  function WithoutOwner(b: Broker, s: Sock): seq<Client>
    requires b.Shape()
  {
    var k := ClientAt(b.clients, b.conns[s].cid);
    if k < |b.clients| then b.clients[k := b.clients[k].(sock := -1)] else b.clients
  }

  ghost predicate WillFaults(b: Broker, s: Sock)
    requires b.Shape()
  {
    WillOf(b, s).Some? && WillOf(b, s).value.data != [] && SomeOffline(WithoutOwner(b, s), WillOf(b, s).value.topic)
  }

  lemma DropFaultsExactly(b: Broker, s: Sock, sendWill: bool, willId: Id, lost: set<nat>)
    requires b.Shape()
    ensures Drop(b, s, sendWill, willId, lost).fault <==> b.fault || (sendWill && WillFaults(b, s))
  {
    var b1, k := Send(b, Message(s, DelAll), lost), ClientAt(b.clients, b.conns[s].cid);
    if WillOf(b, s).Some? && sendWill {
      var w := WillOf(b, s).value;
      PublishFaultsExactly(b1.(clients := WithoutOwner(b, s)), w.topic, w.qos, willId, w.data, lost);
    }
  }

  lemma OnPublishFaultsExactly(b: Broker, s: Sock, topic: Topic, qos: nat, retain: bool, id: Id, data: Bytes, lost: set<nat>)
    requires b.Shape()
    ensures OnPublish(b, s, topic, qos, retain, id, data, lost).fault <==> b.fault || (data != [] && SomeOffline(b.clients, topic))
  {
    var b1 := if retain && data != [] then StoreRetained(b, topic, qos, id, data) else b;
    var b2 := if qos == 1 then Answer(b1, s, Entry(id, SendPuback, qos, true), lost)
              else if qos == 2 then Answer(b1, s, Entry(id, SendPubrec, qos, true), lost)
              else Send(b1, Message(s, Read), lost);
    assert b2.clients == b.clients && b2.fault == b.fault;
    PublishFaultsExactly(b2, topic, qos, id, data, lost);
  }

  lemma {:induction false} SubscribeAllIsSafe(b: Broker, s: Sock, k: nat, filters: seq<(Topic, nat)>, lost: set<nat>)
    requires b.Shape() && k < |b.clients|
    ensures SubscribeAll(b, s, k, filters, lost).fault == b.fault
    decreases |filters|
  {
    if filters != [] {
      SubscribeAllIsSafe(SubscribeOne(b, s, k, filters[0].0, filters[0].1, lost), s, k, filters[1..], lost);
    }
  }

  lemma ReactFaultsExactly(b: Broker, m: Message, inp: Input)
    requires b.Shape() && OnSession(b, m)
    ensures var o := React(b, m.sock, ClientAt(b.clients, b.conns[m.sock].cid), inp.packet, inp.written, inp.lost);
            o.Some? ==> (o.value.fault <==> b.fault || (inp.packet.Publish? && inp.packet.data != [] && SomeOffline(b.clients, inp.packet.topic)))
  {
    var s, k, p := m.sock, ClientAt(b.clients, b.conns[m.sock].cid), inp.packet;
    match p
    case Publish(topic, qos, retain, id, data) => OnPublishFaultsExactly(b, s, topic, qos, retain, id, data, inp.lost);
    case Subscribe(filters) => SubscribeAllIsSafe(b, s, k, filters, inp.lost);
    case Disconnect => DropFaultsExactly(b.(clients := b.clients[k := b.clients[k].(clean := true)]), s, false, 0, inp.lost);
    case _ =>
  }

  lemma DropIs(b: Broker, m: Message, inp: Input)
    requires b.Shape() && Drops(b, m, inp) && m.op in {Read, Write}
    ensures Handle(b, m, inp) == Drop(b, m.sock, true, inp.willId, inp.lost)
  {
    if b.conns[m.sock].phase == Mqtt && OnSession(b, m) {
      OnSessionIs(b, m, inp);
    }
  }

  lemma OthersAreSafe(b: Broker, m: Message, inp: Input)
    requires b.Shape() && !Drops(b, m, inp) && !OnSession(b, m) && m.op in {Read, Write}
    ensures Handle(b, m, inp).fault == b.fault
  {
    if b.conns[m.sock].phase != Mqtt {
      HandshakeIsSafe(b, m.sock, inp);
    } else if m.op == Write {
      WriteEventIsSafe(b, m.sock, inp.written, inp.lost);
    } else {
      var p := inp.packet;
      assert OnPacket(b, m.sock, inp) == Accept(b, m.sock, p.cid, p.clean, p.will, inp.lost);
    }
  }

  lemma HandshakeIsSafe(b: Broker, s: Sock, inp: Input)
    requires b.Shape() && inp.tls != Failed
    ensures OnTls(b, s, inp).fault == b.fault
  {
  }

  lemma WriteEventIsSafe(b: Broker, s: Sock, written: bool, lost: set<nat>)
    requires b.Shape()
    ensures WriteEvent(b, s, written, lost).fault == b.fault
  {
  }

  /** A turn faults exactly when it publishes, or drops a connection with a will, on a topic with a subscriber
      that is kept while offline. */
  lemma HandleFaultsExactly(b: Broker, m: Message, inp: Input)
    requires b.Shape() && m.op in {Read, Write} && !b.fault
    ensures Handle(b, m, inp).fault
       <==> if Drops(b, m, inp) then WillFaults(b, m.sock)
            else OnSession(b, m) && inp.packet.Publish? && inp.packet.data != [] && SomeOffline(b.clients, inp.packet.topic)
  {
    if Drops(b, m, inp) {
      DropIs(b, m, inp);
      DropFaultsExactly(b, m.sock, true, inp.willId, inp.lost);
    } else if OnSession(b, m) {
      OnSessionIs(b, m, inp);
      ReactFaultsExactly(b, m, inp);
    } else {
      OthersAreSafe(b, m, inp);
    }
  }
}
