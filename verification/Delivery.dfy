/** What each handler of the worker task does to the broker's state (main/worker.cpp), as functions.
    The class in Worker.dfy carries them out in place; the theorems are about these functions.

    Repairs, each of which departs from the code as written:
    - a retained PUBLISH is stored once, with a reference for the retained slot and one for the fan-out
      in progress; the code stores it with count 2 (worker.cpp:460) and again in the fan-out
      (worker.cpp:100);
    - a client that connects again is reached on its new socket; the code leaves `client->sock` as it
      was unless the client is new (worker.cpp:363-396);
    - an acknowledgement with identifier 0 finds no message; the code finds a free slot of the message
      store (worker.cpp:523 and :561).
    Modules PublishStoreAsWritten, AsWritten and ZeroIdentifiers say what the code does instead.
 */
module Delivery {
  import opened Protocol

  /** An acknowledgement is well formed when its remaining length is 2; `written` tells whether a
      PUBLISH that the handler writes reaches the transport. */
  datatype Packet =
    | Closed
    | Connect(accepted: bool, cid: string, clean: bool, will: Option<Will>)
    | Publish(topic: Topic, qos: nat, retain: bool, id: Id, data: Bytes)
    | Puback(id: Id, wellFormed: bool)
    | Pubrec(id: Id, wellFormed: bool)
    | Pubrel(id: Id, wellFormed: bool)
    | Pubcomp(id: Id, wellFormed: bool)
    | Subscribe(filters: seq<(Topic, nat)>)
    | Unsubscribe(topics: seq<Topic>)
    | Ping
    | Disconnect
    | Other

  predicate IsAck(p: Packet) { p.Puback? || p.Pubrec? || p.Pubrel? || p.Pubcomp? }

  datatype Tls = NoMemory | Failed | Done | WantWrite | WantRead

  /** What the environment contributes to one turn of the worker: the packet that is read, the result
      of the TLS step, whether a write succeeds, the identifier drawn for a will, and which attempts
      to send to the queue time out. */
  datatype Input = Input(packet: Packet, tls: Tls, written: bool, willId: Id, lost: set<nat>)

  // ---------- queue and table ----------

  function Send(b: Broker, m: Message, lost: set<nat>): (r: Broker)
    ensures r.conns == b.conns
  {
    b.(out := if b.tries in lost then b.out else b.out + [m], tries := b.tries + 1)
  }

  function SetTable(b: Broker, s: Sock, t: seq<Entry>): (r: Broker)
    requires b.Shape()
    ensures r.Shape()
  {
    b.(conns := b.conns[s := b.conns[s].(table := t)])
  }

  function Enqueue(b: Broker, s: Sock, e: Entry): (r: Broker)
    requires b.Shape()
    ensures r.Shape()
  {
    SetTable(b, s, AddEntry(b.conns[s].table, e))
  }

  function SetEntry(b: Broker, s: Sock, i: nat, e: Entry): (r: Broker)
    requires b.Shape() && i < |b.conns[s].table|
    ensures r.Shape()
  {
    SetTable(b, s, b.conns[s].table[i := e])
  }

  function Freed(e: Entry): Entry { e.(id := 0) }

  function Min(a: nat, c: nat): (m: nat)
    ensures m <= a && m <= c && (m == a || m == c)
  {
    if a <= c then a else c
  }

  // ---------- fan-out ----------

  /** Wakes one subscriber: stop reading from it, ask for a write turn, then record the delivery. If
      the request for a write turn is lost the socket goes back to reading and nothing is recorded. */
  function Deliver(b: Broker, s: Sock, id: Id, qos: nat, lost: set<nat>): (r: Broker)
    requires b.Shape() && id in b.store
    ensures r.Shape() && r.clients == b.clients && id in r.store
  {
    var b1 := Send(b, Message(s, DelRead), lost);
    var b2 := Send(b1, Message(s, Write), lost);
    if b1.tries in lost then
      Send(b2, Message(s, Read), lost)
    else
      var b3 := Enqueue(b2, s, Entry(id, SendPublish, qos, true));
      b3.(store := Acquire(b3.store, id))
  }

  /** A client that the fan-out considers: connected, or kept while offline. */
  predicate Considered(c: Client, topic: Topic) {
    (c.sock != -1 || !c.clean) && topic in c.subs
  }

  /** The fan-out over the clients from index `i` on. An offline subscriber makes the code use -1 as
      a table index and leave the loop. */
  function FanOut(b: Broker, i: nat, topic: Topic, qos: nat, id: Id, lost: set<nat>): (r: Broker)
    requires b.Shape() && id in b.store && i <= |b.clients|
    ensures r.Shape() && r.clients == b.clients && id in r.store
    decreases |b.clients| - i
  {
    if i == |b.clients| then b
    else
      var c := b.clients[i];
      if !Considered(c, topic) then FanOut(b, i + 1, topic, qos, id, lost)
      else if c.sock == -1 then b.(fault := true)
      else FanOut(Deliver(b, c.sock, id, Min(c.subs[topic], qos), lost), i + 1, topic, qos, id, lost)
  }

  /** `publish_by_topic`. Nothing is published when the bytes cannot be stored. */
  function PublishByTopic(b: Broker, topic: Topic, qos: nat, id: Id, data: Bytes, lost: set<nat>): (r: Broker)
    requires b.Shape()
    ensures r.Shape() && r.clients == b.clients
  {
    if data == [] then b
    else
      var b0 := if id in b.store then b else b.(store := b.store[id := Node(1, qos, data)]);
      var b1 := FanOut(b0, 0, topic, qos, id, lost);
      if b1.fault then b1 else b1.(store := Release(b1.store, id))
  }

  // ---------- sending one message ----------

  /** The bytes written for a PUBLISH: the delivery's QoS in bits 1 and 2 of the first byte, and the
      RETAIN bit cleared for a subscription that already existed. */
  function WireImage(data: Bytes, qos: nat, deleteRetain: bool): Bytes {
    if data == [] then []
    else
      var b0 := if deleteRetain then data[0] & 0xFE else data[0];
      [(b0 & 0xF9) | (((qos % 4) as bv8) << 1)] + data[1..]
  }

  /** `publish`: writes the message of entry `i`. */
  function PublishEntry(b: Broker, s: Sock, i: nat, data: Bytes, qos: nat, id: Id, deleteRetain: bool, written: bool): (r: Broker)
    requires b.Shape() && i < |b.conns[s].table|
    ensures r.Shape()
  {
    var e := b.conns[s].table[i];
    var b1 := b.(wire := b.wire + [PublishFrame(s, WireImage(data, qos, deleteRetain))]);
    if qos == 0 || !written then
      SetEntry(b1, s, i, Freed(e)).(store := Release(b.store, id))
    else
      var b2 := SetEntry(b1, s, i, e.(state := if qos == 1 then GetPuback else GetPubrec));
      if id in b.store || data == [] then b2
      else b2.(store := b.store[id := Node(1, qos, [data[0] | 0x08] + data[1..])])
  }

  /** One entry in a send state is served by a write event. */
  function Serve(b: Broker, s: Sock, i: nat, written: bool): (r: Broker)
    requires b.Shape() && i < |b.conns[s].table| && b.conns[s].table[i].state.IsSend()
    ensures r.Shape()
  {
    var e := b.conns[s].table[i];
    match e.state
    case SendPuback => Control(b, s, i, PubackC, Freed(e))
    case SendPubrec => Control(b, s, i, PubrecC, e.(state := GetPubrel))
    case SendPubrel => Control(b, s, i, PubrelC, e.(state := GetPubcomp))
    case SendPubcomp => Control(b, s, i, PubcompC, Freed(e))
    case SendPublish =>
      if e.id in b.store
      then PublishEntry(b, s, i, b.store[e.id].data, e.qos, e.id, e.deleteRetain, written)
      else b
  }

  function Control(b: Broker, s: Sock, i: nat, kind: Control, e: Entry): (r: Broker)
    requires b.Shape() && i < |b.conns[s].table|
    ensures r.Shape()
  {
    SetEntry(b.(wire := b.wire + [ControlFrame(s, kind, b.conns[s].table[i].id)]), s, i, e)
  }

  /** A write event serves the first pending entry and asks for another write turn if the table goes
      on after it, otherwise for a read turn. */
  function WriteEvent(b: Broker, s: Sock, written: bool, lost: set<nat>): (r: Broker)
    requires b.Shape()
    ensures r.Shape()
  {
    var t := b.conns[s].table;
    var i := First(t, AnyPending);
    if i == |t| then Send(b, Message(s, Read), lost)
    else Send(Serve(b, s, i, written), Message(s, if i + 1 < |t| then Write else Read), lost)
  }

  // ---------- clients and connections ----------

  function ClientAt(clients: seq<Client>, cid: string): (k: nat)
    ensures k <= |clients|
    ensures forall j :: 0 <= j < k ==> clients[j].cid != cid
    ensures k < |clients| ==> clients[k].cid == cid
  {
    if clients == [] || clients[0].cid == cid then 0 else 1 + ClientAt(clients[1..], cid)
  }

  function SetConn(b: Broker, s: Sock, phase: Phase, cid: string): (r: Broker)
    requires b.Shape()
    ensures r.Shape()
  {
    b.(conns := b.conns[s := b.conns[s].(phase := phase, cid := cid)])
  }

  /** What happens to client `k` when its connection is dropped: its will is published, while it counts
      as offline, and then it is forgotten or kept without a socket. */
  function Leave(b: Broker, k: nat, sendWill: bool, willId: Id, lost: set<nat>): (r: Broker)
    requires b.Shape() && k < |b.clients|
    ensures r.Shape()
  {
    var c := b.clients[k];
    var offline := b.clients[k := c.(sock := -1)];
    var b1 :=
      if c.will.Some? && sendWill then
        PublishByTopic(b.(clients := offline), c.will.value.topic, c.will.value.qos, willId, c.will.value.data, lost)
      else b;
    b1.(clients := if c.clean then b.clients[..k] + b.clients[k + 1..] else offline)
  }

  /** `drop_conn`. The socket's table is left as it is. */
  function Drop(b: Broker, s: Sock, sendWill: bool, willId: Id, lost: set<nat>): (r: Broker)
    requires b.Shape()
    ensures r.Shape()
  {
    var b1 := Send(b, Message(s, DelAll), lost);
    var k := ClientAt(b.clients, b.conns[s].cid);
    if b.conns[s].cid == "" || k == |b.clients| then SetConn(b1, s, Uninit, "")
    else SetConn(Leave(b1, k, sendWill, willId, lost), s, Uninit, "")
  }

  /** An accepted CONNECT. A client that is still connected elsewhere is cut off there. */
  function Accept(b: Broker, s: Sock, cid: string, clean: bool, will: Option<Will>, lost: set<nat>): (r: Broker)
    requires b.Shape()
    ensures r.Shape()
  {
    var b1 := SetConn(b, s, b.conns[s].phase, cid);
    var k := ClientAt(b.clients, cid);
    if k == |b.clients| then
      Send(b1.(clients := b.clients + [Client(cid, s, clean, false, map[], will)]), Message(s, Read), lost)
    else
      var c := b.clients[k];
      var b2 := if c.sock == -1 then b1
                else SetConn(Send(b1, Message(c.sock, DelAll), lost), c.sock, Uninit, "");
      var subs := if c.sock != -1 && c.clean then map[] else c.subs;
      Send(b2.(clients := b.clients[k := Client(cid, s, clean, false, subs, will)]),
           Message(s, if c.queued then Write else Read), lost)
  }

  // ---------- packets ----------

  /** The retained slot of a topic takes one reference to the new message and gives one back for the
      message that it replaces. */
  function StoreRetained(b: Broker, topic: Topic, qos: nat, id: Id, data: Bytes): (r: Broker)
    ensures r.conns == b.conns
  {
    var added := b.store[id := Node(2, qos, data)];
    b.(store := if topic in b.retained then Release(added, b.retained[topic]) else added,
       retained := b.retained[topic := id])
  }

  /** Asks for a write turn and, if the queue takes the request, records what is to be sent. */
  function Answer(b: Broker, s: Sock, e: Entry, lost: set<nat>): (r: Broker)
    requires b.Shape()
    ensures r.Shape()
  {
    var b1 := Send(b, Message(s, Write), lost);
    if b.tries in lost then b1 else Enqueue(b1, s, e)
  }

  function OnPublish(b: Broker, s: Sock, topic: Topic, qos: nat, retain: bool, id: Id, data: Bytes, lost: set<nat>): (r: Broker)
    requires b.Shape()
    ensures r.Shape()
  {
    var b1 := if retain && data != [] then StoreRetained(b, topic, qos, id, data) else b;
    var b2 := if qos == 1 then Answer(b1, s, Entry(id, SendPuback, qos, true), lost)
              else if qos == 2 then Answer(b1, s, Entry(id, SendPubrec, qos, true), lost)
              else Send(b1, Message(s, Read), lost);
    PublishByTopic(b2, topic, qos, id, data, lost)
  }

  /** The outcome of a packet: the new state, or None when the code calls `drop_conn`. */
  ghost predicate Shapely(r: Option<Broker>) { r.Some? ==> r.value.Shape() }

  /** An ill-formed PUBACK or PUBREC makes the broker send the message again, at the QoS it was
      published with. */
  function Republish(b: Broker, s: Sock, i: nat, id: Id, written: bool): (r: Option<Broker>)
    requires b.Shape() && i < |b.conns[s].table|
    ensures Shapely(r)
  {
    if id !in b.store then None
    else Some(PublishEntry(b, s, i, b.store[id].data, b.store[id].qos, id, true, written))
  }

  function OnPuback(b: Broker, s: Sock, id: Id, wellFormed: bool, written: bool, lost: set<nat>): (r: Option<Broker>)
    requires b.Shape()
    ensures Shapely(r)
  {
    var t := b.conns[s].table;
    var i := First(t, Waiting(id, GetPuback));
    if i == |t| then None
    else if !wellFormed then Republish(b, s, i, id, written)
    else Some(Send(SetEntry(b, s, i, Freed(t[i])).(store := Release(b.store, id)), Message(s, Read), lost))
  }

  function OnPubrec(b: Broker, s: Sock, id: Id, wellFormed: bool, written: bool, lost: set<nat>): (r: Option<Broker>)
    requires b.Shape()
    ensures Shapely(r)
  {
    var t := b.conns[s].table;
    var i := First(t, Waiting(id, GetPubrec));
    if i == |t| then None
    else if !wellFormed then Republish(b, s, i, id, written)
    else
      Some(Send(SetEntry(b, s, i, t[i].(state := SendPubrel)).(store := Release(b.store, id)),
                Message(s, Write), lost))
  }

  function OnPubcomp(b: Broker, s: Sock, id: Id, wellFormed: bool, lost: set<nat>): (r: Option<Broker>)
    requires b.Shape()
    ensures Shapely(r)
  {
    var t := b.conns[s].table;
    var i := First(t, Waiting(id, GetPubcomp));
    if !wellFormed || i == |t| then None
    else Some(Send(SetEntry(b, s, i, Freed(t[i])), Message(s, Read), lost))
  }

  function OnPubrel(b: Broker, s: Sock, id: Id, wellFormed: bool, lost: set<nat>): (r: Option<Broker>)
    requires b.Shape()
    ensures Shapely(r)
  {
    var t := b.conns[s].table;
    var i := First(t, Waiting(id, GetPubrel));
    if !wellFormed || i == |t| then None
    else Some(Send(SetEntry(b, s, i, t[i].(state := SendPubcomp)), Message(s, Write), lost))
  }

  /** One filter of a SUBSCRIBE: the subscription itself, then the retained message of the topic. */
  function SubscribeOne(b: Broker, s: Sock, k: nat, topic: Topic, requested: nat, lost: set<nat>): (r: Broker)
    requires b.Shape() && k < |b.clients|
    ensures r.Shape() && |r.clients| == |b.clients|
  {
    var q := Min(requested, 2);
    var c := b.clients[k];
    var b1 := b.(clients := b.clients[k := c.(subs := c.subs[topic := q])]);
    if topic in b.retained && b.retained[topic] in b.store then
      var id := b.retained[topic];
      var b2 := Answer(b1, s, Entry(id, SendPublish, Min(q, b.store[id].qos), false), lost);
      if b.tries in lost then b2 else b2.(store := Acquire(b.store, id))
    else b1
  }

  function SubscribeAll(b: Broker, s: Sock, k: nat, filters: seq<(Topic, nat)>, lost: set<nat>): (r: Broker)
    requires b.Shape() && k < |b.clients|
    ensures r.Shape() && |r.clients| == |b.clients|
    decreases |filters|
  {
    if filters == [] then b
    else SubscribeAll(SubscribeOne(b, s, k, filters[0].0, filters[0].1, lost), s, k, filters[1..], lost)
  }

  /** The empty topic has no node in the trie that could be deleted. */
  function Unsubscribed(subs: map<Topic, nat>, topics: seq<Topic>): map<Topic, nat> {
    if topics == [] then subs
    else Unsubscribed(if topics[0] == "" then subs else subs - {topics[0]}, topics[1..])
  }

  /** A packet on a connection whose client `k` is known. */
  function React(b: Broker, s: Sock, k: nat, packet: Packet, written: bool, lost: set<nat>): (r: Option<Broker>)
    requires b.Shape() && k < |b.clients|
    ensures Shapely(r)
  {
    match packet
    case Closed => None
    case Publish(topic, qos, retain, id, data) =>
      if qos > 2 then None else Some(OnPublish(b, s, topic, qos, retain, id, data, lost))
    case Puback(id, wellFormed) => OnPuback(b, s, id, wellFormed, written, lost)
    case Pubrec(id, wellFormed) => OnPubrec(b, s, id, wellFormed, written, lost)
    case Pubrel(id, wellFormed) => OnPubrel(b, s, id, wellFormed, lost)
    case Pubcomp(id, wellFormed) => OnPubcomp(b, s, id, wellFormed, lost)
    case Subscribe(filters) => Some(Send(SubscribeAll(b, s, k, filters, lost), Message(s, Read), lost))
    case Unsubscribe(topics) =>
      var c := b.clients[k];
      Some(Send(b.(clients := b.clients[k := c.(subs := Unsubscribed(c.subs, topics))]), Message(s, Read), lost))
    case Ping => Some(Send(b, Message(s, Read), lost))
    case Disconnect =>
      Some(Drop(b.(clients := b.clients[k := b.clients[k].(clean := true)]), s, false, 0, lost))
    case Connect(_, _, _, _) => Some(b)
    case Other => Some(b)
  }

  /** A packet that has been read completely. Until a CONNECT is accepted every packet is taken for
      one. */
  function OnPacket(b: Broker, s: Sock, inp: Input): (r: Broker)
    requires b.Shape()
    ensures r.Shape()
  {
    var p := inp.packet;
    var k := ClientAt(b.clients, b.conns[s].cid);
    var o :=
      if b.conns[s].cid == "" || k == |b.clients| then
        if p.Connect? && p.accepted && p.cid != "" then Some(Accept(b, s, p.cid, p.clean, p.will, inp.lost)) else None
      else React(b, s, k, p, inp.written, inp.lost);
    match o
    case Some(r) => r
    case None => Drop(b, s, true, inp.willId, inp.lost)
  }

  /** A step of the TLS handshake. */
  function OnTls(b: Broker, s: Sock, inp: Input): (r: Broker)
    requires b.Shape()
    ensures r.Shape()
  {
    match inp.tls
    case NoMemory => b
    case Failed => Drop(b, s, true, inp.willId, inp.lost)
    case Done => Send(SetConn(b, s, Mqtt, b.conns[s].cid), Message(s, Read), inp.lost)
    case WantWrite => Send(SetConn(b, s, Handshake, b.conns[s].cid), Message(s, Write), inp.lost)
    case WantRead => Send(SetConn(b, s, Handshake, b.conns[s].cid), Message(s, Read), inp.lost)
  }

  /** One message taken from pending_socks. */
  function Handle(b: Broker, m: Message, inp: Input): (r: Broker)
    requires b.Shape()
    ensures r.Shape()
  {
    if b.conns[m.sock].phase != Mqtt then OnTls(b, m.sock, inp)
    else if m.op == Read then OnPacket(b, m.sock, inp)
    else if m.op == Write then WriteEvent(b, m.sock, inp.written, inp.lost)
    else b
  }
}
