/** The worker task in place (main/worker.cpp): its handlers update the connections and the broker's
    tables step by step, with the loops of the code. Each is proved to do what its function in module
    Delivery says, so the theorems about those functions are about this class.

    The messages are in the hash table of class PublishStore: what its operations ask for - new
    identifiers that are not 0 and not stored yet, counters with room - follows here from the invariants of a
    turn. The retained topics and the clients are a map and a sequence, which class ChainedMap refines.
    `out` is what the turn has put on socks_for_fds.
 */
module Workers {
  import opened Protocol
  import opened Delivery
  import opened Conservation
  import opened ConservationSteps
  import opened Links
  import opened PublishStores

  lemma AcquireRaises(store: map<Id, Node>, id: Id)
    requires id in store && store[id].count < 0xFF
    ensures Acquire(store, id).Keys == store.Keys && Acquire(store, id)[id].count == store[id].count + 1
  {
  }

  lemma ReleaseLowers(store: map<Id, Node>, released: Id, id: Id)
    requires id in store && store[id].count > 0
    ensures id in Release(store, released) ==> Release(store, released)[id].count <= store[id].count
  {
  }

  class Worker {
    const conns: array<Conn>
    var clients: seq<Client>
    const messages: PublishStore
    var retained: map<Topic, Id>
    var out: seq<Message>
    var tries: nat
    var wire: seq<Frame>
    var fault: bool

    ghost predicate Valid()
      reads messages, messages.slots
    {
      conns.Length == SOCKETS && messages.Valid()
    }

    ghost function Abs(): (b: Broker)
      reads this, conns, messages, messages.slots
      requires Valid()
      ensures b.Shape()
    {
      Broker(conns[..], clients, messages.contents, retained, out, tries, wire, fault)
    }

    constructor ()
      ensures Valid() && fresh(conns) && fresh(messages) && fresh(messages.slots)
      ensures forall s: Sock :: Abs().conns[s] == Conn(Uninit, "", [])
      ensures Abs() == Broker(Abs().conns, [], map[], map[], [], 0, [], false)
    {
      conns := new Conn[SOCKETS](_ => Conn(Uninit, "", []));
      messages := new PublishStore(5);
      clients, retained, out, tries, wire, fault := [], map[], [], 0, [], false;
    }

    // ---------- queue and table ----------

    /** `sendtoque`. */
    method SendToQueue(m: Message, lost: set<nat>) returns (sent: bool)
      requires Valid()
      modifies this
      ensures Valid()
      ensures Abs() == Send(old(Abs()), m, lost) && sent == (old(tries) !in lost)
    {
      sent := tries !in lost;
      if sent {
        out := out + [m];
      }
      tries := tries + 1;
    }

    method PutEntry(s: Sock, i: nat, e: Entry)
      requires Valid() && i < |conns[s].table|
      modifies conns
      ensures Valid()
      ensures Abs() == SetEntry(old(Abs()), s, i, e)
    {
      conns[s] := conns[s].(table := conns[s].table[i := e]);
    }

    method PutConn(s: Sock, phase: Phase, cid: string)
      requires Valid()
      modifies conns
      ensures Valid()
      ensures Abs() == SetConn(old(Abs()), s, phase, cid)
    {
      conns[s] := conns[s].(phase := phase, cid := cid);
    }

    /** `add_packet_id`: the first free slot takes the entry, or the table grows. */
    method AddPacketId(s: Sock, e: Entry)
      requires Valid()
      modifies conns
      ensures Valid()
      ensures Abs() == Enqueue(old(Abs()), s, e)
    {
      var added, i := false, 0;
      while i < |conns[s].table|
        invariant 0 <= i <= |conns[s].table| && !added && conns[..] == old(conns[..])
        invariant First(conns[s].table, Free) == First(conns[s].table, Free, i)
      {
        if conns[s].table[i].id == 0 {
          PutEntry(s, i, e);
          added := true;
          break;
        }
        i := i + 1;
      }
      if !added {
        conns[s] := conns[s].(table := conns[s].table + [e]);
      }
    }

    /** The loops that look for the entry of an acknowledgement (worker.cpp:509, :548, :591, :618). */
    method Find(s: Sock, id: Id, state: PacketState) returns (i: nat)
      requires Valid()
      ensures i == First(conns[s].table, Waiting(id, state))
    {
      i := 0;
      while i < |conns[s].table|
        invariant i <= |conns[s].table|
        invariant First(conns[s].table, Waiting(id, state)) == First(conns[s].table, Waiting(id, state), i)
      {
        if conns[s].table[i].id == id && conns[s].table[i].state == state {
          return;
        }
        i := i + 1;
      }
    }

    // ---------- sending ----------

    /** `if (node && --node->count == 0) erase`. */
    method ReleaseMessage(id: Id)
      requires Valid()
      modifies messages, messages.slots
      ensures Valid() && messages.slots == old(messages.slots)
      ensures Abs() == old(Abs()).(store := Release(old(messages.contents), id))
    {
      messages.Release(id);
    }

    /** `++node->count`. */
    method AcquireMessage(id: Id)
      requires Valid() && id in messages.contents && messages.contents[id].count < 0xFF
      modifies messages, messages.slots
      ensures Valid() && messages.slots == old(messages.slots)
      ensures Abs() == old(Abs()).(store := Acquire(old(messages.contents), id))
    {
      messages.Acquire(id);
    }

    /** `publish_msg_store.add` of an identifier that is not stored. */
    method AddMessage(id: Id, data: Bytes, qos: nat, count: Count)
      requires Valid() && id != 0 && id !in messages.contents && count != 0 && data != []
      modifies messages, messages.slots
      ensures Valid() && (messages.slots == old(messages.slots) || fresh(messages.slots))
      ensures Abs() == old(Abs()).(store := old(messages.contents)[id := Node(count, qos, data)])
    {
      var added := messages.Add(id, data, qos, count, true, true);
    }

    /** `publish_msg_store.get`. */
    method StoredMessage(id: Id) returns (node: Option<Node>)
      requires Valid()
      ensures node == if id in messages.contents then Some(messages.contents[id]) else None
    {
      var at := messages.Get(id);
      node := None;
      if at.Some? {
        var slot := messages.slots[at.value];
        node := Some(Node(slot.count, slot.qos, slot.data));
      }
    }

    /** `publish`. */
    method PublishMessage(s: Sock, i: nat, data: Bytes, qos: nat, id: Id, deleteRetain: bool, written: bool)
      requires Valid() && i < |conns[s].table| && id != 0
      modifies this, conns, messages, messages.slots
      ensures Valid() && (messages.slots == old(messages.slots) || fresh(messages.slots))
      ensures Abs() == PublishEntry(old(Abs()), s, i, data, qos, id, deleteRetain, written)
    {
      wire := wire + [PublishFrame(s, WireImage(data, qos, deleteRetain))];
      var e := conns[s].table[i];
      if qos == 0 || !written {
        PutEntry(s, i, Freed(e));
        ReleaseMessage(id);
        return;
      }
      PutEntry(s, i, e.(state := if qos == 1 then GetPuback else GetPubrec));
      var node := StoredMessage(id);
      if node == None && data != [] {
        AddMessage(id, [data[0] | 0x08] + data[1..], qos, 1);
      }
    }

    /** `publish_by_topic`. */
    method PublishToSubscribers(topic: Topic, qos: nat, id: Id, data: Bytes, lost: set<nat>)
      requires Valid() && id != 0 && DistinctSocks(clients) && (id in messages.contents ==> messages.contents[id].count <= 2)
      modifies this, conns, messages, messages.slots
      ensures Valid() && (messages.slots == old(messages.slots) || fresh(messages.slots))
      ensures Abs() == PublishByTopic(old(Abs()), topic, qos, id, data, lost)
    {
      if data == [] { return; }
      var node := StoredMessage(id);
      if node == None {
        AddMessage(id, data, qos, 1);
      }
      FanOutIsBounded(clients, topic);
      VisitClients(topic, qos, id, lost);
      if !fault {
        ReleaseMessage(id);
      }
    }

    /** The loop over the clients (worker.cpp:107-142). */
    method VisitClients(topic: Topic, qos: nat, id: Id, lost: set<nat>)
      requires Valid() && id in messages.contents && messages.contents[id].count + |Targets(clients, 0, topic)| <= 0xFF
      modifies this, conns, messages, messages.slots
      ensures Valid() && messages.slots == old(messages.slots)
      ensures Abs() == FanOut(old(Abs()), 0, topic, qos, id, lost)
    {
      ghost var all := FanOut(Abs(), 0, topic, qos, id, lost);
      var i, stop := 0, false;
      while i < |clients| && !stop
        invariant 0 <= i <= |clients| && Valid() && messages.slots == old(messages.slots)
        invariant id in messages.contents && (!stop ==> messages.contents[id].count + |Targets(clients, i, topic)| <= 0xFF)
        invariant all == if stop then Abs() else FanOut(Abs(), i, topic, qos, id, lost)
      {
        stop := VisitClient(i, topic, qos, id, lost);
        i := i + 1;
      }
    }

    /** One client in that loop. */
    method VisitClient(i: nat, topic: Topic, qos: nat, id: Id, lost: set<nat>) returns (stop: bool)
      requires Valid() && i < |clients| && id in messages.contents && messages.contents[id].count + |Targets(clients, i, topic)| <= 0xFF
      modifies this, conns, messages, messages.slots
      ensures Valid() && messages.slots == old(messages.slots) && clients == old(clients)
      ensures id in messages.contents && messages.contents[id].count + |Targets(clients, i + 1, topic)| <= 0xFF
      ensures FanOut(old(Abs()), i, topic, qos, id, lost) == if stop then Abs() else FanOut(Abs(), i + 1, topic, qos, id, lost)
    {
      var c := clients[i];
      stop := false;
      if c.sock != -1 || !c.clean {
        if topic in c.subs {
          if c.sock == -1 {
            fault := true;
            return true;
          }
          Wake(c.sock, id, Min(c.subs[topic], qos), lost);
        }
      }
    }

    /** One connected subscriber in that loop (worker.cpp:127-140). */
    method Wake(s: Sock, id: Id, qos: nat, lost: set<nat>)
      requires Valid() && id in messages.contents && messages.contents[id].count < 0xFF
      modifies this, conns, messages, messages.slots
      ensures Valid() && messages.slots == old(messages.slots)
      ensures messages.contents.Keys == old(messages.contents.Keys) && messages.contents[id].count <= old(messages.contents[id].count) + 1
      ensures Abs() == Deliver(old(Abs()), s, id, qos, lost)
    {
      var stopped := SendToQueue(Message(s, DelRead), lost);
      var asked := SendToQueue(Message(s, Write), lost);
      if asked {
        AddPacketId(s, Entry(id, SendPublish, qos, true));
        AcquireRaises(messages.contents, id);
        AcquireMessage(id);
      } else {
        var back := SendToQueue(Message(s, Read), lost);
      }
    }

    /** The branch of a write event for one entry (worker.cpp:797-849). */
    method ServeEntry(s: Sock, i: nat, written: bool)
      requires Valid() && i < |conns[s].table| && conns[s].table[i].Pending()
      modifies this, conns, messages, messages.slots
      ensures Valid() && (messages.slots == old(messages.slots) || fresh(messages.slots))
      ensures Abs() == Serve(old(Abs()), s, i, written)
    {
      var e := conns[s].table[i];
      if e.state == SendPuback {
        wire := wire + [ControlFrame(s, PubackC, e.id)];
        PutEntry(s, i, Freed(e));
      } else if e.state == SendPubrec {
        wire := wire + [ControlFrame(s, PubrecC, e.id)];
        PutEntry(s, i, e.(state := GetPubrel));
      } else if e.state == SendPubrel {
        wire := wire + [ControlFrame(s, PubrelC, e.id)];
        PutEntry(s, i, e.(state := GetPubcomp));
      } else if e.state == SendPubcomp {
        wire := wire + [ControlFrame(s, PubcompC, e.id)];
        PutEntry(s, i, Freed(e));
      } else {
        var node := StoredMessage(e.id);
        if node.Some? {
          PublishMessage(s, i, node.value.data, e.qos, e.id, e.deleteRetain, written);
        }
      }
    }

    /** The write-event loop. Once an entry has been found the pointer to it stays, so the next round
        asks for another write turn and stops. */
    method OnWrite(s: Sock, written: bool, lost: set<nat>)
      requires Valid()
      modifies this, conns, messages, messages.slots
      ensures Valid() && (messages.slots == old(messages.slots) || fresh(messages.slots))
      ensures Abs() == WriteEvent(old(Abs()), s, written, lost)
    {
      ghost var b, t, first := Abs(), conns[s].table, First(conns[s].table, AnyPending);
      var found: Option<nat>, alreadySent, needMore, i := None, false, false, 0;
      while i < |conns[s].table|
        invariant 0 <= i <= |conns[s].table| == |t| && !needMore && Valid() && (messages.slots == old(messages.slots) || fresh(messages.slots))
        invariant alreadySent == found.Some?
        invariant found == None ==> Abs() == b && First(t, AnyPending, i) == first
        invariant found.Some? ==> found.value == first == i - 1 && Abs() == Serve(b, s, first, written)
      {
        if conns[s].table[i].Pending() {
          found := Some(i);
        }
        if found.Some? {
          if alreadySent {
            needMore := true;
            break;
          }
          alreadySent := true;
          ServeEntry(s, found.value, written);
        }
        i := i + 1;
      }
      var sent := SendToQueue(Message(s, if needMore then Write else Read), lost);
    }

    // ---------- clients and connections ----------

    /** `client_store.get`. */
    method FindClient(cid: string) returns (k: nat)
      requires Valid()
      ensures k == ClientAt(clients, cid)
    {
      k := 0;
      while k < |clients| && clients[k].cid != cid
        invariant k <= |clients| && ClientAt(clients, cid) == k + ClientAt(clients[k..], cid)
      {
        assert clients[k..][1..] == clients[k + 1..];
        k := k + 1;
      }
    }

    /** The will is published while its client counts as offline (worker.cpp:155-164). */
    method PublishWill(k: nat, willId: Id, lost: set<nat>)
      requires Valid() && k < |clients| && clients[k].will.Some? && DistinctSocks(clients) && Fresh(Abs(), willId)
      modifies this, conns, messages, messages.slots
      ensures Valid() && (messages.slots == old(messages.slots) || fresh(messages.slots))
      ensures var b, w := old(Abs()), old(clients[k].will.value);
              Abs() == PublishByTopic(b.(clients := b.clients[k := b.clients[k].(sock := -1)]), w.topic, w.qos, willId, w.data, lost).(clients := b.clients)
    {
      var was, will := clients, clients[k].will.value;
      clients := clients[k := clients[k].(sock := -1)];
      PublishToSubscribers(will.topic, will.qos, willId, will.data, lost);
      clients := was;
    }

    /** The will, and then the session. */
    method LeaveClient(k: nat, sendWill: bool, willId: Id, lost: set<nat>)
      requires Valid() && k < |clients| && DistinctSocks(clients) && (sendWill ==> Fresh(Abs(), willId))
      modifies this, conns, messages, messages.slots
      ensures Valid() && (messages.slots == old(messages.slots) || fresh(messages.slots))
      ensures Abs() == Leave(old(Abs()), k, sendWill, willId, lost)
    {
      if clients[k].will.Some? && sendWill {
        PublishWill(k, willId, lost);
      }
      ForgetClient(k);
    }

    /** `drop_conn`. */
    method DropConn(s: Sock, sendWill: bool, willId: Id, lost: set<nat>)
      requires Valid() && DistinctSocks(clients) && (sendWill ==> Fresh(Abs(), willId))
      modifies this, conns, messages, messages.slots
      ensures Valid() && (messages.slots == old(messages.slots) || fresh(messages.slots))
      ensures Abs() == Drop(old(Abs()), s, sendWill, willId, lost)
    {
      var k := FindClient(conns[s].cid);
      var known := conns[s].cid != "" && k < |clients|;
      var sent := SendToQueue(Message(s, DelAll), lost);
      if known {
        LeaveClient(k, sendWill, willId, lost);
      }
      PutConn(s, Uninit, "");
    }

    /** A clean session ends, another goes off line (worker.cpp:165-172). */
    method ForgetClient(k: nat)
      requires Valid() && k < |clients|
      modifies this`clients
      ensures Valid() && Abs() == old(Abs()).(clients := if old(clients[k].clean) then old(clients[..k] + clients[k + 1..]) else old(clients[k := clients[k].(sock := -1)]))
    {
      if clients[k].clean {
        clients := clients[..k] + clients[k + 1..];
      } else {
        clients := clients[k := clients[k].(sock := -1)];
      }
    }

    /** The connection that a client had before is closed (worker.cpp:377-386). */
    method CutOff(s: Sock, lost: set<nat>)
      requires Valid()
      modifies this, conns
      ensures Valid() && Abs() == SetConn(Send(old(Abs()), Message(s, DelAll), lost), s, Uninit, "")
    {
      var told := SendToQueue(Message(s, DelAll), lost);
      PutConn(s, Uninit, "");
    }

    /** A CONNECT (worker.cpp:354-408). */
    method OnConnect(s: Sock, cid: string, clean: bool, will: Option<Will>, lost: set<nat>)
      requires Valid()
      modifies this, conns
      ensures Valid()
      ensures Abs() == Accept(old(Abs()), s, cid, clean, will, lost)
    {
      PutConn(s, conns[s].phase, cid);
      var k := FindClient(cid);
      var queued := false;
      if k == |clients| {
        clients := clients + [Client(cid, s, clean, false, map[], will)];
      } else {
        queued := clients[k].queued;
        Rejoin(s, k, clean, will, lost);
      }
      var asked := SendToQueue(Message(s, if queued then Write else Read), lost);
    }

    /** A client that is known (worker.cpp:375-394). */
    method Rejoin(s: Sock, k: nat, clean: bool, will: Option<Will>, lost: set<nat>)
      requires Valid() && k < |clients|
      modifies this, conns
      ensures Valid()
      ensures var b := old(Abs()); var c := b.clients[k];
              var left := if c.sock == -1 then b else SetConn(Send(b, Message(c.sock, DelAll), lost), c.sock, Uninit, "");
              Abs() == left.(clients := b.clients[k := Client(c.cid, s, clean, false, if c.sock != -1 && c.clean then map[] else c.subs, will)])
    {
      var subs, before := clients[k].subs, clients[k].sock;
      if before != -1 {
        CutOff(before, lost);
        if clients[k].clean {
          subs := map[];
        }
      }
      clients := clients[k := Client(clients[k].cid, s, clean, false, subs, will)];
    }

    // ---------- packets ----------

    method StoreRetainedMessage(topic: Topic, qos: nat, id: Id, data: Bytes)
      requires Valid() && Fresh(Abs(), id) && data != [] && forall t :: t in retained ==> retained[t] != 0
      modifies this, messages, messages.slots
      ensures Valid() && (messages.slots == old(messages.slots) || fresh(messages.slots))
      ensures Abs() == StoreRetained(old(Abs()), topic, qos, id, data)
      ensures id in messages.contents ==> messages.contents[id].count <= 2
    {
      AddMessage(id, data, qos, 2);
      ghost var added := messages.contents;
      if topic in retained {
        ReleaseMessage(retained[topic]);
        ReleaseLowers(added, retained[topic], id);
      }
      retained := retained[topic := id];
    }

    method AnswerLater(s: Sock, e: Entry, lost: set<nat>) returns (asked: bool)
      requires Valid()
      modifies this, conns
      ensures Valid()
      ensures Abs() == Answer(old(Abs()), s, e, lost) && asked == (old(tries) !in lost)
    {
      asked := SendToQueue(Message(s, Write), lost);
      if asked {
        AddPacketId(s, e);
      }
    }

    /** worker.cpp:409-502. */
    method OnPublishPacket(s: Sock, topic: Topic, qos: nat, retain: bool, id: Id, data: Bytes, lost: set<nat>)
      requires Valid() && Fresh(Abs(), id) && DistinctSocks(clients) && forall t :: t in retained ==> retained[t] != 0
      modifies this, conns, messages, messages.slots
      ensures Valid() && (messages.slots == old(messages.slots) || fresh(messages.slots))
      ensures Abs() == OnPublish(old(Abs()), s, topic, qos, retain, id, data, lost)
    {
      if retain && data != [] {
        StoreRetainedMessage(topic, qos, id, data);
      }
      var asked;
      if qos == 1 {
        asked := AnswerLater(s, Entry(id, SendPuback, qos, true), lost);
      } else if qos == 2 {
        asked := AnswerLater(s, Entry(id, SendPubrec, qos, true), lost);
      } else {
        asked := SendToQueue(Message(s, Read), lost);
      }
      PublishToSubscribers(topic, qos, id, data, lost);
    }

    /** What an acknowledgement's handler did: it left the state alone and asks for the connection to be
        dropped, or it did what `r` says. */
    static ghost predicate Outcome(r: Option<Broker>, before: Broker, after: Broker, kept: bool) {
      if kept then r == Some(after) else r == None && after == before
    }

    /** worker.cpp:503-543. */
    method OnPubackPacket(s: Sock, id: Id, wellFormed: bool, written: bool, lost: set<nat>) returns (kept: bool)
      requires Valid()
      modifies this, conns, messages, messages.slots
      ensures Valid() && (messages.slots == old(messages.slots) || fresh(messages.slots))
      ensures Outcome(OnPuback(old(Abs()), s, id, wellFormed, written, lost), old(Abs()), Abs(), kept)
    {
      var i := Find(s, id, GetPuback);
      if i == |conns[s].table| { return false; }
      if !wellFormed {
        var node := StoredMessage(id);
        if node == None { return false; }
        PublishMessage(s, i, node.value.data, node.value.qos, id, true, written);
        return true;
      }
      ReleaseMessage(id);
      PutEntry(s, i, Freed(conns[s].table[i]));
      var asked := SendToQueue(Message(s, Read), lost);
      kept := true;
    }

    /** worker.cpp:544-581. */
    method OnPubrecPacket(s: Sock, id: Id, wellFormed: bool, written: bool, lost: set<nat>) returns (kept: bool)
      requires Valid()
      modifies this, conns, messages, messages.slots
      ensures Valid() && (messages.slots == old(messages.slots) || fresh(messages.slots))
      ensures Outcome(OnPubrec(old(Abs()), s, id, wellFormed, written, lost), old(Abs()), Abs(), kept)
    {
      var i := Find(s, id, GetPubrec);
      if i == |conns[s].table| { return false; }
      if !wellFormed {
        var node := StoredMessage(id);
        if node == None { return false; }
        PublishMessage(s, i, node.value.data, node.value.qos, id, true, written);
        return true;
      }
      ReleaseMessage(id);
      PutEntry(s, i, conns[s].table[i].(state := SendPubrel));
      var asked := SendToQueue(Message(s, Write), lost);
      kept := true;
    }

    /** worker.cpp:582-608. */
    method OnPubcompPacket(s: Sock, id: Id, wellFormed: bool, lost: set<nat>) returns (kept: bool)
      requires Valid()
      modifies this, conns
      ensures Valid()
      ensures Outcome(OnPubcomp(old(Abs()), s, id, wellFormed, lost), old(Abs()), Abs(), kept)
    {
      if !wellFormed { return false; }
      var i := Find(s, id, GetPubcomp);
      if i == |conns[s].table| { return false; }
      PutEntry(s, i, Freed(conns[s].table[i]));
      var asked := SendToQueue(Message(s, Read), lost);
      kept := true;
    }

    /** worker.cpp:609-635. */
    method OnPubrelPacket(s: Sock, id: Id, wellFormed: bool, lost: set<nat>) returns (kept: bool)
      requires Valid()
      modifies this, conns
      ensures Valid()
      ensures Outcome(OnPubrel(old(Abs()), s, id, wellFormed, lost), old(Abs()), Abs(), kept)
    {
      if !wellFormed { return false; }
      var i := Find(s, id, GetPubrel);
      if i == |conns[s].table| { return false; }
      PutEntry(s, i, conns[s].table[i].(state := SendPubcomp));
      var asked := SendToQueue(Message(s, Write), lost);
      kept := true;
    }

    /** One filter of a SUBSCRIBE (worker.cpp:669-692). */
    method SubscribeTo(s: Sock, k: nat, topic: Topic, requested: nat, lost: set<nat>)
      requires Valid() && k < |clients| && (forall t :: t in retained ==> retained[t] != 0)
      requires RetainedDelivery(Abs(), topic, lost) ==> messages.contents[retained[topic]].count < 0xFF
      modifies this, conns, messages, messages.slots
      ensures Valid() && (messages.slots == old(messages.slots) || fresh(messages.slots))
      ensures Abs() == SubscribeOne(old(Abs()), s, k, topic, requested, lost)
    {
      var qos := requested;
      if qos > 2 {
        qos := 2;
      }
      clients := clients[k := clients[k].(subs := clients[k].subs[topic := qos])];
      if topic in retained {
        var node := StoredMessage(retained[topic]);
        if node.Some? {
          SendRetained(s, retained[topic], node.value.qos, qos, lost);
        }
      }
    }

    /** The retained message of a topic goes to its new subscriber (worker.cpp:682-690). */
    method SendRetained(s: Sock, id: Id, published: nat, qos: nat, lost: set<nat>)
      requires Valid() && id in messages.contents && messages.contents[id].qos == published && (tries !in lost ==> messages.contents[id].count < 0xFF)
      modifies this, conns, messages, messages.slots
      ensures Valid() && messages.slots == old(messages.slots)
      ensures var b := old(Abs()); var r := Answer(b, s, Entry(id, SendPublish, Min(qos, b.store[id].qos), false), lost);
              Abs() == if b.tries in lost then r else r.(store := Acquire(b.store, id))
    {
      var retainedQos := published;
      if qos < retainedQos {
        retainedQos := qos;
      }
      var asked := AnswerLater(s, Entry(id, SendPublish, retainedQos, false), lost);
      if asked {
        AcquireMessage(id);
      }
    }

    /** worker.cpp:636-724. */
    method OnSubscribe(s: Sock, k: nat, filters: seq<(Topic, nat)>, lost: set<nat>)
      requires Valid() && k < |clients| && (forall t :: t in retained ==> retained[t] != 0) && Room(Abs(), s, k, filters, lost)
      modifies this, conns, messages, messages.slots
      ensures Valid() && (messages.slots == old(messages.slots) || fresh(messages.slots))
      ensures Abs() == Send(SubscribeAll(old(Abs()), s, k, filters, lost), Message(s, Read), lost)
    {
      var i := 0;
      ghost var rest := filters;
      ghost var all := SubscribeAll(Abs(), s, k, filters, lost);
      while i < |filters|
        invariant 0 <= i <= |filters| && rest == filters[i..] && k < |clients|
        invariant Valid() && (messages.slots == old(messages.slots) || fresh(messages.slots))
        invariant retained == old(retained) && Room(Abs(), s, k, rest, lost)
        invariant all == SubscribeAll(Abs(), s, k, rest, lost)
      {
        SubscribeTo(s, k, filters[i].0, filters[i].1, lost);
        i, rest := i + 1, rest[1..];
      }
      var asked := SendToQueue(Message(s, Read), lost);
    }

    /** worker.cpp:725-757. */
    method OnUnsubscribe(s: Sock, k: nat, topics: seq<Topic>, lost: set<nat>)
      requires Valid() && k < |clients|
      modifies this
      ensures Valid()
      ensures React(old(Abs()), s, k, Unsubscribe(topics), false, lost) == Some(Abs())
    {
      var i, subs := 0, clients[k].subs;
      assert topics[0..] == topics;
      while i < |topics|
        invariant 0 <= i <= |topics|
        invariant Unsubscribed(subs, topics[i..]) == Unsubscribed(clients[k].subs, topics)
      {
        assert topics[i..][1..] == topics[i + 1..];
        if topics[i] != "" {
          subs := subs - {topics[i]};
        }
        i := i + 1;
      }
      clients := clients[k := clients[k].(subs := subs)];
      var asked := SendToQueue(Message(s, Read), lost);
    }

    /** worker.cpp:769-774. */
    method OnDisconnect(s: Sock, k: nat, lost: set<nat>)
      requires Valid() && k < |clients| && DistinctSocks(clients)
      modifies this, conns, messages, messages.slots
      ensures Valid() && (messages.slots == old(messages.slots) || fresh(messages.slots))
      ensures var b := old(Abs()); Abs() == Drop(b.(clients := b.clients[k := b.clients[k].(clean := true)]), s, false, 0, lost)
    {
      clients := clients[k := clients[k].(clean := true)];
      DropConn(s, false, 0, lost);
    }

    method OnAcknowledgement(s: Sock, k: nat, packet: Packet, written: bool, lost: set<nat>) returns (kept: bool)
      requires Valid() && k < |clients|
      requires packet.Puback? || packet.Pubrec? || packet.Pubrel? || packet.Pubcomp?
      modifies this, conns, messages, messages.slots
      ensures Valid() && (messages.slots == old(messages.slots) || fresh(messages.slots))
      ensures Outcome(React(old(Abs()), s, k, packet, written, lost), old(Abs()), Abs(), kept)
    {
      match packet {
        case Puback(id, wellFormed) => kept := OnPubackPacket(s, id, wellFormed, written, lost);
        case Pubrec(id, wellFormed) => kept := OnPubrecPacket(s, id, wellFormed, written, lost);
        case Pubrel(id, wellFormed) => kept := OnPubrelPacket(s, id, wellFormed, lost);
        case Pubcomp(id, wellFormed) => kept := OnPubcompPacket(s, id, wellFormed, lost);
      }
    }

    /** A packet on a connection whose client is known. */
    method OnKnownClient(s: Sock, k: nat, packet: Packet, written: bool, lost: set<nat>, ghost willId: Id) returns (kept: bool)
      requires Valid() && Linked(Abs()) && Conserved(Abs(), 0) && Admissible(Abs(), Message(s, Read), Input(packet, Done, written, willId, lost))
      requires k < |clients| && k == ClientAt(clients, conns[s].cid)
      modifies this, conns, messages, messages.slots
      ensures Valid() && (messages.slots == old(messages.slots) || fresh(messages.slots))
      ensures Outcome(React(old(Abs()), s, k, packet, written, lost), old(Abs()), Abs(), kept)
    {
      kept := true;
      match packet {
        case Closed => kept := false;
        case Publish(topic, qos, retain, id, data) =>
          if qos > 2 { return false; }
          OnPublishPacket(s, topic, qos, retain, id, data, lost);
        case Puback(_, _) => kept := OnAcknowledgement(s, k, packet, written, lost);
        case Pubrec(_, _) => kept := OnAcknowledgement(s, k, packet, written, lost);
        case Pubrel(_, _) => kept := OnAcknowledgement(s, k, packet, written, lost);
        case Pubcomp(_, _) => kept := OnAcknowledgement(s, k, packet, written, lost);
        case Subscribe(filters) => OnSubscribe(s, k, filters, lost);
        case Unsubscribe(topics) => OnUnsubscribe(s, k, topics, lost);
        case Ping => var asked := SendToQueue(Message(s, Read), lost);
        case Disconnect => OnDisconnect(s, k, lost);
        case Connect(_, _, _, _) =>
        case Other =>
      }
    }

    method OnReadablePacket(s: Sock, inp: Input)
      requires Valid() && Linked(Abs()) && Conserved(Abs(), 0) && Admissible(Abs(), Message(s, Read), inp)
      modifies this, conns, messages, messages.slots
      ensures Valid() && (messages.slots == old(messages.slots) || fresh(messages.slots))
      ensures Abs() == OnPacket(old(Abs()), s, inp)
    {
      var k := FindClient(conns[s].cid);
      var kept := false;
      if conns[s].cid == "" || k == |clients| {
        if inp.packet.Connect? && inp.packet.accepted && inp.packet.cid != "" {
          OnConnect(s, inp.packet.cid, inp.packet.clean, inp.packet.will, inp.lost);
          kept := true;
        }
      } else {
        kept := OnKnownClient(s, k, inp.packet, inp.written, inp.lost, inp.willId);
      }
      if !kept {
        DropConn(s, true, inp.willId, inp.lost);
      }
    }

    /** A step of the TLS handshake (worker.cpp:211-278). */
    method OnHandshake(s: Sock, inp: Input)
      requires Valid() && Linked(Abs()) && Conserved(Abs(), 0) && Admissible(Abs(), Message(s, Read), inp)
      modifies this, conns, messages, messages.slots
      ensures Valid() && (messages.slots == old(messages.slots) || fresh(messages.slots))
      ensures Abs() == OnTls(old(Abs()), s, inp)
    {
      if inp.tls == NoMemory { return; }
      if inp.tls == Failed {
        DropConn(s, true, inp.willId, inp.lost);
        return;
      }
      PutConn(s, if inp.tls == Done then Mqtt else Handshake, conns[s].cid);
      var asked := SendToQueue(Message(s, if inp.tls == WantWrite then Write else Read), inp.lost);
    }

    /** One message taken from pending_socks (worker.cpp:202-857). The class keeps what it asks for. */
    method Turn(m: Message, inp: Input, ghost max: nat)
      requires Valid() && Tidy(Abs(), max) && m.sock <= max && Conserved(Abs(), 0) && Admissible(Abs(), m, inp)
      modifies this, conns, messages, messages.slots
      ensures Valid() && (messages.slots == old(messages.slots) || fresh(messages.slots))
      ensures Abs() == Handle(old(Abs()), m, inp)
      ensures Tidy(Abs(), max) && (!fault ==> Conserved(Abs(), 0))
    {
      HandleTidy(Abs(), m, inp, max);
      if !Handle(Abs(), m, inp).fault {
        HandleConserves(Abs(), m, inp);
      }
      if conns[m.sock].phase != Mqtt {
        OnHandshake(m.sock, inp);
      } else if m.op == Read {
        OnReadablePacket(m.sock, inp);
      } else if m.op == Write {
        OnWrite(m.sock, inp.written, inp.lost);
      }
    }
  }
}
