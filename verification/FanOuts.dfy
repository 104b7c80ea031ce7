/** What one publication does: who receives it, at which QoS, and what stays stored (section 3.8.4 of
    MQTT 3.1.1). */
module FanOuts {
  import opened Protocol
  import opened Delivery
  import opened Conservation

  /** A subscriber that is kept while it is not connected. */
  predicate OfflineSubscriber(c: Client, topic: Topic) { c.sock == -1 && !c.clean && topic in c.subs }

  /** The code indexes its table with -1 exactly when some client that is kept while offline has
      subscribed to the topic. */
  lemma {:induction false} FanOutFaultsExactly(b: Broker, i: nat, topic: Topic, qos: nat, id: Id, lost: set<nat>)
    requires b.Shape() && id in b.store && i <= |b.clients|
    ensures FanOut(b, i, topic, qos, id, lost).fault
       <==> b.fault || exists j :: i <= j < |b.clients| && OfflineSubscriber(b.clients[j], topic)
    decreases |b.clients| - i
  {
    if i < |b.clients| {
      var c := b.clients[i];
      if !Considered(c, topic) {
        FanOutFaultsExactly(b, i + 1, topic, qos, id, lost);
      } else if c.sock == -1 {
        assert OfflineSubscriber(b.clients[i], topic);
      } else {
        FanOutFaultsExactly(Deliver(b, c.sock, id, Min(c.subs[topic], qos), lost), i + 1, topic, qos, id, lost);
      }
    }
  }

  /** A publication on the topic would reach a subscriber that is kept while offline. */
  ghost predicate SomeOffline(clients: seq<Client>, topic: Topic) {
    exists j :: 0 <= j < |clients| && OfflineSubscriber(clients[j], topic)
  }

  lemma PublishFaultsExactly(b: Broker, topic: Topic, qos: nat, id: Id, data: Bytes, lost: set<nat>)
    requires b.Shape()
    ensures PublishByTopic(b, topic, qos, id, data, lost).fault <==> b.fault || (data != [] && SomeOffline(b.clients, topic))
  {
    if data != [] {
      var b0 := if id in b.store then b else b.(store := b.store[id := Node(1, qos, data)]);
      FanOutFaultsExactly(b0, 0, topic, qos, id, lost);
    }
  }

  ghost predicate NoOfflineSubscriber(clients: seq<Client>, i: nat, topic: Topic) {
    forall j :: i <= j < |clients| ==> !OfflineSubscriber(clients[j], topic)
  }

  /** Each target's table gains one entry, and no other connection changes. */
  ghost predicate Delivered(b: Broker, r: Broker, i: nat, topic: Topic, qos: nat, id: Id)
    requires b.Shape() && r.Shape() && i <= |b.clients| && NoOfflineSubscriber(b.clients, i, topic)
  {
    && (forall s: Sock :: s !in Targets(b.clients, i, topic) ==> r.conns[s] == b.conns[s])
    && (forall j :: i <= j < |b.clients| && Considered(b.clients[j], topic) ==>
          Gains(b, r, b.clients[j], topic, qos, id))
  }

  /** The table of a subscriber gains its delivery, at the lower of the two QoS. */
  ghost predicate Gains(b: Broker, r: Broker, c: Client, topic: Topic, qos: nat, id: Id)
    requires b.Shape() && r.Shape() && topic in c.subs
  {
    c.sock != -1 &&
    r.conns[c.sock].table == AddEntry(b.conns[c.sock].table, Entry(id, SendPublish, Min(c.subs[topic], qos), true))
  }

  lemma {:induction false} FanOutTables(b: Broker, i: nat, topic: Topic, qos: nat, id: Id)
    requires b.Shape() && id in b.store && i <= |b.clients| && DistinctSocks(b.clients)
    requires NoOfflineSubscriber(b.clients, i, topic)
    ensures Delivered(b, FanOut(b, i, topic, qos, id, {}), i, topic, qos, id)
    decreases |b.clients| - i
  {
    if i < |b.clients| {
      var c := b.clients[i];
      if !Considered(c, topic) {
        FanOutTables(b, i + 1, topic, qos, id);
      } else {
        assert !OfflineSubscriber(c, topic);
        var d := Deliver(b, c.sock, id, Min(c.subs[topic], qos), {});
        FanOutTables(d, i + 1, topic, qos, id);
        DeliveredOn(b, d, FanOut(d, i + 1, topic, qos, id, {}), i, topic, qos, id);
      }
    }
  }

  /** A delivery to client `i`, and the rest of the fan-out. */
  lemma DeliveredOn(b: Broker, d: Broker, r: Broker, i: nat, topic: Topic, qos: nat, id: Id)
    requires b.Shape() && d.Shape() && r.Shape() && i < |b.clients| && DistinctSocks(b.clients) && NoOfflineSubscriber(b.clients, i, topic)
    requires Considered(b.clients[i], topic) && b.clients[i].sock != -1 && d.clients == b.clients
    requires Gains(b, d, b.clients[i], topic, qos, id) && forall x: Sock :: x != b.clients[i].sock ==> d.conns[x] == b.conns[x]
    requires Delivered(d, r, i + 1, topic, qos, id)
    ensures Delivered(b, r, i, topic, qos, id)
  {
    var c := b.clients[i];
    NotAgain(b.clients, i, topic);
    assert Gains(b, r, c, topic, qos, id);
    forall j | i < j < |b.clients| && Considered(b.clients[j], topic)
      ensures Gains(b, r, b.clients[j], topic, qos, id)
    {
      assert Gains(d, r, b.clients[j], topic, qos, id) && b.clients[j].sock != c.sock;
    }
  }

  lemma NotAgain(clients: seq<Client>, i: nat, topic: Topic)
    requires i < |clients| && DistinctSocks(clients) && Considered(clients[i], topic) && clients[i].sock != -1
    ensures clients[i].sock !in Targets(clients, i + 1, topic)
    ensures forall s: Sock :: s !in Targets(clients, i, topic) ==> s != clients[i].sock && s !in Targets(clients, i + 1, topic)
  {
    TargetsDistinct(clients, i + 1, topic);
  }

  // ---------- with requests that the queue refuses ----------

  /** The messages that were sent. */
  function News(b: Broker, r: Broker): seq<Message>
    requires |b.out| <= |r.out|
  {
    r.out[|b.out|..]
  }

  /** The subscriber gains its delivery exactly when its write request was accepted. */
  ghost predicate GainsIfAsked(b: Broker, r: Broker, c: Client, topic: Topic, qos: nat, id: Id)
    requires b.Shape() && r.Shape() && |b.out| <= |r.out| && topic in c.subs && c.sock != -1
  {
    var t := b.conns[c.sock].table;
    r.conns[c.sock].table
    == if Message(c.sock, Write) in News(b, r) then AddEntry(t, Entry(id, SendPublish, Min(c.subs[topic], qos), true)) else t
  }

  /** Nothing happens to the socket, and nothing is asked for it. */
  ghost predicate LeftAlone(b: Broker, r: Broker, x: Sock)
    requires b.Shape() && r.Shape() && |b.out| <= |r.out|
  {
    r.conns[x] == b.conns[x] && forall m :: m in News(b, r) ==> m.sock != x
  }

  ghost predicate DeliveredIfAsked(b: Broker, r: Broker, i: nat, topic: Topic, qos: nat, id: Id)
    requires b.Shape() && r.Shape() && i <= |b.clients|
  {
    && |b.out| <= |r.out| && r.out[..|b.out|] == b.out
    && (forall x: Sock :: x !in Targets(b.clients, i, topic) ==> LeftAlone(b, r, x))
    && (forall j :: i <= j < |b.clients| && Considered(b.clients[j], topic) && b.clients[j].sock != -1 ==>
          GainsIfAsked(b, r, b.clients[j], topic, qos, id))
  }

  lemma {:induction false} FanOutIfAsked(b: Broker, i: nat, topic: Topic, qos: nat, id: Id, lost: set<nat>)
    requires b.Shape() && id in b.store && i <= |b.clients| && DistinctSocks(b.clients) && NoOfflineSubscriber(b.clients, i, topic)
    ensures DeliveredIfAsked(b, FanOut(b, i, topic, qos, id, lost), i, topic, qos, id)
    decreases |b.clients| - i
  {
    if i < |b.clients| {
      var c := b.clients[i];
      if !Considered(c, topic) {
        FanOutIfAsked(b, i + 1, topic, qos, id, lost);
      } else {
        assert !OfflineSubscriber(c, topic);
        var d := Deliver(b, c.sock, id, Min(c.subs[topic], qos), lost);
        FanOutIfAsked(d, i + 1, topic, qos, id, lost);
        DeliverIfAsked(b, c, topic, qos, id, lost);
        DeliveredIfAskedOn(b, d, FanOut(d, i + 1, topic, qos, id, lost), i, topic, qos, id);
      }
    }
  }

  lemma DeliverIfAsked(b: Broker, c: Client, topic: Topic, qos: nat, id: Id, lost: set<nat>)
    requires b.Shape() && id in b.store && topic in c.subs && c.sock != -1
    ensures var d := Deliver(b, c.sock, id, Min(c.subs[topic], qos), lost);
            && |b.out| <= |d.out| && d.out[..|b.out|] == b.out && GainsIfAsked(b, d, c, topic, qos, id)
            && (forall m :: m in News(b, d) ==> m.sock == c.sock)
            && forall x: Sock :: x != c.sock ==> d.conns[x] == b.conns[x]
  {
    var s: Sock, q := c.sock, Min(c.subs[topic], qos);
    var d := Deliver(b, s, id, q, lost);
    DeliverNews(b, s, id, q, lost);
    if b.tries + 1 in lost {
      assert d.conns == b.conns;
    } else {
      assert d.conns == Enqueue(b, s, Entry(id, SendPublish, q, true)).conns;
    }
  }

  /** What is sent for a delivery: it stops the reading and asks for a write turn, or goes back to reading. */
  function Waking(s: Sock, tries: nat, lost: set<nat>): seq<Message> {
    (if tries in lost then [] else [Message(s, DelRead)])
    + (if tries + 1 !in lost then [Message(s, Write)] else if tries + 2 in lost then [] else [Message(s, Read)])
  }

  lemma DeliverSends(b: Broker, s: Sock, id: Id, qos: nat, lost: set<nat>)
    requires b.Shape() && id in b.store
    ensures Deliver(b, s, id, qos, lost).out == b.out + Waking(s, b.tries, lost)
  {
  }

  lemma DeliverNews(b: Broker, s: Sock, id: Id, qos: nat, lost: set<nat>)
    requires b.Shape() && id in b.store
    ensures var d := Deliver(b, s, id, qos, lost);
            && |b.out| <= |d.out| && d.out[..|b.out|] == b.out
            && (forall m :: m in News(b, d) ==> m.sock == s)
            && (Message(s, Write) in News(b, d) <==> b.tries + 1 !in lost)
  {
    DeliverSends(b, s, id, qos, lost);
    var w := Waking(s, b.tries, lost);
    assert Message(s, Write) in w <==> b.tries + 1 !in lost by {
      if b.tries + 1 !in lost { assert w[|w| - 1] == Message(s, Write); }
    }
    assert (b.out + w)[|b.out|..] == w && (b.out + w)[..|b.out|] == b.out;
  }

  lemma DeliveredIfAskedOn(b: Broker, d: Broker, r: Broker, i: nat, topic: Topic, qos: nat, id: Id)
    requires b.Shape() && d.Shape() && r.Shape() && i < |b.clients| && DistinctSocks(b.clients) && d.clients == b.clients
    requires var c := b.clients[i]; Considered(c, topic) && c.sock != -1
    requires |b.out| <= |d.out| && d.out[..|b.out|] == b.out && GainsIfAsked(b, d, b.clients[i], topic, qos, id)
    requires forall m :: m in News(b, d) ==> m.sock == b.clients[i].sock
    requires forall x: Sock :: x != b.clients[i].sock ==> d.conns[x] == b.conns[x]
    requires DeliveredIfAsked(d, r, i + 1, topic, qos, id)
    ensures DeliveredIfAsked(b, r, i, topic, qos, id)
  {
    var c := b.clients[i];
    assert News(b, r) == News(b, d) + News(d, r) by {
      assert r.out == d.out + News(d, r) && d.out == b.out + News(b, d);
    }
    NotAgain(b.clients, i, topic);
    assert LeftAlone(d, r, c.sock);
    assert GainsIfAsked(b, r, c, topic, qos, id);
    forall j | i < j < |b.clients| && Considered(b.clients[j], topic) && b.clients[j].sock != -1
      ensures GainsIfAsked(b, r, b.clients[j], topic, qos, id)
    {
      assert GainsIfAsked(d, r, b.clients[j], topic, qos, id) && b.clients[j].sock != c.sock;
    }
    forall x: Sock | x !in Targets(b.clients, i, topic) ensures LeftAlone(b, r, x) {
      assert LeftAlone(d, r, x) && x != c.sock;
    }
  }

  /** Whichever requests the queue refuses, a publication gives each connected subscriber its delivery
      exactly when its write request was accepted, and does nothing to anyone else. */
  lemma PublishDeliversIfAsked(b: Broker, topic: Topic, qos: nat, id: Id, data: Bytes, lost: set<nat>)
    requires b.Shape() && DistinctSocks(b.clients) && NoOfflineSubscriber(b.clients, 0, topic) && data != []
    ensures DeliveredIfAsked(b, PublishByTopic(b, topic, qos, id, data, lost), 0, topic, qos, id)
  {
    var b0 := Stored(b, id, qos, data);
    var r, f := PublishByTopic(b, topic, qos, id, data, lost), FanOut(b0, 0, topic, qos, id, lost);
    FanOutIfAsked(b0, 0, topic, qos, id, lost);
    assert r.conns == f.conns && r.out == f.out && News(b, r) == News(b0, f);
    forall j | 0 <= j < |b.clients| && Considered(b.clients[j], topic) && b.clients[j].sock != -1
      ensures GainsIfAsked(b, r, b.clients[j], topic, qos, id)
    {
      assert GainsIfAsked(b0, f, b.clients[j], topic, qos, id);
    }
    forall x: Sock | x !in Targets(b.clients, 0, topic) ensures LeftAlone(b, r, x) { assert LeftAlone(b0, f, x); }
  }

  function WithCount(store: map<Id, Node>, id: Id, n: Count): map<Id, Node>
    requires id in store
  {
    store[id := store[id].(count := n)]
  }

  lemma WithCountTwice(store: map<Id, Node>, id: Id, m: Count, n: Count)
    requires id in store
    ensures WithCount(WithCount(store, id, m), id, n) == WithCount(store, id, n)
  {
  }

  lemma DeliverStore(b: Broker, s: Sock, id: Id, qos: nat)
    requires b.Shape() && id in b.store && b.store[id].count < 0xFF
    ensures Deliver(b, s, id, qos, {}).store == WithCount(b.store, id, b.store[id].count + 1)
  {
  }

  /** The message is referred to once more for each target. */
  lemma {:induction false} FanOutStore(b: Broker, i: nat, topic: Topic, qos: nat, id: Id, total: Count)
    requires b.Shape() && id in b.store && i <= |b.clients|
    requires NoOfflineSubscriber(b.clients, i, topic)
    requires b.store[id].count + |Targets(b.clients, i, topic)| == total
    ensures FanOut(b, i, topic, qos, id, {}).store == WithCount(b.store, id, total)
    decreases |b.clients| - i
  {
    if i == |b.clients| {
      assert WithCount(b.store, id, b.store[id].count) == b.store;
    } else {
      var c := b.clients[i];
      if !Considered(c, topic) {
        assert Targets(b.clients, i, topic) == Targets(b.clients, i + 1, topic);
        FanOutStore(b, i + 1, topic, qos, id, total);
      } else {
        assert !OfflineSubscriber(c, topic);
        TargetsOn(b.clients, i, topic);
        var q := Min(c.subs[topic], qos);
        DeliverStore(b, c.sock, id, q);
        FanOutStore(Deliver(b, c.sock, id, q, {}), i + 1, topic, qos, id, total);
        FanOutStoreOn(b, i, topic, qos, id, total);
      }
    }
  }

  lemma FanOutStoreOn(b: Broker, i: nat, topic: Topic, qos: nat, id: Id, total: Count)
    requires b.Shape() && id in b.store && i < |b.clients| && Considered(b.clients[i], topic) && b.clients[i].sock != -1
    requires b.store[id].count < 0xFF
    requires var d := Deliver(b, b.clients[i].sock, id, Min(b.clients[i].subs[topic], qos), {});
             FanOut(d, i + 1, topic, qos, id, {}).store == WithCount(d.store, id, total)
    ensures FanOut(b, i, topic, qos, id, {}).store == WithCount(b.store, id, total)
  {
    DeliverStore(b, b.clients[i].sock, id, Min(b.clients[i].subs[topic], qos));
    WithCountTwice(b.store, id, b.store[id].count + 1, total);
  }

  lemma TargetsOn(clients: seq<Client>, i: nat, topic: Topic)
    requires i < |clients| && Considered(clients[i], topic) && clients[i].sock != -1
    ensures |Targets(clients, i, topic)| == 1 + |Targets(clients, i + 1, topic)|
  {
  }

  /** The publication's effect on the tables: exactly one delivery for each connected subscriber, at the
      lower of the two QoS, and nothing for anyone else. */
  lemma PublishDelivers(b: Broker, topic: Topic, qos: nat, id: Id, data: Bytes)
    requires b.Shape() && DistinctSocks(b.clients) && NoOfflineSubscriber(b.clients, 0, topic) && data != []
    ensures Delivered(b, PublishByTopic(b, topic, qos, id, data, {}), 0, topic, qos, id)
  {
    var b0 := if id in b.store then b else b.(store := b.store[id := Node(1, qos, data)]);
    FanOutTables(b0, 0, topic, qos, id);
    var r, f := PublishByTopic(b, topic, qos, id, data, {}), FanOut(b0, 0, topic, qos, id, {});
    assert r.conns == f.conns;
    forall j | 0 <= j < |b.clients| && Considered(b.clients[j], topic)
      ensures Gains(b, r, b.clients[j], topic, qos, id)
    {
      assert Gains(b0, f, b.clients[j], topic, qos, id);
    }
  }

  /** Its effect on the store: the message stays stored exactly when it has a subscriber, counted once for
      each; a retained message, stored already, keeps the reference of its slot as well. */
  lemma PublishStores(b: Broker, topic: Topic, qos: nat, id: Id, data: Bytes)
    requires b.Shape() && DistinctSocks(b.clients) && NoOfflineSubscriber(b.clients, 0, topic) && data != []
    requires !b.fault && (id in b.store ==> b.store[id] == Node(2, qos, data))
    ensures |Targets(b.clients, 0, topic)| <= SOCKETS
    ensures var n := |Targets(b.clients, 0, topic)|;
            PublishByTopic(b, topic, qos, id, data, {}).store
            == (if id in b.store then b.store[id := Node(n + 1, qos, data)]
                else if n == 0 then b.store
                else b.store[id := Node(n, qos, data)])
  {
    PublishFinishes(b, topic, qos, id, data);
    FinishIs(b.store, id, qos, data, |Targets(b.clients, 0, topic)|);
  }

  lemma FinishIs(store: map<Id, Node>, id: Id, qos: nat, data: Bytes, n: nat)
    requires n <= SOCKETS && (id in store ==> store[id] == Node(2, qos, data))
    ensures var full := if id in store then store else store[id := Node(1, qos, data)];
            Release(WithCount(full, id, full[id].count + n), id)
            == (if id in store then store[id := Node(n + 1, qos, data)] else if n == 0 then store else store[id := Node(n, qos, data)])
  {
    var full := if id in store then store else store[id := Node(1, qos, data)];
    var all := full[id].count + n;
    FinishCounts(full, id, all);
    if all == 1 {
      assert full - {id} == store;
    } else {
      assert WithCount(full, id, all - 1) == store[id := Node(all - 1, qos, data)];
    }
  }

  /** The broker with the message in its store. */
  function Stored(b: Broker, id: Id, qos: nat, data: Bytes): Broker {
    if id in b.store then b else b.(store := b.store[id := Node(1, qos, data)])
  }

  /** After the fan-out the reference that kept the message stored is given back. */
  lemma PublishFinishes(b: Broker, topic: Topic, qos: nat, id: Id, data: Bytes)
    requires b.Shape() && DistinctSocks(b.clients) && NoOfflineSubscriber(b.clients, 0, topic) && data != []
    requires !b.fault && (id in b.store ==> b.store[id].count <= 2)
    ensures |Targets(b.clients, 0, topic)| <= SOCKETS
    ensures var store := Stored(b, id, qos, data).store;
            PublishByTopic(b, topic, qos, id, data, {}).store
            == Release(WithCount(store, id, store[id].count + |Targets(b.clients, 0, topic)|), id)
  {
    var b0 := Stored(b, id, qos, data);
    FanOutIsBounded(b.clients, topic);
    FanOutStore(b0, 0, topic, qos, id, b0.store[id].count + |Targets(b.clients, 0, topic)|);
    FanOutFaultsExactly(b0, 0, topic, qos, id, {});
    assert !FanOut(b0, 0, topic, qos, id, {}).fault;
  }

  lemma FinishCounts(store: map<Id, Node>, id: Id, n: Count)
    requires id in store && n > 0
    ensures Release(WithCount(store, id, n), id) == if n == 1 then store - {id} else WithCount(store, id, n - 1)
  {
    assert WithCount(store, id, n) - {id} == store - {id};
    if n > 1 {
      assert WithCount(WithCount(store, id, n), id, n - 1) == WithCount(store, id, n - 1);
    }
  }

  /** A table that gains an entry keeps its other live entries. */
  lemma AddEntryKeeps(t: seq<Entry>, e: Entry, i: nat)
    requires i < |t| && t[i].id != 0
    ensures i < |AddEntry(t, e)| && AddEntry(t, e)[i] == t[i]
    ensures e in AddEntry(t, e)
  {
    var k := First(t, Free);
    if k < |t| {
      assert AddEntry(t, e)[k] == e;
    } else {
      assert AddEntry(t, e)[|t|] == e;
    }
  }

  /** The bytes written for a delivery carry its QoS, the RETAIN bit only for a new subscription, and
      otherwise the message as it was stored (sections 3.3.1.2 and 3.3.1.3 of MQTT 3.1.1). */
  lemma WireImageFields(data: Bytes, qos: nat, deleteRetain: bool)
    requires data != [] && qos <= 2
    ensures var w := WireImage(data, qos, deleteRetain);
            && |w| == |data| && w[1..] == data[1..]
            && (w[0] & 0x06) == (qos as bv8) << 1
            && (w[0] & 0x01) == (if deleteRetain then 0 else data[0] & 0x01)
            && (w[0] & 0xF8) == (data[0] & 0xF8)
  {
    var d := data[0];
    assert WireImage(data, qos, deleteRetain)[1..] == data[1..];
    FlagBits(d, qos as bv8);
    FlagBits(d & 0xFE, qos as bv8);
    assert ((d & 0xFE) & 0x01) == 0 && ((d & 0xFE) & 0xF8) == (d & 0xF8);
  }

  lemma FlagBits(d: bv8, q: bv8)
    requires q <= 2
    ensures (((d & 0xF9) | (q << 1)) & 0x06) == q << 1
    ensures (((d & 0xF9) | (q << 1)) & 0x01) == d & 0x01
    ensures (((d & 0xF9) | (q << 1)) & 0xF8) == d & 0xF8
  {
  }
}
