/** Reference conservation: between two turns of the worker every stored message is counted once for
    each table entry that still needs it and once for each topic that retains it, and for nothing else.
 */
module Conservation {
  import opened Protocol
  import opened Delivery

  function StoredCount(store: map<Id, Node>, id: Id): nat {
    if id in store then store[id].count else 0
  }

  function RetainedTopics(retained: map<Topic, Id>, id: Id): set<Topic> {
    set t | t in retained && retained[t] == id
  }

  function RetainedRefs(retained: map<Topic, Id>, id: Id): nat {
    |RetainedTopics(retained, id)|
  }

  /** How often the tables of all sockets and the retained slots refer to a message. */
  function Refs(b: Broker, id: Id): nat {
    Total(b.conns, RefsTo(id)) + RetainedRefs(b.retained, id)
  }

  /** `extra` is the message whose fan-out is in progress, or 0. */
  ghost predicate Conserved(b: Broker, extra: Id) {
    && (forall id: Id :: id != 0 ==>
          StoredCount(b.store, id) == Refs(b, id) + (if id == extra then 1 else 0))
    && (forall id: Id :: id in b.store ==> id != 0 && b.store[id].count > 0)
    && (forall t :: t in b.retained ==> b.retained[t] != 0)
  }

  // ---------- the links between clients and connections ----------

  ghost predicate DistinctSocks(clients: seq<Client>) {
    forall i, j :: 0 <= i < j < |clients| && clients[i].sock != -1 ==> clients[i].sock != clients[j].sock
  }

  ghost predicate HasOwner(clients: seq<Client>, cid: string, s: Sock) {
    exists i :: 0 <= i < |clients| && clients[i].cid == cid && clients[i].sock == s
  }

  /** A connected client and its connection name each other, and client identifiers are unique. */
  ghost predicate Linked(b: Broker) {
    && b.Shape()
    && (forall i, j :: 0 <= i < j < |b.clients| ==> b.clients[i].cid != b.clients[j].cid)
    && (forall i :: 0 <= i < |b.clients| ==>
          && b.clients[i].cid != ""
          && (b.clients[i].sock != -1 ==>
                && b.conns[b.clients[i].sock].phase == Mqtt
                && b.conns[b.clients[i].sock].cid == b.clients[i].cid))
    && (forall s: Sock {:trigger HasOwner(b.clients, b.conns[s].cid, s)} :: b.conns[s].cid != "" ==>
          b.conns[s].phase == Mqtt && HasOwner(b.clients, b.conns[s].cid, s))
  }

  lemma LinkedDistinct(b: Broker)
    requires Linked(b)
    ensures DistinctSocks(b.clients)
  {
    forall i, j | 0 <= i < j < |b.clients| && b.clients[i].sock != -1
      ensures b.clients[i].sock != b.clients[j].sock
    {
      assert b.clients[i].cid != b.clients[j].cid;
    }
  }

  // ---------- how many deliveries one fan-out can make ----------

  /** The sockets that the fan-out reaches from client `i` on. */
  function Targets(clients: seq<Client>, i: nat, topic: Topic): seq<Sock>
    requires i <= |clients|
    decreases |clients| - i
  {
    if i == |clients| then []
    else
      var c := clients[i];
      (if Considered(c, topic) && c.sock != -1 then [c.sock as Sock] else []) + Targets(clients, i + 1, topic)
  }

  lemma {:induction false} TargetsDistinct(clients: seq<Client>, i: nat, topic: Topic)
    requires i <= |clients| && DistinctSocks(clients)
    ensures forall s :: s in Targets(clients, i, topic) ==>
              exists j :: i <= j < |clients| && clients[j].sock == s && Considered(clients[j], topic)
    ensures forall x, y :: 0 <= x < y < |Targets(clients, i, topic)| ==>
              Targets(clients, i, topic)[x] != Targets(clients, i, topic)[y]
    decreases |clients| - i
  {
    if i < |clients| {
      TargetsDistinct(clients, i + 1, topic);
      var c, rest := clients[i], Targets(clients, i + 1, topic);
      if Considered(c, topic) && c.sock != -1 {
        assert c.sock !in rest;
        assert Targets(clients, i, topic) == [c.sock as Sock] + rest;
      } else {
        assert Targets(clients, i, topic) == rest;
      }
    }
  }

  lemma {:induction false} AtMostSockets(s: seq<Sock>, n: nat)
    requires forall x, y :: 0 <= x < y < |s| ==> s[x] != s[y]
    requires forall x :: 0 <= x < |s| ==> s[x] < n
    ensures |s| <= n
    decreases n
  {
    if |s| > 0 {
      assert s[0] < n;
      if k :| 0 <= k < |s| && s[k] == n - 1 {
        AtMostSockets(s[..k] + s[k + 1..], n - 1);
      } else {
        AtMostSockets(s, n - 1);
      }
    }
  }

  /** One fan-out makes at most one delivery for each of the 64 sockets. */
  lemma FanOutIsBounded(clients: seq<Client>, topic: Topic)
    requires DistinctSocks(clients)
    ensures |Targets(clients, 0, topic)| <= SOCKETS
  {
    TargetsDistinct(clients, 0, topic);
    AtMostSockets(Targets(clients, 0, topic), SOCKETS);
  }

  // ---------- primitive changes ----------

  lemma SetEntryTotal(b: Broker, s: Sock, i: nat, e: Entry, m: Measure)
    requires b.Shape() && i < |b.conns[s].table|
    ensures Total(SetEntry(b, s, i, e).conns, m) == Total(b.conns, m) - m.Of(b.conns[s].table[i]) + m.Of(e)
  {
    SumUpdate(b.conns[s].table, i, e, m);
    TotalUpdate(b.conns, s, b.conns[s].(table := b.conns[s].table[i := e]), m);
  }

  lemma EnqueueTotal(b: Broker, s: Sock, e: Entry, m: Measure)
    requires b.Shape()
    ensures Total(Enqueue(b, s, e).conns, m) == Total(b.conns, m) + m.Of(e)
  {
    SumAddEntry(b.conns[s].table, e, m);
    TotalUpdate(b.conns, s, b.conns[s].(table := AddEntry(b.conns[s].table, e)), m);
  }

  /** A live entry guarantees that its message is still stored: no delivery dangles. */
  lemma NothingDangles(b: Broker, extra: Id, s: Sock, i: nat)
    requires b.Shape() && Conserved(b, extra)
    requires i < |b.conns[s].table| && b.conns[s].table[i].Counted()
    ensures b.conns[s].table[i].id in b.store
    ensures b.store[b.conns[s].table[i].id].count > 0
  {
    var id := b.conns[s].table[i].id;
    TotalAtLeast(b.conns, s, i, RefsTo(id));
    assert StoredCount(b.store, id) == Refs(b, id) + (if id == extra then 1 else 0);
  }

  /** Only the tables, the store and the retained slots matter. */
  lemma ConservedFrame(b: Broker, c: Broker, extra: Id)
    requires Conserved(b, extra)
    requires c.store == b.store && c.retained == b.retained
    requires forall id: Id :: Total(c.conns, RefsTo(id)) == Total(b.conns, RefsTo(id))
    ensures Conserved(c, extra)
  {
    forall id: Id | id != 0
      ensures StoredCount(c.store, id) == Refs(c, id) + (if id == extra then 1 else 0)
    {
      assert StoredCount(b.store, id) == Refs(b, id) + (if id == extra then 1 else 0);
    }
  }

  lemma SetConnConserves(b: Broker, s: Sock, phase: Phase, cid: string, extra: Id)
    requires b.Shape() && Conserved(b, extra)
    ensures Conserved(SetConn(b, s, phase, cid), extra)
  {
    forall id: Id
      ensures Total(SetConn(b, s, phase, cid).conns, RefsTo(id)) == Total(b.conns, RefsTo(id))
    {
      TotalUpdate(b.conns, s, b.conns[s].(phase := phase, cid := cid), RefsTo(id));
    }
    ConservedFrame(b, SetConn(b, s, phase, cid), extra);
  }

  /** A change of state that neither takes nor gives up a reference. */
  lemma MoveConserves(b: Broker, s: Sock, i: nat, e: Entry, extra: Id)
    requires b.Shape() && Conserved(b, extra) && i < |b.conns[s].table|
    requires e.Counted() == b.conns[s].table[i].Counted()
    requires e.Counted() ==> e.id == b.conns[s].table[i].id
    ensures Conserved(SetEntry(b, s, i, e), extra)
  {
    forall id: Id
      ensures Total(SetEntry(b, s, i, e).conns, RefsTo(id)) == Total(b.conns, RefsTo(id))
    {
      SetEntryTotal(b, s, i, e, RefsTo(id));
    }
    ConservedFrame(b, SetEntry(b, s, i, e), extra);
  }

  /** An entry that gives up its message together with the reference in the store. */
  lemma GiveUpConserves(b: Broker, s: Sock, i: nat, e: Entry, extra: Id)
    requires b.Shape() && Conserved(b, extra) && i < |b.conns[s].table|
    requires b.conns[s].table[i].Counted() && !e.Counted()
    ensures Conserved(SetEntry(b, s, i, e).(store := Release(b.store, b.conns[s].table[i].id)), extra)
  {
    var x := b.conns[s].table[i].id;
    var c := SetEntry(b, s, i, e).(store := Release(b.store, x));
    NothingDangles(b, extra, s, i);
    forall id: Id | id != 0
      ensures StoredCount(c.store, id) == Refs(c, id) + (if id == extra then 1 else 0)
    {
      SetEntryTotal(b, s, i, e, RefsTo(id));
      assert StoredCount(b.store, id) == Refs(b, id) + (if id == extra then 1 else 0);
    }
  }

  lemma EnqueueConserves(b: Broker, s: Sock, e: Entry, extra: Id)
    requires b.Shape() && Conserved(b, extra) && !e.Counted()
    ensures Conserved(Enqueue(b, s, e), extra)
  {
    forall id: Id
      ensures Total(Enqueue(b, s, e).conns, RefsTo(id)) == Total(b.conns, RefsTo(id))
    {
      EnqueueTotal(b, s, e, RefsTo(id));
    }
    ConservedFrame(b, Enqueue(b, s, e), extra);
  }

  /** A new delivery together with one more reference, as long as the 8-bit counter has room. */
  lemma EnqueueDeliveryConserves(b: Broker, s: Sock, e: Entry, extra: Id)
    requires b.Shape() && Conserved(b, extra)
    requires e.Counted() && e.id in b.store && b.store[e.id].count < 0xFF
    ensures Conserved(Enqueue(b, s, e).(store := Acquire(b.store, e.id)), extra)
  {
    var c := Enqueue(b, s, e).(store := Acquire(b.store, e.id));
    forall id: Id | id != 0
      ensures StoredCount(c.store, id) == Refs(c, id) + (if id == extra then 1 else 0)
    {
      EnqueueTotal(b, s, e, RefsTo(id));
      assert StoredCount(b.store, id) == Refs(b, id) + (if id == extra then 1 else 0);
    }
  }

  // ---------- fan-out ----------

  lemma {:induction false} FanOutConserves(b: Broker, i: nat, topic: Topic, qos: nat, id: Id, lost: set<nat>)
    requires b.Shape() && id in b.store && i <= |b.clients|
    requires Conserved(b, id)
    requires b.store[id].count + |Targets(b.clients, i, topic)| <= 0xFF
    requires !FanOut(b, i, topic, qos, id, lost).fault
    ensures Conserved(FanOut(b, i, topic, qos, id, lost), id)
    ensures FanOut(b, i, topic, qos, id, lost).retained == b.retained
    decreases |b.clients| - i
  {
    if i < |b.clients| {
      var c := b.clients[i];
      if !Considered(c, topic) {
        FanOutConserves(b, i + 1, topic, qos, id, lost);
      } else if c.sock != -1 {
        var q := Min(c.subs[topic], qos);
        EnqueueDeliveryConserves(b, c.sock, Entry(id, SendPublish, q, true), id);
        var d := Deliver(b, c.sock, id, q, lost);
        assert Conserved(d, id) by {
          if b.tries + 1 !in lost {
            var e := Enqueue(b, c.sock, Entry(id, SendPublish, q, true)).(store := Acquire(b.store, id));
            assert d.conns == e.conns && d.store == e.store && d.retained == e.retained;
            ConservedFrame(e, d, id);
          } else {
            ConservedFrame(b, d, id);
          }
        }
        FanOutConserves(d, i + 1, topic, qos, id, lost);
      }
    }
  }

  /** Finishing a fan-out gives back the reference it held. */
  lemma FinishConserves(b: Broker, id: Id)
    requires Conserved(b, id) && id != 0
    ensures Conserved(b.(store := Release(b.store, id)), 0)
  {
    var c := b.(store := Release(b.store, id));
    assert StoredCount(b.store, id) == Refs(b, id) + 1;
    forall x: Id | x != 0
      ensures StoredCount(c.store, x) == Refs(c, x) + (if x == 0 then 1 else 0)
    {
      assert StoredCount(b.store, x) == Refs(b, x) + (if x == id then 1 else 0);
    }
  }

  /** A new message, or one that was just stored for its topic, keeps the books when it is fanned out. */
  lemma PublishByTopicConserves(b: Broker, topic: Topic, qos: nat, id: Id, data: Bytes, lost: set<nat>)
    requires b.Shape() && DistinctSocks(b.clients) && id != 0
    requires if id in b.store then Conserved(b, id) && b.store[id].count <= 2 && data != [] else Conserved(b, 0)
    requires !PublishByTopic(b, topic, qos, id, data, lost).fault
    ensures Conserved(PublishByTopic(b, topic, qos, id, data, lost), 0)
  {
    if data != [] {
      var b0 := if id in b.store then b else b.(store := b.store[id := Node(1, qos, data)]);
      if id !in b.store {
        forall x: Id | x != 0
          ensures StoredCount(b0.store, x) == Refs(b0, x) + (if x == id then 1 else 0)
        {
          assert StoredCount(b.store, x) == Refs(b, x) + 0;
        }
      }
      FanOutIsBounded(b.clients, topic);
      FanOutConserves(b0, 0, topic, qos, id, lost);
      FinishConserves(FanOut(b0, 0, topic, qos, id, lost), id);
    }
  }

  // ---------- retained messages ----------

  lemma RetainedRefsUpdate(retained: map<Topic, Id>, topic: Topic, id: Id, x: Id)
    ensures RetainedRefs(retained[topic := id], x)
         == RetainedRefs(retained, x) + (if x == id then 1 else 0)
            - (if topic in retained && retained[topic] == x then 1 else 0)
  {
    var before, after := RetainedTopics(retained, x), RetainedTopics(retained[topic := id], x);
    var others := before - {topic};
    assert after == if x == id then others + {topic} else others;
    assert before == if topic in before then others + {topic} else others;
  }

  /** The old message of the topic loses exactly the reference that the new one gains. */
  lemma StoreRetainedConserves(b: Broker, topic: Topic, qos: nat, id: Id, data: Bytes)
    requires Conserved(b, 0) && id != 0 && id !in b.store
    ensures Conserved(StoreRetained(b, topic, qos, id, data), id)
    ensures StoredCount(StoreRetained(b, topic, qos, id, data).store, id) == 2
  {
    var c := StoreRetained(b, topic, qos, id, data);
    if topic in b.retained {
      var was := b.retained[topic];
      assert was in b.store by {
        assert topic in RetainedTopics(b.retained, was);
        assert StoredCount(b.store, was) == Refs(b, was) + 0;
      }
    }
    assert StoredCount(b.store, id) == 0;
    forall x: Id | x != 0
      ensures StoredCount(c.store, x) == Refs(c, x) + (if x == id then 1 else 0)
    {
      RetainedRefsUpdate(b.retained, topic, id, x);
      assert StoredCount(b.store, x) == Refs(b, x) + 0;
    }
  }
}
