/** What one turn of the worker does to the requests by which it asks the select task to watch a socket.
    A socket is watched when a message for it waits in pending_socks or when, once everything the
    worker has sent is applied to the select sets, the socket is in one of them. */
module Wakeup {
  import opened Protocol
  import opened Delivery
  import opened Conservation

  /** Membership of one socket in the two select sets. */
  datatype Watch = Watch(r: bool, w: bool)

  /** The effect of one message from socks_for_fds on the sets, seen from socket `s` (main.cpp:148-167). */
  function Apply(m: Message, s: Sock, x: Watch): Watch {
    if m.sock != s then x
    else
      match m.op
      case Read => x.(r := true)
      case Write => x.(w := true)
      case DelRead => x.(r := false)
      case DelAll => Watch(false, false)
  }

  function After(q: seq<Message>, s: Sock, x: Watch): Watch {
    if q == [] then x else Apply(q[|q| - 1], s, After(q[..|q| - 1], s, x))
  }

  lemma AfterSnoc(q: seq<Message>, m: Message, s: Sock, x: Watch)
    ensures After(q + [m], s, x) == Apply(m, s, After(q, s, x))
  {
    assert (q + [m])[..|q|] == q;
  }

  /** Applying two stretches of messages one after the other. */
  lemma {:induction false} AfterConcat(p: seq<Message>, q: seq<Message>, s: Sock, x: Watch)
    ensures After(p + q, s, x) == After(q, s, After(p, s, x))
  {
    if q == [] {
      assert p + [] == p;
    } else {
      var front, last := q[..|q| - 1], q[|q| - 1];
      assert p + q == (p + front) + [last];
      AfterSnoc(p + front, last, s, x);
      AfterConcat(p, front, s, x);
    }
  }

  /** Message `i` is a write request for the socket, and no later message takes the socket out. */
  ghost predicate Stands(q: seq<Message>, s: Sock, i: nat) {
    i < |q| && q[i] == Message(s, Write) && forall j :: i <= j < |q| ==> q[j] != Message(s, DelAll)
  }

  /** A socket ends up in the write set exactly when a write request for it stands, or it was in the set
      before and nothing has taken it out. */
  lemma {:induction false} WriteRequestStands(q: seq<Message>, s: Sock, x: Watch)
    ensures After(q, s, x).w <==> (exists i :: Stands(q, s, i)) || (x.w && Message(s, DelAll) !in q)
  {
    if q != [] {
      var front, last := q[..|q| - 1], q[|q| - 1];
      WriteRequestStands(front, s, x);
      if last == Message(s, Write) {
        assert Stands(q, s, |front|);
      } else if last == Message(s, DelAll) {
        assert q[|front|] == last;
      } else {
        forall i ensures Stands(q, s, i) <==> Stands(front, s, i) { StandsOn(q, s, i); }
        assert Message(s, DelAll) in q <==> Message(s, DelAll) in front;
      }
    }
  }

  lemma StandsOn(q: seq<Message>, s: Sock, i: nat)
    requires q != [] && q[|q| - 1] != Message(s, Write) && q[|q| - 1] != Message(s, DelAll)
    ensures Stands(q, s, i) <==> Stands(q[..|q| - 1], s, i)
  {
    var front := q[..|q| - 1];
    if Stands(front, s, i) {
      forall j | i <= j < |q| ensures q[j] != Message(s, DelAll) { assert j < |front| ==> q[j] == front[j]; }
    }
    if Stands(q, s, i) {
      forall j | i <= j < |front| ensures front[j] != Message(s, DelAll) { assert q[j] == front[j]; }
    }
  }

  /** The same for reading, where a delread takes the socket out as well. */
  ghost predicate ReadsOn(q: seq<Message>, s: Sock, i: nat) {
    i < |q| && q[i] == Message(s, Read) && forall j :: i <= j < |q| ==> q[j] != Message(s, DelAll) && q[j] != Message(s, DelRead)
  }

  lemma {:induction false} ReadRequestStands(q: seq<Message>, s: Sock, x: Watch)
    ensures After(q, s, x).r <==> (exists i :: ReadsOn(q, s, i)) || (x.r && Message(s, DelAll) !in q && Message(s, DelRead) !in q)
  {
    if q != [] {
      var front, last := q[..|q| - 1], q[|q| - 1];
      ReadRequestStands(front, s, x);
      if last == Message(s, Read) {
        assert ReadsOn(q, s, |front|);
      } else if last == Message(s, DelAll) || last == Message(s, DelRead) {
        assert q[|front|] == last;
      } else {
        forall i ensures ReadsOn(q, s, i) <==> ReadsOn(front, s, i) { ReadsOnOn(q, s, i); }
        forall m | m == Message(s, DelAll) || m == Message(s, DelRead) ensures m in q <==> m in front {}
      }
    }
  }

  lemma ReadsOnOn(q: seq<Message>, s: Sock, i: nat)
    requires q != [] && q[|q| - 1] != Message(s, Read) && q[|q| - 1] != Message(s, DelAll) && q[|q| - 1] != Message(s, DelRead)
    ensures ReadsOn(q, s, i) <==> ReadsOn(q[..|q| - 1], s, i)
  {
    var front := q[..|q| - 1];
    if ReadsOn(front, s, i) {
      forall j | i <= j < |q| ensures q[j] != Message(s, DelAll) && q[j] != Message(s, DelRead) { assert j < |front| ==> q[j] == front[j]; }
    }
    if ReadsOn(q, s, i) {
      forall j | i <= j < |front| ensures front[j] != Message(s, DelAll) && front[j] != Message(s, DelRead) { assert front[j] == q[j]; }
    }
  }

  // ---------- what is known before the turn ----------

  /** The select sets once the queue is drained, and the sockets with a message (a write message) in
      pending_socks. */
  datatype Base = Base(rd: set<Sock>, wr: set<Sock>, soon: set<Sock>, soonWrite: set<Sock>)

  function Watched(b: Broker, base: Base, s: Sock): Watch {
    After(b.out, s, Watch(s in base.rd, s in base.wr))
  }

  /** A live socket with something to send has a write turn coming. */
  ghost predicate Awake(b: Broker, base: Base, s: Sock)
    requires b.Shape()
  {
    b.conns[s].phase == Mqtt && !NoPending(b.conns[s].table) ==>
      s in base.soonWrite || Watched(b, base, s).w
  }

  /** A live socket has a turn coming. */
  ghost predicate Heard(b: Broker, base: Base, s: Sock)
    requires b.Shape()
  {
    b.conns[s].phase != Uninit ==> s in base.soon || Watched(b, base, s).w || Watched(b, base, s).r
  }

  /** All sockets are awake and heard, except for the given ones. */
  ghost predicate Live(b: Broker, base: Base, asleep: set<Sock>, deaf: set<Sock>)
    requires b.Shape()
  {
    forall s: Sock :: (s !in asleep ==> Awake(b, base, s)) && (s !in deaf ==> Heard(b, base, s))
  }

  // ---------- primitive changes ----------

  /** A message changes how its own socket is watched and no other. */
  lemma SendWatched(b: Broker, base: Base, m: Message, s: Sock)
    ensures Watched(Send(b, m, {}), base, s) == Apply(m, s, Watched(b, base, s))
  {
    AfterSnoc(b.out, m, s, Watch(s in base.rd, s in base.wr));
  }

  lemma SendLive(b: Broker, base: Base, m: Message, asleep: set<Sock>, deaf: set<Sock>)
    requires b.Shape() && Live(b, base, asleep, deaf)
    ensures m.op == Read ==> Live(Send(b, m, {}), base, asleep, deaf - {m.sock})
    ensures m.op == Write ==>
              && Live(Send(b, m, {}), base, asleep - {m.sock}, deaf - {m.sock})
              && Watched(Send(b, m, {}), base, m.sock).w
    ensures m.op == DelAll ==> Live(Send(b, m, {}), base, asleep + {m.sock}, deaf + {m.sock})
  {
    var c := Send(b, m, {});
    forall x: Sock
      ensures Watched(c, base, x) == Apply(m, x, Watched(b, base, x))
      ensures (x !in asleep ==> Awake(b, base, x)) && (x !in deaf ==> Heard(b, base, x))
    {
      SendWatched(b, base, m, x);
    }
  }

  lemma CloseLive(b: Broker, base: Base, s: Sock, asleep: set<Sock>, deaf: set<Sock>)
    requires b.Shape() && Live(b, base, asleep, deaf)
    ensures Live(SetConn(b, s, Uninit, ""), base, asleep - {s}, deaf - {s})
  {
    var c := SetConn(b, s, Uninit, "");
    forall x: Sock
      ensures (x != s && x !in asleep ==> Awake(c, base, x)) && (x != s && x !in deaf ==> Heard(c, base, x))
    {
      assert x !in asleep ==> Awake(b, base, x);
      assert x !in deaf ==> Heard(b, base, x);
    }
  }

  /** An entry may be queued on a socket whose write turn is already asked for. */
  lemma EnqueueLive(b: Broker, base: Base, s: Sock, e: Entry, asleep: set<Sock>, deaf: set<Sock>)
    requires b.Shape() && Live(b, base, asleep, deaf) && Watched(b, base, s).w
    ensures Live(Enqueue(b, s, e), base, asleep, deaf)
  {
    var c := Enqueue(b, s, e);
    forall x: Sock
      ensures (x !in asleep ==> Awake(c, base, x)) && (x !in deaf ==> Heard(c, base, x))
    {
      assert x !in asleep ==> Awake(b, base, x);
      assert x !in deaf ==> Heard(b, base, x);
    }
  }

  lemma LiveFrame(b: Broker, c: Broker, base: Base, asleep: set<Sock>, deaf: set<Sock>)
    requires b.Shape() && Live(b, base, asleep, deaf) && c.conns == b.conns && c.out == b.out
    ensures Live(c, base, asleep, deaf)
  {
    forall x: Sock
      ensures (x !in asleep ==> Awake(c, base, x)) && (x !in deaf ==> Heard(c, base, x))
    {
      assert x !in asleep ==> Awake(b, base, x);
      assert x !in deaf ==> Heard(b, base, x);
    }
  }

  /** Rewriting an entry can put only its own socket to sleep, and not if the new entry has nothing to
      send. */
  lemma SetEntryLive(b: Broker, base: Base, s: Sock, i: nat, e: Entry, asleep: set<Sock>, deaf: set<Sock>)
    requires b.Shape() && Live(b, base, asleep, deaf) && i < |b.conns[s].table|
    ensures Live(SetEntry(b, s, i, e), base, if e.Pending() then asleep + {s} else asleep, deaf)
  {
    var c := SetEntry(b, s, i, e);
    forall x: Sock
      ensures (x != s && x !in asleep ==> Awake(c, base, x)) && (x !in deaf ==> Heard(c, base, x))
    {
      assert x !in asleep ==> Awake(b, base, x);
      assert x !in deaf ==> Heard(b, base, x);
    }
    if !e.Pending() && NoPending(b.conns[s].table) {
      assert NoPending(c.conns[s].table);
    }
    assert s !in asleep ==> Awake(b, base, s);
  }

  // ---------- handlers ----------

  lemma DeliverLive(b: Broker, base: Base, s: Sock, id: Id, qos: nat, asleep: set<Sock>, deaf: set<Sock>)
    requires b.Shape() && id in b.store && Live(b, base, asleep, deaf)
    ensures Live(Deliver(b, s, id, qos, {}), base, asleep, deaf)
  {
    var b1 := Send(b, Message(s, DelRead), {});
    var b2 := Send(b1, Message(s, Write), {});
    forall x: Sock
      ensures Watched(b2, base, x) == if x == s then Watch(false, true) else Watched(b, base, x)
    {
      SendWatched(b, base, Message(s, DelRead), x);
      SendWatched(b1, base, Message(s, Write), x);
    }
    assert Live(b2, base, asleep, deaf) by {
      forall x: Sock
        ensures (x !in asleep ==> Awake(b2, base, x)) && (x !in deaf ==> Heard(b2, base, x))
      {
        assert x !in asleep ==> Awake(b, base, x);
        assert x !in deaf ==> Heard(b, base, x);
      }
    }
    var e := Entry(id, SendPublish, qos, true);
    EnqueueLive(b2, base, s, e, asleep, deaf);
    LiveFrame(Enqueue(b2, s, e), Deliver(b, s, id, qos, {}), base, asleep, deaf);
  }

  lemma {:induction false} FanOutLive(b: Broker, base: Base, i: nat, topic: Topic, qos: nat, id: Id, asleep: set<Sock>, deaf: set<Sock>)
    requires b.Shape() && id in b.store && i <= |b.clients| && Live(b, base, asleep, deaf)
    ensures Live(FanOut(b, i, topic, qos, id, {}), base, asleep, deaf)
    decreases |b.clients| - i
  {
    if i < |b.clients| {
      var c := b.clients[i];
      if !Considered(c, topic) {
        FanOutLive(b, base, i + 1, topic, qos, id, asleep, deaf);
      } else if c.sock == -1 {
        LiveFrame(b, b.(fault := true), base, asleep, deaf);
      } else {
        var q := Min(c.subs[topic], qos);
        DeliverLive(b, base, c.sock, id, q, asleep, deaf);
        FanOutLive(Deliver(b, c.sock, id, q, {}), base, i + 1, topic, qos, id, asleep, deaf);
      }
    }
  }

  lemma PublishByTopicLive(b: Broker, base: Base, topic: Topic, qos: nat, id: Id, data: Bytes, asleep: set<Sock>, deaf: set<Sock>)
    requires b.Shape() && Live(b, base, asleep, deaf)
    ensures Live(PublishByTopic(b, topic, qos, id, data, {}), base, asleep, deaf)
  {
    if data != [] {
      var b0 := if id in b.store then b else b.(store := b.store[id := Node(1, qos, data)]);
      LiveFrame(b, b0, base, asleep, deaf);
      FanOutLive(b0, base, 0, topic, qos, id, asleep, deaf);
      LiveFrame(FanOut(b0, 0, topic, qos, id, {}), PublishByTopic(b, topic, qos, id, data, {}), base, asleep, deaf);
    }
  }

  lemma DropLive(b: Broker, base: Base, s: Sock, sendWill: bool, willId: Id, asleep: set<Sock>, deaf: set<Sock>)
    requires b.Shape() && Live(b, base, asleep, deaf)
    ensures Live(Drop(b, s, sendWill, willId, {}), base, asleep - {s}, deaf - {s})
  {
    var b1 := Send(b, Message(s, DelAll), {});
    SendLive(b, base, Message(s, DelAll), asleep, deaf);
    var k := ClientAt(b.clients, b.conns[s].cid);
    if b.conns[s].cid == "" || k == |b.clients| {
      CloseLive(b1, base, s, asleep + {s}, deaf + {s});
    } else {
      var c := b.clients[k];
      var b2 := b1;
      if c.will.Some? && sendWill {
        var w := c.will.value;
        var hidden := b1.(clients := b.clients[k := c.(sock := -1)]);
        LiveFrame(b1, hidden, base, asleep + {s}, deaf + {s});
        PublishByTopicLive(hidden, base, w.topic, w.qos, willId, w.data, asleep + {s}, deaf + {s});
        b2 := PublishByTopic(hidden, w.topic, w.qos, willId, w.data, {});
      }
      var rest := if c.clean then b.clients[..k] + b.clients[k + 1..] else b.clients[k := c.(sock := -1)];
      LiveFrame(b2, b2.(clients := rest), base, asleep + {s}, deaf + {s});
      CloseLive(b2.(clients := rest), base, s, asleep + {s}, deaf + {s});
    }
  }

  lemma AcceptLive(b: Broker, base: Base, s: Sock, cid: string, clean: bool, will: Option<Will>, asleep: set<Sock>, deaf: set<Sock>)
    requires b.Shape() && Live(b, base, asleep, deaf)
    requires forall i :: 0 <= i < |b.clients| && b.clients[i].sock == s ==> b.clients[i].cid != cid
    ensures Live(Accept(b, s, cid, clean, will, {}), base, asleep, deaf - {s})
  {
    var b1 := SetConn(b, s, b.conns[s].phase, cid);
    assert Live(b1, base, asleep, deaf) by {
      forall x: Sock
        ensures (x !in asleep ==> Awake(b1, base, x)) && (x !in deaf ==> Heard(b1, base, x))
      {
        assert x !in asleep ==> Awake(b, base, x);
        assert x !in deaf ==> Heard(b, base, x);
      }
    }
    var k := ClientAt(b.clients, cid);
    var r := Accept(b, s, cid, clean, will, {});
    if k < |b.clients| && b.clients[k].sock != -1 {
      var p: Sock := b.clients[k].sock;
      var b2 := Send(b1, Message(p, DelAll), {});
      forall x: Sock
        ensures x != p ==> Watched(b2, base, x) == Watched(b1, base, x)
      {
        SendWatched(b1, base, Message(p, DelAll), x);
      }
      var b3 := SetConn(b2, p, Uninit, "");
      assert Live(b3, base, asleep, deaf) by {
        forall x: Sock
          ensures (x !in asleep ==> Awake(b3, base, x)) && (x !in deaf ==> Heard(b3, base, x))
        {
          assert x !in asleep ==> Awake(b1, base, x);
          assert x !in deaf ==> Heard(b1, base, x);
        }
      }
      var b4 := b3.(clients := r.clients);
      LiveFrame(b3, b4, base, asleep, deaf);
      if b.clients[k].queued { SendLive(b4, base, Message(s, Write), asleep, deaf); } else { SendLive(b4, base, Message(s, Read), asleep, deaf); }
    } else {
      var b4 := b1.(clients := r.clients);
      LiveFrame(b1, b4, base, asleep, deaf);
      if k < |b.clients| && b.clients[k].queued { SendLive(b4, base, Message(s, Write), asleep, deaf); } else { SendLive(b4, base, Message(s, Read), asleep, deaf); }
    }
  }

  lemma AnswerLive(b: Broker, base: Base, s: Sock, e: Entry, asleep: set<Sock>, deaf: set<Sock>)
    requires b.Shape() && Live(b, base, asleep, deaf)
    ensures Live(Answer(b, s, e, {}), base, asleep, deaf - {s})
  {
    SendLive(b, base, Message(s, Write), asleep, deaf);
    var b1 := Send(b, Message(s, Write), {});
    EnqueueLive(b1, base, s, e, asleep - {s}, deaf - {s});
  }

  lemma OnPublishLive(b: Broker, base: Base, s: Sock, topic: Topic, qos: nat, retain: bool, id: Id, data: Bytes, asleep: set<Sock>, deaf: set<Sock>)
    requires b.Shape() && Live(b, base, asleep, deaf)
    ensures Live(OnPublish(b, s, topic, qos, retain, id, data, {}), base, asleep, deaf - {s})
  {
    var b1 := if retain && data != [] then StoreRetained(b, topic, qos, id, data) else b;
    LiveFrame(b, b1, base, asleep, deaf);
    AnswerLive(b1, base, s, Entry(id, SendPuback, qos, true), asleep, deaf);
    AnswerLive(b1, base, s, Entry(id, SendPubrec, qos, true), asleep, deaf);
    SendLive(b1, base, Message(s, Read), asleep, deaf);
    var b2 := if qos == 1 then Answer(b1, s, Entry(id, SendPuback, qos, true), {})
              else if qos == 2 then Answer(b1, s, Entry(id, SendPubrec, qos, true), {})
              else Send(b1, Message(s, Read), {});
    PublishByTopicLive(b2, base, topic, qos, id, data, asleep, deaf - {s});
  }

  /** Sending a message again asks for nothing, so a socket that was waiting for its turn stays deaf. */
  lemma PublishEntryLive(b: Broker, base: Base, s: Sock, i: nat, data: Bytes, qos: nat, id: Id, deleteRetain: bool, written: bool, asleep: set<Sock>, deaf: set<Sock>)
    requires b.Shape() && Live(b, base, asleep, deaf) && i < |b.conns[s].table|
    ensures Live(PublishEntry(b, s, i, data, qos, id, deleteRetain, written), base, asleep, deaf)
    ensures !PublishEntry(b, s, i, data, qos, id, deleteRetain, written).conns[s].table[i].Pending()
  {
    var e := b.conns[s].table[i];
    var r := PublishEntry(b, s, i, data, qos, id, deleteRetain, written);
    var f := if qos == 0 || !written then Freed(e) else e.(state := if qos == 1 then GetPuback else GetPubrec);
    SetEntryLive(b, base, s, i, f, asleep, deaf);
    LiveFrame(SetEntry(b, s, i, f), r, base, asleep, deaf);
  }

  /** A write event serves an entry for good: what is left of it has nothing to send. Conservation is
      what makes this true of a delivery, whose message must still be stored. */
  lemma ServeLive(b: Broker, base: Base, s: Sock, i: nat, written: bool, asleep: set<Sock>, deaf: set<Sock>)
    requires b.Shape() && Conserved(b, 0) && Live(b, base, asleep, deaf)
    requires i < |b.conns[s].table| && b.conns[s].table[i].Pending()
    ensures Live(Serve(b, s, i, written), base, asleep, deaf)
    ensures Serve(b, s, i, written).conns[s].table == b.conns[s].table[i := Serve(b, s, i, written).conns[s].table[i]]
    ensures !Serve(b, s, i, written).conns[s].table[i].Pending()
  {
    var e := b.conns[s].table[i];
    if e.state.SendPublish? {
      NothingDangles(b, 0, s, i);
      PublishEntryLive(b, base, s, i, b.store[e.id].data, e.qos, e.id, e.deleteRetain, written, asleep, deaf);
    } else {
      var r := Serve(b, s, i, written);
      SetEntryLive(b, base, s, i, r.conns[s].table[i], asleep, deaf);
      LiveFrame(SetEntry(b, s, i, r.conns[s].table[i]), r, base, asleep, deaf);
    }
  }

  /** Nothing is stranded by a write event: the socket that used up its write turn either has nothing
      left to send or has asked for another one. */
  lemma WriteEventLive(b: Broker, base: Base, s: Sock, written: bool, asleep: set<Sock>, deaf: set<Sock>)
    requires b.Shape() && Conserved(b, 0) && Live(b, base, asleep, deaf)
    ensures Live(WriteEvent(b, s, written, {}), base, asleep - {s}, deaf - {s})
  {
    var t := b.conns[s].table;
    var i := First(t, AnyPending);
    var r := WriteEvent(b, s, written, {});
    if i == |t| {
      assert NoPending(t);
      SendLive(b, base, Message(s, Read), asleep, deaf);
      assert Awake(r, base, s);
    } else {
      ServeLive(b, base, s, i, written, asleep, deaf);
      var c := Serve(b, s, i, written);
      if i + 1 < |t| {
        SendLive(c, base, Message(s, Write), asleep, deaf);
      } else {
        SendLive(c, base, Message(s, Read), asleep, deaf);
        assert NoPending(c.conns[s].table);
        assert Awake(r, base, s);
      }
    }
  }

  /** An acknowledgement that moves an entry to a send state asks for the write turn as well. */
  lemma MoveAndAsk(b: Broker, base: Base, s: Sock, i: nat, e: Entry, store: map<Id, Node>, op: Operation, asleep: set<Sock>, deaf: set<Sock>)
    requires b.Shape() && Live(b, base, asleep, deaf) && i < |b.conns[s].table|
    requires op == Write || (op == Read && !e.Pending())
    ensures Live(Send(SetEntry(b, s, i, e).(store := store), Message(s, op), {}), base, asleep, deaf - {s})
  {
    SetEntryLive(b, base, s, i, e, asleep, deaf);
    var now := if e.Pending() then asleep + {s} else asleep;
    var c := SetEntry(b, s, i, e).(store := store);
    LiveFrame(SetEntry(b, s, i, e), c, base, now, deaf);
    SendLive(c, base, Message(s, op), now, deaf);
  }

  lemma {:induction false} SubscribeAllLive(b: Broker, base: Base, s: Sock, k: nat, filters: seq<(Topic, nat)>, asleep: set<Sock>, deaf: set<Sock>)
    requires b.Shape() && Live(b, base, asleep, deaf) && k < |b.clients|
    ensures Live(SubscribeAll(b, s, k, filters, {}), base, asleep, deaf)
    decreases |filters|
  {
    if filters != [] {
      var topic, q := filters[0].0, Min(filters[0].1, 2);
      var c := b.clients[k];
      var b1 := b.(clients := b.clients[k := c.(subs := c.subs[topic := q])]);
      LiveFrame(b, b1, base, asleep, deaf);
      var r := SubscribeOne(b, s, k, topic, filters[0].1, {});
      if topic in b.retained && b.retained[topic] in b.store {
        var id := b.retained[topic];
        var e := Entry(id, SendPublish, Min(q, b.store[id].qos), false);
        AnswerLive(b1, base, s, e, asleep, deaf);
        LiveFrame(Answer(b1, s, e, {}), r, base, asleep, deaf - {s});
      }
      SubscribeAllLive(r, base, s, k, filters[1..], asleep, deaf);
    }
  }

  /** The packets after which the code does not ask for the socket's next turn: an unknown packet, a
      second CONNECT, and an ill-formed PUBACK or PUBREC for a delivery that is waiting for it. */
  ghost predicate Unanswered(b: Broker, s: Sock, packet: Packet)
    requires b.Shape()
  {
    && b.conns[s].cid != ""
    && match packet
       case Connect(_, _, _, _) => true
       case Other => true
       case Puback(id, wellFormed) => !wellFormed && id != 0 && exists e :: e in b.conns[s].table && e.id == id && e.state == GetPuback
       case Pubrec(id, wellFormed) => !wellFormed && id != 0 && exists e :: e in b.conns[s].table && e.id == id && e.state == GetPubrec
       case _ => false
  }

  lemma AckLive(b: Broker, base: Base, s: Sock, id: Id, wellFormed: bool, written: bool, asleep: set<Sock>, deaf: set<Sock>)
    requires b.Shape() && Conserved(b, 0) && Live(b, base, asleep, deaf)
    requires b.conns[s].cid != ""
    ensures var r := OnPuback(b, s, id, wellFormed, written, {});
            r.Some? ==> Live(r.value, base, asleep, if Unanswered(b, s, Puback(id, wellFormed)) then deaf else deaf - {s})
    ensures var r := OnPubrec(b, s, id, wellFormed, written, {});
            r.Some? ==> Live(r.value, base, asleep, if Unanswered(b, s, Pubrec(id, wellFormed)) then deaf else deaf - {s})
  {
    var t := b.conns[s].table;
    var i := First(t, Waiting(id, GetPuback));
    if i < |t| {
      assert t[i] in t;
      if id != 0 {
        NothingDangles(b, 0, s, i);
        PublishEntryLive(b, base, s, i, b.store[id].data, b.store[id].qos, id, true, written, asleep, deaf);
      }
      MoveAndAsk(b, base, s, i, Freed(t[i]), Release(b.store, id), Read, asleep, deaf);
    }
    var j := First(t, Waiting(id, GetPubrec));
    if j < |t| {
      assert t[j] in t;
      if id != 0 {
        NothingDangles(b, 0, s, j);
        PublishEntryLive(b, base, s, j, b.store[id].data, b.store[id].qos, id, true, written, asleep, deaf);
      }
      MoveAndAsk(b, base, s, j, t[j].(state := SendPubrel), Release(b.store, id), Write, asleep, deaf);
    }
  }

  lemma ReactLive(b: Broker, base: Base, s: Sock, k: nat, p: Packet, written: bool, asleep: set<Sock>, deaf: set<Sock>)
    requires b.Shape() && Conserved(b, 0) && Live(b, base, asleep, deaf)
    requires k < |b.clients| && b.conns[s].cid != ""
    ensures var r := React(b, s, k, p, written, {});
            r.Some? ==> Live(r.value, base, asleep, if Unanswered(b, s, p) then deaf else deaf - {s})
  {
    var t := b.conns[s].table;
    match p
    case Publish(topic, qos, retain, id, data) => OnPublishLive(b, base, s, topic, qos, retain, id, data, asleep, deaf);
    case Puback(id, wellFormed) => AckLive(b, base, s, id, wellFormed, written, asleep, deaf);
    case Pubrec(id, wellFormed) => AckLive(b, base, s, id, wellFormed, written, asleep, deaf);
    case Pubrel(id, wellFormed) =>
      var i := First(t, Waiting(id, GetPubrel));
      if i < |t| { MoveAndAsk(b, base, s, i, t[i].(state := SendPubcomp), b.store, Write, asleep, deaf); }
    case Pubcomp(id, wellFormed) =>
      var i := First(t, Waiting(id, GetPubcomp));
      if i < |t| { MoveAndAsk(b, base, s, i, Freed(t[i]), b.store, Read, asleep, deaf); }
    case Subscribe(filters) =>
      SubscribeAllLive(b, base, s, k, filters, asleep, deaf);
      SendLive(SubscribeAll(b, s, k, filters, {}), base, Message(s, Read), asleep, deaf);
    case Unsubscribe(topics) =>
      var c := b.clients[k];
      var b1 := b.(clients := b.clients[k := c.(subs := Unsubscribed(c.subs, topics))]);
      LiveFrame(b, b1, base, asleep, deaf);
      SendLive(b1, base, Message(s, Read), asleep, deaf);
    case Ping => SendLive(b, base, Message(s, Read), asleep, deaf);
    case Disconnect =>
      var b1 := b.(clients := b.clients[k := b.clients[k].(clean := true)]);
      LiveFrame(b, b1, base, asleep, deaf);
      DropLive(b1, base, s, false, 0, asleep, deaf);
    case _ =>
  }

  lemma OnPacketLive(b: Broker, base: Base, s: Sock, inp: Input, asleep: set<Sock>, deaf: set<Sock>)
    requires Linked(b) && Conserved(b, 0) && Live(b, base, asleep, deaf) && inp.lost == {}
    ensures Live(OnPacket(b, s, inp), base, asleep, if Unanswered(b, s, inp.packet) then deaf else deaf - {s})
  {
    var p := inp.packet;
    var k := ClientAt(b.clients, b.conns[s].cid);
    DropLive(b, base, s, true, inp.willId, asleep, deaf);
    if b.conns[s].cid == "" || k == |b.clients| {
      if p.Connect? && p.accepted && p.cid != "" {
        AcceptLive(b, base, s, p.cid, p.clean, p.will, asleep, deaf);
      }
    } else {
      ReactLive(b, base, s, k, p, inp.written, asleep, deaf);
    }
  }

  /** A TLS step. A completed handshake asks for a read turn only, so the socket is awake exactly when
      its table holds nothing to send or a write turn was on its way already. */
  lemma OnTlsLive(b: Broker, base: Base, s: Sock, inp: Input, asleep: set<Sock>, deaf: set<Sock>)
    requires b.Shape() && Live(b, base, asleep, deaf) && inp.lost == {} && b.conns[s].phase != Mqtt
    ensures Live(OnTls(b, s, inp), base,
                 if inp.tls != Done || NoPending(b.conns[s].table) || s in base.soonWrite || Watched(b, base, s).w
                 then asleep - {s} else asleep + {s},
                 if inp.tls == NoMemory && b.conns[s].phase != Uninit then deaf else deaf - {s})
  {
    if inp.tls == Failed {
      DropLive(b, base, s, true, inp.willId, asleep, deaf);
    } else if inp.tls != NoMemory {
      var phase := if inp.tls == Done then Mqtt else Handshake;
      var op := if inp.tls == WantWrite then Write else Read;
      var c := SetConn(b, s, phase, b.conns[s].cid);
      var now := if inp.tls != Done || NoPending(b.conns[s].table) || s in base.soonWrite || Watched(b, base, s).w
                 then asleep - {s} else asleep + {s};
      assert Live(c, base, now, deaf + {s}) by {
        forall x: Sock
          ensures (x !in now ==> Awake(c, base, x)) && (x !in deaf + {s} ==> Heard(c, base, x))
        {
          assert x !in asleep ==> Awake(b, base, x);
          assert x !in deaf ==> Heard(b, base, x);
        }
      }
      SendLive(c, base, Message(s, op), now, deaf + {s});
    }
  }

  /** One turn of the worker with all its queue sends accepted: no socket is put to sleep, and the
      socket whose message was taken has its next turn coming if the code asks for one. */
  lemma HandleLive(b: Broker, base: Base, m: Message, inp: Input, asleep: set<Sock>, deaf: set<Sock>)
    requires Linked(b) && Conserved(b, 0) && Live(b, base, asleep, deaf) && inp.lost == {}
    requires m.op in {Read, Write}
    ensures var s := m.sock;
            Live(Handle(b, m, inp), base,
                 if b.conns[s].phase == Mqtt then if m.op == Write then asleep - {s} else asleep
                 else if inp.tls != Done || NoPending(b.conns[s].table) || s in base.soonWrite || Watched(b, base, s).w
                 then asleep - {s} else asleep + {s},
                 if b.conns[s].phase != Mqtt then
                   if inp.tls == NoMemory && b.conns[s].phase != Uninit then deaf else deaf - {s}
                 else if m.op == Read && Unanswered(b, s, inp.packet) then deaf else deaf - {s})
  {
    var s := m.sock;
    if b.conns[s].phase != Mqtt {
      OnTlsLive(b, base, s, inp, asleep, deaf);
    } else if m.op == Read {
      OnPacketLive(b, base, s, inp, asleep, deaf);
    } else {
      WriteEventLive(b, base, s, inp.written, asleep, deaf);
    }
  }
}
