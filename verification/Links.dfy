/** Every turn of the worker keeps clients and connections linked, and sends messages only for sockets
    that the select task has accepted. */
module Links {
  import opened Protocol
  import opened Delivery
  import opened Conservation

  /** Nothing above `max` is in use. */
  ghost predicate Within(b: Broker, max: nat) {
    && b.Shape()
    && (forall m :: m in b.out ==> m.sock <= max)
    && (forall s: Sock :: b.conns[s].phase != Uninit ==> s <= max)
    && (forall i :: 0 <= i < |b.clients| ==> b.clients[i].sock <= max)
  }

  /** Same phases, names and sockets; only tables, subscriptions and sent messages may differ. */
  ghost predicate SameLinks(b: Broker, c: Broker) {
    && b.Shape() && c.Shape()
    && |b.clients| == |c.clients|
    && (forall i :: 0 <= i < |b.clients| ==> b.clients[i].cid == c.clients[i].cid && b.clients[i].sock == c.clients[i].sock)
    && (forall s: Sock :: b.conns[s].phase == c.conns[s].phase && b.conns[s].cid == c.conns[s].cid)
  }

  ghost predicate Tidy(b: Broker, max: nat) { Linked(b) && Within(b, max) }

  lemma SameLinksTidy(b: Broker, c: Broker, max: nat)
    requires Tidy(b, max) && SameLinks(b, c) && forall m :: m in c.out ==> m.sock <= max
    ensures Tidy(c, max)
  {
    forall s: Sock | c.conns[s].cid != ""
      ensures HasOwner(c.clients, c.conns[s].cid, s)
    {
      assert HasOwner(b.clients, b.conns[s].cid, s);
      var i :| 0 <= i < |b.clients| && b.clients[i].cid == b.conns[s].cid && b.clients[i].sock == s;
      assert c.clients[i].cid == c.conns[s].cid && c.clients[i].sock == s;
    }
  }

  /** A fan-out changes nothing but tables and messages, and speaks only to connected clients. */
  lemma {:induction false} FanOutKeeps(b: Broker, i: nat, topic: Topic, qos: nat, id: Id, lost: set<nat>, max: nat)
    requires b.Shape() && id in b.store && i <= |b.clients| && Within(b, max)
    ensures SameLinks(b, FanOut(b, i, topic, qos, id, lost))
    ensures Within(FanOut(b, i, topic, qos, id, lost), max)
    decreases |b.clients| - i
  {
    if i < |b.clients| {
      var c := b.clients[i];
      if !Considered(c, topic) {
        FanOutKeeps(b, i + 1, topic, qos, id, lost, max);
      } else if c.sock != -1 {
        var d := Deliver(b, c.sock, id, Min(c.subs[topic], qos), lost);
        DeliverKeeps(b, c.sock, id, Min(c.subs[topic], qos), lost, max);
        FanOutKeeps(d, i + 1, topic, qos, id, lost, max);
        SameLinksTrans(b, d, FanOut(d, i + 1, topic, qos, id, lost));
      }
    }
  }

  lemma DeliverKeeps(b: Broker, s: Sock, id: Id, qos: nat, lost: set<nat>, max: nat)
    requires b.Shape() && id in b.store && Within(b, max) && s <= max
    ensures var d := Deliver(b, s, id, qos, lost); SameLinks(b, d) && Within(d, max)
  {
  }

  lemma SameLinksTrans(a: Broker, b: Broker, c: Broker)
    requires SameLinks(a, b) && SameLinks(b, c)
    ensures SameLinks(a, c)
  {
  }

  lemma PublishByTopicKeeps(b: Broker, topic: Topic, qos: nat, id: Id, data: Bytes, lost: set<nat>, max: nat)
    requires b.Shape() && Within(b, max)
    ensures SameLinks(b, PublishByTopic(b, topic, qos, id, data, lost))
    ensures Within(PublishByTopic(b, topic, qos, id, data, lost), max)
  {
    if data != [] {
      var b0 := if id in b.store then b else b.(store := b.store[id := Node(1, qos, data)]);
      FanOutKeeps(b0, 0, topic, qos, id, lost, max);
    }
  }

  lemma {:induction false} SubscribeAllKeeps(b: Broker, s: Sock, k: nat, filters: seq<(Topic, nat)>, lost: set<nat>, max: nat)
    requires b.Shape() && k < |b.clients| && Within(b, max) && s <= max
    ensures SameLinks(b, SubscribeAll(b, s, k, filters, lost))
    ensures Within(SubscribeAll(b, s, k, filters, lost), max)
    decreases |filters|
  {
    if filters != [] {
      var r := SubscribeOne(b, s, k, filters[0].0, filters[0].1, lost);
      assert SameLinks(b, r) && Within(r, max);
      SubscribeAllKeeps(r, s, k, filters[1..], lost, max);
    }
  }

  /** The links after a connection is closed: client `k` goes, or stays without a socket. */
  lemma CloseLinked(b: Broker, r: Broker, s: Sock, k: nat, gone: bool)
    requires Linked(b) && r.Shape() && k < |b.clients| && b.clients[k].cid == b.conns[s].cid
    requires r.conns[s].phase == Uninit && r.conns[s].cid == ""
    requires forall x: Sock :: x != s ==> r.conns[x].phase == b.conns[x].phase && r.conns[x].cid == b.conns[x].cid
    requires gone ==> r.clients == b.clients[..k] + b.clients[k + 1..]
    requires !gone ==> r.clients == b.clients[k := b.clients[k].(sock := -1)]
    requires b.conns[s].cid != ""
    ensures Linked(r)
  {
    assert HasOwner(b.clients, b.conns[s].cid, s);
    assert b.clients[k].sock == s;
    forall i | 0 <= i < |r.clients|
      ensures r.clients[i].cid != ""
      ensures r.clients[i].sock != -1 ==>
                r.conns[r.clients[i].sock].phase == Mqtt && r.conns[r.clients[i].sock].cid == r.clients[i].cid
    {
      var i' := if gone && i >= k then i + 1 else i;
      assert i' != k ==> r.clients[i] == b.clients[i'] && b.clients[i'].cid != b.clients[k].cid;
    }
    forall x: Sock | r.conns[x].cid != ""
      ensures r.conns[x].phase == Mqtt && HasOwner(r.clients, r.conns[x].cid, x)
    {
      assert x != s && HasOwner(b.clients, b.conns[x].cid, x);
      var i :| 0 <= i < |b.clients| && b.clients[i].cid == b.conns[x].cid && b.clients[i].sock == x;
      assert r.clients[if gone && i > k then i - 1 else i] == b.clients[i];
    }
    forall i, j | 0 <= i < j < |r.clients|
      ensures r.clients[i].cid != r.clients[j].cid
    {
      var i', j' := if gone && i >= k then i + 1 else i, if gone && j >= k then j + 1 else j;
      assert r.clients[i].cid == b.clients[i'].cid && r.clients[j].cid == b.clients[j'].cid;
    }
  }

  /** A connection without a client may change phase. */
  lemma SetPhaseTidy(b: Broker, s: Sock, phase: Phase, max: nat)
    requires Tidy(b, max) && s <= max && b.conns[s].cid == ""
    ensures Tidy(SetConn(b, s, phase, ""), max)
  {
    var r := SetConn(b, s, phase, "");
    forall x: Sock | r.conns[x].cid != ""
      ensures r.conns[x].phase == Mqtt && HasOwner(r.clients, r.conns[x].cid, x)
    {
      assert HasOwner(b.clients, b.conns[x].cid, x);
    }
  }

  /** Closing a connection takes its client off line, or away, and leaves all other links alone. */
  lemma DropTidy(b: Broker, s: Sock, sendWill: bool, willId: Id, lost: set<nat>, max: nat)
    requires Tidy(b, max) && s <= max
    ensures Tidy(Drop(b, s, sendWill, willId, lost), max)
  {
    var b1 := Send(b, Message(s, DelAll), lost);
    var k := ClientAt(b.clients, b.conns[s].cid);
    var r := Drop(b, s, sendWill, willId, lost);
    if b.conns[s].cid == "" {
      SameLinksTidy(b, b1, max);
      SetPhaseTidy(b1, s, Uninit, max);
    } else {
      assert HasOwner(b.clients, b.conns[s].cid, s);
      var c := b.clients[k];
      var hidden := b1.(clients := b.clients[k := c.(sock := -1)]);
      var b2 := b1;
      if c.will.Some? && sendWill {
        var w := c.will.value;
        PublishByTopicKeeps(hidden, w.topic, w.qos, willId, w.data, lost, max);
        b2 := PublishByTopic(hidden, w.topic, w.qos, willId, w.data, lost);
      }
      CloseLinked(b, r, s, k, c.clean);
      assert Within(b2, max);
    }
  }

  /** The links after client `k` (new or known) moves to connection `s`; its old connection closes. */
  lemma OpenLinked(b: Broker, r: Broker, s: Sock, k: nat, cid: string)
    requires Linked(b) && r.Shape() && k <= |b.clients| && k == ClientAt(b.clients, cid)
    requires cid != "" && b.conns[s].cid == "" && b.conns[s].phase == Mqtt
    requires r.conns[s].phase == Mqtt && r.conns[s].cid == cid
    requires forall x: Sock :: x != s ==>
               if k < |b.clients| && b.clients[k].sock == x then r.conns[x].phase == Uninit && r.conns[x].cid == ""
               else r.conns[x].phase == b.conns[x].phase && r.conns[x].cid == b.conns[x].cid
    requires |r.clients| == if k < |b.clients| then |b.clients| else k + 1
    requires r.clients[k].cid == cid && r.clients[k].sock == s
    requires forall i :: 0 <= i < |b.clients| && i != k ==> r.clients[i] == b.clients[i]
    ensures Linked(r)
  {
    forall x: Sock | r.conns[x].cid != ""
      ensures r.conns[x].phase == Mqtt && HasOwner(r.clients, r.conns[x].cid, x)
    {
      if x != s {
        assert HasOwner(b.clients, b.conns[x].cid, x);
        var i :| 0 <= i < |b.clients| && b.clients[i].cid == b.conns[x].cid && b.clients[i].sock == x;
        assert r.clients[i] == b.clients[i];
      }
    }
    forall i | 0 <= i < |r.clients| && i != k
      ensures r.clients[i].cid != cid
    {}
  }

  lemma AcceptTidy(b: Broker, s: Sock, cid: string, clean: bool, will: Option<Will>, lost: set<nat>, max: nat)
    requires Tidy(b, max) && s <= max && b.conns[s].phase == Mqtt && cid != "" && b.conns[s].cid == ""
    ensures Tidy(Accept(b, s, cid, clean, will, lost), max)
  {
    var k := ClientAt(b.clients, cid);
    assert k < |b.clients| ==> b.clients[k].sock != s;
    OpenLinked(b, Accept(b, s, cid, clean, will, lost), s, k, cid);
  }

  lemma OnPublishTidy(b: Broker, s: Sock, topic: Topic, qos: nat, retain: bool, id: Id, data: Bytes, lost: set<nat>, max: nat)
    requires Tidy(b, max) && s <= max
    ensures Tidy(OnPublish(b, s, topic, qos, retain, id, data, lost), max)
  {
    var b1 := if retain && data != [] then StoreRetained(b, topic, qos, id, data) else b;
    var b2 := if qos == 1 then Answer(b1, s, Entry(id, SendPuback, qos, true), lost)
              else if qos == 2 then Answer(b1, s, Entry(id, SendPubrec, qos, true), lost)
              else Send(b1, Message(s, Read), lost);
    SameLinksTidy(b, b2, max);
    PublishByTopicKeeps(b2, topic, qos, id, data, lost, max);
    SameLinksTidy(b2, PublishByTopic(b2, topic, qos, id, data, lost), max);
  }

  /** An acknowledgement that does not close the connection touches only its table. */
  ghost predicate OnlyTable(b: Broker, s: Sock, r: Option<Broker>) {
    r.Some? ==> SameLinks(b, r.value) && forall m :: m in r.value.out ==> m in b.out || m.sock == s
  }

  lemma SetEntryLinks(b: Broker, s: Sock, i: nat, e: Entry)
    requires b.Shape() && i < |b.conns[s].table|
    ensures SameLinks(b, SetEntry(b, s, i, e))
  {
  }

  lemma PublishEntryLinks(b: Broker, s: Sock, i: nat, data: Bytes, qos: nat, id: Id, deleteRetain: bool, written: bool)
    requires b.Shape() && i < |b.conns[s].table|
    ensures OnlyTable(b, s, Some(PublishEntry(b, s, i, data, qos, id, deleteRetain, written)))
  {
    var e := b.conns[s].table[i];
    SetEntryLinks(b, s, i, Freed(e));
    SetEntryLinks(b, s, i, e.(state := if qos == 1 then GetPuback else GetPubrec));
  }

  lemma PubackKeeps(b: Broker, s: Sock, id: Id, wellFormed: bool, written: bool, lost: set<nat>)
    requires b.Shape()
    ensures OnlyTable(b, s, OnPuback(b, s, id, wellFormed, written, lost))
  {
    var t := b.conns[s].table;
    var i := First(t, Waiting(id, GetPuback));
    if i < |t| {
      if wellFormed {
        SetEntryLinks(b, s, i, Freed(t[i]));
      } else if id in b.store {
        PublishEntryLinks(b, s, i, b.store[id].data, b.store[id].qos, id, true, written);
      }
    }
  }

  lemma PubrecKeeps(b: Broker, s: Sock, id: Id, wellFormed: bool, written: bool, lost: set<nat>)
    requires b.Shape()
    ensures OnlyTable(b, s, OnPubrec(b, s, id, wellFormed, written, lost))
  {
    var t := b.conns[s].table;
    var i := First(t, Waiting(id, GetPubrec));
    if i < |t| {
      if wellFormed {
        SetEntryLinks(b, s, i, t[i].(state := SendPubrel));
      } else if id in b.store {
        PublishEntryLinks(b, s, i, b.store[id].data, b.store[id].qos, id, true, written);
      }
    }
  }

  lemma ReleaseAckKeeps(b: Broker, s: Sock, id: Id, wellFormed: bool, lost: set<nat>)
    requires b.Shape()
    ensures OnlyTable(b, s, OnPubrel(b, s, id, wellFormed, lost))
    ensures OnlyTable(b, s, OnPubcomp(b, s, id, wellFormed, lost))
  {
    var t := b.conns[s].table;
    var i := First(t, Waiting(id, GetPubrel));
    if i < |t| { SetEntryLinks(b, s, i, t[i].(state := SendPubcomp)); }
    var j := First(t, Waiting(id, GetPubcomp));
    if j < |t| { SetEntryLinks(b, s, j, Freed(t[j])); }
  }

  lemma ReactTidy(b: Broker, s: Sock, k: nat, p: Packet, written: bool, lost: set<nat>, max: nat)
    requires Tidy(b, max) && s <= max && k < |b.clients|
    ensures var r := React(b, s, k, p, written, lost); r.Some? ==> Tidy(r.value, max)
  {
    var o := React(b, s, k, p, written, lost);
    if o.Some? {
      match p
      case Publish(topic, qos, retain, id, data) => OnPublishTidy(b, s, topic, qos, retain, id, data, lost, max);
      case Subscribe(filters) =>
        SubscribeAllKeeps(b, s, k, filters, lost, max);
        SameLinksTidy(b, o.value, max);
      case Disconnect =>
        var b1 := b.(clients := b.clients[k := b.clients[k].(clean := true)]);
        SameLinksTidy(b, b1, max);
        DropTidy(b1, s, false, 0, lost, max);
      case Puback(id, wellFormed) =>
        PubackKeeps(b, s, id, wellFormed, written, lost);
        SameLinksTidy(b, o.value, max);
      case Pubrec(id, wellFormed) =>
        PubrecKeeps(b, s, id, wellFormed, written, lost);
        SameLinksTidy(b, o.value, max);
      case Pubrel(id, wellFormed) =>
        ReleaseAckKeeps(b, s, id, wellFormed, lost);
        SameLinksTidy(b, o.value, max);
      case Pubcomp(id, wellFormed) =>
        ReleaseAckKeeps(b, s, id, wellFormed, lost);
        SameLinksTidy(b, o.value, max);
      case Closed =>
      case _ => SameLinksTidy(b, o.value, max);
    }
  }

  lemma OnPacketTidy(b: Broker, s: Sock, inp: Input, max: nat)
    requires Tidy(b, max) && s <= max && b.conns[s].phase == Mqtt
    ensures Tidy(OnPacket(b, s, inp), max)
  {
    var p := inp.packet;
    var k := ClientAt(b.clients, b.conns[s].cid);
    DropTidy(b, s, true, inp.willId, inp.lost, max);
    if b.conns[s].cid == "" {
      if p.Connect? && p.accepted && p.cid != "" {
        AcceptTidy(b, s, p.cid, p.clean, p.will, inp.lost, max);
      }
    } else {
      assert HasOwner(b.clients, b.conns[s].cid, s);
      ReactTidy(b, s, k, p, inp.written, inp.lost, max);
    }
  }

  lemma OnTlsTidy(b: Broker, s: Sock, inp: Input, max: nat)
    requires Tidy(b, max) && s <= max && b.conns[s].phase != Mqtt
    ensures Tidy(OnTls(b, s, inp), max)
  {
    var owned := HasOwner(b.clients, b.conns[s].cid, s);
    if inp.tls == Failed {
      DropTidy(b, s, true, inp.willId, inp.lost, max);
    } else if inp.tls != NoMemory {
      var phase := if inp.tls == Done then Mqtt else Handshake;
      SetPhaseTidy(b, s, phase, max);
      SameLinksTidy(SetConn(b, s, phase, ""), OnTls(b, s, inp), max);
    }
  }

  lemma WriteEventTidy(b: Broker, s: Sock, written: bool, lost: set<nat>, max: nat)
    requires Tidy(b, max) && s <= max
    ensures Tidy(WriteEvent(b, s, written, lost), max)
  {
    var t := b.conns[s].table;
    var i := First(t, AnyPending);
    var r := WriteEvent(b, s, written, lost);
    if i < |t| {
      ServeLinks(b, s, i, written);
    }
    SameLinksTidy(b, r, max);
  }

  lemma ServeLinks(b: Broker, s: Sock, i: nat, written: bool)
    requires b.Shape() && i < |b.conns[s].table| && b.conns[s].table[i].state.IsSend()
    ensures var r := Serve(b, s, i, written); SameLinks(b, r) && r.clients == b.clients && r.out == b.out && r.tries == b.tries
  {
    SetEntryLinks(b, s, i, Serve(b, s, i, written).conns[s].table[i]);
  }

  lemma HandleTidy(b: Broker, m: Message, inp: Input, max: nat)
    requires Tidy(b, max) && m.sock <= max
    ensures Tidy(Handle(b, m, inp), max)
  {
    var s := m.sock;
    if b.conns[s].phase != Mqtt {
      OnTlsTidy(b, s, inp, max);
    } else if m.op == Read {
      OnPacketTidy(b, s, inp, max);
    } else if m.op == Write {
      WriteEventTidy(b, s, inp.written, inp.lost, max);
    }
  }
}
