/** What a turn of the worker must do, kind by kind, from the message that is taken to the state afterwards.
    Other modules bound what a turn may do; the theorems here are about Handle and speak of clients,
    tables, frames and requests alone. */
module TurnEffects {
  import opened Protocol
  import opened Delivery
  import opened Conservation
  import opened Births
  import opened FanOuts
  import opened Faults
  import opened Sessions

  /** The turn's first attempt to send is this message, and it makes no other. */
  ghost predicate Asks(b: Broker, r: Broker, lost: set<nat>, m: Message) {
    r.out == if b.tries in lost then b.out else b.out + [m]
  }

  /** Only the table of `s` may differ, and it is `t`. */
  ghost predicate TableIs(b: Broker, r: Broker, s: Sock, t: seq<Entry>)
    requires b.Shape()
  {
    r.conns == b.conns[s := b.conns[s].(table := t)]
  }

  // ---------- write turns ----------

  predicate ToSend(e: Entry) { e.id != 0 && e.state in {SendPublish, SendPuback, SendPubrec, SendPubrel, SendPubcomp} }

  ghost predicate FirstToSend(t: seq<Entry>, i: nat) {
    i < |t| && ToSend(t[i]) && forall j :: 0 <= j < i ==> !ToSend(t[j])
  }

  /** The frame by which an entry is sent. */
  ghost predicate FrameOf(b: Broker, s: Sock, e: Entry, f: Frame) {
    match e.state
    case SendPublish => e.id in b.store && f == PublishFrame(s, WireImage(b.store[e.id].data, e.qos, e.deleteRetain))
    case SendPuback => f == ControlFrame(s, PubackC, e.id)
    case SendPubrec => f == ControlFrame(s, PubrecC, e.id)
    case SendPubrel => f == ControlFrame(s, PubrelC, e.id)
    case SendPubcomp => f == ControlFrame(s, PubcompC, e.id)
    case _ => false
  }

  /** The entry once its PUBLISH is written at this QoS. */
  function Published(e: Entry, qos: nat, written: bool): Entry {
    if qos == 0 || !written then e.(id := 0) else e.(state := if qos == 1 then GetPuback else GetPubrec)
  }

  /** The entry once its frame is sent; an exchange that ends there leaves a free slot. */
  function Sent(e: Entry, written: bool): Entry {
    match e.state
    case SendPublish => Published(e, e.qos, written)
    case SendPubrec => e.(state := GetPubrel)
    case SendPubrel => e.(state := GetPubcomp)
    case _ => e.(id := 0)
  }

  /** A write turn sends the first entry that waits, to its socket and under its identifier, and asks for
      another write turn exactly when the table goes on after it. */
  lemma WriteTurnSends(b: Broker, m: Message, inp: Input, i: nat)
    requires b.Shape() && Conserved(b, 0) && b.conns[m.sock].phase == Mqtt && m.op == Write
    requires FirstToSend(b.conns[m.sock].table, i)
    ensures var s, t, r := m.sock, b.conns[m.sock].table, Handle(b, m, inp);
            && TableIs(b, r, s, t[i := Sent(t[i], inp.written)]) && r.clients == b.clients && r.retained == b.retained
            && |r.wire| == |b.wire| + 1 && r.wire[..|b.wire|] == b.wire && FrameOf(b, s, t[i], r.wire[|b.wire|])
            && Asks(b, r, inp.lost, Message(s, if i + 1 < |t| then Write else Read))
  {
    var s, t := m.sock, b.conns[m.sock].table;
    assert forall e: Entry :: ToSend(e) <==> e.Pending();
    assert First(t, AnyPending) == i;
    if t[i].state.SendPublish? {
      NothingDangles(b, 0, s, i);
    }
    assert Handle(b, m, inp) == WriteEvent(b, s, inp.written, inp.lost);
    ServeIs(b, s, i, inp.written);
  }

  lemma ServeIs(b: Broker, s: Sock, i: nat, written: bool)
    requires b.Shape() && i < |b.conns[s].table| && ToSend(b.conns[s].table[i])
    requires b.conns[s].table[i].state.SendPublish? ==> b.conns[s].table[i].id in b.store
    ensures var e, r := b.conns[s].table[i], Serve(b, s, i, written);
            && TableIs(b, r, s, b.conns[s].table[i := Sent(e, written)]) && r.clients == b.clients && r.retained == b.retained
            && r.out == b.out && r.tries == b.tries
            && |r.wire| == |b.wire| + 1 && r.wire[..|b.wire|] == b.wire && FrameOf(b, s, e, r.wire[|b.wire|])
  {
  }

  /** With nothing to send it writes nothing and goes back to reading. */
  lemma WriteTurnRests(b: Broker, m: Message, inp: Input)
    requires b.Shape() && b.conns[m.sock].phase == Mqtt && m.op == Write
    requires forall e :: e in b.conns[m.sock].table ==> !ToSend(e)
    ensures var r := Handle(b, m, inp);
            r == b.(out := r.out, tries := r.tries) && Asks(b, r, inp.lost, Message(m.sock, Read))
  {
    var t := b.conns[m.sock].table;
    forall j | 0 <= j < |t| ensures !t[j].Pending() { assert t[j] in t; }
  }

  // ---------- PUBLISH ----------

  /** A table that gains an entry gains it in a free slot or at its end, and nothing else happens to it. */
  lemma AddEntryExactly(t: seq<Entry>, e: Entry) returns (k: nat)
    ensures k <= |t| && (k < |t| ==> t[k].id == 0) && (k == |t| ==> forall x :: x in t ==> x.id != 0)
    ensures AddEntry(t, e) == if k < |t| then t[k := e] else t + [e]
  {
    k := First(t, Free);
    assert k == |t| ==> forall j :: 0 <= j < |t| ==> !Free.Matches(t[j]);
  }

  /** The table of `x` with the answer that a PUBLISH from `s` is owed: PUBACK at QoS 1, PUBREC at QoS 2. */
  function Owed(b: Broker, s: Sock, x: Sock, qos: nat, id: Id): seq<Entry>
    requires b.Shape()
  {
    var t := b.conns[x].table;
    if x != s || qos == 0 then t
    else AddEntry(t, Entry(id, if qos == 1 then SendPuback else SendPubrec, qos, true))
  }

  /** A PUBLISH whose requests the queue takes: the sender is owed exactly the answer that the QoS demands,
      every connected subscriber of the topic gains one delivery at the lower of the two QoS - the sender
      too, if it is one - and nobody else gains anything (sections 3.3.4 and 4.3 of MQTT 3.1.1). */
  lemma PublishTurn(b: Broker, m: Message, inp: Input)
    requires Linked(b) && OnSession(b, m) && inp.packet.Publish? && inp.packet.qos <= 2 && inp.lost == {}
    requires inp.packet.data != [] ==> forall c :: c in b.clients && c.sock == -1 && !c.clean ==> inp.packet.topic !in c.subs
    ensures var s, p, r := m.sock, inp.packet, Handle(b, m, inp);
            && r.clients == b.clients && r.wire == b.wire
            && (forall x: Sock :: r.conns[x].phase == b.conns[x].phase && r.conns[x].cid == b.conns[x].cid)
            && (forall x: Sock :: p.data == [] || Uninterested(b.clients, x, p.topic) ==> r.conns[x].table == Owed(b, s, x, p.qos, p.id))
            && (forall c :: c in b.clients && c.sock != -1 && p.topic in c.subs && p.data != [] ==>
                  r.conns[c.sock].table
                  == AddEntry(Owed(b, s, c.sock, p.qos, p.id), Entry(p.id, SendPublish, Min(c.subs[p.topic], p.qos), true)))
    ensures var r := Handle(b, m, inp);
            |r.out| > |b.out| && r.out[..|b.out|] == b.out && r.out[|b.out|] == Message(m.sock, if inp.packet.qos == 0 then Read else Write)
  {
    var s, p := m.sock, inp.packet;
    var b2 := PublishAnswers(b, m, inp);
    LinkedDistinct(b);
    PublicationReaches(b2, p.topic, p.qos, p.id, p.data);
  }

  /** The answer comes first, if its request is accepted, and then the publication. */
  lemma PublishAnswers(b: Broker, m: Message, inp: Input) returns (b2: Broker)
    requires b.Shape() && OnSession(b, m) && inp.packet.Publish? && inp.packet.qos <= 2
    ensures var s, p := m.sock, inp.packet;
            && b2.Shape() && Handle(b, m, inp) == PublishByTopic(b2, p.topic, p.qos, p.id, p.data, inp.lost)
            && b2.clients == b.clients && b2.wire == b.wire && Asks(b, b2, inp.lost, Message(s, if p.qos == 0 then Read else Write))
            && forall x: Sock :: b2.conns[x] == if b.tries in inp.lost then b.conns[x] else b.conns[x].(table := Owed(b, s, x, p.qos, p.id))
  {
    var s, p := m.sock, inp.packet;
    OnSessionIs(b, m, inp);
    b2 := AnswersOnly(b, s, p, inp.lost);
  }

  lemma AnswersOnly(b: Broker, s: Sock, p: Packet, lost: set<nat>) returns (b2: Broker)
    requires b.Shape() && p.Publish? && p.qos <= 2
    ensures b2.Shape() && OnPublish(b, s, p.topic, p.qos, p.retain, p.id, p.data, lost) == PublishByTopic(b2, p.topic, p.qos, p.id, p.data, lost)
    ensures b2.clients == b.clients && b2.wire == b.wire && Asks(b, b2, lost, Message(s, if p.qos == 0 then Read else Write))
    ensures forall x: Sock :: b2.conns[x] == if b.tries in lost then b.conns[x] else b.conns[x].(table := Owed(b, s, x, p.qos, p.id))
  {
    var b1 := if p.retain && p.data != [] then StoreRetained(b, p.topic, p.qos, p.id, p.data) else b;
    b2 := if p.qos == 0 then Send(b1, Message(s, Read), lost)
          else Answer(b1, s, Entry(p.id, if p.qos == 1 then SendPuback else SendPubrec, p.qos, true), lost);
  }

  /** Whichever requests the queue refuses: the answer is owed exactly when its request was accepted, and after
      that each connected subscriber gains its delivery exactly when its own was. */
  lemma PublishTurnIfAsked(b: Broker, m: Message, inp: Input) returns (b2: Broker)
    requires Linked(b) && OnSession(b, m) && inp.packet.Publish? && inp.packet.qos <= 2 && inp.packet.data != []
    requires forall c :: c in b.clients && c.sock == -1 && !c.clean ==> inp.packet.topic !in c.subs
    ensures var s, p := m.sock, inp.packet;
            && b2.Shape() && b2.clients == b.clients && Asks(b, b2, inp.lost, Message(s, if p.qos == 0 then Read else Write))
            && (forall x: Sock :: b2.conns[x] == if b.tries in inp.lost then b.conns[x] else b.conns[x].(table := Owed(b, s, x, p.qos, p.id)))
            && DeliveredIfAsked(b2, Handle(b, m, inp), 0, p.topic, p.qos, p.id)
  {
    var p := inp.packet;
    b2 := PublishAnswers(b, m, inp);
    LinkedDistinct(b);
    PublishDeliversIfAsked(b2, p.topic, p.qos, p.id, p.data, inp.lost);
  }

  ghost predicate Uninterested(clients: seq<Client>, x: Sock, topic: Topic) {
    forall c :: c in clients && c.sock == x ==> topic !in c.subs
  }

  /** A publication, in terms of sockets and subscriptions. */
  lemma PublicationReaches(b: Broker, topic: Topic, qos: nat, id: Id, data: Bytes)
    requires b.Shape() && DistinctSocks(b.clients)
    requires data != [] ==> forall c :: c in b.clients && c.sock == -1 && !c.clean ==> topic !in c.subs
    ensures var r := PublishByTopic(b, topic, qos, id, data, {});
            && r.wire == b.wire && |r.out| >= |b.out| && r.out[..|b.out|] == b.out
            && (forall x: Sock :: r.conns[x] == b.conns[x].(table := r.conns[x].table))
            && (forall x: Sock :: data == [] || Uninterested(b.clients, x, topic) ==> r.conns[x] == b.conns[x])
            && (forall c :: c in b.clients && c.sock != -1 && topic in c.subs && data != [] ==>
                  r.conns[c.sock].table == AddEntry(b.conns[c.sock].table, Entry(id, SendPublish, Min(c.subs[topic], qos), true)))
  {
    if data != [] {
      var b0, r := Stored(b, id, qos, data), PublishByTopic(b, topic, qos, id, data, {});
      PublishDelivers(b, topic, qos, id, data);
      FanOutFrame(b0, 0, topic, qos, id);
      TargetsDistinct(b.clients, 0, topic);
      forall x: Sock | Uninterested(b.clients, x, topic) ensures x !in Targets(b.clients, 0, topic) {}
      forall c | c in b.clients && c.sock != -1 && topic in c.subs ensures Gains(b, r, c, topic, qos, id) {
        var j :| 0 <= j < |b.clients| && b.clients[j] == c;
        assert Considered(b.clients[j], topic);
      }
    }
  }

  lemma {:induction false} FanOutFrame(b: Broker, i: nat, topic: Topic, qos: nat, id: Id)
    requires b.Shape() && id in b.store && i <= |b.clients|
    ensures var r := FanOut(b, i, topic, qos, id, {});
            && r.wire == b.wire && |r.out| >= |b.out| && r.out[..|b.out|] == b.out
            && forall x: Sock :: r.conns[x] == b.conns[x].(table := r.conns[x].table)
    decreases |b.clients| - i
  {
    if i < |b.clients| {
      var c := b.clients[i];
      if !Considered(c, topic) {
        FanOutFrame(b, i + 1, topic, qos, id);
      } else if c.sock != -1 {
        var d := Deliver(b, c.sock, id, Min(c.subs[topic], qos), {});
        FanOutFrame(d, i + 1, topic, qos, id);
        assert d.out[..|b.out|] == b.out;
        assert FanOut(d, i + 1, topic, qos, id, {}).out[..|b.out|] == d.out[..|b.out|];
      }
    }
  }

  // ---------- acknowledgements ----------

  /** The state of the entry that the acknowledgement is for. */
  function Awaited(p: Packet): PacketState
    requires IsAck(p)
  {
    match p
    case Puback(_, _) => GetPuback
    case Pubrec(_, _) => GetPubrec
    case Pubrel(_, _) => GetPubrel
    case Pubcomp(_, _) => GetPubcomp
  }

  ghost predicate Awaits(e: Entry, p: Packet)
    requires IsAck(p)
  {
    e.id == p.id && e.state == Awaited(p)
  }

  ghost predicate FirstAwaiting(t: seq<Entry>, p: Packet, i: nat)
    requires IsAck(p)
  {
    i < |t| && Awaits(t[i], p) && forall j :: 0 <= j < i ==> !Awaits(t[j], p)
  }

  /** What the acknowledgement makes of its entry: PUBACK and PUBCOMP end the exchange. */
  function Acked(e: Entry, p: Packet): Entry {
    match p
    case Pubrec(_, _) => e.(state := SendPubrel)
    case Pubrel(_, _) => e.(state := SendPubcomp)
    case _ => e.(id := 0)
  }

  lemma WaitingIs(t: seq<Entry>, p: Packet)
    requires IsAck(p)
    ensures var i := First(t, Waiting(p.id, Awaited(p)));
            (i < |t| ==> FirstAwaiting(t, p, i)) && (i == |t| <==> forall e :: e in t ==> !Awaits(e, p))
    ensures forall i :: FirstAwaiting(t, p, i) ==> i == First(t, Waiting(p.id, Awaited(p)))
  {
    var q := Waiting(p.id, Awaited(p));
    assert forall e: Entry :: q.Matches(e) <==> Awaits(e, p);
    if First(t, q) == |t| {
      forall e | e in t ensures !Awaits(e, p) {
        var j :| 0 <= j < |t| && t[j] == e;
        assert !q.Matches(t[j]);
      }
    }
  }

  /** A well-formed acknowledgement for an entry that waits is accepted: the first such entry moves on or
      is freed, a PUBACK or PUBREC gives the message's reference back, nothing else changes, and the socket
      is read again or, when the broker has to answer, written to. */
  lemma AckTurn(b: Broker, m: Message, inp: Input, i: nat)
    requires b.Shape() && OnSession(b, m) && IsAck(inp.packet) && inp.packet.wellFormed
    requires FirstAwaiting(b.conns[m.sock].table, inp.packet, i)
    ensures var s, p, t, r := m.sock, inp.packet, b.conns[m.sock].table, Handle(b, m, inp);
            && TableIs(b, r, s, t[i := Acked(t[i], p)])
            && r.store == (if p.Puback? || p.Pubrec? then Release(b.store, p.id) else b.store)
            && r.clients == b.clients && r.retained == b.retained && r.wire == b.wire && r.fault == b.fault
            && Asks(b, r, inp.lost, Message(s, if p.Puback? || p.Pubcomp? then Read else Write))
  {
    OnSessionIs(b, m, inp);
    WaitingIs(b.conns[m.sock].table, inp.packet);
  }

  ghost predicate Acceptable(t: seq<Entry>, p: Packet)
    requires IsAck(p)
  {
    (exists e :: e in t && Awaits(e, p)) && (p.wellFormed || ((p.Puback? || p.Pubrec?) && p.id != 0))
  }

  /** The connection stays exactly when some entry waits for the acknowledgement and it is well formed - or
      is a PUBACK or PUBREC of a message, which is then written again. */
  lemma AckTurnStays(b: Broker, m: Message, inp: Input)
    requires b.Shape() && Conserved(b, 0) && OnSession(b, m) && IsAck(inp.packet)
    ensures Handle(b, m, inp).conns[m.sock].phase == Mqtt <==> Acceptable(b.conns[m.sock].table, inp.packet)
    ensures Handle(b, m, inp).conns[m.sock].phase == Mqtt <==> !Drops(b, m, inp)
  {
    OnSessionIs(b, m, inp);
    AckIsAccepted(b, m.sock, ClientAt(b.clients, b.conns[m.sock].cid), inp.packet, inp.written, inp.lost);
  }

  lemma AckIsAccepted(b: Broker, s: Sock, k: nat, p: Packet, written: bool, lost: set<nat>)
    requires b.Shape() && Conserved(b, 0) && k < |b.clients| && IsAck(p) && b.conns[s].phase == Mqtt
    ensures var r := React(b, s, k, p, written, lost);
            (r.Some? <==> Acceptable(b.conns[s].table, p)) && (r.Some? ==> r.value.conns[s].phase == Mqtt)
  {
    var t := b.conns[s].table;
    WaitingIs(t, p);
    var i := First(t, Waiting(p.id, Awaited(p)));
    if i < |t| {
      assert t[i] in t && Awaits(t[i], p);
      if !p.wellFormed && (p.Puback? || p.Pubrec?) && p.id != 0 {
        NothingDangles(b, 0, s, i);
      }
    }
  }

  /** An ill-formed PUBACK or PUBREC has the first message that waits for it written again at once, as it was
      published, and asks for nothing. */
  lemma RepeatTurn(b: Broker, m: Message, inp: Input, i: nat)
    requires b.Shape() && Conserved(b, 0) && OnSession(b, m) && (inp.packet.Puback? || inp.packet.Pubrec?)
    requires !inp.packet.wellFormed && inp.packet.id != 0 && FirstAwaiting(b.conns[m.sock].table, inp.packet, i)
    ensures inp.packet.id in b.store
    ensures var s, p, t, r := m.sock, inp.packet, b.conns[m.sock].table, Handle(b, m, inp);
            var n := b.store[p.id];
            && TableIs(b, r, s, t[i := Published(t[i], n.qos, inp.written)])
            && r.wire == b.wire + [PublishFrame(s, WireImage(n.data, n.qos, true))] && r.out == b.out && r.clients == b.clients
  {
    OnSessionIs(b, m, inp);
    WaitingIs(b.conns[m.sock].table, inp.packet);
    NothingDangles(b, 0, m.sock, i);
  }

  // ---------- SUBSCRIBE and UNSUBSCRIBE ----------

  /** Every session but this client's is as before, and this one differs in its subscriptions alone. */
  ghost predicate OnlySubs(b: Broker, r: Broker, cid: string) {
    && Session(b.clients, cid).Some? && Session(r.clients, cid).Some?
    && Session(r.clients, cid).value == Session(b.clients, cid).value.(subs := Session(r.clients, cid).value.subs)
    && forall other :: other != cid ==> Session(r.clients, other) == Session(b.clients, other)
  }

  lemma SubsReplaced(b: Broker, r: Broker, cid: string, subs: map<Topic, nat>)
    requires Linked(b) && ClientAt(b.clients, cid) < |b.clients|
    requires r.clients == b.clients[ClientAt(b.clients, cid) := b.clients[ClientAt(b.clients, cid)].(subs := subs)]
    ensures OnlySubs(b, r, cid) && Session(r.clients, cid).value.subs == subs
  {
    var k := ClientAt(b.clients, cid);
    forall other ensures Session(r.clients, other) == if other == cid then Some(b.clients[k].(subs := subs)) else Session(b.clients, other) {
      Replaced(b.clients, k, b.clients[k].(subs := subs), other);
    }
  }

  /** An UNSUBSCRIBE takes exactly its topics away from its own client, but never the empty one. */
  lemma UnsubscribeTurn(b: Broker, m: Message, inp: Input)
    requires Linked(b) && OnSession(b, m) && inp.packet.Unsubscribe?
    ensures var cid, r := b.conns[m.sock].cid, Handle(b, m, inp);
            && OnlySubs(b, r, cid)
            && var was, now := Session(b.clients, cid).value.subs, Session(r.clients, cid).value.subs;
               forall topic :: && (topic in now <==> topic in was && (topic == "" || topic !in inp.packet.topics))
                               && (topic in now ==> now[topic] == was[topic])
    ensures var r := Handle(b, m, inp);
            && r.conns == b.conns && r.store == b.store && r.retained == b.retained && r.wire == b.wire
            && Asks(b, r, inp.lost, Message(m.sock, Read))
  {
    var cid := b.conns[m.sock].cid;
    var k := ClientAt(b.clients, cid);
    var was := b.clients[k].subs;
    OnSessionIs(b, m, inp);
    var r := Handle(b, m, inp);
    SubsReplaced(b, r, cid, Unsubscribed(was, inp.packet.topics));
    forall topic
      ensures var now := Unsubscribed(was, inp.packet.topics);
              (topic in now <==> topic in was && (topic == "" || topic !in inp.packet.topics)) && (topic in now ==> now[topic] == was[topic])
    {
      UnsubscribedExactly(was, inp.packet.topics, topic);
    }
  }

  /** A SUBSCRIBE gives its own client each topic at the QoS of the last filter for it, at most 2, and leaves
      the client's other subscriptions as they were; the socket is read again. */
  lemma SubscribeTurn(b: Broker, m: Message, inp: Input)
    requires Linked(b) && OnSession(b, m) && inp.packet.Subscribe?
    ensures var cid, fs, r := b.conns[m.sock].cid, inp.packet.filters, Handle(b, m, inp);
            && OnlySubs(b, r, cid)
            && var was, now := Session(b.clients, cid).value.subs, Session(r.clients, cid).value.subs;
               && (forall i :: 0 <= i < |fs| && LastFor(fs, i) ==> fs[i].0 in now && now[fs[i].0] == if fs[i].1 < 2 then fs[i].1 else 2)
               && (forall topic :: NotAmong(fs, topic) ==> (topic in now <==> topic in was) && (topic in now ==> now[topic] == was[topic]))
    ensures inp.lost == {} ==> var r := Handle(b, m, inp); |r.out| > 0 && r.out[|r.out| - 1] == Message(m.sock, Read)
  {
    var cid, fs := b.conns[m.sock].cid, inp.packet.filters;
    var k := ClientAt(b.clients, cid);
    var was := b.clients[k].subs;
    OnSessionIs(b, m, inp);
    var r := Handle(b, m, inp);
    assert r == Send(SubscribeAll(b, m.sock, k, fs, inp.lost), Message(m.sock, Read), inp.lost);
    SubscribeSession(b, m.sock, k, fs, inp.lost);
    SubsReplaced(b, r, cid, Subscribed(was, fs));
    forall i | 0 <= i < |fs| && LastFor(fs, i)
      ensures var now := Subscribed(was, fs); fs[i].0 in now && now[fs[i].0] == if fs[i].1 < 2 then fs[i].1 else 2
    {
      LastFilterCounts(was, fs, fs[i].0, i);
    }
    forall topic | NotAmong(fs, topic)
      ensures var now := Subscribed(was, fs); (topic in now <==> topic in was) && (topic in now ==> now[topic] == was[topic])
    {
      LastFilterCounts(was, fs, topic, |fs|);
    }
  }

  ghost predicate LastFor(filters: seq<(Topic, nat)>, i: nat)
    requires i < |filters|
  {
    forall j :: i < j < |filters| ==> filters[j].0 != filters[i].0
  }

  ghost predicate NotAmong(filters: seq<(Topic, nat)>, topic: Topic) {
    forall j :: 0 <= j < |filters| ==> filters[j].0 != topic
  }

  // ---------- the end of a connection ----------

  /** The socket is free for the next connection, and no other connection's phase or name changes. */
  ghost predicate Closes(b: Broker, r: Broker, s: Sock)
    requires b.Shape() && r.Shape()
  {
    && r.conns[s].phase == Uninit && r.conns[s].cid == ""
    && forall x: Sock :: x != s ==> r.conns[x].phase == b.conns[x].phase && r.conns[x].cid == b.conns[x].cid
  }

  ghost predicate SameTables(b: Broker, r: Broker)
    requires b.Shape() && r.Shape()
  {
    forall x: Sock :: r.conns[x].table == b.conns[x].table
  }

  /** Exactly which turns drop the connection: a TLS step that fails, anything but an accepted CONNECT before
      there is a session, a closed transport, a PUBLISH at QoS 3, and an acknowledgement nobody waits for. */
  lemma DropsExactly(b: Broker, m: Message, inp: Input)
    requires b.Shape() && Conserved(b, 0) && m.op in {Read, Write}
    ensures Drops(b, m, inp)
       <==> if b.conns[m.sock].phase != Mqtt then inp.tls.Failed?
            else if m.op == Write then false
            else if !OnSession(b, m) then !(inp.packet.Connect? && inp.packet.accepted && inp.packet.cid != "")
            else || inp.packet.Closed? || (inp.packet.Publish? && inp.packet.qos > 2)
                 || (IsAck(inp.packet) && !Acceptable(b.conns[m.sock].table, inp.packet))
  {
    if OnSession(b, m) && IsAck(inp.packet) { AckTurnStays(b, m, inp); }
  }

  /** A connection that is dropped: a clean session ends, another is kept off line, no other changes. */
  lemma DropTurn(b: Broker, m: Message, inp: Input)
    requires Linked(b) && Drops(b, m, inp) && m.op in {Read, Write}
    ensures var cid, r := b.conns[m.sock].cid, Handle(b, m, inp);
            && Closes(b, r, m.sock) && r.retained == b.retained && r.wire == b.wire
            && (forall other :: other != cid ==> Session(r.clients, other) == Session(b.clients, other))
            && (cid != "" && Session(b.clients, cid).Some? ==>
                  var was := Session(b.clients, cid).value;
                  Session(r.clients, cid) == if was.clean then None else Some(was.(sock := -1)))
  {
    var r := Handle(b, m, inp);
    DropIs(b, m, inp);
    DropFrame(b, m.sock, true, inp.willId, inp.lost);
    forall other ensures other != b.conns[m.sock].cid ==> Session(r.clients, other) == Session(b.clients, other) {
      DropSession(b, m.sock, true, inp.willId, inp.lost, other);
    }
    DropSession(b, m.sock, true, inp.willId, inp.lost, b.conns[m.sock].cid);
  }

  lemma {:induction false} FanOutLeaves(b: Broker, i: nat, topic: Topic, qos: nat, id: Id, lost: set<nat>)
    requires b.Shape() && id in b.store && i <= |b.clients|
    ensures var r := FanOut(b, i, topic, qos, id, lost);
            && r.wire == b.wire && r.retained == b.retained
            && forall x: Sock :: r.conns[x].phase == b.conns[x].phase && r.conns[x].cid == b.conns[x].cid
    decreases |b.clients| - i
  {
    if i < |b.clients| {
      var c := b.clients[i];
      if !Considered(c, topic) {
        FanOutLeaves(b, i + 1, topic, qos, id, lost);
      } else if c.sock != -1 {
        FanOutLeaves(Deliver(b, c.sock, id, Min(c.subs[topic], qos), lost), i + 1, topic, qos, id, lost);
      }
    }
  }

  lemma DropFrame(b: Broker, s: Sock, sendWill: bool, willId: Id, lost: set<nat>)
    requires b.Shape()
    ensures var r := Drop(b, s, sendWill, willId, lost); Closes(b, r, s) && r.retained == b.retained && r.wire == b.wire
  {
    if WillOf(b, s).Some? && sendWill {
      var w := WillOf(b, s).value;
      PublicationLeaves(Send(b, Message(s, DelAll), lost).(clients := WithoutOwner(b, s)), w.topic, w.qos, willId, w.data, lost);
    }
  }

  lemma PublicationLeaves(b: Broker, topic: Topic, qos: nat, id: Id, data: Bytes, lost: set<nat>)
    requires b.Shape()
    ensures var r := PublishByTopic(b, topic, qos, id, data, lost);
            && r.wire == b.wire && r.retained == b.retained
            && forall x: Sock :: r.conns[x].phase == b.conns[x].phase && r.conns[x].cid == b.conns[x].cid
  {
    if data != [] { FanOutLeaves(Stored(b, id, qos, data), 0, topic, qos, id, lost); }
  }

  /** Its will reaches every other connected subscriber of the topic, one delivery each at the lower of the
      two QoS, and nobody else; without a will, or with an empty one, no table changes. */
  lemma WillTurn(b: Broker, m: Message, inp: Input)
    requires Linked(b) && Drops(b, m, inp) && m.op in {Read, Write} && inp.lost == {}
    requires WillOf(b, m.sock).Some? && WillOf(b, m.sock).value.data != [] ==>
               forall c :: c in WithoutOwner(b, m.sock) && c.sock == -1 && !c.clean ==> WillOf(b, m.sock).value.topic !in c.subs
    ensures var s, r := m.sock, Handle(b, m, inp);
            if WillOf(b, s) == None || WillOf(b, s).value.data == [] then SameTables(b, r)
            else
              var w := WillOf(b, s).value;
              && (forall x: Sock :: x == s || Uninterested(b.clients, x, w.topic) ==> r.conns[x].table == b.conns[x].table)
              && (forall c :: c in b.clients && c.sock != -1 && c.sock != s && w.topic in c.subs ==>
                    r.conns[c.sock].table
                    == AddEntry(b.conns[c.sock].table, Entry(inp.willId, SendPublish, Min(c.subs[w.topic], w.qos), true)))
  {
    var s := m.sock;
    DropIs(b, m, inp);
    if WillOf(b, s).Some? && WillOf(b, s).value.data != [] {
      OthersAreWithoutOwner(b, s);
      var w := WillOf(b, s).value;
      var hidden := Send(b, Message(s, DelAll), {}).(clients := WithoutOwner(b, s));
      LinkedDistinct(b);
      PublicationReaches(hidden, w.topic, w.qos, inp.willId, w.data);
      var r, d := Handle(b, m, inp), PublishByTopic(hidden, w.topic, w.qos, inp.willId, w.data, {});
      assert forall x: Sock :: r.conns[x].table == d.conns[x].table;
      forall x: Sock | x == s || Uninterested(b.clients, x, w.topic) ensures Uninterested(hidden.clients, x, w.topic) {}
    }
  }

  /** While its will goes out the owner counts as offline, and all others are as they were. */
  lemma OthersAreWithoutOwner(b: Broker, s: Sock)
    requires Linked(b) && WillOf(b, s).Some?
    ensures DistinctSocks(WithoutOwner(b, s))
    ensures forall c :: c in WithoutOwner(b, s) && c.sock != -1 ==> c in b.clients && c.sock != s
    ensures forall c :: c in b.clients && c.sock != -1 && c.sock != s ==> c in WithoutOwner(b, s)
  {
    var k, others := ClientAt(b.clients, b.conns[s].cid), WithoutOwner(b, s);
    LinkedDistinct(b);
    assert HasOwner(b.clients, b.conns[s].cid, s);
    forall c | c in b.clients && c.sock != -1 && c.sock != s ensures c in others {
      var j :| 0 <= j < |b.clients| && b.clients[j] == c;
      assert others[j] == c;
    }
  }

  /** A DISCONNECT ends the session, whatever kind it was, and its will is sent to nobody. */
  lemma DisconnectTurn(b: Broker, m: Message, inp: Input)
    requires Linked(b) && OnSession(b, m) && inp.packet.Disconnect?
    ensures var cid, r := b.conns[m.sock].cid, Handle(b, m, inp);
            && Closes(b, r, m.sock) && SameTables(b, r) && r.store == b.store && r.retained == b.retained && r.wire == b.wire
            && Session(r.clients, cid) == None
            && forall other :: other != cid ==> Session(r.clients, other) == Session(b.clients, other)
  {
    DisconnectDrops(b, m, inp);
    var k := ClientAt(b.clients, b.conns[m.sock].cid);
    forall cid { MadeCleanAndRemoved(b.clients, k, cid); }
  }

  lemma DisconnectDrops(b: Broker, m: Message, inp: Input)
    requires Linked(b) && OnSession(b, m) && inp.packet.Disconnect?
    ensures var k, r := ClientAt(b.clients, b.conns[m.sock].cid), Handle(b, m, inp);
            var made := b.clients[k := b.clients[k].(clean := true)];
            && Closes(b, r, m.sock) && SameTables(b, r) && r.store == b.store && r.retained == b.retained && r.wire == b.wire
            && r.clients == made[..k] + made[k + 1..] && Asks(b, r, inp.lost, Message(m.sock, DelAll))
  {
    var k := ClientAt(b.clients, b.conns[m.sock].cid);
    var b1 := b.(clients := b.clients[k := b.clients[k].(clean := true)]);
    OnSessionIs(b, m, inp);
    PlaceIs(b1.clients, k);
    DropsCleanly(b1, m.sock, k, inp.lost);
  }

  lemma DropsCleanly(b: Broker, s: Sock, k: nat, lost: set<nat>)
    requires b.Shape() && b.conns[s].cid != "" && k == ClientAt(b.clients, b.conns[s].cid) < |b.clients| && b.clients[k].clean
    ensures var r := Drop(b, s, false, 0, lost);
            && Closes(b, r, s) && SameTables(b, r) && r.store == b.store && r.retained == b.retained && r.wire == b.wire
            && r.clients == b.clients[..k] + b.clients[k + 1..] && Asks(b, r, lost, Message(s, DelAll))
  {
  }

  lemma MadeCleanAndRemoved(clients: seq<Client>, k: nat, cid: string)
    requires k < |clients| && Unique(clients)
    ensures var made := clients[k := clients[k].(clean := true)];
            Session(made[..k] + made[k + 1..], cid) == if cid == clients[k].cid then None else Session(clients, cid)
  {
    var c := clients[k].(clean := true);
    Replaced(clients, k, c, cid);
    Removed(clients[k := c], k, cid);
  }

  // ---------- the beginning of one ----------

  /** An accepted CONNECT: the client is on this socket and nowhere else, with the session flag and the will
      that it asks for; the socket that it had before is closed, and its own has its next turn. */
  lemma ConnectTurn(b: Broker, m: Message, inp: Input)
    requires Linked(b) && b.conns[m.sock].phase == Mqtt && m.op == Read && !OnSession(b, m)
    requires inp.packet.Connect? && inp.packet.accepted && inp.packet.cid != ""
    ensures var s, p, r := m.sock, inp.packet, Handle(b, m, inp);
            var was := Session(b.clients, p.cid);
            && (forall other :: other != p.cid ==> Session(r.clients, other) == Session(b.clients, other))
            && Session(r.clients, p.cid)
               == Some(Client(p.cid, s, p.clean, false,
                              if was == None || (was.value.clean && was.value.sock != -1) then map[] else was.value.subs, p.will))
            && (forall x: Sock ::
                  r.conns[x] == if x == s then b.conns[s].(cid := p.cid)
                                else if was.Some? && was.value.sock == x then Conn(Uninit, "", b.conns[x].table)
                                else b.conns[x])
            && r.store == b.store && r.retained == b.retained && r.wire == b.wire
            && (inp.lost == {} ==> r.out != [] && r.out[|r.out| - 1] == Message(s, if was.Some? && was.value.queued then Write else Read))
  {
    var s, p, r := m.sock, inp.packet, Handle(b, m, inp);
    assert b.conns[s].cid == "" || HasOwner(b.clients, b.conns[s].cid, s);
    assert r == Accept(b, s, p.cid, p.clean, p.will, inp.lost);
    forall other ensures other != p.cid ==> Session(r.clients, other) == Session(b.clients, other) {
      AcceptSession(b, s, p.cid, p.clean, p.will, inp.lost, other);
    }
    AcceptSession(b, s, p.cid, p.clean, p.will, inp.lost, p.cid);
  }

  /** Anything else that comes before an accepted CONNECT closes the connection. */
  lemma RefusedTurn(b: Broker, m: Message, inp: Input)
    requires Linked(b) && b.conns[m.sock].phase == Mqtt && m.op == Read && !OnSession(b, m)
    requires !(inp.packet.Connect? && inp.packet.accepted && inp.packet.cid != "")
    ensures var r := Handle(b, m, inp);
            && Closes(b, r, m.sock) && SameTables(b, r) && r.clients == b.clients && r.store == b.store && r.wire == b.wire
            && Asks(b, r, inp.lost, Message(m.sock, DelAll))
  {
    assert b.conns[m.sock].cid == "" || HasOwner(b.clients, b.conns[m.sock].cid, m.sock);
  }

  /** A TLS step that does not fail sets the phase and asks for the turn that the transport needs. */
  lemma TlsTurn(b: Broker, m: Message, inp: Input)
    requires b.Shape() && b.conns[m.sock].phase != Mqtt && !inp.tls.Failed?
    ensures var s, r := m.sock, Handle(b, m, inp);
            && r == b.(conns := r.conns, out := r.out, tries := r.tries)
            && r.conns == b.conns[s := b.conns[s].(phase := if inp.tls.NoMemory? then b.conns[s].phase else if inp.tls.Done? then Mqtt else Handshake)]
            && if inp.tls.NoMemory? then r.out == b.out
               else Asks(b, r, inp.lost, Message(s, if inp.tls.WantWrite? then Write else Read))
  {
  }

  /** A PINGREQ is answered by a read turn; what the code does not know, and a second CONNECT, by nothing. */
  lemma IdleTurn(b: Broker, m: Message, inp: Input)
    requires b.Shape() && OnSession(b, m) && (inp.packet.Ping? || inp.packet.Connect? || inp.packet.Other?)
    ensures var r := Handle(b, m, inp);
            && r == b.(out := r.out, tries := r.tries)
            && if inp.packet.Ping? then Asks(b, r, inp.lost, Message(m.sock, Read)) else r == b
  {
  }
}
