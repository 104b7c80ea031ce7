/** What the requests of a turn come to at the select task: a live socket is read again, and a socket that is
    closed is not watched any more. */
module Reading {
  import opened Protocol
  import opened Delivery
  import opened Conservation
  import opened ConservationSteps
  import opened Links
  import opened Births
  import opened Faults
  import opened Wakeup
  import opened EventLoop
  import opened Runs
  import opened TurnEffects
  import opened Sessions
  import opened RetainedDeliveries

  // ---------- what a turn asks for the sockets of others ----------

  /** The same is asked for the socket. */
  ghost predicate SameRequests(p: seq<Message>, q: seq<Message>, s: Sock) {
    forall x: Watch :: After(q, s, x) == After(p, s, x)
  }

  /** The socket's table gains work, or nothing changes for it and nothing is asked for it. */
  ghost predicate Spares(b: Broker, r: Broker, s: Sock) {
    && b.Shape() && r.Shape() && r.conns[s].phase == b.conns[s].phase
    && (|| Sum(r.conns[s].table, Work) > Sum(b.conns[s].table, Work)
        || (r.conns[s].table == b.conns[s].table && SameRequests(b.out, r.out, s)))
  }

  lemma SparesTrans(a: Broker, b: Broker, c: Broker, s: Sock)
    requires Spares(a, b, s) && Spares(b, c, s)
    ensures Spares(a, c, s)
  {
  }

  lemma SendSame(b: Broker, m: Message, s: Sock, lost: set<nat>)
    requires m.sock != s
    ensures SameRequests(b.out, Send(b, m, lost).out, s)
  {
    forall x: Watch ensures After(Send(b, m, lost).out, s, x) == After(b.out, s, x) { AfterSnoc(b.out, m, s, x); }
  }

  lemma DeliverSpares(b: Broker, t: Sock, id: Id, qos: nat, lost: set<nat>, s: Sock)
    requires b.Shape() && id in b.store && id != 0 && (t == s ==> lost == {})
    ensures Spares(b, Deliver(b, t, id, qos, lost), s)
  {
    if t == s {
      SumAddEntry(b.conns[s].table, Entry(id, SendPublish, qos, true), Work);
    } else {
      var b1 := Send(b, Message(t, DelRead), lost);
      var b2 := Send(b1, Message(t, Write), lost);
      SendSame(b, Message(t, DelRead), s, lost);
      SendSame(b1, Message(t, Write), s, lost);
      SendSame(b2, Message(t, Read), s, lost);
    }
  }

  lemma {:induction false} FanOutSpares(b: Broker, i: nat, topic: Topic, qos: nat, id: Id, s: Sock)
    requires b.Shape() && id in b.store && id != 0 && i <= |b.clients|
    ensures Spares(b, FanOut(b, i, topic, qos, id, {}), s)
    decreases |b.clients| - i
  {
    if i < |b.clients| {
      var c := b.clients[i];
      if !Considered(c, topic) {
        FanOutSpares(b, i + 1, topic, qos, id, s);
      } else if c.sock != -1 {
        var d := Deliver(b, c.sock, id, Min(c.subs[topic], qos), {});
        DeliverSpares(b, c.sock, id, Min(c.subs[topic], qos), {}, s);
        FanOutSpares(d, i + 1, topic, qos, id, s);
        SparesTrans(b, d, FanOut(d, i + 1, topic, qos, id, {}), s);
      }
    }
  }

  lemma PublishByTopicSpares(b: Broker, topic: Topic, qos: nat, id: Id, data: Bytes, s: Sock)
    requires b.Shape() && id != 0
    ensures Spares(b, PublishByTopic(b, topic, qos, id, data, {}), s)
  {
    if data != [] {
      var b0 := if id in b.store then b else b.(store := b.store[id := Node(1, qos, data)]);
      FanOutSpares(b0, 0, topic, qos, id, s);
    }
  }

  lemma DropSpares(b: Broker, t: Sock, sendWill: bool, willId: Id, s: Sock)
    requires b.Shape() && t != s && (sendWill ==> willId != 0)
    ensures Spares(b, Drop(b, t, sendWill, willId, {}), s)
  {
    var b1 := Send(b, Message(t, DelAll), {});
    SendSame(b, Message(t, DelAll), s, {});
    if WillOf(b, t).Some? && sendWill {
      var w := WillOf(b, t).value;
      PublishByTopicSpares(b1.(clients := WithoutOwner(b, t)), w.topic, w.qos, willId, w.data, s);
    }
  }

  lemma OnPublishSpares(b: Broker, t: Sock, topic: Topic, qos: nat, retain: bool, id: Id, data: Bytes, s: Sock)
    requires b.Shape() && t != s && id != 0
    ensures Spares(b, OnPublish(b, t, topic, qos, retain, id, data, {}), s)
  {
    var b1 := if retain && data != [] then StoreRetained(b, topic, qos, id, data) else b;
    var b2 := if qos == 1 then Answer(b1, t, Entry(id, SendPuback, qos, true), {})
              else if qos == 2 then Answer(b1, t, Entry(id, SendPubrec, qos, true), {})
              else Send(b1, Message(t, Read), {});
    SendSame(b1, Message(t, Read), s, {});
    SendSame(b1, Message(t, Write), s, {});
    PublishByTopicSpares(b2, topic, qos, id, data, s);
  }

  lemma {:induction false} SubscribeAllSpares(b: Broker, t: Sock, k: nat, filters: seq<(Topic, nat)>, s: Sock)
    requires b.Shape() && k < |b.clients| && t != s
    ensures Spares(b, SubscribeAll(b, t, k, filters, {}), s)
    decreases |filters|
  {
    if filters != [] {
      var r := SubscribeOne(b, t, k, filters[0].0, filters[0].1, {});
      SendSame(b, Message(t, Write), s, {});
      assert Spares(b, r, s);
      SubscribeAllSpares(r, t, k, filters[1..], s);
    }
  }

  lemma ReactSpares(b: Broker, t: Sock, k: nat, p: Packet, written: bool, s: Sock)
    requires b.Shape() && k < |b.clients| && t != s && (p.Publish? ==> p.id != 0)
    ensures var r := React(b, t, k, p, written, {}); r.Some? ==> Spares(b, r.value, s)
  {
    SendSame(b, Message(t, Read), s, {});
    SendSame(b, Message(t, Write), s, {});
    match p
    case Publish(topic, qos, retain, id, data) => OnPublishSpares(b, t, topic, qos, retain, id, data, s);
    case Subscribe(filters) =>
      var r := SubscribeAll(b, t, k, filters, {});
      SubscribeAllSpares(b, t, k, filters, s);
      SendSame(r, Message(t, Read), s, {});
    case Disconnect => DropSpares(b.(clients := b.clients[k := b.clients[k].(clean := true)]), t, false, 0, s);
    case _ =>
  }

  /** The socket that the client of a CONNECT had before. */
  ghost predicate TakenOver(b: Broker, m: Message, inp: Input, s: Sock)
    requires b.Shape()
  {
    && b.conns[m.sock].phase == Mqtt && m.op == Read && !OnSession(b, m)
    && inp.packet.Connect? && inp.packet.accepted && inp.packet.cid != ""
    && exists c :: c in b.clients && c.cid == inp.packet.cid && c.sock == s
  }

  /** A turn for one socket spares every other, but for the one that a CONNECT takes its client from. */
  lemma OtherTurnSpares(b: Broker, m: Message, inp: Input, s: Sock)
    requires Linked(b) && inp.lost == {} && Admissible(b, m, inp) && m.op in {Read, Write} && m.sock != s
    requires !TakenOver(b, m, inp, s)
    ensures Spares(b, Handle(b, m, inp), s)
  {
    if Drops(b, m, inp) {
      DropIs(b, m, inp);
      DropSpares(b, m.sock, true, inp.willId, s);
    } else if b.conns[m.sock].phase != Mqtt {
      TlsSpares(b, m, inp, s);
    } else if m.op == Write {
      WriteEventSpares(b, m.sock, inp.written, s);
    } else if OnSession(b, m) {
      OnSessionIs(b, m, inp);
      ReactSpares(b, m.sock, ClientAt(b.clients, b.conns[m.sock].cid), inp.packet, inp.written, s);
    } else {
      AcceptSpares(b, m, inp, s);
    }
  }

  lemma TlsSpares(b: Broker, m: Message, inp: Input, s: Sock)
    requires b.Shape() && b.conns[m.sock].phase != Mqtt && !inp.tls.Failed? && m.sock != s
    ensures Spares(b, Handle(b, m, inp), s)
  {
    TlsTurn(b, m, inp);
    SendSame(b, Message(m.sock, Read), s, inp.lost);
    SendSame(b, Message(m.sock, Write), s, inp.lost);
  }

  lemma AcceptSpares(b: Broker, m: Message, inp: Input, s: Sock)
    requires b.Shape() && b.conns[m.sock].phase == Mqtt && m.op == Read && !OnSession(b, m) && m.sock != s && inp.lost == {}
    requires inp.packet.Connect? && inp.packet.accepted && inp.packet.cid != "" && !TakenOver(b, m, inp, s)
    ensures Spares(b, Handle(b, m, inp), s)
  {
    var t, p, k := m.sock, inp.packet, ClientAt(b.clients, inp.packet.cid);
    var b1 := SetConn(b, t, b.conns[t].phase, p.cid);
    if k < |b.clients| && b.clients[k].sock != -1 {
      assert b.clients[k] in b.clients;
      var o: Sock := b.clients[k].sock;
      assert o != s;
      SendSame(b1, Message(o, DelAll), s, {});
      b1 := Send(b1, Message(o, DelAll), {});
    }
    SendSame(b1, Message(t, Read), s, {});
    SendSame(b1, Message(t, Write), s, {});
  }

  lemma WriteEventSpares(b: Broker, t: Sock, written: bool, s: Sock)
    requires b.Shape() && t != s
    ensures Spares(b, WriteEvent(b, t, written, {}), s)
  {
    var i := First(b.conns[t].table, AnyPending);
    SendSame(b, Message(t, Read), s, {});
    if i < |b.conns[t].table| {
      ServeLinks(b, t, i, written);
      SendSame(Serve(b, t, i, written), Message(t, Read), s, {});
      SendSame(Serve(b, t, i, written), Message(t, Write), s, {});
    }
  }

  // ---------- reading again ----------

  /** The socket is in the read set, or will be, or a read message for it waits. */
  ghost predicate ReadComing(sys: System, s: Sock) {
    Message(s, Read) in sys.pending || Coming(sys, s).r
  }

  /** How many entries wait to be sent. */
  function ToSendCount(t: seq<Entry>): nat {
    if t == [] then 0 else (if ToSend(t[0]) then 1 else 0) + ToSendCount(t[1..])
  }

  lemma {:induction false} CountUpdate(t: seq<Entry>, i: nat, e: Entry)
    requires i < |t|
    ensures ToSendCount(t[i := e]) + (if ToSend(t[i]) then 1 else 0) == ToSendCount(t) + (if ToSend(e) then 1 else 0)
  {
    if i == 0 {
      assert t[0 := e][1..] == t[1..];
    } else {
      assert t[i := e][1..] == t[1..][i - 1 := e];
      CountUpdate(t[1..], i - 1, e);
    }
  }

  /** The last entry is the only one that may wait, so nothing is left after a write turn. */
  ghost predicate LastTurn(t: seq<Entry>) { forall i :: 0 <= i < |t| - 1 ==> !ToSend(t[i]) }

  ghost predicate Rests(t: seq<Entry>) { forall e :: e in t ==> !ToSend(e) }

  lemma WriteTurnCounts(b: Broker, m: Message, inp: Input)
    requires b.Shape() && Conserved(b, 0) && m.op == Write && b.conns[m.sock].phase == Mqtt && b.tries !in inp.lost
    ensures var s, r := m.sock, Handle(b, m, inp);
            var t, u := b.conns[s].table, r.conns[s].table;
            && r.conns[s].phase == Mqtt && r.out == b.out + [Message(s, if LastTurn(t) then Read else Write)]
            && (if Rests(t) then u == t else ToSendCount(u) == ToSendCount(t) - 1)
  {
    var t := b.conns[m.sock].table;
    if e :| e in t && ToSend(e) {
      var i := FirstOf(t, e);
      WriteTurnSends(b, m, inp, i);
      CountUpdate(t, i, Sent(t[i], inp.written));
      assert LastTurn(t) <==> i + 1 == |t|;
    } else {
      WriteTurnRests(b, m, inp);
      forall i | 0 <= i < |t| ensures !ToSend(t[i]) { assert t[i] in t; }
    }
  }

  /** What a write turn with its request accepted comes to: one entry fewer waits, and with none or only the
      last one waiting the socket is read again. */
  lemma WriteTurnComes(sys: System, inp: Input)
    requires Conserved(sys.b, 0) && Enabled(sys, Turn(inp)) && 0 !in inp.lost
    requires sys.pending[0].op == Write && sys.b.conns[sys.pending[0].sock].phase == Mqtt
    ensures var s, next := sys.pending[0].sock, Step(sys, Turn(inp));
            var t, u := sys.b.conns[s].table, next.b.conns[s].table;
            && next.b.conns[s].phase == Mqtt
            && (if Rests(t) then u == t else ToSendCount(u) == ToSendCount(t) - 1)
            && Coming(next, s).r == (Coming(sys, s).r || LastTurn(t))
  {
    var m, next := sys.pending[0], Step(sys, Turn(inp));
    ConservedFrame(sys.b, Start(sys.b), 0);
    WriteTurnCounts(Start(sys.b), m, inp);
    var last := Message(m.sock, if LastTurn(sys.b.conns[m.sock].table) then Read else Write);
    assert next.toFds + next.b.out == (sys.toFds + sys.b.out) + [last];
    AfterSnoc(sys.toFds + sys.b.out, last, m.sock, Watch(m.sock in sys.rd, m.sock in sys.wr));
  }

  lemma {:induction false} FirstOf(t: seq<Entry>, e: Entry) returns (i: nat)
    requires e in t && ToSend(e)
    ensures FirstToSend(t, i)
  {
    if ToSend(t[0]) {
      i := 0;
    } else {
      i := FirstOf(t[1..], e);
      assert t[1..][i] == t[i + 1];
      assert forall j :: 0 < j <= i ==> t[j] == t[1..][j - 1];
      i := i + 1;
    }
  }

  /** How many more write turns of its own it can take before a live socket is to be read again. */
  ghost function Rank(sys: System, s: Sock): nat
    requires sys.b.Shape()
  {
    if ReadComing(sys, s) then 0 else 1 + ToSendCount(sys.b.conns[s].table)
  }

  ghost predicate OwnWriteTurn(sys: System, ev: Event, s: Sock)
    requires Enabled(sys, ev)
  {
    ev.Turn? && sys.pending[0] == Message(s, Write)
  }

  /** While nothing is added to its table a live socket comes nearer to being read with every write turn that
      it takes, and no step of either task takes it farther from it. */
  lemma StepRank(sys: System, ev: Event, s: Sock)
    requires Good(sys) && Enabled(sys, ev) && Sound(sys, ev) && Undisturbed(sys, ev, s) && sys.b.conns[s].phase == Mqtt
    ensures var next := Step(sys, ev);
            && next.b.Shape() && next.b.conns[s].phase == Mqtt
            && (Rank(sys, s) == 0 ==> Rank(next, s) == 0)
            && (Rank(sys, s) > 0 ==> Rank(next, s) + (if OwnWriteTurn(sys, ev, s) then 1 else 0) <= Rank(sys, s))
  {
    if ev.Turn? {
      if sys.pending[0].sock == s {
        OwnTurnRank(sys, ev.inp, s);
      } else {
        OtherTurnRank(sys, ev.inp, s);
      }
    } else {
      MainRank(sys, ev, s);
    }
  }

  lemma OwnTurnRank(sys: System, inp: Input, s: Sock)
    requires Good(sys) && Enabled(sys, Turn(inp)) && Undisturbed(sys, Turn(inp), s) && sys.pending[0].sock == s
    ensures var next := Step(sys, Turn(inp));
            next.b.conns[s].phase == Mqtt && (if Rank(sys, s) == 0 then Rank(next, s) == 0 else Rank(next, s) < Rank(sys, s))
  {
    WriteTurnComes(sys, inp);
    var next, t := Step(sys, Turn(inp)), sys.b.conns[s].table;
    assert Message(s, Read) in sys.pending ==> Message(s, Read) in next.pending;
    if Rests(t) {
      forall i | 0 <= i < |t| - 1 ensures !ToSend(t[i]) { assert t[i] in t; }
      assert Coming(next, s).r;
    }
  }

  lemma OtherTurnRank(sys: System, inp: Input, s: Sock)
    requires Good(sys) && Enabled(sys, Turn(inp)) && Sound(sys, Turn(inp)) && Undisturbed(sys, Turn(inp), s) && sys.pending[0].sock != s
    ensures var next := Step(sys, Turn(inp));
            Rank(next, s) == Rank(sys, s) && next.b.conns[s] == sys.b.conns[s]
  {
    var b, m, next := Start(sys.b), sys.pending[0], Step(sys, Turn(inp));
    SameLinksTidy(sys.b, b, sys.maxSock);
    assert m in sys.pending;
    if TakenOver(b, m, inp, s) {
      TakenOverCloses(b, m, inp, s);
      assert false;
    }
    OtherTurnSpares(b, m, inp, s);
    AfterConcat(sys.toFds, next.b.out, s, Watch(s in sys.rd, s in sys.wr));
    AfterConcat(sys.toFds, b.out, s, Watch(s in sys.rd, s in sys.wr));
    assert Message(s, Read) in sys.pending <==> Message(s, Read) in next.pending;
  }

  lemma TakenOverCloses(b: Broker, m: Message, inp: Input, s: Sock)
    requires Linked(b) && TakenOver(b, m, inp, s) && inp.lost == {}
    ensures Handle(b, m, inp).conns[s].phase == Uninit && b.conns[s].phase == Mqtt
  {
    var c :| c in b.clients && c.cid == inp.packet.cid && c.sock == s;
    var j :| 0 <= j < |b.clients| && b.clients[j] == c;
    ConnectTurn(b, m, inp);
    PlaceIs(b.clients, j);
    assert b.conns[m.sock].cid == "" || HasOwner(b.clients, b.conns[m.sock].cid, m.sock);
  }

  lemma MainRank(sys: System, ev: Event, s: Sock)
    requires Enabled(sys, ev) && !ev.Turn?
    ensures Step(sys, ev).b.conns == sys.b.conns && Rank(Step(sys, ev), s) <= Rank(sys, s)
  {
    var next := Step(sys, ev);
    var x := Watch(s in sys.rd, s in sys.wr);
    assert forall m :: m in sys.pending ==> m in next.pending;
    match ev
    case Accepted(t) =>
    case Readable(t) =>
      assert next.pending[|sys.pending|] == Message(t, Read);
      AfterDiffers(sys.toFds + sys.b.out, s, x, Watch(s in next.rd, s in next.wr));
    case Writable(t) => AfterDiffers(sys.toFds + sys.b.out, s, x, Watch(s in next.rd, s in next.wr));
    case Push => assert next.toFds + next.b.out == sys.toFds + sys.b.out;
    case Receive =>
      var m := sys.toFds[0];
      assert sys.toFds + sys.b.out == [m] + (next.toFds + next.b.out);
      AfterConcat([m], next.toFds + next.b.out, s, x);
      assert After([m], s, x) == Apply(m, s, After([m][..0], s, x));
      assert Watch(s in next.rd, s in next.wr) == Apply(m, s, x);
  }

  ghost function WriteTurns(sys: System, evs: seq<Event>, s: Sock): nat
    requires Legal(sys, evs, Alone(s))
    decreases |evs|
  {
    if evs == [] then 0
    else (if OwnWriteTurn(sys, evs[0], s) then 1 else 0) + WriteTurns(Step(sys, evs[0]), evs[1..], s)
  }

  /** A live socket is read again: whatever the two tasks do, once it has taken one write turn more than it has
      entries to send it is in the read set, or is to be put there, or a read message for it waits. */
  lemma {:induction false} ReadAgain(sys: System, evs: seq<Event>, s: Sock)
    requires Good(sys) && sys.b.conns[s].phase == Mqtt && Legal(sys, evs, Alone(s))
    ensures var end := Run(sys, evs, Alone(s));
            && end.b.Shape() && end.b.conns[s].phase == Mqtt
            && (ReadComing(sys, s) || WriteTurns(sys, evs, s) > ToSendCount(sys.b.conns[s].table) ==> ReadComing(end, s))
    decreases |evs|
  {
    RankFalls(sys, evs, s);
  }

  lemma {:induction false} RankFalls(sys: System, evs: seq<Event>, s: Sock)
    requires Good(sys) && sys.b.conns[s].phase == Mqtt && Legal(sys, evs, Alone(s))
    ensures var end := Run(sys, evs, Alone(s));
            && end.b.Shape() && end.b.conns[s].phase == Mqtt
            && (Rank(end, s) == 0 || (Rank(end, s) + WriteTurns(sys, evs, s) <= Rank(sys, s)))
            && (Rank(sys, s) == 0 ==> Rank(end, s) == 0)
    decreases |evs|
  {
    if evs != [] {
      StepGood(sys, evs[0]);
      StepRank(sys, evs[0], s);
      RankFalls(Step(sys, evs[0]), evs[1..], s);
    }
  }

  // ---------- answers are written ----------

  ghost predicate WireKept(b: Broker, r: Broker) { forall f :: f in b.wire ==> f in r.wire }

  lemma {:induction false} SubscribeAllWire(b: Broker, s: Sock, k: nat, filters: seq<(Topic, nat)>, lost: set<nat>)
    requires b.Shape() && k < |b.clients|
    ensures SubscribeAll(b, s, k, filters, lost).wire == b.wire
    decreases |filters|
  {
    if filters != [] {
      SubscribeAllWire(SubscribeOne(b, s, k, filters[0].0, filters[0].1, lost), s, k, filters[1..], lost);
    }
  }

  /** What is on the wire stays there. */
  lemma HandleWire(b: Broker, m: Message, inp: Input)
    requires b.Shape() && Conserved(b, 0) && m.op in {Read, Write}
    ensures WireKept(b, Handle(b, m, inp))
  {
    if Drops(b, m, inp) {
      DropIs(b, m, inp);
      DropFrame(b, m.sock, true, inp.willId, inp.lost);
    } else if OnSession(b, m) {
      OnSessionIs(b, m, inp);
      ReactWire(b, m.sock, ClientAt(b.clients, b.conns[m.sock].cid), inp.packet, inp.written, inp.lost);
    } else if b.conns[m.sock].phase == Mqtt && m.op == Write {
      WriteTurnWire(b, m, inp);
    }
  }

  lemma WriteTurnWire(b: Broker, m: Message, inp: Input)
    requires b.Shape() && Conserved(b, 0) && m.op == Write && b.conns[m.sock].phase == Mqtt
    ensures WireKept(b, Handle(b, m, inp))
  {
    var t, r := b.conns[m.sock].table, Handle(b, m, inp);
    if e :| e in t && ToSend(e) {
      var i := FirstOf(t, e);
      WriteTurnSends(b, m, inp, i);
      assert forall f :: f in r.wire[..|b.wire|] ==> f in r.wire;
    } else {
      WriteTurnRests(b, m, inp);
    }
  }

  lemma ReactWire(b: Broker, s: Sock, k: nat, p: Packet, written: bool, lost: set<nat>)
    requires b.Shape() && k < |b.clients|
    ensures var r := React(b, s, k, p, written, lost); r.Some? ==> WireKept(b, r.value)
  {
    match p
    case Publish(topic, qos, retain, id, data) =>
      if qos <= 2 {
        var b2 := AnswersOnly(b, s, p, lost);
        PublicationLeaves(b2, topic, qos, id, data, lost);
      }
    case Subscribe(filters) => SubscribeAllWire(b, s, k, filters, lost);
    case Disconnect => DropFrame(b.(clients := b.clients[k := b.clients[k].(clean := true)]), s, false, 0, lost);
    case _ =>
  }

  lemma {:induction false} RunWire(sys: System, evs: seq<Event>, d: Demand, f: Frame)
    requires Good(sys) && Legal(sys, evs, d) && f in sys.b.wire
    ensures f in Run(sys, evs, d).b.wire
    decreases |evs|
  {
    if evs != [] {
      StepGood(sys, evs[0]);
      StepWire(sys, evs[0]);
      RunWire(Step(sys, evs[0]), evs[1..], d, f);
    }
  }

  lemma StepWire(sys: System, ev: Event)
    requires Good(sys) && Enabled(sys, ev)
    ensures WireKept(sys.b, Step(sys, ev).b)
  {
    if ev.Turn? {
      ConservedFrame(sys.b, Start(sys.b), 0);
      assert sys.pending[0] in sys.pending;
      HandleWire(Start(sys.b), sys.pending[0], ev.inp);
    }
  }

  /** The frame of an answer that the entry waits to give. */
  function AnswerOf(s: Sock, e: Entry): Option<Frame> {
    if e.id == 0 then None
    else
      match e.state
      case SendPuback => Some(ControlFrame(s, PubackC, e.id))
      case SendPubrec => Some(ControlFrame(s, PubrecC, e.id))
      case SendPubrel => Some(ControlFrame(s, PubrelC, e.id))
      case SendPubcomp => Some(ControlFrame(s, PubcompC, e.id))
      case _ => None
  }

  /** A step leaves the answer where it is, with as many entries before it less the one that a write turn
      serves, or writes it. */
  lemma StepAnswers(sys: System, ev: Event, s: Sock, i: nat)
    requires Good(sys) && Enabled(sys, ev) && Undisturbed(sys, ev, s) && sys.b.conns[s].phase == Mqtt
    requires i < |sys.b.conns[s].table| && AnswerOf(s, sys.b.conns[s].table[i]).Some?
    ensures var t, r := sys.b.conns[s].table, Step(sys, ev).b;
            && r.Shape() && r.conns[s].phase == Mqtt
            && (|| AnswerOf(s, t[i]).value in r.wire
                || (&& i < |r.conns[s].table| && r.conns[s].table[i] == t[i]
                    && ToSendCount(r.conns[s].table[..i + 1]) + (if OwnWriteTurn(sys, ev, s) then 1 else 0) <= ToSendCount(t[..i + 1])))
  {
    if OwnWriteTurn(sys, ev, s) {
      ConservedFrame(sys.b, Start(sys.b), 0);
      WriteTurnAnswers(Start(sys.b), sys.pending[0], ev.inp, i);
    }
  }

  lemma WriteTurnAnswers(b: Broker, m: Message, inp: Input, i: nat)
    requires b.Shape() && Conserved(b, 0) && b.conns[m.sock].phase == Mqtt && m.op == Write
    requires i < |b.conns[m.sock].table| && AnswerOf(m.sock, b.conns[m.sock].table[i]).Some?
    ensures var s, t, r := m.sock, b.conns[m.sock].table, Handle(b, m, inp);
            && r.conns[s].phase == Mqtt
            && (|| AnswerOf(s, t[i]).value in r.wire
                || (&& i < |r.conns[s].table| && r.conns[s].table[i] == t[i]
                    && ToSendCount(r.conns[s].table[..i + 1]) + 1 == ToSendCount(t[..i + 1])))
  {
    var t, r := b.conns[m.sock].table, Handle(b, m, inp);
    var f := FirstOf(t, t[i]);
    WriteTurnSends(b, m, inp, f);
    if f < i {
      CountUpdate(t[..i + 1], f, Sent(t[f], inp.written));
      assert r.conns[m.sock].table[..i + 1] == t[..i + 1][f := Sent(t[f], inp.written)];
    }
  }

  /** Every answer that is owed is given: while nothing is added to the table, the PUBACK, PUBREC, PUBREL or
      PUBCOMP in slot `i` is on the wire, under its identifier and to its socket, after as many write turns
      as there are entries to send up to it. */
  lemma {:induction false} AnswerIsWritten(sys: System, evs: seq<Event>, s: Sock, i: nat)
    requires Good(sys) && sys.b.conns[s].phase == Mqtt && Legal(sys, evs, Alone(s))
    requires i < |sys.b.conns[s].table| && AnswerOf(s, sys.b.conns[s].table[i]).Some?
    requires WriteTurns(sys, evs, s) >= ToSendCount(sys.b.conns[s].table[..i + 1])
    ensures AnswerOf(s, sys.b.conns[s].table[i]).value in Run(sys, evs, Alone(s)).b.wire
    decreases |evs|
  {
    var t := sys.b.conns[s].table;
    if evs == [] {
      SomeToSend(t[..i + 1], i);
    } else {
      var next := Step(sys, evs[0]);
      StepGood(sys, evs[0]);
      StepAnswers(sys, evs[0], s, i);
      if AnswerOf(s, t[i]).value in next.b.wire {
        RunWire(next, evs[1..], Alone(s), AnswerOf(s, t[i]).value);
      } else {
        AnswerIsWritten(next, evs[1..], s, i);
      }
    }
  }

  lemma {:induction false} SomeToSend(t: seq<Entry>, i: nat)
    requires i < |t| && ToSend(t[i])
    ensures ToSendCount(t) > 0
  {
    if i > 0 { SomeToSend(t[1..], i - 1); }
  }

  // ---------- closed sockets ----------

  lemma {:induction false} FanOutSame(b: Broker, i: nat, topic: Topic, qos: nat, id: Id, s: Sock, lost: set<nat>)
    requires b.Shape() && id in b.store && i <= |b.clients| && forall j :: i <= j < |b.clients| ==> b.clients[j].sock != s
    ensures SameRequests(b.out, FanOut(b, i, topic, qos, id, lost).out, s)
    decreases |b.clients| - i
  {
    if i < |b.clients| {
      var c := b.clients[i];
      if !Considered(c, topic) {
        FanOutSame(b, i + 1, topic, qos, id, s, lost);
      } else if c.sock != -1 {
        var d := Deliver(b, c.sock, id, Min(c.subs[topic], qos), lost);
        DeliverSame(b, c.sock, id, Min(c.subs[topic], qos), lost, s);
        FanOutSame(d, i + 1, topic, qos, id, s, lost);
      }
    }
  }

  lemma DeliverSame(b: Broker, t: Sock, id: Id, qos: nat, lost: set<nat>, s: Sock)
    requires b.Shape() && id in b.store && t != s
    ensures SameRequests(b.out, Deliver(b, t, id, qos, lost).out, s)
  {
    var b1 := Send(b, Message(t, DelRead), lost);
    var b2 := Send(b1, Message(t, Write), lost);
    SendSame(b, Message(t, DelRead), s, lost);
    SendSame(b1, Message(t, Write), s, lost);
    SendSame(b2, Message(t, Read), s, lost);
  }

  /** A connection that is dropped asks to be watched no more, and its will does not ask otherwise. */
  lemma DropSilences(b: Broker, s: Sock, sendWill: bool, willId: Id, lost: set<nat>, x: Watch)
    requires Linked(b) && b.tries !in lost
    ensures After(Drop(b, s, sendWill, willId, lost).out, s, x) == Watch(false, false)
  {
    AfterSnoc(b.out, Message(s, DelAll), s, x);
    DropAsks(b, s, sendWill, willId, lost);
  }

  lemma DropAsks(b: Broker, s: Sock, sendWill: bool, willId: Id, lost: set<nat>)
    requires Linked(b) && b.tries !in lost
    ensures SameRequests(b.out + [Message(s, DelAll)], Drop(b, s, sendWill, willId, lost).out, s)
  {
    if WillOf(b, s).Some? && sendWill {
      var w := WillOf(b, s).value;
      OthersAreWithoutOwner(b, s);
      PublicationSame(Send(b, Message(s, DelAll), lost).(clients := WithoutOwner(b, s)), w.topic, w.qos, willId, w.data, s, lost);
    }
  }

  /** A publication asks nothing for a socket that no client has. */
  lemma PublicationSame(b: Broker, topic: Topic, qos: nat, id: Id, data: Bytes, s: Sock, lost: set<nat>)
    requires b.Shape() && forall c :: c in b.clients ==> c.sock != s
    ensures SameRequests(b.out, PublishByTopic(b, topic, qos, id, data, lost).out, s)
  {
    if data != [] {
      var b0 := if id in b.store then b else b.(store := b.store[id := Node(1, qos, data)]);
      forall j | 0 <= j < |b.clients| ensures b.clients[j].sock != s { assert b.clients[j] in b.clients; }
      FanOutSame(b0, 0, topic, qos, id, s, lost);
    }
  }

  /** The turn closes the socket. */
  ghost predicate ClosedBy(b: Broker, m: Message, inp: Input, s: Sock)
    requires b.Shape()
  {
    Handle(b, m, inp).conns[s].phase == Uninit && (b.conns[s].phase != Uninit || (s == m.sock && inp.tls.Failed?))
  }

  /** The ways in which a turn closes a socket. */
  lemma ClosedExactly(b: Broker, m: Message, inp: Input, s: Sock)
    requires Linked(b) && m.op in {Read, Write} && inp.lost == {} && Admissible(b, m, inp)
    ensures ClosedBy(b, m, inp, s)
       <==> (s == m.sock && (Drops(b, m, inp) || (OnSession(b, m) && inp.packet.Disconnect?))) || TakenOver(b, m, inp, s)
  {
    if s != m.sock {
      if TakenOver(b, m, inp, s) { TakenOverCloses(b, m, inp, s); } else { OtherTurnSpares(b, m, inp, s); }
    } else {
      assert !TakenOver(b, m, inp, s) by {
        if TakenOver(b, m, inp, s) { TakenOverCloses(b, m, inp, s); ConnectTurn(b, m, inp); assert false; }
      }
      OwnPhase(b, m, inp);
    }
  }

  lemma OwnPhase(b: Broker, m: Message, inp: Input)
    requires Linked(b) && m.op in {Read, Write} && inp.lost == {}
    ensures ClosedBy(b, m, inp, m.sock) <==> Drops(b, m, inp) || (OnSession(b, m) && inp.packet.Disconnect?)
  {
    var s := m.sock;
    if Drops(b, m, inp) {
      DropTurn(b, m, inp);
    } else if b.conns[s].phase != Mqtt {
      TlsTurn(b, m, inp);
    } else if OnSession(b, m) {
      OnSessionIs(b, m, inp);
      if inp.packet.Disconnect? { DisconnectTurn(b, m, inp); } else { ReactPhase(b, m, inp); }
    } else if m.op == Read {
      ConnectTurn(b, m, inp);
    } else {
      var i := First(b.conns[s].table, AnyPending);
      if i < |b.conns[s].table| { ServeLinks(b, s, i, inp.written); }
    }
  }

  lemma ReactPhase(b: Broker, m: Message, inp: Input)
    requires b.Shape() && OnSession(b, m) && !inp.packet.Disconnect? && inp.lost == {}
    ensures var r := React(b, m.sock, ClientAt(b.clients, b.conns[m.sock].cid), inp.packet, inp.written, {});
            r.Some? ==> r.value.conns[m.sock].phase == Mqtt
  {
    match inp.packet
    case Publish(topic, qos, retain, id, data) =>
      if qos <= 2 {
        var b2 := AnswersOnly(b, m.sock, inp.packet, {});
        PublicationLeaves(b2, topic, qos, id, data, {});
      }
    case Subscribe(filters) => SubscribeDelivers(b, m.sock, ClientAt(b.clients, b.conns[m.sock].cid), filters, {});
    case _ =>
  }

  /** Once the queues are applied, a socket that a turn closes - the turn's own, or the one that its client had
      before - is in neither of the select sets. */
  lemma ClosedIsUnwatched(sys: System, inp: Input, s: Sock)
    requires Good(sys) && Enabled(sys, Turn(inp)) && Sound(sys, Turn(inp)) && inp.lost == {}
    requires ClosedBy(Start(sys.b), sys.pending[0], inp, s)
    ensures Coming(Step(sys, Turn(inp)), s) == Watch(false, false)
  {
    var b, m, next, x := Start(sys.b), sys.pending[0], Step(sys, Turn(inp)), Watch(s in sys.rd, s in sys.wr);
    SameLinksTidy(sys.b, b, sys.maxSock);
    assert m in sys.pending;
    ClosedExactly(b, m, inp, s);
    AfterConcat(sys.toFds, next.b.out, s, x);
    ClosingRequests(b, m, inp, s, After(sys.toFds, s, x));
  }

  lemma ClosingRequests(b: Broker, m: Message, inp: Input, s: Sock, x: Watch)
    requires Linked(b) && m.op in {Read, Write} && inp.lost == {}
    requires (s == m.sock && (Drops(b, m, inp) || (OnSession(b, m) && inp.packet.Disconnect?))) || TakenOver(b, m, inp, s)
    ensures After(Handle(b, m, inp).out, s, x) == Watch(false, false)
  {
    if TakenOver(b, m, inp, s) {
      TakenOverRequests(b, m, inp, s, x);
    } else if Drops(b, m, inp) {
      DropRequests(b, m, inp, x);
    } else {
      DisconnectRequests(b, m, inp, x);
    }
  }

  lemma DropRequests(b: Broker, m: Message, inp: Input, x: Watch)
    requires Linked(b) && m.op in {Read, Write} && inp.lost == {} && Drops(b, m, inp)
    ensures After(Handle(b, m, inp).out, m.sock, x) == Watch(false, false)
  {
    DropIs(b, m, inp);
    DropSilences(b, m.sock, true, inp.willId, {}, x);
  }

  lemma DisconnectRequests(b: Broker, m: Message, inp: Input, x: Watch)
    requires Linked(b) && OnSession(b, m) && inp.packet.Disconnect? && inp.lost == {}
    ensures After(Handle(b, m, inp).out, m.sock, x) == Watch(false, false)
  {
    DisconnectDrops(b, m, inp);
    AfterSnoc(b.out, Message(m.sock, DelAll), m.sock, x);
  }

  /** What a CONNECT asks for when it takes over client `k` from another socket. */
  lemma TakingOver(b: Broker, m: Message, inp: Input, k: nat)
    requires b.Shape() && b.conns[m.sock].phase == Mqtt && m.op == Read && !OnSession(b, m) && inp.lost == {}
    requires inp.packet.Connect? && inp.packet.accepted && inp.packet.cid != ""
    requires k < |b.clients| && k == ClientAt(b.clients, inp.packet.cid) && b.clients[k].sock != -1
    ensures Handle(b, m, inp).out
         == b.out + [Message(b.clients[k].sock, DelAll)] + [Message(m.sock, if b.clients[k].queued then Write else Read)]
  {
  }

  lemma TakenOverRequests(b: Broker, m: Message, inp: Input, s: Sock, x: Watch)
    requires Linked(b) && TakenOver(b, m, inp, s) && inp.lost == {}
    ensures After(Handle(b, m, inp).out, s, x) == Watch(false, false)
  {
    var c :| c in b.clients && c.cid == inp.packet.cid && c.sock == s;
    var j :| 0 <= j < |b.clients| && b.clients[j] == c;
    PlaceIs(b.clients, j);
    assert b.conns[m.sock].cid == "" || HasOwner(b.clients, b.conns[m.sock].cid, m.sock);
    TakingOver(b, m, inp, j);
    var out := b.out + [Message(s, DelAll)];
    AfterSnoc(b.out, Message(s, DelAll), s, x);
    AfterSnoc(out, Message(m.sock, if c.queued then Write else Read), s, x);
  }
}
