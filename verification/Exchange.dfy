/** The packets that one table entry exchanges with its peer. The QoS decides the exchange (sections
    4.3.1 to 4.3.3 of MQTT 3.1.1); the theorem is that what is sent and received for an entry, turn by
    turn, is always a beginning of it, and that an entry is freed only at its end or when its PUBLISH
    could not be written. Ill-formed acknowledgements are covered but for one kind, which breaks the
    exchange; see the end of this module. */
module Exchange {
  import opened Protocol
  import opened Delivery
  import opened Conservation
  import opened ConservationSteps
  import opened Births

  /** REPEAT is the PUBLISH that is written again after an ill-formed PUBACK or PUBREC. */
  datatype Kind = PUBLISH | PUBACK | PUBREC | PUBREL | PUBCOMP | REPEAT

  /** The exchange that an entry is part of. */
  function Pattern(e: Entry): seq<Kind> {
    if e.qos == 0 then [PUBLISH]
    else if e.qos == 1 then [PUBLISH, PUBACK]
    else [PUBLISH, PUBREC, PUBREL, PUBCOMP]
  }

  /** The part of it that has taken place in this state. */
  function Exchanged(e: Entry): seq<Kind> {
    match e.state
    case SendPublish => []
    case SendPuback => [PUBLISH]
    case GetPuback => [PUBLISH]
    case SendPubrec => [PUBLISH]
    case GetPubrec => [PUBLISH]
    case GetPubrel => [PUBLISH, PUBREC]
    case SendPubrel => [PUBLISH, PUBREC]
    case SendPubcomp => [PUBLISH, PUBREC, PUBREL]
    case GetPubcomp => [PUBLISH, PUBREC, PUBREL]
  }

  /** The state belongs to the exchange of the entry's QoS. */
  predicate Fits(e: Entry) {
    match e.state
    case SendPublish => true
    case SendPuback => e.qos == 1
    case GetPuback => e.qos == 1
    case _ => e.qos >= 2
  }

  /** How an exchange starts: a delivery still to be sent, or a PUBLISH just received. */
  predicate Born(e: Entry) {
    && e.id != 0
    && (e.state.SendPublish? || (e.state.SendPuback? && e.qos == 1) || (e.state.SendPubrec? && e.qos == 2))
  }

  /** What a turn in which one packet of this kind passes may do to an entry. */
  ghost predicate SlotMoves(e: Entry, f: Entry, kind: Option<Kind>, written: bool) {
    || e == f
    || (e.id == 0 && (f.id == 0 || Born(f)))
    || (&& e.id != 0 && kind.Some?
        && if f.id == 0 then
             || Exchanged(e) + [kind.value] == Pattern(e)
             || (e.state.SendPublish? && kind == Some(PUBLISH) && !written)
             || ((e.state.GetPuback? || e.state.GetPubrec?) && kind == Some(REPEAT) && !written)
           else && f.id == e.id && f.qos == e.qos && f.state.Outgoing() == e.state.Outgoing() && Fits(f)
                && Exchanged(f) == Exchanged(e) + [kind.value])
  }

  ghost predicate TableMoves(t: seq<Entry>, u: seq<Entry>, kind: Option<Kind>, written: bool) {
    && |t| <= |u|
    && (forall i :: 0 <= i < |t| ==> SlotMoves(t[i], u[i], kind, written))
    && (forall i :: |t| <= i < |u| ==> Born(u[i]))
  }

  ghost predicate Moves(b: Broker, c: Broker, kind: Option<Kind>, written: bool) {
    b.Shape() && c.Shape() && forall s: Sock :: TableMoves(b.conns[s].table, c.conns[s].table, kind, written)
  }

  /** Every live entry is in a state of its exchange. */
  ghost predicate AllFit(b: Broker) {
    b.Shape() && forall s: Sock, i :: 0 <= i < |b.conns[s].table| && b.conns[s].table[i].id != 0 ==> Fits(b.conns[s].table[i])
  }

  /** What an entry has exchanged is a beginning of its pattern. */
  lemma ExchangedIsPrefix(e: Entry)
    requires Fits(e)
    ensures Exchanged(e) <= Pattern(e)
  {
  }

  lemma MovesFit(b: Broker, c: Broker, kind: Option<Kind>, written: bool)
    requires AllFit(b) && Moves(b, c, kind, written)
    ensures AllFit(c)
  {
    forall s: Sock, i | 0 <= i < |c.conns[s].table| && c.conns[s].table[i].id != 0
      ensures Fits(c.conns[s].table[i])
    {
      assert TableMoves(b.conns[s].table, c.conns[s].table, kind, written);
      if i < |b.conns[s].table| {
        assert SlotMoves(b.conns[s].table[i], c.conns[s].table[i], kind, written);
      }
    }
  }

  // ---------- handlers that only start exchanges ----------

  ghost predicate TableGrows(t: seq<Entry>, u: seq<Entry>) {
    && |t| <= |u|
    && (forall i :: 0 <= i < |t| ==> u[i] == t[i] || (t[i].id == 0 && Born(u[i])))
    && (forall i :: |t| <= i < |u| ==> Born(u[i]))
  }

  ghost predicate Grows(b: Broker, c: Broker) {
    b.Shape() && c.Shape() && forall s: Sock :: TableGrows(b.conns[s].table, c.conns[s].table)
  }

  lemma GrowsMoves(b: Broker, c: Broker, kind: Option<Kind>, written: bool)
    requires Grows(b, c)
    ensures Moves(b, c, kind, written)
  {
    forall s: Sock
      ensures TableMoves(b.conns[s].table, c.conns[s].table, kind, written)
    {
      assert TableGrows(b.conns[s].table, c.conns[s].table);
    }
  }

  lemma GrowsTrans(a: Broker, b: Broker, c: Broker)
    requires Grows(a, b) && Grows(b, c)
    ensures Grows(a, c)
  {
    forall s: Sock
      ensures TableGrows(a.conns[s].table, c.conns[s].table)
    {
      assert TableGrows(a.conns[s].table, b.conns[s].table) && TableGrows(b.conns[s].table, c.conns[s].table);
    }
  }

  lemma SameTablesGrow(b: Broker, c: Broker)
    requires b.Shape() && c.Shape() && forall s: Sock :: c.conns[s].table == b.conns[s].table
    ensures Grows(b, c)
  {
  }

  lemma EnqueueGrows(b: Broker, s: Sock, e: Entry)
    requires b.Shape() && Born(e)
    ensures Grows(b, Enqueue(b, s, e))
  {
  }

  lemma DeliverGrows(b: Broker, s: Sock, id: Id, qos: nat, lost: set<nat>)
    requires b.Shape() && id in b.store && id != 0
    ensures Grows(b, Deliver(b, s, id, qos, lost))
  {
    var d, e := Deliver(b, s, id, qos, lost), Entry(id, SendPublish, qos, true);
    EnqueueGrows(b, s, e);
    assert d.conns == b.conns || d.conns == Enqueue(b, s, e).conns;
  }

  lemma {:induction false} FanOutGrows(b: Broker, i: nat, topic: Topic, qos: nat, id: Id, lost: set<nat>)
    requires b.Shape() && id in b.store && id != 0 && i <= |b.clients|
    ensures Grows(b, FanOut(b, i, topic, qos, id, lost))
    decreases |b.clients| - i
  {
    SameTablesGrow(b, b);
    if i < |b.clients| {
      var c := b.clients[i];
      if !Considered(c, topic) {
        FanOutGrows(b, i + 1, topic, qos, id, lost);
      } else if c.sock == -1 {
        SameTablesGrow(b, b.(fault := true));
      } else {
        var d := Deliver(b, c.sock, id, Min(c.subs[topic], qos), lost);
        DeliverGrows(b, c.sock, id, Min(c.subs[topic], qos), lost);
        FanOutGrows(d, i + 1, topic, qos, id, lost);
        GrowsTrans(b, d, FanOut(b, i, topic, qos, id, lost));
      }
    }
  }

  lemma PublishByTopicGrows(b: Broker, topic: Topic, qos: nat, id: Id, data: Bytes, lost: set<nat>)
    requires b.Shape() && id != 0
    ensures Grows(b, PublishByTopic(b, topic, qos, id, data, lost))
  {
    SameTablesGrow(b, b);
    if data != [] {
      var b0 := if id in b.store then b else b.(store := b.store[id := Node(1, qos, data)]);
      FanOutGrows(b0, 0, topic, qos, id, lost);
    }
  }

  lemma OnPublishGrows(b: Broker, s: Sock, topic: Topic, qos: nat, retain: bool, id: Id, data: Bytes, lost: set<nat>)
    requires b.Shape() && id != 0
    ensures Grows(b, OnPublish(b, s, topic, qos, retain, id, data, lost))
  {
    var b1 := if retain && data != [] then StoreRetained(b, topic, qos, id, data) else b;
    var b2 := if qos == 1 then Answer(b1, s, Entry(id, SendPuback, qos, true), lost)
              else if qos == 2 then Answer(b1, s, Entry(id, SendPubrec, qos, true), lost)
              else Send(b1, Message(s, Read), lost);
    SameTablesGrow(b, b);
    if qos == 1 { EnqueueGrows(b, s, Entry(id, SendPuback, qos, true)); }
    if qos == 2 { EnqueueGrows(b, s, Entry(id, SendPubrec, qos, true)); }
    assert Grows(b, b2);
    PublishByTopicGrows(b2, topic, qos, id, data, lost);
    GrowsTrans(b, b2, OnPublish(b, s, topic, qos, retain, id, data, lost));
  }

  lemma DropGrows(b: Broker, s: Sock, sendWill: bool, willId: Id, lost: set<nat>)
    requires b.Shape() && (sendWill ==> willId != 0)
    ensures Grows(b, Drop(b, s, sendWill, willId, lost))
  {
    var b1 := Send(b, Message(s, DelAll), lost);
    var k := ClientAt(b.clients, b.conns[s].cid);
    var r := Drop(b, s, sendWill, willId, lost);
    SameTablesGrow(b, b);
    if b.conns[s].cid != "" && k < |b.clients| && b.clients[k].will.Some? && sendWill {
      var w := b.clients[k].will.value;
      var hidden := b1.(clients := b.clients[k := b.clients[k].(sock := -1)]);
      PublishByTopicGrows(hidden, w.topic, w.qos, willId, w.data, lost);
      var b2 := PublishByTopic(hidden, w.topic, w.qos, willId, w.data, lost);
      assert forall x: Sock :: r.conns[x].table == b2.conns[x].table;
      SameTablesGrow(b2, r);
      assert Grows(b, b2);
      GrowsTrans(b, b2, r);
    } else {
      SameTablesGrow(b, r);
    }
  }

  lemma {:induction false} SubscribeAllGrows(b: Broker, s: Sock, k: nat, filters: seq<(Topic, nat)>, lost: set<nat>)
    requires b.Shape() && k < |b.clients| && forall t :: t in b.retained ==> b.retained[t] != 0
    ensures Grows(b, SubscribeAll(b, s, k, filters, lost))
    decreases |filters|
  {
    SameTablesGrow(b, b);
    if filters != [] {
      var topic := filters[0].0;
      var r := SubscribeOne(b, s, k, topic, filters[0].1, lost);
      if topic in b.retained && b.retained[topic] in b.store {
        var id := b.retained[topic];
        var e := Entry(id, SendPublish, Min(Min(filters[0].1, 2), b.store[id].qos), false);
        EnqueueGrows(b, s, e);
        assert r.conns == b.conns || r.conns == Enqueue(b, s, e).conns;
      }
      SubscribeAllGrows(r, s, k, filters[1..], lost);
      GrowsTrans(b, r, SubscribeAll(b, s, k, filters, lost));
    }
  }

  // ---------- handlers that carry an exchange on ----------

  lemma SetEntryMoves(b: Broker, c: Broker, s: Sock, i: nat, e: Entry, kind: Option<Kind>, written: bool)
    requires b.Shape() && i < |b.conns[s].table| && SlotMoves(b.conns[s].table[i], e, kind, written)
    requires c.conns == SetEntry(b, s, i, e).conns
    ensures Moves(b, c, kind, written)
  {
    forall x: Sock
      ensures TableMoves(b.conns[x].table, c.conns[x].table, kind, written)
    {}
  }

  function KindOf(f: Frame): Kind {
    match f
    case PublishFrame(_, _) => PUBLISH
    case ControlFrame(_, kind, _) =>
      match kind
      case PubackC => PUBACK
      case PubrecC => PUBREC
      case PubrelC => PUBREL
      case PubcompC => PUBCOMP
  }

  /** A write event writes at most one frame, for the first pending entry, and that entry's exchange
      goes on by exactly that packet. */
  lemma WriteEventMoves(b: Broker, s: Sock, written: bool, lost: set<nat>)
    requires b.Shape() && Conserved(b, 0) && AllFit(b)
    ensures var r := WriteEvent(b, s, written, lost);
            if NoPending(b.conns[s].table) then r.wire == b.wire && Moves(b, r, None, written)
            else |r.wire| == |b.wire| + 1 && r.wire[..|b.wire|] == b.wire
                 && Moves(b, r, Some(KindOf(r.wire[|b.wire|])), written)
  {
    var t := b.conns[s].table;
    var i := First(t, AnyPending);
    var r := WriteEvent(b, s, written, lost);
    if i == |t| {
      SameTablesGrow(b, r);
      GrowsMoves(b, r, None, written);
    } else {
      assert !NoPending(t) && t[i].Pending();
      ServeMoves(b, s, i, written);
      assert r.wire == Serve(b, s, i, written).wire && r.conns == Serve(b, s, i, written).conns;
    }
  }

  /** The frame that is written for an entry is the next packet of its exchange. */
  lemma ServeMoves(b: Broker, s: Sock, i: nat, written: bool)
    requires b.Shape() && Conserved(b, 0) && AllFit(b) && i < |b.conns[s].table| && b.conns[s].table[i].Pending()
    ensures var r := Serve(b, s, i, written);
            |r.wire| == |b.wire| + 1 && r.wire[..|b.wire|] == b.wire && Moves(b, r, Some(KindOf(r.wire[|b.wire|])), written)
  {
    var e, r := b.conns[s].table[i], Serve(b, s, i, written);
    assert Fits(e);
    if e.state.SendPublish? {
      NothingDangles(b, 0, s, i);
    }
    SetEntryMoves(b, r, s, i, r.conns[s].table[i], Some(KindOf(r.wire[|b.wire|])), written);
  }

  /** Some entry with the identifier is in the state. */
  ghost predicate Waits(t: seq<Entry>, id: Id, state: PacketState) { exists e :: e in t && e.id == id && e.state == state }

  lemma WaitsFirst(t: seq<Entry>, id: Id, state: PacketState)
    ensures Waits(t, id, state) <==> First(t, Waiting(id, state)) < |t|
  {
    if e :| e in t && e.id == id && e.state == state {
      var j :| 0 <= j < |t| && t[j] == e;
      assert Waiting(id, state).Matches(t[j]);
    }
  }

  /** A well-formed acknowledgement is accepted exactly when an entry waits for it, and moves that entry on by
      the packet. */
  lemma PublishAckMoves(b: Broker, s: Sock, id: Id, written: bool, lost: set<nat>)
    requires b.Shape() && AllFit(b)
    ensures var r := OnPuback(b, s, id, true, written, lost);
            (r.Some? <==> Waits(b.conns[s].table, id, GetPuback)) && (r.Some? ==> Moves(b, r.value, Some(PUBACK), written))
    ensures var r := OnPubrec(b, s, id, true, written, lost);
            (r.Some? <==> Waits(b.conns[s].table, id, GetPubrec)) && (r.Some? ==> Moves(b, r.value, Some(PUBREC), written))
  {
    WaitsFirst(b.conns[s].table, id, GetPuback);
    WaitsFirst(b.conns[s].table, id, GetPubrec);
    var t := b.conns[s].table;
    var i := First(t, Waiting(id, GetPuback));
    if i < |t| {
      assert id != 0 ==> Fits(t[i]);
      SetEntryMoves(b, OnPuback(b, s, id, true, written, lost).value, s, i, Freed(t[i]), Some(PUBACK), written);
    }
    var j := First(t, Waiting(id, GetPubrec));
    if j < |t| {
      assert id != 0 ==> Fits(t[j]);
      SetEntryMoves(b, OnPubrec(b, s, id, true, written, lost).value, s, j, t[j].(state := SendPubrel), Some(PUBREC), written);
    }
  }

  lemma ReleaseAckMoves(b: Broker, s: Sock, id: Id, written: bool, lost: set<nat>)
    requires b.Shape() && AllFit(b)
    ensures var r := OnPubrel(b, s, id, true, lost);
            (r.Some? <==> Waits(b.conns[s].table, id, GetPubrel)) && (r.Some? ==> Moves(b, r.value, Some(PUBREL), written))
    ensures var r := OnPubcomp(b, s, id, true, lost);
            (r.Some? <==> Waits(b.conns[s].table, id, GetPubcomp)) && (r.Some? ==> Moves(b, r.value, Some(PUBCOMP), written))
  {
    WaitsFirst(b.conns[s].table, id, GetPubrel);
    WaitsFirst(b.conns[s].table, id, GetPubcomp);
    var t := b.conns[s].table;
    var i := First(t, Waiting(id, GetPubrel));
    if i < |t| {
      assert id != 0 ==> Fits(t[i]);
      SetEntryMoves(b, OnPubrel(b, s, id, true, lost).value, s, i, t[i].(state := SendPubcomp), Some(PUBREL), written);
    }
    var j := First(t, Waiting(id, GetPubcomp));
    if j < |t| {
      assert id != 0 ==> Fits(t[j]);
      SetEntryMoves(b, OnPubcomp(b, s, id, true, lost).value, s, j, Freed(t[j]), Some(PUBCOMP), written);
    }
  }

  /** An ill-formed PUBACK or PUBREC leaves its entry as it is if the message can be written again, and
      frees it if not - but for a PUBACK whose message was published at QoS 2. */
  lemma RepeatMoves(b: Broker, s: Sock, id: Id, written: bool, lost: set<nat>)
    requires b.Shape() && Conserved(b, 0) && AllFit(b) && Bounded(b)
    ensures var r := OnPuback(b, s, id, false, written, lost);
            r.Some? ==> id in b.store && (!written || b.store[id].qos == 1 ==> Moves(b, r.value, Some(REPEAT), written))
    ensures var r := OnPubrec(b, s, id, false, written, lost); r.Some? ==> Moves(b, r.value, Some(REPEAT), written)
  {
    var t := b.conns[s].table;
    var r, i := OnPuback(b, s, id, false, written, lost), First(t, Waiting(id, GetPuback));
    if r.Some? && (!written || b.store[id].qos == 1) {
      SetEntryMoves(b, r.value, s, i, if written then t[i] else Freed(t[i]), Some(REPEAT), written);
    }
    var q, j := OnPubrec(b, s, id, false, written, lost), First(t, Waiting(id, GetPubrec));
    if q.Some? {
      assert Fits(t[j]) && t[j].Counted();
      SetEntryMoves(b, q.value, s, j, if written then t[j] else Freed(t[j]), Some(REPEAT), written);
    }
  }

  /** The turn in which an exchange goes wrong: an ill-formed PUBACK for a delivery whose message was
      published at QoS 2, which is written again as if the delivery were made at that QoS. */
  ghost predicate Promotes(b: Broker, m: Message, inp: Input)
    requires b.Shape()
  {
    && OnSession(b, m) && inp.packet.Puback? && !inp.packet.wellFormed && inp.written
    && First(b.conns[m.sock].table, Waiting(inp.packet.id, GetPuback)) < |b.conns[m.sock].table|
    && inp.packet.id in b.store && b.store[inp.packet.id].qos != 1
  }

  /** The kind of packet that a turn receives, or writes to its socket. */
  function Passed(b: Broker, m: Message, inp: Input): Option<Kind>
    requires b.Shape()
  {
    if b.conns[m.sock].phase != Mqtt then None
    else if m.op == Read then
      match inp.packet
      case Publish(_, _, _, _, _) => Some(PUBLISH)
      case Puback(_, wellFormed) => Some(if wellFormed then PUBACK else REPEAT)
      case Pubrec(_, wellFormed) => Some(if wellFormed then PUBREC else REPEAT)
      case Pubrel(_, wellFormed) => if wellFormed then Some(PUBREL) else None
      case Pubcomp(_, wellFormed) => if wellFormed then Some(PUBCOMP) else None
      case _ => None
    else
      var r := Handle(b, m, inp);
      if |r.wire| == |b.wire| + 1 then Some(KindOf(r.wire[|b.wire|])) else None
  }

  predicate IllFormed(p: Packet) { IsAck(p) && !p.wellFormed }

  lemma AckMoves(b: Broker, m: Message, k: nat, inp: Input)
    requires b.Shape() && Conserved(b, 0) && AllFit(b) && Bounded(b) && !Promotes(b, m, inp) && IsAck(inp.packet)
    requires OnSession(b, m) && k == ClientAt(b.clients, b.conns[m.sock].cid)
    ensures var r := React(b, m.sock, k, inp.packet, inp.written, inp.lost);
            r.Some? ==> Moves(b, r.value, Passed(b, m, inp), inp.written)
  {
    var s, p := m.sock, inp.packet;
    if p.Pubrel? || p.Pubcomp? {
      ReleaseAckMoves(b, s, p.id, inp.written, inp.lost);
    } else if p.wellFormed {
      PublishAckMoves(b, s, p.id, inp.written, inp.lost);
    } else {
      RepeatMoves(b, s, p.id, inp.written, inp.lost);
    }
  }

  lemma ReactMoves(b: Broker, m: Message, k: nat, inp: Input)
    requires b.Shape() && Conserved(b, 0) && AllFit(b) && Bounded(b) && Admissible(b, m, inp) && !Promotes(b, m, inp)
    requires OnSession(b, m) && k == ClientAt(b.clients, b.conns[m.sock].cid)
    ensures var r := React(b, m.sock, k, inp.packet, inp.written, inp.lost);
            r.Some? ==> Moves(b, r.value, Passed(b, m, inp), inp.written)
  {
    var s, p := m.sock, inp.packet;
    var r := React(b, s, k, p, inp.written, inp.lost);
    match p
    case Closed =>
    case Publish(topic, qos, retain, id, data) =>
      OnPublishGrows(b, s, topic, qos, retain, id, data, inp.lost);
      GrowsMoves(b, OnPublish(b, s, topic, qos, retain, id, data, inp.lost), Some(PUBLISH), inp.written);
    case Puback(_, _) => AckMoves(b, m, k, inp);
    case Pubrec(_, _) => AckMoves(b, m, k, inp);
    case Pubrel(_, _) => AckMoves(b, m, k, inp);
    case Pubcomp(_, _) => AckMoves(b, m, k, inp);
    case Subscribe(filters) =>
      SubscribeAllGrows(b, s, k, filters, inp.lost);
      GrowsMoves(b, r.value, None, inp.written);
    case Disconnect =>
      var b1 := b.(clients := b.clients[k := b.clients[k].(clean := true)]);
      DropGrows(b1, s, false, 0, inp.lost);
      assert Grows(b, r.value);
      GrowsMoves(b, r.value, None, inp.written);
    case _ =>
      SameTablesGrow(b, r.value);
      GrowsMoves(b, r.value, None, inp.written);
  }

  /** One turn of the worker moves every entry of every socket along its exchange, by the packet that
      passed in the turn, if at all. */
  lemma HandleMoves(b: Broker, m: Message, inp: Input)
    requires Linked(b) && Conserved(b, 0) && AllFit(b) && Bounded(b) && Admissible(b, m, inp) && !Promotes(b, m, inp)
    requires m.op in {Read, Write}
    ensures Moves(b, Handle(b, m, inp), Passed(b, m, inp), inp.written)
    ensures AllFit(Handle(b, m, inp))
  {
    var r, kind := Handle(b, m, inp), Passed(b, m, inp);
    if b.conns[m.sock].phase != Mqtt {
      OnTlsMoves(b, m.sock, inp, kind);
    } else if m.op == Write {
      WriteEventMoves(b, m.sock, inp.written, inp.lost);
    } else {
      OnPacketMoves(b, m, inp);
    }
    MovesFit(b, r, kind, inp.written);
  }

  lemma OnTlsMoves(b: Broker, s: Sock, inp: Input, kind: Option<Kind>)
    requires b.Shape() && Fresh(b, inp.willId)
    ensures Moves(b, OnTls(b, s, inp), kind, inp.written)
  {
    if inp.tls == Failed {
      DropGrows(b, s, true, inp.willId, inp.lost);
    } else {
      SameTablesGrow(b, OnTls(b, s, inp));
    }
    GrowsMoves(b, OnTls(b, s, inp), kind, inp.written);
  }

  lemma OnPacketMoves(b: Broker, m: Message, inp: Input)
    requires Linked(b) && Conserved(b, 0) && AllFit(b) && Bounded(b) && Admissible(b, m, inp) && !Promotes(b, m, inp)
    requires m.op == Read && b.conns[m.sock].phase == Mqtt
    ensures Moves(b, OnPacket(b, m.sock, inp), Passed(b, m, inp), inp.written)
  {
    var s, p, kind, r := m.sock, inp.packet, Passed(b, m, inp), OnPacket(b, m.sock, inp);
    DropGrows(b, s, true, inp.willId, inp.lost);
    GrowsMoves(b, Drop(b, s, true, inp.willId, inp.lost), kind, inp.written);
    var k := ClientAt(b.clients, b.conns[s].cid);
    if b.conns[s].cid != "" && k < |b.clients| {
      ReactMoves(b, m, k, inp);
    } else if p.Connect? && p.accepted && p.cid != "" {
      AcceptTables(b, s, p.cid, p.clean, p.will, inp.lost);
      SameTablesGrow(b, r);
      GrowsMoves(b, r, kind, inp.written);
    }
  }

  lemma AcceptTables(b: Broker, s: Sock, cid: string, clean: bool, will: Option<Will>, lost: set<nat>)
    requires b.Shape()
    ensures forall x: Sock :: Accept(b, s, cid, clean, will, lost).conns[x].table == b.conns[x].table
  {
  }

  /** A slot that a handler has not changed. */
  ghost predicate Untouched(b: Broker, r: Option<Broker>, x: Sock, i: nat)
    requires b.Shape() && i < |b.conns[x].table|
  {
    r.Some? ==> r.value.Shape() && i < |r.value.conns[x].table| && r.value.conns[x].table[i] == b.conns[x].table[i]
  }

  /** An acknowledgement never moves an entry of the opposite role, even one with the same identifier:
      PUBACK, PUBREC and PUBCOMP belong to the broker's deliveries, PUBREL to the peer's. */
  lemma AckKeepsOppositeRole(b: Broker, s: Sock, id: Id, wellFormed: bool, written: bool, lost: set<nat>, x: Sock, i: nat)
    requires b.Shape() && i < |b.conns[x].table|
    ensures !b.conns[x].table[i].state.Outgoing() ==>
              && Untouched(b, OnPuback(b, s, id, wellFormed, written, lost), x, i)
              && Untouched(b, OnPubrec(b, s, id, wellFormed, written, lost), x, i)
              && Untouched(b, OnPubcomp(b, s, id, wellFormed, lost), x, i)
    ensures b.conns[x].table[i].state.Outgoing() ==> Untouched(b, OnPubrel(b, s, id, wellFormed, lost), x, i)
  {
    if b.conns[x].table[i].state.Outgoing() {
      PubrelUntouched(b, s, id, wellFormed, lost, x, i);
    } else {
      PubackUntouched(b, s, id, wellFormed, written, lost, x, i);
      PubrecUntouched(b, s, id, wellFormed, written, lost, x, i);
      PubcompUntouched(b, s, id, wellFormed, lost, x, i);
    }
  }

  lemma PubackUntouched(b: Broker, s: Sock, id: Id, wellFormed: bool, written: bool, lost: set<nat>, x: Sock, i: nat)
    requires b.Shape() && i < |b.conns[x].table| && !b.conns[x].table[i].state.Outgoing()
    ensures Untouched(b, OnPuback(b, s, id, wellFormed, written, lost), x, i)
  {
  }

  lemma PubrecUntouched(b: Broker, s: Sock, id: Id, wellFormed: bool, written: bool, lost: set<nat>, x: Sock, i: nat)
    requires b.Shape() && i < |b.conns[x].table| && !b.conns[x].table[i].state.Outgoing()
    ensures Untouched(b, OnPubrec(b, s, id, wellFormed, written, lost), x, i)
  {
  }

  lemma PubcompUntouched(b: Broker, s: Sock, id: Id, wellFormed: bool, lost: set<nat>, x: Sock, i: nat)
    requires b.Shape() && i < |b.conns[x].table| && !b.conns[x].table[i].state.Outgoing()
    ensures Untouched(b, OnPubcomp(b, s, id, wellFormed, lost), x, i)
  {
  }

  lemma PubrelUntouched(b: Broker, s: Sock, id: Id, wellFormed: bool, lost: set<nat>, x: Sock, i: nat)
    requires b.Shape() && i < |b.conns[x].table| && b.conns[x].table[i].state.Outgoing()
    ensures Untouched(b, OnPubrel(b, s, id, wellFormed, lost), x, i)
  {
  }

  /** After an ill-formed PUBACK every entry still fits its exchange exactly when the message could not be
      written again, or was published at QoS 1: the code repeats it at the QoS of the message, not of the
      delivery. When it is repeated at QoS 1 nothing changes. */
  lemma IllFormedPubackExactly(b: Broker, s: Sock, id: Id, written: bool, lost: set<nat>)
    requires b.Shape() && Conserved(b, 0) && AllFit(b) && Bounded(b) && id != 0
    requires First(b.conns[s].table, Waiting(id, GetPuback)) < |b.conns[s].table|
    ensures var i := First(b.conns[s].table, Waiting(id, GetPuback));
            var r := OnPuback(b, s, id, false, written, lost);
            && r.Some? && id in b.store
            && (AllFit(r.value) <==> !written || b.store[id].qos == 1)
            && (r.value.conns[s].table[i] == b.conns[s].table[i] <==> written && b.store[id].qos == 1)
  {
    var t, r := b.conns[s].table, OnPuback(b, s, id, false, written, lost);
    var i := First(t, Waiting(id, GetPuback));
    NothingDangles(b, 0, s, i);
    assert Fits(t[i]) && t[i].Counted();
    RepeatMoves(b, s, id, written, lost);
    if !written || b.store[id].qos == 1 {
      MovesFit(b, r.value, Some(REPEAT), written);
    } else {
      assert r.value.conns[s].table[i] == t[i].(state := GetPubrec);
      assert !Fits(r.value.conns[s].table[i]);
    }
  }

  /** After an ill-formed PUBREC every entry fits its exchange; its own is unchanged exactly when the
      message could be written again. */
  lemma IllFormedPubrecExactly(b: Broker, s: Sock, id: Id, written: bool, lost: set<nat>)
    requires b.Shape() && Conserved(b, 0) && AllFit(b) && Bounded(b) && id != 0
    requires First(b.conns[s].table, Waiting(id, GetPubrec)) < |b.conns[s].table|
    ensures var i := First(b.conns[s].table, Waiting(id, GetPubrec));
            var r := OnPubrec(b, s, id, false, written, lost);
            r.Some? && AllFit(r.value) && (r.value.conns[s].table[i] == b.conns[s].table[i] <==> written)
  {
    var t, r := b.conns[s].table, OnPubrec(b, s, id, false, written, lost);
    var i := First(t, Waiting(id, GetPubrec));
    NothingDangles(b, 0, s, i);
    assert Fits(t[i]) && t[i].Counted();
    RepeatMoves(b, s, id, written, lost);
    MovesFit(b, r.value, Some(REPEAT), written);
  }

  /** One turn leaves every entry in a state of its exchange exactly when it is not such a PUBACK. */
  lemma HandleFitsExactly(b: Broker, m: Message, inp: Input)
    requires Linked(b) && Conserved(b, 0) && AllFit(b) && Bounded(b) && Admissible(b, m, inp) && m.op in {Read, Write}
    ensures AllFit(Handle(b, m, inp)) <==> !Promotes(b, m, inp)
  {
    if Promotes(b, m, inp) {
      IllFormedPubackExactly(b, m.sock, inp.packet.id, inp.written, inp.lost);
      assert Handle(b, m, inp) == OnPuback(b, m.sock, inp.packet.id, false, inp.written, inp.lost).value;
    } else {
      HandleMoves(b, m, inp);
    }
  }
}
