/** Deliveries finish: every well-formed acknowledgement and every write turn that finds something to
    send brings the tables strictly closer to being empty, and only new publications, subscriptions and
    wills add work. */
module Progress {
  import opened Protocol
  import opened Delivery
  import opened Conservation
  import opened ConservationSteps
  import opened Births
  import opened Exchange

  function WorkLeft(b: Broker): nat { Total(b.conns, Work) }

  /** No work is left exactly when every slot of every table is free. */
  lemma {:induction false} NoWorkLeft(conns: seq<Conn>)
    ensures Total(conns, Work) == 0
       <==> forall s, i :: 0 <= s < |conns| && 0 <= i < |conns[s].table| ==> conns[s].table[i].id == 0
  {
    if conns != [] {
      NoWorkLeft(conns[1..]);
      NoWorkInTable(conns[0].table);
      assert forall s :: 0 < s < |conns| ==> conns[s] == conns[1..][s - 1];
      if Total(conns, Work) == 0 {
        forall s, i | 0 <= s < |conns| && 0 <= i < |conns[s].table|
          ensures conns[s].table[i].id == 0
        {
          assert s > 0 ==> conns[1..][s - 1].table[i].id == 0;
        }
      }
      if forall s, i :: 0 <= s < |conns| && 0 <= i < |conns[s].table| ==> conns[s].table[i].id == 0 {
        forall s, i | 0 <= s < |conns[1..]| && 0 <= i < |conns[1..][s].table|
          ensures conns[1..][s].table[i].id == 0
        {
          assert conns[s + 1].table[i].id == 0;
        }
      }
    }
  }

  lemma {:induction false} NoWorkInTable(t: seq<Entry>)
    ensures Sum(t, Work) == 0 <==> forall i :: 0 <= i < |t| ==> t[i].id == 0
  {
    if t != [] {
      NoWorkInTable(t[1..]);
      assert forall i :: 0 < i < |t| ==> t[i] == t[1..][i - 1];
    }
  }

  lemma {:induction false} SameWork(b: seq<Conn>, c: seq<Conn>)
    requires |b| == |c| && forall s :: 0 <= s < |b| ==> b[s].table == c[s].table
    ensures Total(b, Work) == Total(c, Work)
  {
    if b != [] {
      SameWork(b[1..], c[1..]);
    }
  }

  /** Serving an entry leaves less to do for it, and nothing else changes. */
  lemma ServeWorks(b: Broker, s: Sock, i: nat, written: bool)
    requires b.Shape() && Conserved(b, 0) && i < |b.conns[s].table| && b.conns[s].table[i].Pending()
    ensures WorkLeft(Serve(b, s, i, written)) < WorkLeft(b)
  {
    var e := b.conns[s].table[i];
    var r := Serve(b, s, i, written);
    if e.state.SendPublish? {
      NothingDangles(b, 0, s, i);
    }
    var f := r.conns[s].table[i];
    assert r.conns == SetEntry(b, s, i, f).conns;
    SetEntryTotal(b, s, i, f, Work);
  }

  /** A write event does work exactly when it finds something to send. */
  lemma WriteEventWorks(b: Broker, s: Sock, written: bool, lost: set<nat>)
    requires b.Shape() && Conserved(b, 0)
    ensures if NoPending(b.conns[s].table) then WorkLeft(WriteEvent(b, s, written, lost)) == WorkLeft(b)
            else WorkLeft(WriteEvent(b, s, written, lost)) < WorkLeft(b)
  {
    var t := b.conns[s].table;
    var i := First(t, AnyPending);
    if i < |t| {
      ServeWorks(b, s, i, written);
    }
  }

  /** Less is left to do; an acknowledgement with identifier 0 leaves things as they are. */
  ghost predicate Reduced(b: Broker, c: Broker, id: Id) {
    if id == 0 then WorkLeft(c) == WorkLeft(b) else WorkLeft(c) < WorkLeft(b)
  }

  /** So does every well-formed acknowledgement for which an entry waits. */
  lemma PublishAckWorks(b: Broker, s: Sock, id: Id, written: bool, lost: set<nat>)
    requires b.Shape()
    ensures var r := OnPuback(b, s, id, true, written, lost);
            (r.Some? <==> Waits(b.conns[s].table, id, GetPuback)) && (r.Some? ==> Reduced(b, r.value, id))
    ensures var r := OnPubrec(b, s, id, true, written, lost);
            (r.Some? <==> Waits(b.conns[s].table, id, GetPubrec)) && (r.Some? ==> Reduced(b, r.value, id))
  {
    WaitsFirst(b.conns[s].table, id, GetPuback);
    WaitsFirst(b.conns[s].table, id, GetPubrec);
    var t := b.conns[s].table;
    var i := First(t, Waiting(id, GetPuback));
    if i < |t| { SetEntryTotal(b, s, i, Freed(t[i]), Work); }
    var j := First(t, Waiting(id, GetPubrec));
    if j < |t| { SetEntryTotal(b, s, j, t[j].(state := SendPubrel), Work); }
  }

  lemma ReleaseAckWorks(b: Broker, s: Sock, id: Id, lost: set<nat>)
    requires b.Shape()
    ensures var r := OnPubrel(b, s, id, true, lost);
            (r.Some? <==> Waits(b.conns[s].table, id, GetPubrel)) && (r.Some? ==> Reduced(b, r.value, id))
    ensures var r := OnPubcomp(b, s, id, true, lost);
            (r.Some? <==> Waits(b.conns[s].table, id, GetPubcomp)) && (r.Some? ==> Reduced(b, r.value, id))
  {
    WaitsFirst(b.conns[s].table, id, GetPubrel);
    WaitsFirst(b.conns[s].table, id, GetPubcomp);
    var t := b.conns[s].table;
    var i := First(t, Waiting(id, GetPubrel));
    if i < |t| { SetEntryTotal(b, s, i, t[i].(state := SendPubcomp), Work); }
    var j := First(t, Waiting(id, GetPubcomp));
    if j < |t| { SetEntryTotal(b, s, j, Freed(t[j]), Work); }
  }

  /** The turn brings no publication, no SUBSCRIBE, no ill-formed acknowledgement and no dropped
      connection. */
  ghost predicate Quiet(b: Broker, m: Message, inp: Input)
    requires b.Shape()
  {
    var s, p := m.sock, inp.packet;
    if b.conns[s].phase != Mqtt then inp.tls != Failed
    else m.op == Read ==>
      && !p.Publish? && !p.Subscribe? && !p.Disconnect? && !IllFormed(p)
      && var k := ClientAt(b.clients, b.conns[s].cid);
         if b.conns[s].cid == "" || k == |b.clients| then p.Connect? && p.accepted && p.cid != ""
         else React(b, s, k, p, inp.written, inp.lost).Some?
  }

  /** The turn serves an entry: a write turn on a table with something to send, or an acknowledgement on
      an open session. */
  ghost predicate Effective(b: Broker, m: Message, inp: Input)
    requires b.Shape()
  {
    && b.conns[m.sock].phase == Mqtt
    && if m.op == Write then !NoPending(b.conns[m.sock].table)
       else b.conns[m.sock].cid != "" && ClientAt(b.clients, b.conns[m.sock].cid) < |b.clients| && IsAck(inp.packet) && inp.packet.id != 0
  }

  lemma AckWorks(b: Broker, s: Sock, k: nat, p: Packet, written: bool, lost: set<nat>)
    requires b.Shape() && k < |b.clients| && IsAck(p) && !IllFormed(p)
    ensures var r := React(b, s, k, p, written, lost); r.Some? ==> Reduced(b, r.value, p.id)
  {
    PublishAckWorks(b, s, p.id, written, lost);
    ReleaseAckWorks(b, s, p.id, lost);
  }

  /** A quiet turn never adds work, and does some whenever it is effective. */
  lemma QuietTurnWorks(b: Broker, m: Message, inp: Input)
    requires Linked(b) && Conserved(b, 0) && Admissible(b, m, inp) && Quiet(b, m, inp) && m.op in {Read, Write}
    ensures WorkLeft(Handle(b, m, inp)) + (if Effective(b, m, inp) then 1 else 0) <= WorkLeft(b)
  {
    var s, p, r := m.sock, inp.packet, Handle(b, m, inp);
    if b.conns[s].phase != Mqtt {
      SameWork(b.conns, r.conns);
    } else if m.op == Write {
      WriteEventWorks(b, s, inp.written, inp.lost);
    } else if OnSession(b, m) {
      QuietPacketWorks(b, m, inp);
    } else {
      AcceptTables(b, s, p.cid, p.clean, p.will, inp.lost);
      SameWork(b.conns, r.conns);
    }
  }

  lemma QuietPacketWorks(b: Broker, m: Message, inp: Input)
    requires b.Shape() && OnSession(b, m) && Quiet(b, m, inp)
    ensures WorkLeft(OnPacket(b, m.sock, inp)) + (if Effective(b, m, inp) then 1 else 0) <= WorkLeft(b)
  {
    var k, p := ClientAt(b.clients, b.conns[m.sock].cid), inp.packet;
    OnSessionIs(b, m, inp);
    if IsAck(p) {
      AckWorks(b, m.sock, k, p, inp.written, inp.lost);
    } else {
      SameWork(b.conns, React(b, m.sock, k, p, inp.written, inp.lost).value.conns);
    }
  }
}
