/** What the broker does as it stands where module Delivery repairs it, and what follows from what the
    code leaves behind. The two copies of a retained message, and identifiers that are in use, are in
    module PublishStoreAsWritten; module LostWakeups has a run in which the leftovers do harm.
 */
module AsWritten {
  import opened Protocol
  import opened Delivery
  import opened Conservation
  import opened Links

  // ---------- a client that connects again ----------

  /** The client after a CONNECT (worker.cpp:363-394): `sock` is set only when the client is new. */
  function AcceptedAsWritten(b: Broker, s: Sock, cid: string, clean: bool, will: Option<Will>, lost: set<nat>): (r: Broker)
    requires b.Shape()
    ensures r.Shape()
  {
    var r, k := Accept(b, s, cid, clean, will, lost), ClientAt(b.clients, cid);
    if k == |b.clients| then r
    else r.(clients := r.clients[k := r.clients[k].(sock := b.clients[k].sock)])
  }

  /** The connection and its client name each other exactly when the client is new. */
  lemma ReconnectExactly(b: Broker, s: Sock, cid: string, clean: bool, will: Option<Will>, lost: set<nat>, max: nat)
    requires Tidy(b, max) && s <= max && b.conns[s].phase == Mqtt && cid != "" && b.conns[s].cid == ""
    ensures Linked(AcceptedAsWritten(b, s, cid, clean, will, lost)) <==> ClientAt(b.clients, cid) == |b.clients|
  {
    var r, k := AcceptedAsWritten(b, s, cid, clean, will, lost), ClientAt(b.clients, cid);
    if k == |b.clients| {
      AcceptTidy(b, s, cid, clean, will, lost, max);
    } else {
      assert b.clients[k].sock != s;
      assert r.conns[s].cid == cid && r.clients[k].cid == cid && r.clients[k].sock != s;
      assert forall i :: 0 <= i < |r.clients| ==> r.clients[i].cid == b.clients[i].cid;
      assert !HasOwner(r.clients, r.conns[s].cid, s);
    }
  }

  /** Nothing that is published afterwards reaches the client on its new socket. */
  lemma ReconnectedIsNotReached(b: Broker, s: Sock, cid: string, clean: bool, will: Option<Will>, lost: set<nat>, topic: Topic)
    requires Linked(b) && cid != "" && b.conns[s].cid == "" && ClientAt(b.clients, cid) < |b.clients|
    ensures s !in Targets(AcceptedAsWritten(b, s, cid, clean, will, lost).clients, 0, topic)
  {
    var r := AcceptedAsWritten(b, s, cid, clean, will, lost);
    forall i | 0 <= i < |r.clients| ensures r.clients[i].sock != s {
      assert b.clients[i].sock != s;
    }
    TargetsAreClients(r.clients, 0, topic, s);
  }

  lemma {:induction false} TargetsAreClients(clients: seq<Client>, i: nat, topic: Topic, s: Sock)
    requires i <= |clients| && forall j :: i <= j < |clients| ==> clients[j].sock != s
    ensures s !in Targets(clients, i, topic)
    decreases |clients| - i
  {
    if i < |clients| {
      var c, rest := clients[i], Targets(clients, i + 1, topic);
      TargetsAreClients(clients, i + 1, topic, s);
      assert Targets(clients, i, topic) == rest || (c.sock != -1 && Targets(clients, i, topic) == [c.sock as Sock] + rest);
    }
  }

  // ---------- the table that a dropped connection leaves behind ----------

  /** A fan-out touches no connection that no client is on. */
  lemma {:induction false} FanOutSpares(b: Broker, i: nat, topic: Topic, qos: nat, id: Id, lost: set<nat>, s: Sock)
    requires b.Shape() && id in b.store && i <= |b.clients| && forall j :: i <= j < |b.clients| ==> b.clients[j].sock != s
    ensures FanOut(b, i, topic, qos, id, lost).conns[s] == b.conns[s]
    decreases |b.clients| - i
  {
    if i < |b.clients| {
      var c := b.clients[i];
      if !Considered(c, topic) {
        FanOutSpares(b, i + 1, topic, qos, id, lost, s);
      } else if c.sock != -1 {
        FanOutSpares(Deliver(b, c.sock, id, Min(c.subs[topic], qos), lost), i + 1, topic, qos, id, lost, s);
      }
    }
  }

  /** `drop_conn` keeps every entry of the socket's table: whatever was to be sent to the old connection
      is there when the next one is accepted on the socket. */
  lemma DropLeavesTable(b: Broker, s: Sock, sendWill: bool, willId: Id, lost: set<nat>)
    requires Linked(b)
    ensures Drop(b, s, sendWill, willId, lost).conns[s] == Conn(Uninit, "", b.conns[s].table)
  {
    var b1 := Send(b, Message(s, DelAll), lost);
    var k := ClientAt(b.clients, b.conns[s].cid);
    if b.conns[s].cid != "" && k < |b.clients| && b.clients[k].will.Some? && sendWill {
      var c := b.clients[k];
      var w := c.will.value;
      var hidden := b1.(clients := b.clients[k := c.(sock := -1)]);
      if w.data != [] {
        var b0 := if willId in b.store then hidden else hidden.(store := b.store[willId := Node(1, w.qos, w.data)]);
        forall j | 0 <= j < |b0.clients| ensures b0.clients[j].sock != s {
          assert j != k ==> b.clients[j].cid != c.cid;
        }
        FanOutSpares(b0, 0, w.topic, w.qos, willId, lost, s);
      }
    }
  }
}
