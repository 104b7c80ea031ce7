/** What becomes of a client's session when it connects, subscribes, unsubscribes and goes: the list of
    clients is a map from client identifiers to sessions, and each handler changes exactly one of them
    (sections 3.1.2.4, 3.1.4 and 3.8.4 of MQTT 3.1.1). */
module Sessions {
  import opened Protocol
  import opened Delivery
  import opened Conservation

  function Session(clients: seq<Client>, cid: string): Option<Client> {
    var k := ClientAt(clients, cid);
    if k < |clients| then Some(clients[k]) else None
  }

  ghost predicate Unique(clients: seq<Client>) {
    forall i, j :: 0 <= i < j < |clients| ==> clients[i].cid != clients[j].cid
  }

  /** With unique identifiers a client's place is where its identifier is. */
  lemma PlaceIs(clients: seq<Client>, k: nat)
    requires k < |clients| && Unique(clients)
    ensures ClientAt(clients, clients[k].cid) == k
  {
  }

  lemma Replaced(clients: seq<Client>, k: nat, c: Client, cid: string)
    requires k < |clients| && Unique(clients) && c.cid == clients[k].cid
    ensures Session(clients[k := c], cid) == if cid == c.cid then Some(c) else Session(clients, cid)
  {
    var t := clients[k := c];
    assert Unique(t);
    PlaceIs(t, k);
    var i, j := ClientAt(clients, cid), ClientAt(t, cid);
    assert forall n :: 0 <= n < |t| ==> t[n].cid == clients[n].cid;
    assert i == j;
  }

  lemma Removed(clients: seq<Client>, k: nat, cid: string)
    requires k < |clients| && Unique(clients)
    ensures Session(clients[..k] + clients[k + 1..], cid) == if cid == clients[k].cid then None else Session(clients, cid)
  {
    var t := clients[..k] + clients[k + 1..];
    assert forall n :: 0 <= n < |t| ==> t[n] == clients[if n < k then n else n + 1];
    var i, j := ClientAt(clients, cid), ClientAt(t, cid);
    if cid != clients[k].cid && i < |clients| {
      assert t[if i < k then i else i - 1].cid == cid;
      assert Unique(t);
      PlaceIs(t, if i < k then i else i - 1);
    }
  }

  lemma Appended(clients: seq<Client>, c: Client, cid: string)
    requires ClientAt(clients, c.cid) == |clients|
    ensures Session(clients + [c], cid) == if cid == c.cid then Some(c) else Session(clients, cid)
  {
    SearchOn(clients, c, cid);
    if ClientAt(clients, cid) < |clients| {
      assert (clients + [c])[ClientAt(clients, cid)] == clients[ClientAt(clients, cid)];
    }
  }

  lemma {:induction false} SearchOn(clients: seq<Client>, c: Client, cid: string)
    ensures ClientAt(clients + [c], cid)
         == if ClientAt(clients, cid) < |clients| then ClientAt(clients, cid) else if c.cid == cid then |clients| else |clients| + 1
  {
    if clients == [] {
      assert [] + [c] == [c] && [c][1..] == [];
    } else if clients[0].cid != cid {
      SearchOn(clients[1..], c, cid);
      assert (clients + [c])[1..] == clients[1..] + [c];
    }
  }

  /** A dropped connection: a clean session ends, another is kept off line with its subscriptions, and no
      other session changes, whatever its will causes. */
  lemma DropSession(b: Broker, s: Sock, sendWill: bool, willId: Id, lost: set<nat>, cid: string)
    requires Linked(b)
    ensures var r, was := Drop(b, s, sendWill, willId, lost), Session(b.clients, cid);
            Session(r.clients, cid)
            == if cid == "" || cid != b.conns[s].cid || was == None then was
               else if was.value.clean then None
               else Some(was.value.(sock := -1))
  {
    var k := ClientAt(b.clients, b.conns[s].cid);
    if b.conns[s].cid != "" && k < |b.clients| {
      if b.clients[k].clean {
        Removed(b.clients, k, cid);
      } else {
        Replaced(b.clients, k, b.clients[k].(sock := -1), cid);
      }
    }
  }

  /** An accepted CONNECT: the client is on this socket and nowhere else, with the session flag and the will
      of the CONNECT. It keeps its subscriptions unless its earlier session was clean and still connected. */
  lemma AcceptSession(b: Broker, s: Sock, cid: string, clean: bool, will: Option<Will>, lost: set<nat>, other: string)
    requires Linked(b) && cid != "" && b.conns[s].cid == ""
    ensures var r, was := Accept(b, s, cid, clean, will, lost), Session(b.clients, cid);
            && Session(r.clients, other)
               == (if other != cid then Session(b.clients, other)
                   else Some(Client(cid, s, clean, false,
                                    if was == None || (was.value.clean && was.value.sock != -1) then map[] else was.value.subs, will)))
            && r.conns[s].cid == cid
            && forall x: Sock :: x != s ==> r.conns[x].cid != cid
  {
    var k, r := ClientAt(b.clients, cid), Accept(b, s, cid, clean, will, lost);
    if k == |b.clients| {
      Appended(b.clients, r.clients[k], other);
    } else {
      Replaced(b.clients, k, r.clients[k], other);
    }
    forall x: Sock | x != s ensures r.conns[x].cid != cid {
      if b.conns[x].cid == cid {
        assert HasOwner(b.clients, b.conns[x].cid, x);
        var i :| 0 <= i < |b.clients| && b.clients[i].cid == cid && b.clients[i].sock == x;
        PlaceIs(b.clients, i);
      }
    }
  }

  /** The subscriptions that a SUBSCRIBE asks for: of two filters for one topic the later one counts. */
  function Subscribed(subs: map<Topic, nat>, filters: seq<(Topic, nat)>): map<Topic, nat>
    decreases |filters|
  {
    if filters == [] then subs else Subscribed(subs[filters[0].0 := Min(filters[0].1, 2)], filters[1..])
  }

  /** A topic's QoS afterwards is that of the last filter for it, at most 2; without one, what it was. */
  lemma {:induction false} LastFilterCounts(subs: map<Topic, nat>, filters: seq<(Topic, nat)>, topic: Topic, i: nat)
    requires i < |filters| ==> filters[i].0 == topic
    requires forall j :: i < j < |filters| ==> filters[j].0 != topic
    requires i >= |filters| ==> forall j :: 0 <= j < |filters| ==> filters[j].0 != topic
    ensures var r := Subscribed(subs, filters);
            if i < |filters| then topic in r && r[topic] == Min(filters[i].1, 2)
            else (topic in r <==> topic in subs) && (topic in r ==> r[topic] == subs[topic])
    decreases |filters|
  {
    if filters != [] {
      LastFilterCounts(subs[filters[0].0 := Min(filters[0].1, 2)], filters[1..], topic, if i == 0 then |filters| else i - 1);
    }
  }

  /** A SUBSCRIBE changes the subscriptions of its own client and nothing else of any session, whatever
      retained messages it sends. */
  lemma {:induction false} SubscribeSession(b: Broker, s: Sock, k: nat, filters: seq<(Topic, nat)>, lost: set<nat>)
    requires b.Shape() && k < |b.clients|
    ensures SubscribeAll(b, s, k, filters, lost).clients
         == b.clients[k := b.clients[k].(subs := Subscribed(b.clients[k].subs, filters))]
    decreases |filters|
  {
    if filters != [] {
      SubscribeSession(SubscribeOne(b, s, k, filters[0].0, filters[0].1, lost), s, k, filters[1..], lost);
    }
  }

  /** An UNSUBSCRIBE takes away exactly its topics, but never the empty one. */
  lemma {:induction false} UnsubscribedExactly(subs: map<Topic, nat>, topics: seq<Topic>, topic: Topic)
    ensures var r := Unsubscribed(subs, topics);
            (topic in r <==> topic in subs && (topic == "" || topic !in topics)) && (topic in r ==> r[topic] == subs[topic])
  {
    if topics != [] {
      UnsubscribedExactly(if topics[0] == "" then subs else subs - {topics[0]}, topics[1..], topic);
    }
  }
}
