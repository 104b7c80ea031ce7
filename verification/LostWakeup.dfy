/** A run from power-on that ends in a lost wake-up although every queue send succeeds: a client subscribes
    to a topic and publishes on it, its connection closes before its own delivery is written, and the next
    connection on the socket completes its handshake with the entry still in the table
    (main/worker.cpp:149-178 and :258-265). */
module LostWakeups {
  import opened Protocol
  import opened Delivery
  import opened ConservationSteps
  import opened Wakeup
  import opened EventLoop
  import opened Runs
  import opened Scenes

  const TOPIC := "t"

  function Subscriber(s: Sock, clean: bool, subs: map<Topic, nat>): Client { Client("c", s, clean, false, subs, None) }

  // ---------- what the packets do ----------

  /** The scene after a client has connected. */
  lemma Connects(x: Scene, evs: seq<Event>, place: nat, clean: bool) returns (y: Scene, evs': seq<Event>, place': nat)
    requires Reached(x, evs, place) && x.conn == Conn(Mqtt, "", []) && x.clients == [] && x.out == [] && x.pending == [Message(x.s, Read)] && 9 !in x.store
    ensures y == x.(conn := Conn(Mqtt, "c", []), clients := [Subscriber(x.s, clean, map[])], out := [Message(x.s, Read)], tries := 1, pending := [])
    ensures Reached(y, evs', place') && place' == Place(x.Sys(), place)
  {
    y := x.(conn := Conn(Mqtt, "c", []), clients := [Subscriber(x.s, clean, map[])], out := [Message(x.s, Read)], tries := 1, pending := []);
    var b, inp := Start(x.Broker()), Doing(Connect(true, "c", clean, None));
    assert b.conns[x.s] == x.conn;
    assert Handle(b, Message(x.s, Read), inp) == Accept(b, x.s, "c", clean, None, {});
    assert Accept(b, x.s, "c", clean, None, {}).conns == y.Broker().conns;
    evs', place' := Turns(x, evs, place, Connect(true, "c", clean, None), y);
  }

  /** And after it has subscribed to the topic, which retains nothing. */
  lemma Subscribes(x: Scene, evs: seq<Event>, place: nat, clean: bool, qos: nat) returns (y: Scene, evs': seq<Event>, place': nat)
    requires Reached(x, evs, place) && x.conn == Conn(Mqtt, "c", []) && x.clients == [Subscriber(x.s, clean, map[])] && qos <= 2
    requires x.out == [] && x.pending == [Message(x.s, Read)] && 9 !in x.store && x.retained == map[]
    ensures y == x.(clients := [Subscriber(x.s, clean, map[TOPIC := qos])], out := [Message(x.s, Read)], tries := 1, pending := [])
    ensures Reached(y, evs', place') && place' == Place(x.Sys(), place)
  {
    y := x.(clients := [Subscriber(x.s, clean, map[TOPIC := qos])], out := [Message(x.s, Read)], tries := 1, pending := []);
    var b, inp := Start(x.Broker()), Doing(Subscribe([(TOPIC, qos)]));
    assert b.conns[x.s] == x.conn && ClientAt(b.clients, "c") == 0;
    assert SubscribeAll(b, x.s, 0, [(TOPIC, qos)], {}) == SubscribeAll(SubscribeOne(b, x.s, 0, TOPIC, qos, {}), x.s, 0, [], {});
    evs', place' := Turns(x, evs, place, Subscribe([(TOPIC, qos)]), y);
  }

  /** A client that has connected and subscribed, with its next packet waiting. */
  lemma Prepares(listenSock: nat, s: Sock, clean: bool, qos: nat) returns (x: Scene, evs: seq<Event>, place: nat)
    requires qos <= 2
    ensures x == Scene(listenSock, s, Conn(Mqtt, "c", []), [Subscriber(s, clean, map[TOPIC := qos])], map[], map[], [], 1, [Message(s, Read)], [], {}, {}, [])
    ensures Reached(x, evs, place) && place == 1
  {
    x, evs, place := Begins(listenSock, s);
    x, evs, place := Handshakes(x, evs, place);
    x, evs, place := ReadTurn(x, evs, place);
    x, evs, place := Connects(x, evs, place, clean);
    x, evs, place := ReadTurn(x, evs, place);
    x, evs, place := Subscribes(x, evs, place, clean, qos);
    x, evs, place := ReadTurn(x, evs, place);
  }

  /** It publishes at QoS 0 to itself. */
  lemma PublishesToItself(x: Scene, evs: seq<Event>, place: nat, data: Bytes) returns (y: Scene, evs': seq<Event>, place': nat)
    requires Reached(x, evs, place) && x.conn == Conn(Mqtt, "c", []) && x.clients == [Subscriber(x.s, true, map[TOPIC := 0])]
    requires x.store == map[] && x.out == [] && x.pending == [Message(x.s, Read)] && data != []
    ensures y == x.(conn := Conn(Mqtt, "c", [Entry(7, SendPublish, 0, true)]), store := map[7 := Node(1, 0, data)],
                    out := [Message(x.s, Read), Message(x.s, DelRead), Message(x.s, Write)], tries := 3, pending := [])
    ensures Reached(y, evs', place') && place' == Place(x.Sys(), place)
  {
    y := x.(conn := Conn(Mqtt, "c", [Entry(7, SendPublish, 0, true)]), store := map[7 := Node(1, 0, data)],
            out := [Message(x.s, Read), Message(x.s, DelRead), Message(x.s, Write)], tries := 3, pending := []);
    var b, packet := Start(x.Broker()), Publish(TOPIC, 0, false, 7, data);
    assert b.conns[x.s] == x.conn && ClientAt(b.clients, "c") == 0;
    var b0 := Send(b, Message(x.s, Read), {}).(store := map[7 := Node(1, 0, data)]);
    var d := Deliver(b0, x.s, 7, 0, {});
    assert FanOut(b0, 0, TOPIC, 0, 7, {}) == FanOut(d, 1, TOPIC, 0, 7, {}) == d;
    assert AddEntry([], Entry(7, SendPublish, 0, true)) == [Entry(7, SendPublish, 0, true)];
    assert Release(d.store, 7) == y.store;
    assert Handle(b, Message(x.s, Read), Doing(packet)) == OnPublish(b, x.s, TOPIC, 0, false, 7, data, {});
    assert OnPublish(b, x.s, TOPIC, 0, false, 7, data, {}).conns == y.Broker().conns;
    evs', place' := Turns(x, evs, place, packet, y);
  }

  /** Its connection is closed. */
  lemma Closes(x: Scene, evs: seq<Event>, place: nat, table: seq<Entry>) returns (y: Scene, evs': seq<Event>, place': nat)
    requires Reached(x, evs, place) && x.conn == Conn(Mqtt, "c", table) && x.clients == [Subscriber(x.s, true, map[TOPIC := 0])]
    requires x.out == [] && x.pending == [Message(x.s, Read)] && 9 !in x.store
    ensures y == x.(conn := Conn(Uninit, "", table), clients := [], out := [Message(x.s, DelAll)], tries := 1, pending := [])
    ensures Reached(y, evs', place') && place' == Place(x.Sys(), place)
  {
    y := x.(conn := Conn(Uninit, "", table), clients := [], out := [Message(x.s, DelAll)], tries := 1, pending := []);
    var b := Start(x.Broker());
    assert b.conns[x.s] == x.conn && ClientAt(b.clients, "c") == 0;
    assert b.clients[..0] + b.clients[1..] == [];
    assert Handle(b, Message(x.s, Read), Doing(Closed)) == Drop(b, x.s, true, 9, {});
    assert Drop(b, x.s, true, 9, {}).conns == y.Broker().conns;
    evs', place' := Turns(x, evs, place, Closed, y);
  }

  // ---------- the run ----------

  /** The wake-up that is lost: a legal run from power-on, in the order of the select task's passes and with
      every queue send accepted, after which a live socket has something to send and no write turn on its
      way. */
  lemma WakeupIsLost(listenSock: nat, s: Sock, data: Bytes) returns (evs: seq<Event>)
    requires data != [] && s != listenSock
    ensures Legal(PowerOn(listenSock), evs, Nothing) && InOrder(PowerOn(listenSock), evs, 0, Nothing)
    ensures forall i :: 0 <= i < |evs| && evs[i].Turn? ==> evs[i].inp.lost == {}
    ensures var end := Run(PowerOn(listenSock), evs, Nothing); end.b.Shape() && !SocketAwake(end, s) && !NoLostWakeup(end)
  {
    var x, place;
    x, evs, place := Prepares(listenSock, s, true, 0);
    x, evs, place := PublishesToItself(x, evs, place, data);
    x, evs, place := Pushes(x, evs, place);
    x, evs, place := Receives(x, evs, place);
    x, evs, place := IsReadable(x, evs, place);
    x, evs, place := Pushes(x, evs, place);
    x, evs, place := Pushes(x, evs, place);
    x, evs, place := Closes(x, evs, place, x.conn.table);
    x, evs, place := Pushes(x, evs, place);
    x, evs, place := Accepts(x, evs, place);
    x, evs, place := Handshakes(x, evs, place);
    NotAwake(x);
  }

  lemma NotAwake(x: Scene)
    requires x.conn == Conn(Mqtt, "", [Entry(7, SendPublish, 0, true)]) && x.pending == [] && x.rd == {} && x.wr == {}
    requires x.toFds == [Message(x.s, DelRead), Message(x.s, Write), Message(x.s, DelAll)] && x.out == [Message(x.s, Read)]
    ensures x.Broker().Shape() && !SocketAwake(x.Sys(), x.s)
  {
    var r, d, w, a := Message(x.s, Read), Message(x.s, DelRead), Message(x.s, Write), Message(x.s, DelAll);
    assert x.conn.table[0].Pending() && x.Broker().conns[x.s] == x.conn;
    assert x.toFds + x.out == [d, w] + [a] + [r];
    AfterSnoc([d, w] + [a], r, x.s, Watch(false, false));
    AfterSnoc([d, w], a, x.s, Watch(false, false));
  }
}
