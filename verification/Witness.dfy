/** Each of the turns that the theorems about runs exclude can come: runs from power-on, in the order of the
    select task's passes and with every queue send accepted, up to the turn in which the code goes wrong. */
module Witnesses {
  import opened Protocol
  import opened Delivery
  import opened Conservation
  import opened ConservationSteps
  import opened EventLoop
  import opened Exchange
  import opened FanOuts
  import opened Births
  import opened Faults
  import opened Runs
  import opened Scenes
  import opened LostWakeups

  /** A run that the environment can make happen. */
  ghost predicate Possible(listenSock: nat, evs: seq<Event>) {
    && Legal(PowerOn(listenSock), evs, Nothing) && InOrder(PowerOn(listenSock), evs, 0, Nothing)
    && forall i :: 0 <= i < |evs| && evs[i].Turn? ==> evs[i].inp.lost == {}
  }

  // ---------- an unanswered turn ----------

  /** A packet of an unknown type leaves its socket without any turn on its way (worker.cpp:769-775). */
  lemma UnansweredTurn(listenSock: nat, s: Sock) returns (evs: seq<Event>)
    requires s != listenSock
    ensures Possible(listenSock, evs)
    ensures var end := Run(PowerOn(listenSock), evs, Nothing); end.b.Shape() && !SocketHeard(end, s)
  {
    var x, place;
    x, evs, place := Prepares(listenSock, s, true, 0);
    var b, y := Start(x.Broker()), x.(pending := [], tries := 0);
    assert b.conns[s] == x.conn && ClientAt(b.clients, "c") == 0;
    assert Handle(b, Message(s, Read), Doing(Other)) == b;
    evs, place := Turns(x, evs, place, Other, y);
    assert y.Broker().conns[s] == y.conn && y.toFds + y.out == [];
  }

  // ---------- the table index -1 ----------

  /** A client with a kept session goes off line; another publishes on its topic. */
  lemma OfflineIndex(listenSock: nat, s: Sock, data: Bytes) returns (evs: seq<Event>)
    requires data != [] && s != listenSock
    ensures Possible(listenSock, evs)
    ensures var end, packet := Run(PowerOn(listenSock), evs, Nothing), Publish(TOPIC, 0, false, 7, data);
            && end.b.Shape() && end.pending == [Message(s, Read)] && Admissible(Start(end.b), Message(s, Read), Doing(packet))
            && Handle(Start(end.b), Message(s, Read), Doing(packet)).fault
  {
    var x, place;
    x, evs, place := Prepares(listenSock, s, false, 0);
    x, evs, place := GoesOffline(x, evs, place);
    x, evs, place := Pushes(x, evs, place);
    x, evs, place := Receives(x, evs, place);
    x, evs, place := Accepts(x.(rd := {}, wr := {}), evs, place);
    x, evs, place := Handshakes(x, evs, place);
    x, evs, place := ReadTurn(x, evs, place);
    x, evs, place := OtherConnects(x, evs, place);
    x, evs, place := ReadTurn(x, evs, place);
    var b := Start(x.Broker());
    assert b.conns[s] == x.conn && ClientAt(b.clients, "d") == 1;
    assert OfflineSubscriber(b.clients[0], TOPIC);
    HandleFaultsExactly(b, Message(s, Read), Doing(Publish(TOPIC, 0, false, 7, data)));
  }

  lemma GoesOffline(x: Scene, evs: seq<Event>, place: nat) returns (y: Scene, evs': seq<Event>, place': nat)
    requires Reached(x, evs, place) && x.conn == Conn(Mqtt, "c", []) && x.clients == [Subscriber(x.s, false, map[TOPIC := 0])]
    requires x.out == [] && x.pending == [Message(x.s, Read)] && 9 !in x.store
    ensures y == x.(conn := Conn(Uninit, "", []), clients := [Subscriber(x.s, false, map[TOPIC := 0]).(sock := -1)],
                    out := [Message(x.s, DelAll)], tries := 1, pending := [])
    ensures Reached(y, evs', place') && place' == Place(x.Sys(), place)
  {
    y := x.(conn := Conn(Uninit, "", []), clients := [Subscriber(x.s, false, map[TOPIC := 0]).(sock := -1)],
            out := [Message(x.s, DelAll)], tries := 1, pending := []);
    var b := Start(x.Broker());
    assert b.conns[x.s] == x.conn && ClientAt(b.clients, "c") == 0;
    assert Handle(b, Message(x.s, Read), Doing(Closed)) == Drop(b, x.s, true, 9, {});
    assert Drop(b, x.s, true, 9, {}).conns == y.Broker().conns;
    evs', place' := Turns(x, evs, place, Closed, y);
  }

  lemma OtherConnects(x: Scene, evs: seq<Event>, place: nat) returns (y: Scene, evs': seq<Event>, place': nat)
    requires Reached(x, evs, place) && x.conn == Conn(Mqtt, "", []) && x.clients == [Subscriber(x.s, false, map[TOPIC := 0]).(sock := -1)]
    requires x.out == [] && x.pending == [Message(x.s, Read)] && 9 !in x.store
    ensures y == x.(conn := Conn(Mqtt, "d", []), clients := x.clients + [Client("d", x.s, true, false, map[], None)],
                    out := [Message(x.s, Read)], tries := 1, pending := [])
    ensures Reached(y, evs', place') && place' == Place(x.Sys(), place)
  {
    y := x.(conn := Conn(Mqtt, "d", []), clients := x.clients + [Client("d", x.s, true, false, map[], None)],
            out := [Message(x.s, Read)], tries := 1, pending := []);
    var b, packet := Start(x.Broker()), Connect(true, "d", true, None);
    assert b.conns[x.s] == x.conn && ClientAt(b.clients, "d") == 1;
    assert Handle(b, Message(x.s, Read), Doing(packet)) == Accept(b, x.s, "d", true, None, {});
    assert Accept(b, x.s, "d", true, None, {}).conns == y.Broker().conns;
    evs', place' := Turns(x, evs, place, packet, y);
  }

  // ---------- the PUBACK that promotes ----------

  /** A message published at QoS 2 is delivered at QoS 1; its PUBACK comes with a wrong length, and the entry
      goes on to wait for a PUBREC. */
  lemma PromotingPuback(listenSock: nat, s: Sock, data: Bytes) returns (evs: seq<Event>)
    requires data != [] && s != listenSock
    ensures Possible(listenSock, evs)
    ensures var end, inp := Run(PowerOn(listenSock), evs, Nothing), Doing(Puback(7, false));
            && end.b.Shape() && end.pending == [Message(s, Read)] && Admissible(Start(end.b), Message(s, Read), inp)
            && Promotes(Start(end.b), Message(s, Read), inp) && !AllFit(Handle(Start(end.b), Message(s, Read), inp))
  {
    var x, place;
    x, evs, place := Prepares(listenSock, s, true, 1);
    x, evs, place := PublishesAtTwo(x, evs, place, data);
    x, evs, place := Pushes(x, evs, place);
    x, evs, place := Pushes(x, evs, place);
    x, evs, place := Pushes(x, evs, place);
    x, evs, place := Receives(x, evs, place);
    x, evs, place := Receives(x, evs, place);
    x, evs, place := Receives(x, evs, place);
    x, evs, place := IsWritable(x, evs, place);
    x, evs, place := SendsPubrec(x, evs, place, data);
    x, evs, place := Pushes(x, evs, place);
    x, evs, place := Receives(x, evs, place);
    x, evs, place := IsWritable(x, evs, place);
    x, evs, place := SendsPublish(x, evs, place, data);
    x, evs, place := ReadTurn(x, evs, place);
    Promoted(x, data);
  }

  function Answering(state: PacketState): Entry { Entry(7, state, 2, true) }
  function Delivering(state: PacketState): Entry { Entry(7, state, 1, true) }

  lemma PublishesAtTwo(x: Scene, evs: seq<Event>, place: nat, data: Bytes) returns (y: Scene, evs': seq<Event>, place': nat)
    requires Reached(x, evs, place) && x.conn == Conn(Mqtt, "c", []) && x.clients == [Subscriber(x.s, true, map[TOPIC := 1])]
    requires x.store == map[] && x.out == [] && x.pending == [Message(x.s, Read)] && data != []
    ensures y == x.(conn := Conn(Mqtt, "c", [Answering(SendPubrec), Delivering(SendPublish)]), store := map[7 := Node(1, 2, data)],
                    out := [Message(x.s, Write), Message(x.s, DelRead), Message(x.s, Write)], tries := 3, pending := [])
    ensures Reached(y, evs', place') && place' == Place(x.Sys(), place)
  {
    y := x.(conn := Conn(Mqtt, "c", [Answering(SendPubrec), Delivering(SendPublish)]), store := map[7 := Node(1, 2, data)],
            out := [Message(x.s, Write), Message(x.s, DelRead), Message(x.s, Write)], tries := 3, pending := []);
    HandlesAtTwo(x, data);
    evs', place' := Turns(x, evs, place, Publish(TOPIC, 2, false, 7, data), y);
  }

  lemma HandlesAtTwo(x: Scene, data: Bytes)
    requires x.conn == Conn(Mqtt, "c", []) && x.clients == [Subscriber(x.s, true, map[TOPIC := 1])]
    requires x.store == map[] && x.out == [] && data != []
    ensures var b, inp := Start(x.Broker()), Doing(Publish(TOPIC, 2, false, 7, data));
            && b.Shape() && Admissible(b, Message(x.s, Read), inp)
            && Handle(b, Message(x.s, Read), inp)
               == x.(conn := Conn(Mqtt, "c", [Answering(SendPubrec), Delivering(SendPublish)]), store := map[7 := Node(1, 2, data)],
                     out := [Message(x.s, Write), Message(x.s, DelRead), Message(x.s, Write)], tries := 3).Broker()
  {
    var b, packet := Start(x.Broker()), Publish(TOPIC, 2, false, 7, data);
    assert b.conns[x.s] == x.conn && ClientAt(b.clients, "c") == 0;
    var x1 := x.(conn := Conn(Mqtt, "c", [Answering(SendPubrec)]), out := [Message(x.s, Write)], tries := 1);
    AnsweredAtTwo(x);
    PublishedAtTwo(x1, data);
    assert OnPublish(b, x.s, TOPIC, 2, false, 7, data, {}) == PublishByTopic(x1.Broker(), TOPIC, 2, 7, data, {});
    assert Handle(b, Message(x.s, Read), Doing(packet)) == OnPublish(b, x.s, TOPIC, 2, false, 7, data, {});
  }

  lemma AnsweredAtTwo(x: Scene)
    requires x.conn == Conn(Mqtt, "c", []) && x.out == []
    ensures Answer(Start(x.Broker()), x.s, Answering(SendPubrec), {})
         == x.(conn := Conn(Mqtt, "c", [Answering(SendPubrec)]), out := [Message(x.s, Write)], tries := 1).Broker()
  {
    var b, y := Start(x.Broker()), x.(conn := Conn(Mqtt, "c", [Answering(SendPubrec)]), out := [Message(x.s, Write)], tries := 1);
    assert b.conns[x.s] == x.conn;
    assert AddEntry([], Answering(SendPubrec)) == [Answering(SendPubrec)];
    assert Answer(b, x.s, Answering(SendPubrec), {}).conns == y.Broker().conns;
  }

  lemma PublishedAtTwo(x: Scene, data: Bytes)
    requires x.conn == Conn(Mqtt, "c", [Answering(SendPubrec)]) && x.clients == [Subscriber(x.s, true, map[TOPIC := 1])]
    requires x.store == map[] && x.out == [Message(x.s, Write)] && x.tries == 1 && data != []
    ensures PublishByTopic(x.Broker(), TOPIC, 2, 7, data, {})
         == x.(conn := Conn(Mqtt, "c", [Answering(SendPubrec), Delivering(SendPublish)]), store := map[7 := Node(1, 2, data)],
               out := [Message(x.s, Write), Message(x.s, DelRead), Message(x.s, Write)], tries := 3).Broker()
  {
    var y := x.(conn := Conn(Mqtt, "c", [Answering(SendPubrec), Delivering(SendPublish)]), store := map[7 := Node(1, 2, data)],
                out := [Message(x.s, Write), Message(x.s, DelRead), Message(x.s, Write)], tries := 3);
    var b0 := x.Broker().(store := map[7 := Node(1, 2, data)]);
    var d := Deliver(b0, x.s, 7, 1, {});
    assert b0.conns[x.s] == x.conn;
    assert FanOut(b0, 0, TOPIC, 2, 7, {}) == FanOut(d, 1, TOPIC, 2, 7, {}) == d;
    assert AddEntry([Answering(SendPubrec)], Delivering(SendPublish)) == [Answering(SendPubrec), Delivering(SendPublish)];
    assert Release(d.store, 7) == y.store;
    assert d.conns == y.Broker().conns;
  }

  lemma SendsPubrec(x: Scene, evs: seq<Event>, place: nat, data: Bytes) returns (y: Scene, evs': seq<Event>, place': nat)
    requires Reached(x, evs, place) && x.conn == Conn(Mqtt, "c", [Answering(SendPubrec), Delivering(SendPublish)]) && x.store == map[7 := Node(1, 2, data)]
    requires x.out == [] && x.pending == [Message(x.s, Write)]
    ensures y == x.(conn := Conn(Mqtt, "c", [Answering(GetPubrel), Delivering(SendPublish)]), wire := x.wire + [ControlFrame(x.s, PubrecC, 7)],
                    out := [Message(x.s, Write)], tries := 1, pending := [])
    ensures Reached(y, evs', place') && place' == Place(x.Sys(), place)
  {
    y := x.(conn := Conn(Mqtt, "c", [Answering(GetPubrel), Delivering(SendPublish)]), wire := x.wire + [ControlFrame(x.s, PubrecC, 7)],
            out := [Message(x.s, Write)], tries := 1, pending := []);
    var b := Start(x.Broker());
    assert b.conns[x.s] == x.conn && First(x.conn.table, AnyPending) == 0;
    assert x.conn.table[0 := Answering(GetPubrel)] == y.conn.table;
    assert Handle(b, Message(x.s, Write), Doing(Ping)) == WriteEvent(b, x.s, true, {});
    assert WriteEvent(b, x.s, true, {}).conns == y.Broker().conns;
    evs', place' := Turns(x, evs, place, Ping, y);
  }

  lemma SendsPublish(x: Scene, evs: seq<Event>, place: nat, data: Bytes) returns (y: Scene, evs': seq<Event>, place': nat)
    requires Reached(x, evs, place) && x.conn == Conn(Mqtt, "c", [Answering(GetPubrel), Delivering(SendPublish)]) && x.store == map[7 := Node(1, 2, data)]
    requires x.out == [] && x.pending == [Message(x.s, Write)]
    ensures y == x.(conn := Conn(Mqtt, "c", [Answering(GetPubrel), Delivering(GetPuback)]), wire := x.wire + [PublishFrame(x.s, WireImage(data, 1, true))],
                    out := [Message(x.s, Read)], tries := 1, pending := [])
    ensures Reached(y, evs', place') && place' == Place(x.Sys(), place)
  {
    y := x.(conn := Conn(Mqtt, "c", [Answering(GetPubrel), Delivering(GetPuback)]), wire := x.wire + [PublishFrame(x.s, WireImage(data, 1, true))],
            out := [Message(x.s, Read)], tries := 1, pending := []);
    var b := Start(x.Broker());
    assert b.conns[x.s] == x.conn && First(x.conn.table, AnyPending) == 1;
    assert x.conn.table[1 := Delivering(GetPuback)] == y.conn.table;
    assert Handle(b, Message(x.s, Write), Doing(Ping)) == WriteEvent(b, x.s, true, {});
    assert WriteEvent(b, x.s, true, {}).conns == y.Broker().conns;
    evs', place' := Turns(x, evs, place, Ping, y);
  }

  lemma Promoted(x: Scene, data: Bytes)
    requires x.conn == Conn(Mqtt, "c", [Answering(GetPubrel), Delivering(GetPuback)]) && x.store == map[7 := Node(1, 2, data)]
    requires x.clients == [Subscriber(x.s, true, map[TOPIC := 1])] && x.out == []
    ensures var b, inp := Start(x.Broker()), Doing(Puback(7, false));
            && b.Shape() && Admissible(b, Message(x.s, Read), inp)
            && Promotes(b, Message(x.s, Read), inp) && !AllFit(Handle(b, Message(x.s, Read), inp))
  {
    var b, inp := Start(x.Broker()), Doing(Puback(7, false));
    assert b.conns[x.s] == x.conn && ClientAt(b.clients, "c") == 0;
    assert First(x.conn.table, Waiting(7, GetPuback)) == 1;
    var r := Handle(b, Message(x.s, Read), inp);
    assert r == PublishEntry(b, x.s, 1, data, 2, 7, true, true);
    assert r.conns[x.s].table[1] == Delivering(GetPubrec) && !Fits(r.conns[x.s].table[1]);
  }

  // ---------- the count of 255 ----------

  function Again(n: nat): seq<(Topic, nat)> { seq(n, _ => (TOPIC, 0)) }

  function Copy(): Entry { Entry(7, SendPublish, 0, false) }

  function Copies(n: nat): seq<Entry> { seq(n, _ => Copy()) }

  function Writes(s: Sock, n: nat): seq<Message> { seq(n, _ => Message(s, Write)) }

  /** The scene in which a client has been sent its topic's retained message so many times. */
  function Sent(listenSock: nat, s: Sock, data: Bytes, n: nat): Scene
    requires n < 0xFF
  {
    Scene(listenSock, s, Conn(Mqtt, "c", Copies(n)), [Subscriber(s, true, if n == 0 then map[] else map[TOPIC := 0])],
          map[7 := Node(n + 1, 0, data)], map[TOPIC := 7], Writes(s, n), n, [], [], {}, {}, [])
  }

  lemma {:induction false} NoFreeCopy(n: nat)
    ensures AddEntry(Copies(n), Copy()) == Copies(n + 1)
  {
    forall i | 0 <= i < n ensures !Free.Matches(Copies(n)[i]) {}
    assert Copies(n) + [Copy()] == Copies(n + 1);
  }

  lemma SentOnce(listenSock: nat, s: Sock, data: Bytes, n: nat)
    requires n < 0xFE
    ensures SubscribeOne(Sent(listenSock, s, data, n).Broker(), s, 0, TOPIC, 0, {}) == Sent(listenSock, s, data, n + 1).Broker()
  {
    var x, y := Sent(listenSock, s, data, n), Sent(listenSock, s, data, n + 1);
    NoFreeCopy(n);
    assert x.Broker().conns[s] == x.conn;
    assert Writes(s, n) + [Message(s, Write)] == Writes(s, n + 1);
    var c := x.Broker().clients[0];
    assert c.subs[TOPIC := 0] == map[TOPIC := 0];
    assert x.Broker().clients[0 := c.(subs := c.subs[TOPIC := 0])] == y.clients;
    assert Acquire(x.store, 7) == y.store;
    assert Enqueue(x.Broker(), s, Copy()).conns == y.Broker().conns;
    assert SubscribeOne(x.Broker(), s, 0, TOPIC, 0, {}).conns == y.Broker().conns;
  }

  lemma {:induction false} SentMany(listenSock: nat, s: Sock, data: Bytes, n: nat, m: nat)
    requires n + m < 0xFF
    ensures SubscribeAll(Sent(listenSock, s, data, n).Broker(), s, 0, Again(m), {}) == Sent(listenSock, s, data, n + m).Broker()
    ensures Room(Sent(listenSock, s, data, n).Broker(), s, 0, Again(m), {})
    decreases m
  {
    if m > 0 {
      SentOnce(listenSock, s, data, n);
      assert Again(m)[1..] == Again(m - 1);
      SentMany(listenSock, s, data, n + 1, m - 1);
    }
  }

  lemma {:induction false} PushesAll(x: Scene, evs: seq<Event>, place: nat) returns (y: Scene, evs': seq<Event>, place': nat)
    requires Reached(x, evs, place)
    ensures y == x.(toFds := x.toFds + x.out, out := []) && Reached(y, evs', place')
    decreases |x.out|
  {
    if x.out == [] {
      y, evs', place' := x, evs, place;
      assert x.toFds + [] == x.toFds;
    } else {
      var z;
      z, evs', place' := Pushes(x, evs, place);
      assert z.toFds + z.out == x.toFds + x.out;
      y, evs', place' := PushesAll(z, evs', place');
    }
  }

  lemma {:induction false} ReceivesAll(x: Scene, evs: seq<Event>, place: nat, n: nat) returns (y: Scene, evs': seq<Event>, place': nat)
    requires Reached(x, evs, place) && x.toFds == Writes(x.s, n) + [Message(x.s, Read)] && x.rd == {} && x.wr <= {x.s} && (n == 0 ==> x.wr == {x.s})
    ensures y == x.(toFds := [], rd := {x.s}, wr := {x.s}) && Reached(y, evs', place')
    decreases n
  {
    var z;
    if n > 0 { assert x.toFds[0] == Message(x.s, Write); }
    z, evs', place' := Receives(x, evs, place);
    if n == 0 {
      y := z;
    } else {
      assert z.toFds == Writes(x.s, n - 1) + [Message(x.s, Read)];
      assert x.wr + {x.s} == {x.s};
      y, evs', place' := ReceivesAll(z, evs', place', n - 1);
    }
  }

  /** A client publishes a retained message and subscribes to its topic, with 254 filters in one packet of 1021
      bytes. The next SUBSCRIBE takes the message's count to 0 while it is stored and referred to. */
  lemma CountWraps(listenSock: nat, s: Sock, data: Bytes) returns (evs: seq<Event>)
    requires data != [] && s != listenSock
    ensures Possible(listenSock, evs)
    ensures var end, inp := Run(PowerOn(listenSock), evs, Nothing), Doing(Subscribe([(TOPIC, 0)]));
            && end.b.Shape() && end.pending == [Message(s, Read)]
            && var r := Handle(Start(end.b), Message(s, Read), inp); 7 in r.store && r.store[7].count == 0 && !Conserved(r, 0)
  {
    var x, place;
    x, evs, place := Begins(listenSock, s);
    x, evs, place := Handshakes(x, evs, place);
    x, evs, place := ReadTurn(x, evs, place);
    x, evs, place := Connects(x, evs, place, true);
    x, evs, place := ReadTurn(x, evs, place);
    x, evs, place := Retains(x, evs, place, data);
    x, evs, place := ReadTurn(x, evs, place);
    x, evs, place := SubscribesManyTimes(x, evs, place, data, 254);
    x, evs, place := PushesAll(x, evs, place);
    assert x.toFds == Writes(s, 254) + [Message(s, Read)];
    assert x.toFds[0] == Message(s, Write);
    x, evs, place := ReceivesAll(x, evs, place, 254);
    x, evs, place := IsReadable(x, evs, place);
    Wraps(x, data);
  }

  lemma Retains(x: Scene, evs: seq<Event>, place: nat, data: Bytes) returns (y: Scene, evs': seq<Event>, place': nat)
    requires Reached(x, evs, place) && x.conn == Conn(Mqtt, "c", []) && x.clients == [Subscriber(x.s, true, map[])] && x.retained == map[]
    requires x.store == map[] && x.out == [] && x.pending == [Message(x.s, Read)] && data != []
    ensures y == x.(store := map[7 := Node(1, 0, data)], retained := map[TOPIC := 7], out := [Message(x.s, Read)], tries := 1, pending := [])
    ensures Reached(y, evs', place') && place' == Place(x.Sys(), place)
  {
    y := x.(store := map[7 := Node(1, 0, data)], retained := map[TOPIC := 7], out := [Message(x.s, Read)], tries := 1, pending := []);
    var b, packet := Start(x.Broker()), Publish(TOPIC, 0, true, 7, data);
    assert b.conns[x.s] == x.conn && ClientAt(b.clients, "c") == 0;
    var b1 := Send(StoreRetained(b, TOPIC, 0, 7, data), Message(x.s, Read), {});
    assert b1.store == map[7 := Node(2, 0, data)];
    assert FanOut(b1, 0, TOPIC, 0, 7, {}) == FanOut(b1, 1, TOPIC, 0, 7, {}) == b1;
    assert Release(b1.store, 7) == y.store;
    assert Handle(b, Message(x.s, Read), Doing(packet)) == OnPublish(b, x.s, TOPIC, 0, true, 7, data, {});
    evs', place' := Turns(x, evs, place, packet, y);
  }

  lemma SubscribesManyTimes(x: Scene, evs: seq<Event>, place: nat, data: Bytes, n: nat) returns (y: Scene, evs': seq<Event>, place': nat)
    requires Reached(x, evs, place) && x == Sent(x.listenSock, x.s, data, 0).(tries := 1, pending := [Message(x.s, Read)]) && n < 0xFF
    ensures var z := Sent(x.listenSock, x.s, data, n); y == z.(out := z.out + [Message(x.s, Read)], tries := n + 1)
    ensures Reached(y, evs', place')
  {
    var z := Sent(x.listenSock, x.s, data, n);
    y := z.(out := z.out + [Message(x.s, Read)], tries := n + 1);
    HandlesMany(x, data, n);
    evs', place' := Turns(x, evs, place, Subscribe(Again(n)), y);
  }

  lemma HandlesMany(x: Scene, data: Bytes, n: nat)
    requires x == Sent(x.listenSock, x.s, data, 0).(tries := 1, pending := [Message(x.s, Read)]) && n < 0xFF
    ensures var b, inp, z := Start(x.Broker()), Doing(Subscribe(Again(n))), Sent(x.listenSock, x.s, data, n);
            && b.Shape() && Admissible(b, Message(x.s, Read), inp)
            && Handle(b, Message(x.s, Read), inp) == z.(out := z.out + [Message(x.s, Read)], tries := n + 1).Broker()
  {
    var b, packet := Start(x.Broker()), Subscribe(Again(n));
    assert b.conns[x.s] == x.conn && ClientAt(b.clients, "c") == 0;
    assert b == Sent(x.listenSock, x.s, data, 0).Broker();
    SentMany(x.listenSock, x.s, data, 0, n);
    assert Handle(b, Message(x.s, Read), Doing(packet)) == Send(SubscribeAll(b, x.s, 0, Again(n), {}), Message(x.s, Read), {});
  }

  lemma Wraps(x: Scene, data: Bytes)
    requires x.conn == Conn(Mqtt, "c", Copies(254)) && x.clients == [Subscriber(x.s, true, map[TOPIC := 0])]
    requires x.store == map[7 := Node(255, 0, data)] && x.retained == map[TOPIC := 7]
    ensures var b := Start(x.Broker());
            && b.Shape()
            && var r := Handle(b, Message(x.s, Read), Doing(Subscribe([(TOPIC, 0)]))); 7 in r.store && r.store[7].count == 0 && !Conserved(r, 0)
  {
    var b, filters := Start(x.Broker()), [(TOPIC, 0)];
    assert b.conns[x.s] == x.conn && ClientAt(b.clients, "c") == 0;
    var one := SubscribeOne(b, x.s, 0, TOPIC, 0, {});
    assert SubscribeAll(b, x.s, 0, filters, {}) == SubscribeAll(one, x.s, 0, [], {}) == one;
    assert Handle(b, Message(x.s, Read), Doing(Subscribe(filters))) == Send(one, Message(x.s, Read), {});
  }
}
