/** Runs with one socket in use, from power-on, for showing that a state is reached. They hold to what the
    select task can do (main/main.cpp:106-168): in each pass of its loop it accepts, then visits the sockets
    that are ready, then takes everything that is on socks_for_fds. */
module Scenes {
  import opened Protocol
  import opened Delivery
  import opened ConservationSteps
  import opened EventLoop
  import opened Runs

  // ---------- the order of a pass ----------

  /** Where the select task is: 0 before it accepts, 1 at the sockets, 2 at the queue. With the queue empty it
      can have come around to the beginning of the next pass. */
  function Place(sys: System, place: nat): nat { if sys.toFds == [] then 0 else place }

  ghost predicate InPass(sys: System, ev: Event, place: nat) {
    match ev
    case Accepted(_) => Place(sys, place) == 0
    case Readable(_) => Place(sys, place) <= 1
    case Writable(_) => Place(sys, place) <= 1
    case _ => true
  }

  function PlaceAfter(sys: System, ev: Event, place: nat): nat {
    match ev
    case Accepted(_) => 1
    case Readable(_) => 1
    case Writable(_) => 1
    case Receive => 2
    case _ => Place(sys, place)
  }

  /** The select task's events come in the order of its passes. */
  ghost predicate InOrder(sys: System, evs: seq<Event>, place: nat, d: Demand)
    requires Legal(sys, evs, d)
    decreases |evs|
  {
    evs == [] || (InPass(sys, evs[0], place) && InOrder(Step(sys, evs[0]), evs[1..], PlaceAfter(sys, evs[0], place), d))
  }

  ghost function LastPlace(sys: System, evs: seq<Event>, place: nat, d: Demand): nat
    requires Legal(sys, evs, d)
    decreases |evs|
  {
    if evs == [] then place else LastPlace(Step(sys, evs[0]), evs[1..], PlaceAfter(sys, evs[0], place), d)
  }

  lemma {:induction false} OneMore(sys: System, evs: seq<Event>, ev: Event, place: nat, d: Demand)
    requires Legal(sys, evs, d) && InOrder(sys, evs, place, d)
    requires var end := Run(sys, evs, d); Enabled(end, ev) && Allowed(end, ev, d) && InPass(end, ev, LastPlace(sys, evs, place, d))
    ensures Legal(sys, evs + [ev], d) && Run(sys, evs + [ev], d) == Step(Run(sys, evs, d), ev)
    ensures InOrder(sys, evs + [ev], place, d)
    ensures LastPlace(sys, evs + [ev], place, d) == PlaceAfter(Run(sys, evs, d), ev, LastPlace(sys, evs, place, d))
    decreases |evs|
  {
    if evs == [] {
      assert [] + [ev] == [ev] && [ev][1..] == [];
    } else {
      OneMore(Step(sys, evs[0]), evs[1..], ev, PlaceAfter(sys, evs[0], place), d);
      assert (evs + [ev])[1..] == evs[1..] + [ev];
    }
  }

  // ---------- states with one socket ----------

  datatype Scene = Scene(listenSock: nat, s: Sock, conn: Conn, clients: seq<Client>, store: map<Id, Node>, retained: map<Topic, Id>,
                         out: seq<Message>, tries: nat, pending: seq<Message>, toFds: seq<Message>, rd: set<Sock>, wr: set<Sock>,
                         wire: seq<Frame>)
  {
    function Broker(): (b: Broker)
      ensures b.Shape()
    {
      Protocol.Broker.Broker(PowerOn(listenSock).b.conns[s := conn], clients, store, retained, out, tries, wire, false)
    }

    function Sys(): System {
      System(Broker(), pending, toFds, rd, wr, if s > listenSock then s else listenSock)
    }
  }

  /** The events lead from power-on to the scene, in the order of the select task's passes, and every turn has
      its queue sends accepted. */
  ghost predicate Reached(x: Scene, evs: seq<Event>, place: nat) {
    var start := PowerOn(x.listenSock);
    && Legal(start, evs, Nothing) && Run(start, evs, Nothing) == x.Sys()
    && InOrder(start, evs, 0, Nothing) && LastPlace(start, evs, 0, Nothing) == place
    && forall i :: 0 <= i < |evs| && evs[i].Turn? ==> evs[i].inp.lost == {}
  }

  lemma Goes(x: Scene, evs: seq<Event>, place: nat, ev: Event, y: Scene)
    requires Reached(x, evs, place) && Enabled(x.Sys(), ev) && Sound(x.Sys(), ev) && InPass(x.Sys(), ev, place)
    requires (ev.Turn? ==> ev.inp.lost == {}) && y.listenSock == x.listenSock && Step(x.Sys(), ev) == y.Sys()
    ensures Reached(y, evs + [ev], PlaceAfter(x.Sys(), ev, place))
  {
    OneMore(PowerOn(x.listenSock), evs, ev, 0, Nothing);
  }

  /** The turn of a packet, or of a handshake that completes; 9 is the identifier a will would get. */
  function Doing(packet: Packet): Input { Input(packet, Done, true, 9, {}) }

  lemma Begins(listenSock: nat, s: Sock) returns (x: Scene, evs: seq<Event>, place: nat)
    ensures x == Scene(listenSock, s, Conn(Uninit, "", []), [], map[], map[], [], 0, [Message(s, Write)], [], {}, {}, [])
    ensures Reached(x, evs, place)
  {
    x := Scene(listenSock, s, Conn(Uninit, "", []), [], map[], map[], [], 0, [Message(s, Write)], [], {}, {}, []);
    var start := PowerOn(listenSock);
    assert start.b.conns[s := Conn(Uninit, "", [])] == start.b.conns;
    OneMore(start, [], Accepted(s), 0, Nothing);
    evs, place := [Accepted(s)], 1;
    assert [] + evs == evs;
  }

  lemma Accepts(x: Scene, evs: seq<Event>, place: nat) returns (y: Scene, evs': seq<Event>, place': nat)
    requires Reached(x, evs, place) && x.pending == [] && Place(x.Sys(), place) == 0
    ensures y == x.(pending := [Message(x.s, Write)]) && Reached(y, evs', place') && place' == 1
  {
    y, evs', place' := x.(pending := [Message(x.s, Write)]), evs + [Accepted(x.s)], 1;
    Goes(x, evs, place, Accepted(x.s), y);
  }

  lemma Pushes(x: Scene, evs: seq<Event>, place: nat) returns (y: Scene, evs': seq<Event>, place': nat)
    requires Reached(x, evs, place) && x.out != []
    ensures y == x.(toFds := x.toFds + [x.out[0]], out := x.out[1..]) && Reached(y, evs', place') && place' == Place(x.Sys(), place)
  {
    y, evs', place' := x.(toFds := x.toFds + [x.out[0]], out := x.out[1..]), evs + [Push], Place(x.Sys(), place);
    Goes(x, evs, place, Push, y);
  }

  /** The scene after the first message of the queue has been received. */
  function AfterReceive(x: Scene): Scene
    requires x.toFds != []
  {
    var op, rest := x.toFds[0].op, x.toFds[1..];
    match op
    case Read => x.(toFds := rest, rd := x.rd + {x.s})
    case Write => x.(toFds := rest, wr := x.wr + {x.s})
    case DelRead => x.(toFds := rest, rd := x.rd - {x.s})
    case DelAll => x.(toFds := rest, rd := x.rd - {x.s}, wr := x.wr - {x.s})
  }

  lemma Receives(x: Scene, evs: seq<Event>, place: nat) returns (y: Scene, evs': seq<Event>, place': nat)
    requires Reached(x, evs, place) && x.toFds != [] && x.toFds[0].sock == x.s && x.rd <= {x.s} && x.wr <= {x.s}
    ensures y == AfterReceive(x) && Reached(y, evs', place') && place' == 2
  {
    y, evs', place' := AfterReceive(x), evs + [Receive], 2;
    var sys := Step(x.Sys(), Receive);
    assert sys.rd == y.rd && sys.wr == y.wr;
    Goes(x, evs, place, Receive, y);
  }

  lemma IsReadable(x: Scene, evs: seq<Event>, place: nat) returns (y: Scene, evs': seq<Event>, place': nat)
    requires Reached(x, evs, place) && x.s in x.rd && Place(x.Sys(), place) <= 1
    ensures y == x.(pending := x.pending + [Message(x.s, Read)], rd := x.rd - {x.s}) && Reached(y, evs', place') && place' == 1
  {
    y, evs', place' := x.(pending := x.pending + [Message(x.s, Read)], rd := x.rd - {x.s}), evs + [Readable(x.s)], 1;
    Goes(x, evs, place, Readable(x.s), y);
  }

  lemma IsWritable(x: Scene, evs: seq<Event>, place: nat) returns (y: Scene, evs': seq<Event>, place': nat)
    requires Reached(x, evs, place) && x.s in x.wr && Place(x.Sys(), place) <= 1
    ensures y == x.(pending := x.pending + [Message(x.s, Write)], wr := x.wr - {x.s}) && Reached(y, evs', place') && place' == 1
  {
    y, evs', place' := x.(pending := x.pending + [Message(x.s, Write)], wr := x.wr - {x.s}), evs + [Writable(x.s)], 1;
    Goes(x, evs, place, Writable(x.s), y);
  }

  /** A turn of the worker. The caller knows what it does to the broker. */
  lemma Turns(x: Scene, evs: seq<Event>, place: nat, packet: Packet, y: Scene) returns (evs': seq<Event>, place': nat)
    requires Reached(x, evs, place) && x.out == [] && x.pending != []
    requires var b := Start(x.Broker()); b.Shape() && Admissible(b, x.pending[0], Doing(packet)) && Handle(b, x.pending[0], Doing(packet)) == y.Broker()
    requires y == x.(conn := y.conn, clients := y.clients, store := y.store, retained := y.retained, out := y.out, tries := y.tries,
                     wire := y.wire, pending := x.pending[1..])
    ensures Reached(y, evs', place') && place' == Place(x.Sys(), place)
  {
    evs', place' := evs + [Turn(Doing(packet))], Place(x.Sys(), place);
    Goes(x, evs, place, Turn(Doing(packet)), y);
  }

  /** The handshake of an accepted connection completes at once. */
  lemma Handshakes(x: Scene, evs: seq<Event>, place: nat) returns (y: Scene, evs': seq<Event>, place': nat)
    requires Reached(x, evs, place) && x.out == [] && x.pending == [Message(x.s, Write)] && x.conn.phase == Uninit && 9 !in x.store
    ensures y == x.(conn := x.conn.(phase := Mqtt), out := [Message(x.s, Read)], tries := 1, pending := [])
    ensures Reached(y, evs', place') && place' == Place(x.Sys(), place)
  {
    y := x.(conn := x.conn.(phase := Mqtt), out := [Message(x.s, Read)], tries := 1, pending := []);
    var b := Start(x.Broker());
    assert b.conns[x.s].phase == Uninit;
    assert Handle(b, x.pending[0], Doing(Ping)) == Send(SetConn(b, x.s, Mqtt, x.conn.cid), Message(x.s, Read), {});
    assert SetConn(b, x.s, Mqtt, x.conn.cid).conns == y.Broker().conns;
    evs', place' := Turns(x, evs, place, Ping, y);
  }

  /** The request for a read turn goes around: it is pushed and received, and the socket is readable. */
  lemma ReadTurn(x: Scene, evs: seq<Event>, place: nat) returns (y: Scene, evs': seq<Event>, place': nat)
    requires Reached(x, evs, place) && x.out == [Message(x.s, Read)] && x.toFds == [] && x.pending == [] && x.rd == {} && x.wr == {}
    ensures y == x.(out := [], pending := [Message(x.s, Read)]) && Reached(y, evs', place') && place' == 1
  {
    var p, r;
    p, evs', place' := Pushes(x, evs, place);
    r, evs', place' := Receives(p, evs', place');
    y, evs', place' := IsReadable(r, evs', place');
    assert {x.s} - {x.s} == {};
  }
}
