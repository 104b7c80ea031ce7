/** The two tasks and the two queues between them. The select task (main/main.cpp) owns the read and
    write sets; the worker (main/worker.cpp) owns the broker. The tasks interleave at every queue
    operation: what the worker has sent in its current turn but not yet pushed is `b.out`. */
module EventLoop {
  import opened Protocol
  import opened Delivery
  import opened Conservation
  import opened ConservationSteps
  import opened Links
  import opened Wakeup

  datatype System = System(b: Broker, pending: seq<Message>, toFds: seq<Message>,
                           rd: set<Sock>, wr: set<Sock>, maxSock: nat)

  /** The select task accepts a connection, finds a watched socket ready, or takes a message from
      socks_for_fds; the worker pushes its next message or takes its next turn. */
  datatype Event = Accepted(s: Sock) | Readable(s: Sock) | Writable(s: Sock) | Receive | Push | Turn(inp: Input)

  ghost predicate Enabled(sys: System, ev: Event) {
    && sys.b.Shape()
    && match ev
       case Accepted(_) => true
       case Readable(s) => s in sys.rd
       case Writable(s) => s in sys.wr
       case Receive => sys.toFds != []
       case Push => sys.b.out != []
       case Turn(_) => sys.b.out == [] && sys.pending != []
  }

  /** The broker as the worker finds it at the start of a turn. */
  function Start(b: Broker): Broker { b.(tries := 0) }

  ghost function Step(sys: System, ev: Event): System
    requires Enabled(sys, ev)
  {
    match ev
    case Accepted(s) =>
      sys.(pending := sys.pending + [Message(s, Write)], maxSock := if s > sys.maxSock then s else sys.maxSock)
    case Readable(s) => sys.(pending := sys.pending + [Message(s, Read)], rd := sys.rd - {s})
    case Writable(s) => sys.(pending := sys.pending + [Message(s, Write)], wr := sys.wr - {s})
    case Receive =>
      var m := sys.toFds[0];
      var x := Apply(m, m.sock, Watch(m.sock in sys.rd, m.sock in sys.wr));
      sys.(toFds := sys.toFds[1..],
           rd := if x.r then sys.rd + {m.sock} else sys.rd - {m.sock},
           wr := if x.w then sys.wr + {m.sock} else sys.wr - {m.sock})
    case Push => sys.(toFds := sys.toFds + [sys.b.out[0]], b := sys.b.(out := sys.b.out[1..]))
    case Turn(inp) =>
      sys.(pending := sys.pending[1..], b := Handle(Start(sys.b), sys.pending[0], inp))
  }

  // ---------- the properties ----------

  /** How socket `s` is watched once everything that was sent has been applied. */
  function Coming(sys: System, s: Sock): Watch {
    After(sys.toFds + sys.b.out, s, Watch(s in sys.rd, s in sys.wr))
  }

  /** A live socket with something to send has a write turn coming. */
  ghost predicate SocketAwake(sys: System, s: Sock)
    requires sys.b.Shape()
  {
    sys.b.conns[s].phase == Mqtt && !NoPending(sys.b.conns[s].table) ==>
      Message(s, Write) in sys.pending || Coming(sys, s).w
  }

  /** A live socket has some turn coming. */
  ghost predicate SocketHeard(sys: System, s: Sock)
    requires sys.b.Shape()
  {
    sys.b.conns[s].phase != Uninit ==>
      || Message(s, Write) in sys.pending || Message(s, Read) in sys.pending
      || Coming(sys, s).w || Coming(sys, s).r
  }

  ghost predicate NoLostWakeup(sys: System) {
    sys.b.Shape() && forall s: Sock :: SocketAwake(sys, s)
  }

  ghost predicate NobodyDeaf(sys: System) {
    sys.b.Shape() && forall s: Sock :: SocketHeard(sys, s)
  }

  /** Conservation, consistent links, and every socket in use within the range that select watches. */
  ghost predicate Good(sys: System) {
    && Tidy(sys.b, sys.maxSock)
    && Conserved(sys.b, 0)
    && (forall m :: m in sys.pending ==> m.sock <= sys.maxSock && m.op in {Read, Write})
    && (forall m :: m in sys.toFds ==> m.sock <= sys.maxSock)
    && (forall s :: s in sys.rd + sys.wr ==> s <= sys.maxSock)
  }

  // ---------- what is asked of the environment ----------

  /** Enough for safety: fresh identifiers, room in the counters, and no fan-out that reaches an
      offline subscriber. Queue sends may fail. */
  ghost predicate Sound(sys: System, ev: Event)
    requires Enabled(sys, ev)
  {
    ev.Turn? ==>
      && Admissible(Start(sys.b), sys.pending[0], ev.inp)
      && !Handle(Start(sys.b), sys.pending[0], ev.inp).fault
  }

  /** A handshake that completes finds nothing to send in the socket's table. */
  ghost predicate CleanStart(b: Broker, s: Sock, inp: Input)
    requires b.Shape()
  {
    b.conns[s].phase != Mqtt && inp.tls == Done ==> NoPending(b.conns[s].table)
  }

  /** Enough for wake-ups too: queue sends succeed, and a handshake completes on a table with nothing
      to send. */
  ghost predicate Prompt(sys: System, ev: Event)
    requires Enabled(sys, ev)
  {
    ev.Turn? ==> ev.inp.lost == {} && CleanStart(sys.b, sys.pending[0].sock, ev.inp)
  }

  /** The worker asks for the socket's next turn at the end of this one. */
  ghost predicate Answered(sys: System, ev: Event)
    requires Enabled(sys, ev)
  {
    ev.Turn? ==>
      var m := sys.pending[0];
      if sys.b.conns[m.sock].phase == Mqtt then m.op == Read ==> !Unanswered(sys.b, m.sock, ev.inp.packet)
      else ev.inp.tls != NoMemory || sys.b.conns[m.sock].phase == Uninit
  }

  /** Nothing is added to the table of a live socket, which takes no read turn; queue sends succeed. */
  ghost predicate Undisturbed(sys: System, ev: Event, s: Sock)
    requires Enabled(sys, ev)
  {
    ev.Turn? ==>
      && ev.inp.lost == {} && sys.b.conns[s].phase == Mqtt
      && if sys.pending[0].sock == s then sys.pending[0].op == Write else Step(sys, ev).b.conns[s] == sys.b.conns[s]
  }

  // ---------- one step ----------

  lemma StepGood(sys: System, ev: Event)
    requires Good(sys) && Enabled(sys, ev) && Sound(sys, ev)
    ensures Good(Step(sys, ev))
  {
    match ev
    case Turn(inp) =>
      var b, m := Start(sys.b), sys.pending[0];
      ConservedFrame(sys.b, b, 0);
      SameLinksTidy(sys.b, b, sys.maxSock);
      HandleConserves(b, m, inp);
      HandleTidy(b, m, inp, sys.maxSock);
    case Push =>
      var b := sys.b.(out := sys.b.out[1..]);
      ConservedFrame(sys.b, b, 0);
      SameLinksTidy(sys.b, b, sys.maxSock);
    case Receive =>
      assert sys.toFds[0] in sys.toFds;
      assert forall s :: s in Step(sys, ev).rd + Step(sys, ev).wr ==> s in sys.rd + sys.wr || s == sys.toFds[0].sock;
    case Accepted(s) =>
      assert forall m :: m in Step(sys, ev).pending ==> m in sys.pending || m == Message(s, Write);
    case Readable(s) =>
      assert s in sys.rd + sys.wr;
      assert forall m :: m in Step(sys, ev).pending ==> m in sys.pending || m == Message(s, Read);
      assert Step(sys, ev).rd + Step(sys, ev).wr <= sys.rd + sys.wr;
    case Writable(s) =>
      assert s in sys.rd + sys.wr;
      assert forall m :: m in Step(sys, ev).pending ==> m in sys.pending || m == Message(s, Write);
      assert Step(sys, ev).rd + Step(sys, ev).wr <= sys.rd + sys.wr;
  }

  /** Moving a message from the worker to the select sets, or from the sets to pending_socks, loses no
      request. */
  lemma MainKeepsWatch(sys: System, ev: Event, s: Sock)
    requires Enabled(sys, ev) && !ev.Turn?
    ensures SocketAwake(sys, s) ==> SocketAwake(Step(sys, ev), s)
    ensures SocketHeard(sys, s) ==> SocketHeard(Step(sys, ev), s)
  {
    var next := Step(sys, ev);
    var x := Watch(s in sys.rd, s in sys.wr);
    match ev
    case Accepted(t) =>
      assert forall m :: m in sys.pending ==> m in next.pending;
    case Readable(t) =>
      assert forall m :: m in sys.pending ==> m in next.pending;
      assert next.pending[|sys.pending|] == Message(t, Read);
      AfterDiffers(sys.toFds + sys.b.out, s, x, Watch(s in next.rd, s in next.wr));
    case Writable(t) =>
      assert forall m :: m in sys.pending ==> m in next.pending;
      assert next.pending[|sys.pending|] == Message(t, Write);
      AfterDiffers(sys.toFds + sys.b.out, s, x, Watch(s in next.rd, s in next.wr));
    case Push =>
      assert next.toFds + next.b.out == sys.toFds + sys.b.out;
    case Receive =>
      var m := sys.toFds[0];
      assert sys.toFds + sys.b.out == [m] + (next.toFds + next.b.out);
      AfterConcat([m], next.toFds + next.b.out, s, x);
      assert After([m], s, x) == Apply(m, s, After([m][..0], s, x));
      assert Watch(s in next.rd, s in next.wr) == Apply(m, s, x);
  }

  /** A membership that is given up is the only one that can be missing later. */
  lemma {:induction false} AfterDiffers(q: seq<Message>, s: Sock, x: Watch, y: Watch)
    ensures x.r == y.r ==> After(q, s, x).r == After(q, s, y).r
    ensures x.w == y.w ==> After(q, s, x).w == After(q, s, y).w
  {
    if q != [] {
      AfterDiffers(q[..|q| - 1], s, x, y);
    }
  }

  /** What is known to the turn that takes the first pending message. */
  function BaseOf(sys: System): Base
    requires sys.pending != []
  {
    Base(set s: Sock | After(sys.toFds, s, Watch(s in sys.rd, s in sys.wr)).r,
         set s: Sock | After(sys.toFds, s, Watch(s in sys.rd, s in sys.wr)).w,
         set m | m in sys.pending[1..] :: m.sock,
         set m | m in sys.pending[1..] && m.op == Write :: m.sock)
  }

  lemma TurnViews(sys: System, b: Broker, s: Sock)
    requires sys.pending != []
    ensures Watched(b, BaseOf(sys), s) == Coming(sys.(b := b), s)
  {
    AfterConcat(sys.toFds, b.out, s, Watch(s in sys.rd, s in sys.wr));
  }

  /** The start of a turn: the socket whose message was taken may have lost the turn it counted on. */
  lemma TurnStarts(sys: System, asleep: set<Sock>, deaf: set<Sock>)
    requires sys.b.Shape() && sys.b.out == [] && sys.pending != []
    requires forall s: Sock :: (s !in asleep ==> SocketAwake(sys, s)) && (s !in deaf ==> SocketHeard(sys, s))
    requires forall m :: m in sys.pending ==> m.op in {Read, Write}
    ensures var m := sys.pending[0];
            Live(Start(sys.b), BaseOf(sys), if m.op == Write then asleep + {m.sock} else asleep, deaf + {m.sock})
  {
    var base, b, m := BaseOf(sys), Start(sys.b), sys.pending[0];
    forall s: Sock
      ensures s !in asleep && (s != m.sock || m.op != Write) ==> Awake(b, base, s)
      ensures s !in deaf && s != m.sock ==> Heard(b, base, s)
    {
      assert (s !in asleep ==> SocketAwake(sys, s)) && (s !in deaf ==> SocketHeard(sys, s));
      TurnViews(sys, b, s);
      assert Coming(sys.(b := b), s) == Coming(sys, s);
      forall op | Message(s, op) in sys.pending && Message(s, op) != m
        ensures Message(s, op) in sys.pending[1..]
      {}
    }
  }

  /** The end of a turn, seen again from the whole system. */
  lemma TurnEnds(sys: System, b: Broker, asleep: set<Sock>, deaf: set<Sock>)
    requires sys.pending != [] && b.Shape() && Live(b, BaseOf(sys), asleep, deaf)
    requires forall m :: m in sys.pending ==> m.op in {Read, Write}
    ensures var next := sys.(pending := sys.pending[1..], b := b);
            forall s: Sock :: (s !in asleep ==> SocketAwake(next, s)) && (s !in deaf ==> SocketHeard(next, s))
  {
    var base, next := BaseOf(sys), sys.(pending := sys.pending[1..], b := b);
    forall s: Sock
      ensures (s !in asleep ==> SocketAwake(next, s)) && (s !in deaf ==> SocketHeard(next, s))
    {
      assert (s !in asleep ==> Awake(b, base, s)) && (s !in deaf ==> Heard(b, base, s));
      TurnViews(sys, b, s);
      assert Coming(next, s) == Coming(sys.(b := b), s);
      if s in base.soon {
        var m :| m in sys.pending[1..] && m.sock == s;
        assert m == Message(s, Read) || m == Message(s, Write);
      }
      if s in base.soonWrite {
        var m :| m in sys.pending[1..] && m.op == Write && m.sock == s;
        assert m == Message(s, Write);
      }
    }
  }

  ghost const ALL: set<Sock> := set s: Sock | true

  /** No lost wake-up is kept by every step of either task. */
  lemma StepKeepsAwake(sys: System, ev: Event)
    requires Good(sys) && Enabled(sys, ev) && Sound(sys, ev) && Prompt(sys, ev) && NoLostWakeup(sys)
    ensures NoLostWakeup(Step(sys, ev))
  {
    if ev.Turn? {
      var m := sys.pending[0];
      TurnStarts(sys, {}, ALL);
      ConservedFrame(sys.b, Start(sys.b), 0);
      SameLinksTidy(sys.b, Start(sys.b), sys.maxSock);
      var asleep: set<Sock> := if m.op == Write then {m.sock} else {};
      HandleLive(Start(sys.b), BaseOf(sys), m, ev.inp, asleep, ALL + {m.sock});
      TurnEnds(sys, Step(sys, ev).b, {}, ALL + {m.sock});
      forall s: Sock ensures SocketAwake(Step(sys, ev), s) {}
    } else {
      forall s: Sock ensures SocketAwake(Step(sys, ev), s) { MainKeepsWatch(sys, ev, s); }
    }
  }

  /** No live socket is forgotten by either task, as long as each turn is answered. */
  lemma StepKeepsHeard(sys: System, ev: Event)
    requires Good(sys) && Enabled(sys, ev) && Sound(sys, ev) && NobodyDeaf(sys)
    requires Answered(sys, ev) && (ev.Turn? ==> ev.inp.lost == {})
    ensures NobodyDeaf(Step(sys, ev))
  {
    if ev.Turn? {
      TurnHeard(sys, ev.inp);
      forall s: Sock ensures SocketHeard(Step(sys, ev), s) {}
    } else {
      forall s: Sock ensures SocketHeard(Step(sys, ev), s) { MainKeepsWatch(sys, ev, s); }
    }
  }

  /** A turn leaves every other live socket heard, and its own if the turn is answered. */
  lemma TurnHeard(sys: System, inp: Input)
    requires Good(sys) && Enabled(sys, Turn(inp)) && Sound(sys, Turn(inp)) && NobodyDeaf(sys) && inp.lost == {}
    ensures forall s: Sock :: s != sys.pending[0].sock || Answered(sys, Turn(inp)) ==> SocketHeard(Step(sys, Turn(inp)), s)
  {
    var m := sys.pending[0];
    var asleep := if m.op == Write then ALL + {m.sock} else ALL;
    TurnStarts(sys, ALL, {});
    ConservedFrame(sys.b, Start(sys.b), 0);
    SameLinksTidy(sys.b, Start(sys.b), sys.maxSock);
    HandleLive(Start(sys.b), BaseOf(sys), m, inp, asleep, {m.sock});
    var deaf: set<Sock> := if Answered(sys, Turn(inp)) then {} else {m.sock};
    assert {m.sock} - {m.sock} == {};
    TurnEnds(sys, Step(sys, Turn(inp)).b, ALL, deaf);
  }

  // ---------- exactly when a step keeps its property ----------

  /** Another turn for the socket is on its way besides the one being taken. */
  ghost predicate OtherTurn(sys: System, s: Sock)
    requires sys.pending != []
  {
    || Message(s, Read) in sys.pending[1..] || Message(s, Write) in sys.pending[1..]
    || Coming(sys, s).r || Coming(sys, s).w
  }

  ghost predicate OtherWriteTurn(sys: System, s: Sock)
    requires sys.pending != []
  {
    Message(s, Write) in sys.pending[1..] || Coming(sys, s).w
  }

  /** A turn that the code leaves unanswered sends nothing and keeps the connection. */
  lemma UnansweredIsSilent(b: Broker, s: Sock, inp: Input)
    requires Linked(b) && Conserved(b, 0) && b.conns[s].phase == Mqtt && Unanswered(b, s, inp.packet)
    ensures OnPacket(b, s, inp).out == b.out && OnPacket(b, s, inp).conns[s].phase == Mqtt
  {
    assert HasOwner(b.clients, b.conns[s].cid, s);
    var t := b.conns[s].table;
    match inp.packet
    case Puback(id, _) =>
      var e :| e in t && e.id == id && e.state == GetPuback;
      var j :| 0 <= j < |t| && t[j] == e;
      assert Waiting(id, GetPuback).Matches(t[j]);
      NothingDangles(b, 0, s, First(t, Waiting(id, GetPuback)));
    case Pubrec(id, _) =>
      var e :| e in t && e.id == id && e.state == GetPubrec;
      var j :| 0 <= j < |t| && t[j] == e;
      assert Waiting(id, GetPubrec).Matches(t[j]);
      NothingDangles(b, 0, s, First(t, Waiting(id, GetPubrec)));
    case _ =>
  }

  /** A turn goes unheard exactly when the code does not answer it and no other turn is on its way. */
  lemma HeardExactly(sys: System, inp: Input)
    requires Good(sys) && Enabled(sys, Turn(inp)) && Sound(sys, Turn(inp)) && NobodyDeaf(sys) && inp.lost == {}
    ensures NobodyDeaf(Step(sys, Turn(inp))) <==> Answered(sys, Turn(inp)) || OtherTurn(sys, sys.pending[0].sock)
  {
    var m, next := sys.pending[0], Step(sys, Turn(inp));
    TurnHeard(sys, inp);
    if Answered(sys, Turn(inp)) {
      forall s: Sock ensures SocketHeard(next, s) {}
    } else {
      var b := Start(sys.b);
      ConservedFrame(sys.b, b, 0);
      SameLinksTidy(sys.b, b, sys.maxSock);
      if b.conns[m.sock].phase == Mqtt {
        UnansweredIsSilent(b, m.sock, inp);
      }
      assert next.toFds + next.b.out == sys.toFds + sys.b.out;
      assert SocketHeard(next, m.sock) <==> OtherTurn(sys, m.sock);
      forall s: Sock
        ensures s != m.sock ==> SocketHeard(next, s)
      {}
    }
  }

  /** A turn that leaves a socket's connection and its coming write turns alone keeps it awake. */
  lemma OthersStayAwake(sys: System, next: System, s: Sock)
    requires sys.b.Shape() && next.b.Shape() && sys.pending != [] && next.pending == sys.pending[1..] && SocketAwake(sys, s)
    requires s != sys.pending[0].sock ==> Coming(next, s).w == Coming(sys, s).w && next.b.conns[s].phase == sys.b.conns[s].phase && next.b.conns[s].table == sys.b.conns[s].table
    ensures s != sys.pending[0].sock ==> SocketAwake(next, s)
  {
    assert s != sys.pending[0].sock && Message(s, Write) in sys.pending ==> Message(s, Write) in next.pending;
  }

  lemma DoneTurn(b: Broker, m: Message, inp: Input, s: Sock)
    requires b.Shape() && inp.lost == {} && b.conns[m.sock].phase != Mqtt && inp.tls == Done
    ensures var r := Handle(b, m, inp);
            && r.out == b.out + [Message(m.sock, Read)] && r.conns[s].table == b.conns[s].table
            && r.conns[s].phase == if s == m.sock then Mqtt else b.conns[s].phase
  {
  }

  /** What a completed handshake changes. */
  lemma HandshakeTurn(sys: System, inp: Input, s: Sock)
    requires Enabled(sys, Turn(inp)) && inp.lost == {} && sys.b.conns[sys.pending[0].sock].phase != Mqtt && inp.tls == Done
    ensures var next := Step(sys, Turn(inp));
            && next.b.Shape() && next.pending == sys.pending[1..] && Coming(next, s).w == Coming(sys, s).w
            && next.b.conns[s].table == sys.b.conns[s].table
            && next.b.conns[s].phase == if s == sys.pending[0].sock then Mqtt else sys.b.conns[s].phase
  {
    var m, next := sys.pending[0], Step(sys, Turn(inp));
    DoneTurn(Start(sys.b), m, inp, s);
    assert next.toFds + next.b.out == (sys.toFds + sys.b.out) + [Message(m.sock, Read)];
    AfterSnoc(sys.toFds + sys.b.out, Message(m.sock, Read), s, Watch(s in sys.rd, s in sys.wr));
  }

  /** A completed handshake loses a wake-up exactly when the table that the last connection on this
      socket left behind has something to send and no write turn is on its way. */
  lemma HandshakeAwakeExactly(sys: System, inp: Input)
    requires Enabled(sys, Turn(inp)) && NoLostWakeup(sys)
    requires inp.lost == {} && sys.b.conns[sys.pending[0].sock].phase != Mqtt && inp.tls == Done
    ensures NoLostWakeup(Step(sys, Turn(inp)))
       <==> NoPending(sys.b.conns[sys.pending[0].sock].table) || OtherWriteTurn(sys, sys.pending[0].sock)
  {
    var own, next := sys.pending[0].sock, Step(sys, Turn(inp));
    HandshakeTurn(sys, inp, own);
    assert SocketAwake(next, own) <==> NoPending(sys.b.conns[own].table) || OtherWriteTurn(sys, own);
    forall s: Sock
      ensures s != own ==> SocketAwake(next, s)
    {
      HandshakeTurn(sys, inp, s);
      OthersStayAwake(sys, next, s);
    }
  }

  /** A write turn strands its socket exactly when something is left to send after the first pending
      entry, the request for the next write turn is lost, and no other write turn is on its way. */
  lemma WriteTurnAwakeExactly(sys: System, inp: Input)
    requires Good(sys) && Enabled(sys, Turn(inp)) && Sound(sys, Turn(inp)) && NoLostWakeup(sys)
    requires sys.pending[0].op == Write && sys.b.conns[sys.pending[0].sock].phase == Mqtt
    ensures var s, t := sys.pending[0].sock, sys.b.conns[sys.pending[0].sock].table;
            NoLostWakeup(Step(sys, Turn(inp)))
            <==> (forall j :: First(t, AnyPending) < j < |t| ==> !t[j].Pending()) || 0 !in inp.lost || OtherWriteTurn(sys, s)
  {
    var m, next, b := sys.pending[0], Step(sys, Turn(inp)), Start(sys.b);
    var s, t, t' := m.sock, sys.b.conns[m.sock].table, next.b.conns[m.sock].table;
    var i := First(t, AnyPending);
    ConservedFrame(sys.b, b, 0);
    WriteTurnIs(b, m, inp);
    var op := if i + 1 < |t| then Write else Read;
    forall x: Sock
      ensures Coming(next, x) == if 0 in inp.lost then Coming(sys, x) else Apply(Message(s, op), x, Coming(sys, x))
    {
      RequestComes(sys, next, Message(s, op), inp.lost, x);
    }
    forall x: Sock ensures x != s ==> SocketAwake(next, x) { OthersStayAwake(sys, next, x); }
    if i < |t| { RestIsPending(t, t'); }
    assert SocketAwake(next, s) <==> NoPending(t') || OtherWriteTurn(next.(pending := sys.pending), s);
  }

  /** How the one request of a turn is seen at the select sets. */
  lemma RequestComes(sys: System, next: System, m: Message, lost: set<nat>, x: Sock)
    requires next.toFds == sys.toFds && next.rd == sys.rd && next.wr == sys.wr && next.b.out == if 0 in lost then sys.b.out else sys.b.out + [m]
    ensures Coming(next, x) == if 0 in lost then Coming(sys, x) else Apply(m, x, Coming(sys, x))
  {
    if 0 !in lost {
      assert next.toFds + next.b.out == (sys.toFds + sys.b.out) + [m];
      AfterSnoc(sys.toFds + sys.b.out, m, x, Watch(x in sys.rd, x in sys.wr));
    }
  }

  /** What a write turn does to the tables and asks for. */
  lemma WriteTurnIs(b: Broker, m: Message, inp: Input)
    requires b.Shape() && Conserved(b, 0) && b.tries == 0 && m.op == Write && b.conns[m.sock].phase == Mqtt
    ensures var s, r := m.sock, Handle(b, m, inp);
            var t, t' := b.conns[s].table, r.conns[s].table;
            var i := First(t, AnyPending);
            && r.out == (if 0 in inp.lost then b.out else b.out + [Message(s, if i + 1 < |t| then Write else Read)])
            && (forall x: Sock :: r.conns[x].phase == b.conns[x].phase && (x != s ==> r.conns[x].table == b.conns[x].table))
            && if i < |t| then |t'| == |t| && t' == t[i := t'[i]] && !t'[i].Pending() else t' == t
  {
    var t := b.conns[m.sock].table;
    var i := First(t, AnyPending);
    if i < |t| { ServedTable(b, m.sock, i, inp.written); }
  }

  lemma RestIsPending(t: seq<Entry>, t': seq<Entry>)
    requires First(t, AnyPending) < |t| == |t'| && t' == t[First(t, AnyPending) := t'[First(t, AnyPending)]]
    requires !t'[First(t, AnyPending)].Pending()
    ensures NoPending(t') <==> forall j :: First(t, AnyPending) < j < |t| ==> !t[j].Pending()
  {
    var i := First(t, AnyPending);
    if NoPending(t') {
      forall j | i < j < |t| ensures !t[j].Pending() { assert !t'[j].Pending(); }
    }
    forall j | 0 <= j < i ensures !t[j].Pending() { assert !AnyPending.Matches(t[j]); }
  }

  /** A write event changes one slot of the table, and leaves nothing to send there. */
  lemma ServedTable(b: Broker, s: Sock, i: nat, written: bool)
    requires b.Shape() && Conserved(b, 0) && i < |b.conns[s].table| && b.conns[s].table[i].Pending()
    ensures var r := Serve(b, s, i, written);
            && r.out == b.out && r.tries == b.tries
            && (forall x: Sock :: r.conns[x].phase == b.conns[x].phase && (x != s ==> r.conns[x].table == b.conns[x].table))
            && r.conns[s].table == b.conns[s].table[i := r.conns[s].table[i]]
            && !r.conns[s].table[i].Pending()
  {
    if b.conns[s].table[i].state.SendPublish? {
      NothingDangles(b, 0, s, i);
    }
  }

  // ---------- a full pending_socks ----------

  /** The select task finds a socket ready and clears it although pending_socks does not take the message
      (main.cpp:134-145). */
  function RefusedRead(sys: System, s: Sock): System { sys.(rd := sys.rd - {s}) }

  function RefusedWrite(sys: System, s: Sock): System { sys.(wr := sys.wr - {s}) }

  /** What is on its way to the sets brings the socket into the read set again. */
  ghost predicate ReadStands(sys: System, s: Sock) { After(sys.toFds + sys.b.out, s, Watch(false, false)).r }

  ghost predicate WriteStands(sys: System, s: Sock) { exists i :: Stands(sys.toFds + sys.b.out, s, i) }

  /** A readable socket that is refused is stranded exactly when it is live, no message for it waits, nothing
      on its way brings it into the read set, and it does not stay or come into the write set either. */
  lemma RefusedReadExactly(sys: System, s: Sock)
    requires NobodyDeaf(sys) && s in sys.rd
    ensures NobodyDeaf(RefusedRead(sys, s))
       <==> || sys.b.conns[s].phase == Uninit
            || Message(s, Write) in sys.pending || Message(s, Read) in sys.pending
            || ReadStands(sys, s) || WriteStands(sys, s)
            || (s in sys.wr && Message(s, DelAll) !in sys.toFds + sys.b.out)
    ensures NoLostWakeup(sys) ==> NoLostWakeup(RefusedRead(sys, s))
  {
    var next, q := RefusedRead(sys, s), sys.toFds + sys.b.out;
    forall x: Sock
      ensures Coming(next, x).w == Coming(sys, x).w && (x != s ==> Coming(next, x) == Coming(sys, x))
    {
      AfterDiffers(q, x, Watch(x in sys.rd, x in sys.wr), Watch(x in next.rd, x in next.wr));
    }
    forall x: Sock ensures x != s ==> SocketHeard(next, x) { assert SocketHeard(sys, x); }
    WriteRequestStands(q, s, Watch(false, s in sys.wr));
    AfterDiffers(q, s, Watch(false, s in sys.wr), Watch(false, false));
    assert SocketHeard(next, s) <==> sys.b.conns[s].phase == Uninit || Message(s, Write) in sys.pending || Message(s, Read) in sys.pending
                                     || Coming(next, s).r || Coming(next, s).w;
    if NoLostWakeup(sys) {
      forall x: Sock ensures SocketAwake(next, x) { assert SocketAwake(sys, x); }
    }
  }

  /** A writable socket that is refused loses its wake-up exactly when it is live and has something to send,
      no write message for it waits, and no write request for it stands. */
  lemma RefusedWriteExactly(sys: System, s: Sock)
    requires NoLostWakeup(sys) && s in sys.wr
    ensures NoLostWakeup(RefusedWrite(sys, s))
       <==> || sys.b.conns[s].phase != Mqtt || NoPending(sys.b.conns[s].table)
            || Message(s, Write) in sys.pending || WriteStands(sys, s)
  {
    var next, q := RefusedWrite(sys, s), sys.toFds + sys.b.out;
    forall x: Sock
      ensures x != s ==> SocketAwake(next, x)
    {
      assert SocketAwake(sys, x);
      assert x != s ==> Coming(next, x) == Coming(sys, x);
    }
    WriteRequestStands(q, s, Watch(s in sys.rd, false));
    assert SocketAwake(next, s) <==> (sys.b.conns[s].phase == Mqtt && !NoPending(sys.b.conns[s].table) ==>
                                        Message(s, Write) in sys.pending || Coming(next, s).w);
  }
}
