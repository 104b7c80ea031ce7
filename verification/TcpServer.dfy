/** The select task in place (main/main.cpp:96-168). Each part of a pass of its loop is proved to be a
    run of the steps of module EventLoop, so what is proved there under every interleaving holds for this
    loop. The worker's broker `b` stands still here: its steps touch the two queues at their other ends.
 */
module TcpServers {
  import opened Protocol
  import opened Wakeup
  import opened EventLoop

  /** The steps `evs` lead from one state to the other. */
  ghost predicate Leads(sys: System, evs: seq<Event>, end: System)
    decreases |evs|
  {
    if evs == [] then sys == end
    else Enabled(sys, evs[0]) && Leads(Step(sys, evs[0]), evs[1..], end)
  }

  lemma {:induction false} LeadsOn(sys: System, evs: seq<Event>, mid: System, more: seq<Event>, end: System)
    requires Leads(sys, evs, mid) && Leads(mid, more, end)
    ensures Leads(sys, evs + more, end)
    decreases |evs|
  {
    if evs == [] {
      assert [] + more == more;
    } else {
      LeadsOn(Step(sys, evs[0]), evs[1..], mid, more, end);
      assert (evs + more)[1..] == evs[1..] + more;
    }
  }

  lemma LeadsStep(sys: System, evs: seq<Event>, mid: System, ev: Event)
    requires Leads(sys, evs, mid) && Enabled(mid, ev)
    ensures Leads(sys, evs + [ev], Step(mid, ev))
  {
    LeadsOn(sys, evs, mid, [ev], Step(mid, ev));
  }

  ghost predicate SelectOnly(evs: seq<Event>) {
    forall i :: 0 <= i < |evs| ==> !evs[i].Turn?
  }

  /** The select task alone breaks nothing. */
  lemma {:induction false} SelectKeeps(sys: System, evs: seq<Event>, end: System)
    requires Good(sys) && Leads(sys, evs, end) && SelectOnly(evs)
    ensures Good(end) && (NoLostWakeup(sys) ==> NoLostWakeup(end)) && (NobodyDeaf(sys) ==> NobodyDeaf(end))
    decreases |evs|
  {
    if evs != [] {
      var next := Step(sys, evs[0]);
      StepGood(sys, evs[0]);
      forall s: Sock
        ensures (SocketAwake(sys, s) ==> SocketAwake(next, s)) && (SocketHeard(sys, s) ==> SocketHeard(next, s))
      {
        MainKeepsWatch(sys, evs[0], s);
      }
      SelectKeeps(next, evs[1..], end);
    }
  }

  /** The sets once the messages of `q` have been applied to them. */
  ghost predicate Applied(q: seq<Message>, rd: set<Sock>, wr: set<Sock>, rd': set<Sock>, wr': set<Sock>) {
    forall s: Sock :: Watch(s in rd', s in wr') == After(q, s, Watch(s in rd, s in wr))
  }

  lemma AppliedStep(q: seq<Message>, rd: set<Sock>, wr: set<Sock>, sys: System)
    requires sys.b.Shape() && sys.toFds != [] && Applied(q, rd, wr, sys.rd, sys.wr)
    ensures Applied(q + [sys.toFds[0]], rd, wr, Step(sys, Receive).rd, Step(sys, Receive).wr)
  {
    forall s: Sock
      ensures Watch(s in Step(sys, Receive).rd, s in Step(sys, Receive).wr) == After(q + [sys.toFds[0]], s, Watch(s in rd, s in wr))
    {
      AfterSnoc(q, sys.toFds[0], s, Watch(s in rd, s in wr));
    }
  }

  /** The messages that were there and one for each of these sockets. */
  ghost predicate Asked(before: seq<Message>, after: seq<Message>, rs: set<Sock>, ws: set<Sock>) {
    forall m :: m in after <==>
      (m in before || (m.op == Read && m.sock in rs) || (m.op == Write && m.sock in ws))
  }

  lemma AskedMore(p: seq<Message>, q: seq<Message>, r: seq<Message>, rs: set<Sock>, ws: set<Sock>, rs': set<Sock>, ws': set<Sock>)
    requires Asked(p, q, rs, ws) && Asked(q, r, rs', ws')
    ensures Asked(p, r, rs + rs', ws + ws')
  {
    forall m | m in r ensures m in p || (m.op == Read && m.sock in rs + rs') || (m.op == Write && m.sock in ws + ws') {}
    forall m | m in p || (m.op == Read && m.sock in rs + rs') || (m.op == Write && m.sock in ws + ws') ensures m in r {}
  }

  function Only(s: Sock, ready: set<Sock>): set<Sock> { if s in ready then {s} else {} }

  class TcpServer {
    const listenSock: nat
    var masterRead: set<Sock>
    var masterWrite: set<Sock>
    var maxSock: nat
    var pending: seq<Message>
    var toFds: seq<Message>

    ghost function Abs(b: Broker): System
      reads this
    {
      System(b, pending, toFds, masterRead, masterWrite, maxSock)
    }

    constructor (listenSock: nat)
      ensures forall b :: Abs(b) == System(b, [], [], {}, {}, listenSock)
    {
      this.listenSock := listenSock;
      maxSock := listenSock;
      masterRead, masterWrite, pending, toFds := {}, {}, [], [];
    }

    /** The listening socket is ready (main.cpp:112-129); `newSock` is what `accept` returns. */
    method Accept(newSock: int, ghost b: Broker) returns (ghost evs: seq<Event>)
      requires b.Shape() && newSock >= -1
      modifies this
      ensures Leads(old(Abs(b)), evs, Abs(b))
      ensures evs == if 0 <= newSock < SOCKETS then [Accepted(newSock)] else []
    {
      evs := [];
      if newSock > 63 {
        return;
      } else if newSock != -1 {
        if newSock > maxSock {
          maxSock := newSock;
        }
        pending := pending + [Message(newSock, Write)];
        LeadsStep(old(Abs(b)), [], old(Abs(b)), Accepted(newSock));
        evs := [Accepted(newSock)];
      }
    }

    /** One socket of the scan (main.cpp:134-145). */
    method Visit(s: Sock, readable: set<Sock>, writable: set<Sock>, ghost b: Broker) returns (ghost evs: seq<Event>)
      requires b.Shape() && (s in readable ==> s in masterRead) && (s in writable ==> s in masterWrite)
      modifies this
      ensures Leads(old(Abs(b)), evs, Abs(b)) && SelectOnly(evs) && maxSock == old(maxSock) && toFds == old(toFds)
      ensures masterRead == old(masterRead) - Only(s, readable) && masterWrite == old(masterWrite) - Only(s, writable)
      ensures Asked(old(pending), pending, Only(s, readable), Only(s, writable))
    {
      evs := [];
      if s in readable {
        LeadsStep(old(Abs(b)), evs, Abs(b), Readable(s));
        evs := evs + [Readable(s)];
        pending := pending + [Message(s, Read)];
        masterRead := masterRead - {s};
      }
      if s in writable {
        LeadsStep(old(Abs(b)), evs, Abs(b), Writable(s));
        evs := evs + [Writable(s)];
        pending := pending + [Message(s, Write)];
        masterWrite := masterWrite - {s};
      }
    }

    /** The sockets that a scan has passed. */
    ghost function Passed(ready: set<Sock>, upTo: nat): set<Sock> {
      set s | s in ready && s < upTo && s != listenSock
    }

    lemma PassedMore(ready: set<Sock>, s: Sock)
      requires s != listenSock
      ensures Passed(ready, s + 1) == Passed(ready, s) + Only(s, ready)
    {
    }

    lemma PassedNone(ready: set<Sock>, s: nat)
      requires s == listenSock || s >= SOCKETS
      ensures Passed(ready, s + 1) == Passed(ready, s)
    {
    }

    /** The scan over the sockets that select found ready (main.cpp:130-146): each of them up to the
        largest in use gets its message and leaves its set. */
    method Scan(readable: set<Sock>, writable: set<Sock>, ghost b: Broker) returns (ghost evs: seq<Event>)
      requires b.Shape() && readable <= masterRead && writable <= masterWrite
      modifies this
      ensures Leads(old(Abs(b)), evs, Abs(b)) && SelectOnly(evs) && maxSock == old(maxSock) && toFds == old(toFds)
      ensures masterRead == old(masterRead) - Passed(readable, maxSock + 1)
      ensures masterWrite == old(masterWrite) - Passed(writable, maxSock + 1)
      ensures Asked(old(pending), pending, Passed(readable, maxSock + 1), Passed(writable, maxSock + 1))
    {
      evs := [];
      for sock := 0 to maxSock + 1
        invariant Leads(old(Abs(b)), evs, Abs(b)) && SelectOnly(evs) && maxSock == old(maxSock) && toFds == old(toFds)
        invariant masterRead == old(masterRead) - Passed(readable, sock)
        invariant masterWrite == old(masterWrite) - Passed(writable, sock)
        invariant Asked(old(pending), pending, Passed(readable, sock), Passed(writable, sock))
      {
        if sock == listenSock {
          PassedNone(readable, sock);
          PassedNone(writable, sock);
          continue;
        }
        if sock < SOCKETS {
          ghost var mid, some := Abs(b), evs;
          ghost var now := Visit(sock, readable, writable, b);
          PassedMore(readable, sock);
          PassedMore(writable, sock);
          AskedMore(old(pending), mid.pending, pending, Passed(readable, sock), Passed(writable, sock), Only(sock, readable), Only(sock, writable));
          LeadsOn(old(Abs(b)), some, mid, now, Abs(b));
          evs := some + now;
        } else {
          PassedNone(readable, sock);
          PassedNone(writable, sock);
        }
      }
    }

    /** One message from socks_for_fds. */
    method Take(ghost b: Broker)
      requires b.Shape() && toFds != []
      modifies this
      ensures Abs(b) == Step(old(Abs(b)), Receive)
    {
      var m := toFds[0];
      toFds := toFds[1..];
      if m.op == Read {
        masterRead := masterRead + {m.sock};
      } else if m.op == Write {
        masterWrite := masterWrite + {m.sock};
      } else if m.op == DelRead {
        masterRead := masterRead - {m.sock};
      } else if m.op == DelAll {
        masterRead := masterRead - {m.sock};
        masterWrite := masterWrite - {m.sock};
      }
    }

    /** Takes everything that is on socks_for_fds (main.cpp:147-167). */
    method Drain(ghost b: Broker) returns (ghost evs: seq<Event>)
      requires b.Shape()
      modifies this
      ensures Leads(old(Abs(b)), evs, Abs(b)) && SelectOnly(evs) && toFds == [] && pending == old(pending) && maxSock == old(maxSock)
      ensures Applied(old(toFds), old(masterRead), old(masterWrite), masterRead, masterWrite)
    {
      evs := [];
      ghost var n := 0;
      assert old(toFds)[..0] == [];
      while toFds != []
        invariant n <= |old(toFds)| && toFds == old(toFds)[n..] && pending == old(pending) && maxSock == old(maxSock)
        invariant Leads(old(Abs(b)), evs, Abs(b)) && SelectOnly(evs)
        invariant Applied(old(toFds)[..n], old(masterRead), old(masterWrite), masterRead, masterWrite)
        decreases |toFds|
      {
        ghost var mid := Abs(b);
        Take(b);
        LeadsStep(old(Abs(b)), evs, mid, Receive);
        evs := evs + [Receive];
        assert old(toFds)[..n + 1] == old(toFds)[..n] + [mid.toFds[0]];
        AppliedStep(old(toFds)[..n], old(masterRead), old(masterWrite), mid);
        n := n + 1;
      }
      assert old(toFds)[..n] == old(toFds);
    }

    /** A pass of the loop. `select` reports subsets of the sets it is given. No wake-up is lost. */
    method Pass(readable: set<Sock>, writable: set<Sock>, newSock: int, ghost b: Broker) returns (ghost evs: seq<Event>)
      requires b.Shape() && readable <= masterRead && writable <= masterWrite && newSock >= -1
      modifies this
      ensures Leads(old(Abs(b)), evs, Abs(b)) && SelectOnly(evs) && toFds == []
      ensures old(Good(Abs(b))) ==> Good(Abs(b)) && (old(NoLostWakeup(Abs(b))) ==> NoLostWakeup(Abs(b))) && (old(NobodyDeaf(Abs(b))) ==> NobodyDeaf(Abs(b)))
    {
      evs := Accept(newSock, b);
      ghost var mid := Abs(b);
      ghost var scanned := Scan(readable, writable, b);
      LeadsOn(old(Abs(b)), evs, mid, scanned, Abs(b));
      evs, mid := evs + scanned, Abs(b);
      ghost var drained := Drain(b);
      LeadsOn(old(Abs(b)), evs, mid, drained, Abs(b));
      evs := evs + drained;
      if old(Good(Abs(b))) {
        SelectKeeps(old(Abs(b)), evs, Abs(b));
      }
    }
  }
}
