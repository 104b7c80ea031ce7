/** What holds along every run of the two tasks, whatever the order of their steps. */
module Runs {
  import opened Protocol
  import opened Delivery
  import opened Conservation
  import opened Links
  import opened EventLoop
  import opened Births
  import opened Exchange
  import opened Retained
  import opened Progress

  /** What a theorem asks of every step beyond what safety needs. */
  datatype Demand = Nothing | Promptness | Answers | Conformance | Quietness | Alone(s: Sock)

  ghost predicate Allowed(sys: System, ev: Event, d: Demand)
    requires Enabled(sys, ev)
  {
    && Sound(sys, ev)
    && match d
       case Nothing => true
       case Promptness => Prompt(sys, ev)
       case Answers => Answered(sys, ev) && (ev.Turn? ==> ev.inp.lost == {})
       case Conformance => ev.Turn? ==> !Promotes(Start(sys.b), sys.pending[0], ev.inp)
       case Quietness => ev.Turn? ==> Quiet(Start(sys.b), sys.pending[0], ev.inp)
       case Alone(s) => Undisturbed(sys, ev, s)
  }

  ghost predicate Legal(sys: System, evs: seq<Event>, d: Demand)
    decreases |evs|
  {
    evs == [] || (Enabled(sys, evs[0]) && Allowed(sys, evs[0], d) && Legal(Step(sys, evs[0]), evs[1..], d))
  }

  /** The state that a legal run leads to. */
  ghost function Run(sys: System, evs: seq<Event>, d: Demand): System
    requires Legal(sys, evs, d)
    decreases |evs|
  {
    if evs == [] then sys else Run(Step(sys, evs[0]), evs[1..], d)
  }

  /** The broker after power-on: no connection, no client, no message. */
  function PowerOn(listenSock: nat): System {
    System(Broker(seq(SOCKETS, _ => Conn(Uninit, "", [])), [], map[], map[], [], 0, [], false), [], [], {}, {}, listenSock)
  }

  lemma {:induction false} EmptyTables(conns: seq<Conn>, m: Measure)
    requires forall s :: 0 <= s < |conns| ==> conns[s].table == []
    ensures Total(conns, m) == 0
  {
    if conns != [] {
      EmptyTables(conns[1..], m);
    }
  }

  lemma PowerOnGood(listenSock: nat)
    ensures Good(PowerOn(listenSock)) && NoLostWakeup(PowerOn(listenSock)) && NobodyDeaf(PowerOn(listenSock))
    ensures AllFit(PowerOn(listenSock).b) && Bounded(PowerOn(listenSock).b) && Holds(PowerOn(listenSock).b, map[])
  {
    var b := PowerOn(listenSock).b;
    forall id: Id | id != 0
      ensures StoredCount(b.store, id) == Refs(b, id) + 0
    {
      EmptyTables(b.conns, RefsTo(id));
      assert RetainedTopics(b.retained, id) == {};
    }
  }

  /** In every reachable state each stored message's count is the number of entries and retained slots
      that refer to it, clients and connections are linked, and every socket in use is within the range
      that select watches. Queue sends and writes may fail at any point of the run. */
  lemma {:induction false} AlwaysGood(sys: System, evs: seq<Event>, d: Demand)
    requires Good(sys) && Legal(sys, evs, d)
    ensures Good(Run(sys, evs, d))
    decreases |evs|
  {
    if evs != [] {
      StepGood(sys, evs[0]);
      AlwaysGood(Step(sys, evs[0]), evs[1..], d);
    }
  }

  /** No delivery ever dangles: at any point of any run from power-on, the message of an entry that
      still needs it is stored, with a count that is not zero. */
  lemma NeverDangles(listenSock: nat, evs: seq<Event>, d: Demand, s: Sock, i: nat)
    requires Legal(PowerOn(listenSock), evs, d)
    requires Run(PowerOn(listenSock), evs, d).b.Shape()
    requires i < |Run(PowerOn(listenSock), evs, d).b.conns[s].table|
    requires Run(PowerOn(listenSock), evs, d).b.conns[s].table[i].Counted()
    ensures var b := Run(PowerOn(listenSock), evs, d).b;
            b.conns[s].table[i].id in b.store && b.store[b.conns[s].table[i].id].count > 0
  {
    PowerOnGood(listenSock);
    AlwaysGood(PowerOn(listenSock), evs, d);
    NothingDangles(Run(PowerOn(listenSock), evs, d).b, 0, s, i);
  }

  /** No wake-up is ever lost, under every interleaving of the two tasks, if queue sends succeed and
      handshakes complete on tables with nothing to send. */
  lemma {:induction false} AlwaysAwake(sys: System, evs: seq<Event>)
    requires Good(sys) && NoLostWakeup(sys) && Legal(sys, evs, Promptness)
    ensures NoLostWakeup(Run(sys, evs, Promptness))
    decreases |evs|
  {
    if evs != [] {
      StepGood(sys, evs[0]);
      StepKeepsAwake(sys, evs[0]);
      AlwaysAwake(Step(sys, evs[0]), evs[1..]);
    }
  }

  /** No live socket is ever forgotten, if queue sends succeed and every turn is answered. */
  lemma {:induction false} AlwaysHeard(sys: System, evs: seq<Event>)
    requires Good(sys) && NobodyDeaf(sys) && Legal(sys, evs, Answers)
    ensures NobodyDeaf(Run(sys, evs, Answers))
    decreases |evs|
  {
    if evs != [] {
      StepGood(sys, evs[0]);
      StepKeepsHeard(sys, evs[0]);
      AlwaysHeard(Step(sys, evs[0]), evs[1..]);
    }
  }

  // ---------- retained messages ----------

  /** The bytes of the latest retained PUBLISH on each topic. */
  ghost function Latest(sys: System, evs: seq<Event>, d: Demand, before: map<Topic, Bytes>): map<Topic, Bytes>
    requires Legal(sys, evs, d)
    decreases |evs|
  {
    if evs == [] then before
    else
      var now := if evs[0].Turn? then Expect(before, Retaining(Start(sys.b), sys.pending[0], evs[0].inp)) else before;
      Latest(Step(sys, evs[0]), evs[1..], d, now)
  }

  lemma StepHolds(sys: System, ev: Event, before: map<Topic, Bytes>)
    requires Good(sys) && Holds(sys.b, before) && Enabled(sys, ev) && Sound(sys, ev)
    ensures Holds(Step(sys, ev).b,
                  if ev.Turn? then Expect(before, Retaining(Start(sys.b), sys.pending[0], ev.inp)) else before)
  {
    if ev.Turn? {
      var b := Start(sys.b);
      ConservedFrame(sys.b, b, 0);
      SameLinksTidy(sys.b, b, sys.maxSock);
      HandleHolds(b, sys.pending[0], ev.inp, before);
    }
  }

  /** In every reachable state the retained slot of a topic leads to the bytes of the latest retained
      PUBLISH on it, and topics without one have no slot. */
  lemma {:induction false} AlwaysRetained(sys: System, evs: seq<Event>, d: Demand, before: map<Topic, Bytes>)
    requires Good(sys) && Holds(sys.b, before) && Legal(sys, evs, d)
    ensures Holds(Run(sys, evs, d).b, Latest(sys, evs, d, before))
    decreases |evs|
  {
    if evs != [] {
      StepGood(sys, evs[0]);
      StepHolds(sys, evs[0], before);
      var now := if evs[0].Turn? then Expect(before, Retaining(Start(sys.b), sys.pending[0], evs[0].inp)) else before;
      AlwaysRetained(Step(sys, evs[0]), evs[1..], d, now);
    }
  }

  // ---------- exchanges ----------

  function SlotAt(b: Broker, s: Sock, i: nat): Entry
    requires b.Shape()
  {
    if i < |b.conns[s].table| then b.conns[s].table[i] else Entry(0, SendPublish, 0, true)
  }

  /** The packets that have passed for the entry in slot `i` of socket `s` since it was born, given those
      that had passed before the step. An entry for a received PUBLISH is born with it. */
  ghost function LogAfter(sys: System, ev: Event, s: Sock, i: nat, log: seq<Kind>): seq<Kind>
    requires Enabled(sys, ev) && Step(sys, ev).b.Shape()
  {
    var e, f := SlotAt(sys.b, s, i), SlotAt(Step(sys, ev).b, s, i);
    if f.id == 0 then []
    else if e.id == 0 then if f.state.Outgoing() then [] else [PUBLISH]
    else if e == f || !ev.Turn? then log
    else
      var kind := Passed(Start(sys.b), sys.pending[0], ev.inp);
      if kind.Some? then log + [kind.value] else log
  }

  ghost function Log(sys: System, evs: seq<Event>, d: Demand, s: Sock, i: nat, log: seq<Kind>): seq<Kind>
    requires Good(sys) && Legal(sys, evs, d)
    decreases |evs|
  {
    if evs == [] then log
    else
      StepGood(sys, evs[0]);
      Log(Step(sys, evs[0]), evs[1..], d, s, i, LogAfter(sys, evs[0], s, i, log))
  }

  ghost predicate LogFits(b: Broker, s: Sock, i: nat, log: seq<Kind>)
    requires b.Shape()
  {
    SlotAt(b, s, i).id != 0 ==> log == Exchanged(SlotAt(b, s, i))
  }

  lemma StepLogs(sys: System, ev: Event, s: Sock, i: nat, log: seq<Kind>)
    requires Good(sys) && AllFit(sys.b) && Bounded(sys.b) && Enabled(sys, ev) && Allowed(sys, ev, Conformance) && LogFits(sys.b, s, i, log)
    ensures AllFit(Step(sys, ev).b) && Bounded(Step(sys, ev).b) && LogFits(Step(sys, ev).b, s, i, LogAfter(sys, ev, s, i, log))
  {
    if ev.Turn? {
      var b, m := Start(sys.b), sys.pending[0];
      ConservedFrame(sys.b, b, 0);
      SameLinksTidy(sys.b, b, sys.maxSock);
      HandleMoves(b, m, ev.inp);
      HandleBounded(b, m, ev.inp);
      var r, kind := Step(sys, ev).b, Passed(b, m, ev.inp);
      assert TableMoves(b.conns[s].table, r.conns[s].table, kind, ev.inp.written);
      if i < |b.conns[s].table| {
        assert SlotMoves(b.conns[s].table[i], r.conns[s].table[i], kind, ev.inp.written);
      }
    } else {
      assert Step(sys, ev).b.conns == sys.b.conns;
    }
  }

  /** Over every run without a PUBACK that makes the broker write a message again at the wrong QoS, the
      packets that have passed for a live entry are a beginning of the exchange that its QoS prescribes,
      and its state says which. Other ill-formed acknowledgements may come at any point. */
  lemma {:induction false} AlwaysConforms(sys: System, evs: seq<Event>, s: Sock, i: nat, log: seq<Kind>)
    requires Good(sys) && AllFit(sys.b) && Bounded(sys.b) && Legal(sys, evs, Conformance) && LogFits(sys.b, s, i, log)
    ensures var b := Run(sys, evs, Conformance).b;
            && b.Shape()
            && (SlotAt(b, s, i).id != 0 ==>
                  && Log(sys, evs, Conformance, s, i, log) == Exchanged(SlotAt(b, s, i))
                  && Log(sys, evs, Conformance, s, i, log) <= Pattern(SlotAt(b, s, i)))
    decreases |evs|
  {
    if evs == [] {
      if SlotAt(sys.b, s, i).id != 0 {
        ExchangedIsPrefix(SlotAt(sys.b, s, i));
      }
    } else {
      StepGood(sys, evs[0]);
      StepLogs(sys, evs[0], s, i, log);
      AlwaysConforms(Step(sys, evs[0]), evs[1..], s, i, LogAfter(sys, evs[0], s, i, log));
    }
  }

  // ---------- quiescence ----------

  /** The turns of a run that serve an entry. */
  ghost function EffectiveTurns(sys: System, evs: seq<Event>): nat
    requires Legal(sys, evs, Quietness)
    decreases |evs|
  {
    if evs == [] then 0
    else
      (if evs[0].Turn? && Effective(Start(sys.b), sys.pending[0], evs[0].inp) then 1 else 0)
      + EffectiveTurns(Step(sys, evs[0]), evs[1..])
  }

  lemma StepWorks(sys: System, ev: Event)
    requires Good(sys) && Enabled(sys, ev) && Allowed(sys, ev, Quietness)
    ensures WorkLeft(Step(sys, ev).b) + (if ev.Turn? && Effective(Start(sys.b), sys.pending[0], ev.inp) then 1 else 0)
         <= WorkLeft(sys.b)
  {
    if ev.Turn? {
      ConservedFrame(sys.b, Start(sys.b), 0);
      SameLinksTidy(sys.b, Start(sys.b), sys.maxSock);
      QuietTurnWorks(Start(sys.b), sys.pending[0], ev.inp);
    } else {
      assert Step(sys, ev).b.conns == sys.b.conns;
    }
  }

  /** Without new publications, subscriptions or dropped connections, the number of turns that serve an
      entry is bounded by the work there was, which only free slots reduce to nothing. */
  lemma {:induction false} DeliveriesFinish(sys: System, evs: seq<Event>)
    requires Good(sys) && Legal(sys, evs, Quietness)
    ensures EffectiveTurns(sys, evs) + WorkLeft(Run(sys, evs, Quietness).b) <= WorkLeft(sys.b)
    decreases |evs|
  {
    if evs != [] {
      StepGood(sys, evs[0]);
      StepWorks(sys, evs[0]);
      DeliveriesFinish(Step(sys, evs[0]), evs[1..]);
    }
  }
}
