/** The bytes of every delivery are bytes that a client published. The history of a run is written by
    PUBLISH packets and by the wills of connections that are dropped, and by nothing else; the theorems
    compare what the broker stores and sends with it. */
module Histories {
  import opened Protocol
  import opened Delivery
  import opened Conservation
  import opened ConservationSteps
  import opened Births
  import opened EventLoop
  import opened Runs

  /** What was published last under each identifier. */
  type History = map<Id, Bytes>

  /** What clients publish in a turn. */
  function Publications(b: Broker, m: Message, inp: Input): History
    requires b.Shape()
  {
    if OnSession(b, m) && inp.packet.Publish? && inp.packet.qos <= 2 then map[inp.packet.id := inp.packet.data]
    else if Drops(b, m, inp) && WillOf(b, m.sock).Some? then map[inp.willId := WillOf(b, m.sock).value.data]
    else map[]
  }

  ghost function HistoryAfter(sys: System, ev: Event, hist: History): History
    requires Enabled(sys, ev)
  {
    if ev.Turn? then hist + Publications(Start(sys.b), sys.pending[0], ev.inp) else hist
  }

  ghost function HistoryOf(sys: System, evs: seq<Event>, d: Demand, hist: History): History
    requires Legal(sys, evs, d)
    decreases |evs|
  {
    if evs == [] then hist else HistoryOf(Step(sys, evs[0]), evs[1..], d, HistoryAfter(sys, evs[0], hist))
  }

  /** Every stored message has the bytes that were published last under its identifier. */
  ghost predicate Records(b: Broker, hist: History) {
    forall id :: id in b.store ==> id in hist && hist[id] == b.store[id].data
  }

  /** What a turn stores anew is what is published in it. */
  lemma TurnRecords(b: Broker, m: Message, inp: Input, hist: History)
    requires b.Shape() && Conserved(b, 0) && Admissible(b, m, inp) && Records(b, hist)
    ensures Records(Handle(b, m, inp), hist + Publications(b, m, inp))
  {
    var r, new' := Handle(b, m, inp), Publications(b, m, inp);
    HandleKeeps(b, m, inp);
    forall id | id in r.store
      ensures id in hist + new' && (hist + new')[id] == r.store[id].data
    {
      if id in b.store {
        assert SameContent(b.store[id], r.store[id]) && id !in new';
      } else {
        assert id in Offered(b, m, inp) && SameContent(Offered(b, m, inp)[id], r.store[id]);
        assert id in new' && new'[id] == Offered(b, m, inp)[id].data;
      }
    }
  }

  lemma StepRecords(sys: System, ev: Event, hist: History)
    requires Good(sys) && Enabled(sys, ev) && Sound(sys, ev) && Records(sys.b, hist)
    ensures Records(Step(sys, ev).b, HistoryAfter(sys, ev, hist))
  {
    if ev.Turn? {
      ConservedFrame(sys.b, Start(sys.b), 0);
      TurnRecords(Start(sys.b), sys.pending[0], ev.inp, hist);
    }
  }

  /** Over every run, every stored message has the bytes that a client published last under its identifier. */
  lemma {:induction false} AlwaysPublished(sys: System, evs: seq<Event>, d: Demand, hist: History)
    requires Good(sys) && Legal(sys, evs, d) && Records(sys.b, hist)
    ensures Records(Run(sys, evs, d).b, HistoryOf(sys, evs, d, hist))
    decreases |evs|
  {
    if evs != [] {
      StepGood(sys, evs[0]);
      StepRecords(sys, evs[0], hist);
      AlwaysPublished(Step(sys, evs[0]), evs[1..], d, HistoryAfter(sys, evs[0], hist));
    }
  }

  // ---------- one delivery ----------

  /** The bytes that stood in the history under its identifier when the delivery in slot `i` of socket `s`
      was born, given those of the delivery that the slot held before the step. */
  ghost function OriginAfter(sys: System, ev: Event, s: Sock, i: nat, origin: Bytes, hist: History): Bytes
    requires Enabled(sys, ev) && Step(sys, ev).b.Shape()
  {
    var f, now := SlotAt(Step(sys, ev).b, s, i), HistoryAfter(sys, ev, hist);
    if !ev.Turn? || !f.Counted() || Old(sys.b.conns[s].table, i, f) then origin
    else if f.id in now then now[f.id]
    else []
  }

  ghost function Origin(sys: System, evs: seq<Event>, d: Demand, s: Sock, i: nat, origin: Bytes, hist: History): Bytes
    requires Good(sys) && Legal(sys, evs, d)
    decreases |evs|
  {
    if evs == [] then origin
    else
      StepGood(sys, evs[0]);
      Origin(Step(sys, evs[0]), evs[1..], d, s, i, OriginAfter(sys, evs[0], s, i, origin, hist), HistoryAfter(sys, evs[0], hist))
  }

  /** The message of the delivery is stored with these bytes. */
  ghost predicate Carries(b: Broker, s: Sock, i: nat, origin: Bytes)
    requires b.Shape()
  {
    var e := SlotAt(b, s, i);
    e.Counted() ==> e.id in b.store && b.store[e.id].data == origin
  }

  lemma StepCarries(sys: System, ev: Event, s: Sock, i: nat, origin: Bytes, hist: History)
    requires Good(sys) && Enabled(sys, ev) && Sound(sys, ev) && Carries(sys.b, s, i, origin) && Records(sys.b, hist)
    ensures Step(sys, ev).b.Shape() && Carries(Step(sys, ev).b, s, i, OriginAfter(sys, ev, s, i, origin, hist))
  {
    StepGood(sys, ev);
    if ev.Turn? && SlotAt(Step(sys, ev).b, s, i).Counted() {
      ConservedFrame(sys.b, Start(sys.b), 0);
      DeliveryAfter(Start(sys.b), sys.pending[0], ev.inp, s, i);
      StepRecords(sys, ev, hist);
    }
  }

  /** Over every run, the bytes stored for a delivery are those that a client had published last under its
      identifier when it was born, whatever is published, retained, replaced or dropped in between. */
  lemma {:induction false} AlwaysCarries(sys: System, evs: seq<Event>, d: Demand, s: Sock, i: nat, origin: Bytes, hist: History)
    requires Good(sys) && Legal(sys, evs, d) && Carries(sys.b, s, i, origin) && Records(sys.b, hist)
    ensures Run(sys, evs, d).b.Shape() && Carries(Run(sys, evs, d).b, s, i, Origin(sys, evs, d, s, i, origin, hist))
    decreases |evs|
  {
    if evs != [] {
      StepGood(sys, evs[0]);
      StepCarries(sys, evs[0], s, i, origin, hist);
      StepRecords(sys, evs[0], hist);
      AlwaysCarries(Step(sys, evs[0]), evs[1..], d, s, i, OriginAfter(sys, evs[0], s, i, origin, hist), HistoryAfter(sys, evs[0], hist));
    }
  }

  /** So the PUBLISH that a write turn writes, after any run, has the bytes that were published, with the
      QoS and the RETAIN bit of the delivery. */
  lemma WritesWhatWasPublished(sys: System, evs: seq<Event>, d: Demand, inp: Input, s: Sock, origin: Bytes, hist: History)
    requires Good(sys) && Legal(sys, evs, d) && Records(sys.b, hist)
    requires var end := Run(sys, evs, d); end.b.Shape() && end.pending != [] && end.pending[0] == Message(s, Write) && end.b.conns[s].phase == Mqtt
    requires var t := Run(sys, evs, d).b.conns[s].table; First(t, AnyPending) < |t| && t[First(t, AnyPending)].state.SendPublish?
    requires Carries(sys.b, s, First(Run(sys, evs, d).b.conns[s].table, AnyPending), origin)
    ensures var end := Run(sys, evs, d);
            var i := First(end.b.conns[s].table, AnyPending);
            var e := end.b.conns[s].table[i];
            Handle(Start(end.b), Message(s, Write), inp).wire
            == end.b.wire + [PublishFrame(s, WireImage(Origin(sys, evs, d, s, i, origin, hist), e.qos, e.deleteRetain))]
  {
    var end := Run(sys, evs, d);
    var i := First(end.b.conns[s].table, AnyPending);
    AlwaysCarries(sys, evs, d, s, i, origin, hist);
    assert SlotAt(end.b, s, i).Counted();
    assert Handle(Start(end.b), Message(s, Write), inp) == WriteEvent(Start(end.b), s, inp.written, inp.lost);
  }

  /** And so has the PUBLISH that is written again after an ill-formed PUBACK or PUBREC, with the QoS of the
      message. */
  lemma RepeatsWhatWasPublished(sys: System, evs: seq<Event>, d: Demand, inp: Input, s: Sock, i: nat, origin: Bytes, hist: History)
    requires Good(sys) && Legal(sys, evs, d) && Carries(sys.b, s, i, origin) && Records(sys.b, hist)
    requires var end := Run(sys, evs, d); end.b.Shape() && end.pending != [] && end.pending[0] == Message(s, Read) && OnSession(Start(end.b), end.pending[0])
    requires (inp.packet.Puback? || inp.packet.Pubrec?) && !inp.packet.wellFormed && inp.packet.id != 0
    requires var t := Run(sys, evs, d).b.conns[s].table;
             i < |t| && i == First(t, Waiting(inp.packet.id, if inp.packet.Puback? then GetPuback else GetPubrec))
    ensures var end := Run(sys, evs, d);
            && inp.packet.id in end.b.store
            && Handle(Start(end.b), Message(s, Read), inp).wire
               == end.b.wire + [PublishFrame(s, WireImage(Origin(sys, evs, d, s, i, origin, hist), end.b.store[inp.packet.id].qos, true))]
  {
    var end := Run(sys, evs, d);
    AlwaysCarries(sys, evs, d, s, i, origin, hist);
    assert SlotAt(end.b, s, i).Counted();
    assert Handle(Start(end.b), Message(s, Read), inp) == OnPacket(Start(end.b), s, inp);
  }
}
