/** The records the worker task keeps (main/includes/worker.hpp, main/includes/Client.hpp) and the
    elementary operations on them: searching and filling a socket's table of packet identifiers, and
    adding or dropping one reference to a stored message.
 */
module Protocol {
  const SOCKETS := 64

  type Id = x: nat | x < 0x1_0000     // uint16_t; 0 marks a free table slot
  type Count = x: nat | x < 0x100     // uint8_t
  type Sock = x: nat | x < SOCKETS
  type ClientSock = x: int | -1 <= x < SOCKETS    // -1: not connected
  type Topic = string
  type Bytes = seq<bv8>

  datatype Option<+T> = None | Some(value: T)

  datatype PacketState =
    | GetPuback | GetPubrec | GetPubrel | GetPubcomp
    | SendPublish | SendPuback | SendPubrec | SendPubrel | SendPubcomp
  {
    predicate IsSend() {
      SendPublish? || SendPuback? || SendPubrec? || SendPubrel? || SendPubcomp?
    }

    /** The states in which an entry holds a reference to its stored message. */
    predicate HoldsMessage() {
      SendPublish? || GetPuback? || GetPubrec?
    }

    /** True for the half of the protocol in which the broker is the sender of the PUBLISH. */
    predicate Outgoing() {
      SendPublish? || GetPuback? || GetPubrec? || SendPubrel? || GetPubcomp?
    }
  }

  /** `packid_state_item`. A slot is freed by zeroing its identifier; its state is left as it was. */
  datatype Entry = Entry(id: Id, state: PacketState, qos: nat, deleteRetain: bool) {
    predicate Pending() { id != 0 && state.IsSend() }
    predicate Counted() { id != 0 && state.HoldsMessage() }
  }

  /** `Node_pubmap`: a stored message and the number of references to it. */
  datatype Node = Node(count: Count, qos: nat, data: Bytes)

  datatype Will = Will(topic: Topic, qos: nat, data: Bytes)

  /** `subs` is the topic map that the subscription trie refines (module Subscriptions). */
  datatype Client = Client(cid: string, sock: ClientSock, clean: bool, queued: bool,
                           subs: map<Topic, nat>, will: Option<Will>)

  datatype Phase = Uninit | Handshake | Mqtt

  /** `sock_cid`. An empty `cid` is `clientid_len == 0`: no CONNECT accepted yet. */
  datatype Conn = Conn(phase: Phase, cid: string, table: seq<Entry>)

  datatype Operation = Write | Read | DelRead | DelAll

  datatype Message = Message(sock: Sock, op: Operation)

  datatype Control = PubackC | PubrecC | PubrelC | PubcompC

  /** What a write event puts on the wire. */
  datatype Frame = PublishFrame(to: Sock, bytes: Bytes) | ControlFrame(to: Sock, kind: Control, id: Id)

  /** Everything the worker task owns. `out` is what the current handler has put on socks_for_fds,
      `tries` counts its attempts (a queue that stays full makes an attempt fail), `wire` lists the
      frames written by write events, and `fault` records an access to the table at index -1. */
  datatype Broker = Broker(conns: seq<Conn>, clients: seq<Client>, store: map<Id, Node>,
                           retained: map<Topic, Id>, out: seq<Message>, tries: nat,
                           wire: seq<Frame>, fault: bool)
  {
    ghost predicate Shape() { |conns| == SOCKETS }
  }

  // ---------- searching a table ----------

  /** What the loops over a table look for. */
  datatype Query = Free | AnyPending | Waiting(id: Id, state: PacketState) {
    predicate Matches(e: Entry) {
      match this
      case Free => e.id == 0
      case AnyPending => e.Pending()
      case Waiting(id, state) => e.id == id && e.state == state
    }
  }

  /** The first slot at or after `from` that the query matches, or the length of the table. */
  function First(t: seq<Entry>, q: Query, from: nat := 0): (k: nat)
    requires from <= |t|
    ensures from <= k <= |t|
    ensures forall j :: from <= j < k ==> !q.Matches(t[j])
    ensures k < |t| ==> q.Matches(t[k])
    decreases |t| - from
  {
    if from == |t| || q.Matches(t[from]) then from else First(t, q, from + 1)
  }

  function AddEntry(t: seq<Entry>, e: Entry): seq<Entry> {
    var k := First(t, Free);
    if k < |t| then t[k := e] else t + [e]
  }

  predicate NoPending(t: seq<Entry>) {
    forall i :: 0 <= i < |t| ==> !t[i].Pending()
  }

  // ---------- references ----------

  function Acquire(store: map<Id, Node>, id: Id): map<Id, Node>
    requires id in store
  {
    store[id := store[id].(count := (store[id].count + 1) % 0x100)]
  }

  /** Drops one reference and removes the node when none is left. */
  function Release(store: map<Id, Node>, id: Id): map<Id, Node> {
    if id !in store then store
    else
      var left := (store[id].count + 0xFF) % 0x100;
      if left == 0 then store - {id} else store[id := store[id].(count := left)]
  }

  // ---------- measuring tables ----------

  /** What an entry contributes: to the references of one identifier, or to the work still to do. */
  datatype Measure = RefsTo(id: Id) | Work {
    function Of(e: Entry): nat {
      match this
      case RefsTo(id) => if e.Counted() && e.id == id then 1 else 0
      case Work =>
        if e.id == 0 then 0 else
        match e.state
        case SendPublish => 4
        case GetPubrec => 3
        case SendPubrec => 3
        case SendPubrel => 2
        case GetPubrel => 2
        case _ => 1
    }
  }

  function Sum(t: seq<Entry>, m: Measure): nat {
    if t == [] then 0 else m.Of(t[0]) + Sum(t[1..], m)
  }

  function Total(conns: seq<Conn>, m: Measure): nat {
    if conns == [] then 0 else Sum(conns[0].table, m) + Total(conns[1..], m)
  }

  lemma {:induction false} SumUpdate(t: seq<Entry>, i: nat, e: Entry, m: Measure)
    requires i < |t|
    ensures Sum(t[i := e], m) == Sum(t, m) - m.Of(t[i]) + m.Of(e)
  {
    if i == 0 {
      assert t[0 := e][1..] == t[1..];
    } else {
      assert t[i := e][1..] == t[1..][i - 1 := e];
      SumUpdate(t[1..], i - 1, e, m);
    }
  }

  lemma {:induction false} SumAppend(t: seq<Entry>, e: Entry, m: Measure)
    ensures Sum(t + [e], m) == Sum(t, m) + m.Of(e)
  {
    if t == [] {
      assert [] + [e] == [e];
      assert Sum([e], m) == m.Of(e) + Sum([e][1..], m);
    } else {
      assert (t + [e])[1..] == t[1..] + [e];
      SumAppend(t[1..], e, m);
    }
  }

  /** A table gains exactly the new entry's contribution, whether a free slot is reused or not. */
  lemma SumAddEntry(t: seq<Entry>, e: Entry, m: Measure)
    ensures Sum(AddEntry(t, e), m) == Sum(t, m) + m.Of(e)
  {
    var k := First(t, Free);
    if k < |t| {
      SumUpdate(t, k, e, m);
    } else {
      SumAppend(t, e, m);
    }
  }

  lemma {:induction false} TotalUpdate(conns: seq<Conn>, k: nat, c: Conn, m: Measure)
    requires k < |conns|
    ensures Total(conns[k := c], m) == Total(conns, m) - Sum(conns[k].table, m) + Sum(c.table, m)
  {
    if k == 0 {
      assert conns[0 := c][1..] == conns[1..];
    } else {
      assert conns[k := c][1..] == conns[1..][k - 1 := c];
      TotalUpdate(conns[1..], k - 1, c, m);
    }
  }

  /** An entry counts at least once in the total. */
  lemma {:induction false} TotalAtLeast(conns: seq<Conn>, k: nat, i: nat, m: Measure)
    requires k < |conns| && i < |conns[k].table|
    ensures Total(conns, m) >= m.Of(conns[k].table[i])
  {
    if k == 0 {
      SumAtLeast(conns[0].table, i, m);
    } else {
      TotalAtLeast(conns[1..], k - 1, i, m);
    }
  }

  lemma {:induction false} SumAtLeast(t: seq<Entry>, i: nat, m: Measure)
    requires i < |t|
    ensures Sum(t, m) >= m.Of(t[i])
  {
    if i > 0 {
      SumAtLeast(t[1..], i - 1, m);
    }
  }
}
