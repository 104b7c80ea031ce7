/** Acknowledgements with identifier 0 as the code stands. Identifier 0 marks a free slot, of a
    connection's table as well as of the message store. So such an acknowledgement can match a slot that
    was freed in the state it waits for (worker.cpp:509-515, :548-554), and `get(0)` can return a free slot
    of the store, whose count goes from 0 to 255 (worker.cpp:535, :573), or whose bytes, of which there are
    none, are written (worker.cpp:532, :569).
 */
module ZeroIdentifiers {
  import opened Protocol
  import opened Delivery
  import opened PublishStores
  import opened PublishStoreAsWritten

  datatype Ack = PubackPacket | PubrecPacket | PubrelPacket | PubcompPacket {
    /** The state that the handler looks for. */
    function Awaited(): PacketState {
      match this
      case PubackPacket => GetPuback
      case PubrecPacket => GetPubrec
      case PubrelPacket => GetPubrel
      case PubcompPacket => GetPubcomp
    }

    /** What becomes of the entry. */
    function Moved(e: Entry): Entry {
      match this
      case PubackPacket => Freed(e)
      case PubrecPacket => e.(state := SendPubrel)
      case PubrelPacket => e.(state := SendPubcomp)
      case PubcompPacket => Freed(e)
    }
  }

  /** The connection is dropped, the handler follows a null pointer, or table and store are these. */
  datatype Outcome = Dropped | NullPointer | Handled(table: seq<Entry>, slots: seq<PublishStores.Slot>)

  /** The handlers of worker.cpp:503-635 for identifier 0, on a connection's table and the store; the search
      for it begins at slot `home`. */
  function Handle(ack: Ack, wellFormed: bool, t: seq<Entry>, a: seq<PublishStores.Slot>, home: nat): Outcome
    requires home < |a|
  {
    var i := First(t, Waiting(0, ack.Awaited()));
    if ack.PubrelPacket? || ack.PubcompPacket? then
      if !wellFormed || i == |t| then Dropped else Handled(t[i := ack.Moved(t[i])], a)
    else if i == |t| then Dropped
    else
      var node := Found(a, home, 0);
      if !wellFormed then (if node == None then Dropped else NullPointer)
      else
        Handled(t[i := ack.Moved(t[i])],
                if node == None then a else Lowered(a, node.value))
  }

  /** `--count` on a slot. */
  function Lowered(a: seq<PublishStores.Slot>, k: nat): (r: seq<PublishStores.Slot>)
    requires k < |a|
    ensures |r| == |a|
  {
    a[k := a[k].(count := (a[k].count + 0xFF) % 0x100)]
  }

  /** The live entries are as before, and the store holds what it held. */
  ghost predicate Harmless(o: Outcome, t: seq<Entry>, c: map<Id, Node>) {
    match o
    case Dropped => true
    case NullPointer => false
    case Handled(u, a) =>
      && |u| == |t| && (forall i :: 0 <= i < |t| && (t[i].id != 0 || u[i].id != 0) ==> u[i] == t[i])
      && Holds(a, c)
  }

  /** A PUBACK or PUBREC with identifier 0 does harm exactly when the table has a slot that was freed in the
      state it waits for and one of the two slots that the lookup sees is free. PUBREL and PUBCOMP never do. */
  lemma ZeroAckExactly(ack: Ack, wellFormed: bool, t: seq<Entry>, a: seq<PublishStores.Slot>, c: map<Id, Node>, p: map<Id, nat>, home: nat)
    requires PublishStore.Stores(a, c, p) && home < |a|
    ensures Harmless(Handle(ack, wellFormed, t, a, home), t, c)
       <==> ack.PubrelPacket? || ack.PubcompPacket? || First(t, Waiting(0, ack.Awaited())) == |t|
            || (a[home].count != 0 && a[Next(home, |a|)].count != 0)
  {
    var i := First(t, Waiting(0, ack.Awaited()));
    assert Holds(a, c);
    if i < |t| {
      assert t[i].id == 0 && ack.Moved(t[i]).id == 0;
      ZeroLookup(a, c, p, home);
      if ack.PubackPacket? || ack.PubrecPacket? {
        ZeroCountExactly(ack, wellFormed, t, a, c, home);
      }
    }
  }

  lemma ZeroCountExactly(ack: Ack, wellFormed: bool, t: seq<Entry>, a: seq<PublishStores.Slot>, c: map<Id, Node>, home: nat)
    requires home < |a| && Holds(a, c) && (ack.PubackPacket? || ack.PubrecPacket?)
    requires var i := First(t, Waiting(0, ack.Awaited())); i < |t| && t[i].id == 0 && ack.Moved(t[i]).id == 0
    requires var node := Found(a, home, 0); node.Some? ==> node.value < |a| && a[node.value].id == 0 && a[node.value].count == 0
    ensures Harmless(Handle(ack, wellFormed, t, a, home), t, c) <==> Found(a, home, 0) == None
  {
    var i, node := First(t, Waiting(0, ack.Awaited())), Found(a, home, 0);
    FreedSlotMoves(t, i, ack.Moved(t[i]), if node == None then a else Lowered(a, node.value), c);
    if node.Some? {
      CountedFreeSlot(a, node.value, c);
    }
  }

  /** Only the store matters when a free slot of the table changes. */
  lemma FreedSlotMoves(t: seq<Entry>, i: nat, e: Entry, a: seq<PublishStores.Slot>, c: map<Id, Node>)
    requires i < |t| && t[i].id == 0 && e.id == 0
    ensures Harmless(Handled(t[i := e], a), t, c) <==> Holds(a, c)
  {
  }

  lemma ZeroLookup(a: seq<PublishStores.Slot>, c: map<Id, Node>, p: map<Id, nat>, home: nat)
    requires PublishStore.Stores(a, c, p) && home < |a|
    ensures var node := Found(a, home, 0);
            && (node.Some? <==> a[home].count == 0 || a[Next(home, |a|)].count == 0)
            && (node.Some? ==> node.value < |a| && a[node.value].id == 0 && a[node.value].count == 0)
  {
    assert PublishStore.SlotOk(a, home, c, p) && PublishStore.SlotOk(a, Next(home, |a|), c, p);
  }

  /** A free slot with a count is no slot of any map: it is skipped by every later add. */
  lemma CountedFreeSlot(a: seq<PublishStores.Slot>, k: nat, c: map<Id, Node>)
    requires k < |a| && a[k].id == 0 && a[k].count == 0
    ensures !Holds(Lowered(a, k), c)
  {
    var a' := Lowered(a, k);
    forall q ensures !PublishStore.Stores(a', c, q) { assert !PublishStore.SlotOk(a', k, c, q); }
  }

  /** The search for identifier 0 begins at slot 0. */
  lemma HashOfZero(power: nat)
    requires power <= 32
    ensures KnuthHash(0, power) == 0
  {
    ShiftedZero(32 - power);
  }

  lemma {:induction false} ShiftedZero(n: nat)
    ensures Shifted(0, n) == 0
  {
    if n > 0 {
      ShiftedZero(n - 1);
    }
  }

  /** One delivery that has been acknowledged is enough: a PUBACK with identifier 0 then takes a slot of the
      empty store out of use for good. */
  lemma ZeroAckExample(a: seq<PublishStores.Slot>)
    requires |a| == 32 && forall i :: 0 <= i < 32 ==> a[i] == FREE
    ensures KnuthHash(0, 5) == 0
    ensures var t := [Freed(Entry(7, GetPuback, 1, true))];
            && First(t, Waiting(0, GetPuback)) == 0
            && Handle(PubackPacket, true, t, a, KnuthHash(0, 5)) == Handled(t, a[0 := FREE.(count := 255)])
  {
    HashOfZero(5);
  }
}
