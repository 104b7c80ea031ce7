/** The store of messages in flight (main/Publishhashmap.cpp, main/includes/Publishhashmap.hpp): open
    addressing with multiplicative hashing, doubling when it is full, and deletion without tombstones.
    It refines the map from identifiers to nodes that the handlers use.

    Repair: the probe loops advance `id` where `cur_id` is meant (Publishhashmap.cpp:16 and :45,
    Publishhashmap.hpp:28). Here the probe walks `cur` once around the table. Module PublishStoreAsWritten
    says what the loops do as they stand, and exactly when that is enough. And `get` finds nothing under
    identifier 0, where the code finds a free slot; module ZeroIdentifiers says what that does.
 */
module PublishStores {
  import opened Protocol

  /** A slot is free when its count is 0; its identifier is 0 then. */
  datatype Slot = Slot(count: Count, qos: nat, id: Id, data: Bytes)

  const FREE := Slot(0, 0, 0, [])

  // ---------- hashing ----------

  const WORD := 0x1_0000_0000    // uint32_t wraps around here

  function Pow2(n: nat): (r: nat)
    ensures r >= 1
  {
    if n == 0 then 1 else 2 * Pow2(n - 1)
  }

  /** `y >> n`: halved n times. */
  function Shifted(y: nat, n: nat): nat
    decreases n
  {
    if n == 0 then y else Shifted(y / 2, n - 1)
  }

  function KnuthHash(x: Id, power: nat): nat
    requires power <= 32
  {
    Shifted(x * 2654435769 % 0x1_0000_0000, 32 - power)
  }

  lemma {:induction false} ShiftedBelow(y: nat, n: nat, power: nat)
    requires y < Pow2(n + power)
    ensures Shifted(y, n) < Pow2(power)
    decreases n
  {
    if n > 0 {
      assert Pow2(n + power) == 2 * Pow2(n - 1 + power);
      ShiftedBelow(y / 2, n - 1, power);
    }
  }

  lemma Pow2Values()
    ensures Pow2(16) == 0x1_0000 && Pow2(32) == 0x1_0000_0000
  {
    assert Pow2(4) == 16;
    assert Pow2(8) == 0x100;
    assert Pow2(12) == 0x1000;
    assert Pow2(16) == 0x1_0000;
    assert Pow2(20) == 0x10_0000;
    assert Pow2(24) == 0x100_0000;
    assert Pow2(28) == 0x1000_0000;
  }

  /** The hash is an index of a table of 2^power slots. */
  lemma KnuthHashInRange(x: Id, power: nat)
    requires power <= 32
    ensures KnuthHash(x, power) < Pow2(power)
  {
    Pow2Values();
    assert 32 - power + power == 32;
    ShiftedBelow(x * 2654435769 % 0x1_0000_0000, 32 - power, power);
  }

  // ---------- counting ----------

  function Ids(s: seq<Slot>): set<Id> { set i | 0 <= i < |s| :: s[i].id }

  /** Slots with different identifiers have as many identifiers as slots. */
  lemma {:induction false} DistinctIds(s: seq<Slot>)
    requires forall i, j :: 0 <= i < j < |s| ==> s[i].id != s[j].id
    ensures |Ids(s)| == |s|
  {
    if s != [] {
      var front, last := s[..|s| - 1], s[|s| - 1];
      DistinctIds(front);
      assert Ids(s) == Ids(front) + {last.id};
    }
  }

  lemma {:induction false} IdsBelow(ids: set<Id>, n: nat)
    requires forall x :: x in ids ==> 0 < x < n
    ensures |ids| < n || n == 0
    decreases n
  {
    if n > 1 {
      IdsBelow(ids - {(n - 1) as int}, n - 1);
    } else {
      assert ids == {};
    }
  }

  // ---------- probing ----------

  datatype Want = AnyFree | WithId(id: Id) {
    predicate Matches(s: Slot) {
      match this
      case AnyFree => s.count == 0
      case WithId(id) => s.id == id
    }
  }

  /** How far `i` lies after `home` on the way around a table of `n` slots. */
  function Distance(home: nat, i: nat, n: nat): int {
    if i >= home then i - home else i + n - home
  }

  /** Walks once around the table from `home`. Returns the nearest slot that matches, or the length of
      the table when there is none. */
  method Probe(a: array<Slot>, home: nat, want: Want) returns (at: nat)
    requires home < a.Length
    ensures at <= a.Length
    ensures at < a.Length ==> want.Matches(a[at])
    ensures at < a.Length ==> forall i :: 0 <= i < a.Length && Distance(home, i, a.Length) < Distance(home, at, a.Length) ==> !want.Matches(a[i])
    ensures at == a.Length ==> forall i :: 0 <= i < a.Length ==> !want.Matches(a[i])
  {
    if want.Matches(a[home]) {
      return home;
    }
    var cur := if home + 1 == a.Length then 0 else home + 1;
    ghost var passed := 1;
    while cur != home && !want.Matches(a[cur])
      invariant cur < a.Length && 1 <= passed <= a.Length
      invariant cur == if home + passed < a.Length then home + passed else home + passed - a.Length
      invariant forall i :: 0 <= i < a.Length && Distance(home, i, a.Length) < passed ==> !want.Matches(a[i])
      decreases a.Length - passed
    {
      assert forall i :: 0 <= i < a.Length && Distance(home, i, a.Length) == passed ==> i == cur;
      cur := if cur + 1 == a.Length then 0 else cur + 1;
      passed := passed + 1;
    }
    at := if cur == home then a.Length else cur;
  }

  class PublishStore {
    var slots: array<Slot>
    var size: nat
    var power: nat
    ghost var contents: map<Id, Node>
    ghost var place: map<Id, nat>

    /** A used slot holds the node of its identifier, and `p` leads to it; a free one holds nothing. */
    static ghost predicate SlotOk(a: seq<Slot>, i: nat, c: map<Id, Node>, p: map<Id, nat>)
      requires i < |a|
    {
      && (a[i].count == 0 <==> a[i].id == 0)
      && (a[i].id != 0 ==>
            && a[i].id in c && a[i].id in p && p[a[i].id] == i
            && c[a[i].id] == Node(a[i].count, a[i].qos, a[i].data))
    }

    static ghost predicate IdOk(a: seq<Slot>, id: Id, p: map<Id, nat>)
      requires id in p
    {
      id != 0 && p[id] < |a| && a[p[id]].id == id
    }

    /** The slots hold exactly the nodes of `c`, each in the slot that `p` gives. */
    static ghost predicate Stores(a: seq<Slot>, c: map<Id, Node>, p: map<Id, nat>) {
      && c.Keys == p.Keys
      && (forall i :: 0 <= i < |a| ==> SlotOk(a, i, c, p))
      && (forall id :: id in p ==> IdOk(a, id, p))
    }

    ghost predicate Valid()
      reads this, slots
    {
      && 1 <= power <= 16
      && slots.Length == Pow2(power)
      && Stores(slots[..], contents, place)
      && size == |contents|
    }

    /** The table must have a power of two as its capacity; the shift by 32 - power asks for at least 2. */
    constructor (initialPower: nat)
      requires 1 <= initialPower <= 16
      ensures Valid() && fresh(slots) && contents == map[] && slots.Length == Pow2(initialPower)
    {
      power := initialPower;
      slots := new Slot[Pow2(initialPower)](_ => FREE);
      size := 0;
      contents, place := map[], map[];
    }

    /** A table without a free slot holds as many nodes as it has slots. */
    static lemma FullCount(a: seq<Slot>, c: map<Id, Node>, p: map<Id, nat>)
      requires Stores(a, c, p) && forall i :: 0 <= i < |a| ==> a[i].count != 0
      ensures |c| == |a|
    {
      forall i, j | 0 <= i < j < |a| ensures a[i].id != a[j].id {
        assert SlotOk(a, i, c, p) && SlotOk(a, j, c, p);
      }
      DistinctIds(a);
      assert Ids(a) == c.Keys by {
        forall id | id in c ensures id in Ids(a) { assert IdOk(a, id, p); }
        forall id | id in Ids(a) ensures id in c {
          var i :| 0 <= i < |a| && a[i].id == id;
          assert SlotOk(a, i, c, p);
        }
      }
      assert |c.Keys| == |c|;
    }

    /** Filling a free slot with a node that is not stored. */
    static lemma InsertStores(a: seq<Slot>, k: nat, node: Slot, c: map<Id, Node>, p: map<Id, nat>)
      requires Stores(a, c, p) && k < |a| && a[k].count == 0 && node.id != 0 && node.count != 0 && node.id !in c
      ensures Stores(a[k := node], c[node.id := Node(node.count, node.qos, node.data)], p[node.id := k])
    {
      var a', c', p' := a[k := node], c[node.id := Node(node.count, node.qos, node.data)], p[node.id := k];
      forall i | 0 <= i < |a'| ensures SlotOk(a', i, c', p') { assert SlotOk(a, i, c, p); }
      forall id | id in p' ensures IdOk(a', id, p') {
        assert id != node.id ==> IdOk(a, id, p);
        assert SlotOk(a, k, c, p);
      }
    }

    /** Freeing the slot of a node. */
    static lemma RemoveStores(a: seq<Slot>, id: Id, c: map<Id, Node>, p: map<Id, nat>)
      requires Stores(a, c, p) && id in c
      ensures p[id] < |a| && Stores(a[p[id] := FREE], c - {id}, p - {id}) && |c - {id}| == |c| - 1
    {
      assert IdOk(a, id, p);
      var a', c', p' := a[p[id] := FREE], c - {id}, p - {id};
      assert c.Keys == c'.Keys + {id};
      forall i | 0 <= i < |a'| ensures SlotOk(a', i, c', p') { assert SlotOk(a, i, c, p); }
      forall x | x in p' ensures IdOk(a', x, p') { assert IdOk(a, x, p); }
    }

    /** Changing the count of a node. */
    static lemma CountStores(a: seq<Slot>, id: Id, count: Count, c: map<Id, Node>, p: map<Id, nat>)
      requires Stores(a, c, p) && id in c && count != 0
      ensures p[id] < |a| && Stores(a[p[id] := a[p[id]].(count := count)], c[id := c[id].(count := count)], p)
      ensures |c[id := c[id].(count := count)]| == |c|
    {
      assert IdOk(a, id, p);
      var a', c' := a[p[id] := a[p[id]].(count := count)], c[id := c[id].(count := count)];
      assert c'.Keys == c.Keys;
      assert |c'.Keys| == |c'| && |c.Keys| == |c|;
      forall i | 0 <= i < |a'| ensures SlotOk(a', i, c', p) { assert SlotOk(a, i, c, p); }
      forall x | x in p ensures IdOk(a', x, p) { assert IdOk(a, x, p); }
    }

    /** `get`: the slot that holds the node, or none. */
    method Get(id: Id) returns (at: Option<nat>)
      requires Valid()
      ensures at == if id in contents then Some(place[id]) else None
      ensures at.Some? ==> at.value < slots.Length && contents[id] == Node(slots[at.value].count, slots[at.value].qos, slots[at.value].data)
    {
      ghost var a := slots[..];
      assert id in contents ==> IdOk(a, id, place);
      if id == 0 {
        return None;
      }
      KnuthHashInRange(id, power);
      var k := Probe(slots, KnuthHash(id, power), WithId(id));
      at := if k == slots.Length then None else Some(k);
      assert k < slots.Length ==> SlotOk(a, k, contents, place) && a[k].id == id;
    }

    /** Stores a node in the nearest free slot. */
    static method Insert(a: array<Slot>, power: nat, node: Slot, ghost c: map<Id, Node>, ghost p: map<Id, nat>) returns (at: nat)
      requires power <= 32 && a.Length == Pow2(power) && Stores(a[..], c, p) && |c| < a.Length
      requires node.id != 0 && node.count != 0 && node.id !in c
      modifies a
      ensures at < a.Length && a[..] == old(a[..])[at := node] && old(a[..])[at].count == 0
      ensures Stores(a[..], c[node.id := Node(node.count, node.qos, node.data)], p[node.id := at])
    {
      ghost var was := a[..];
      KnuthHashInRange(node.id, power);
      at := Probe(a, KnuthHash(node.id, power), AnyFree);
      if at == a.Length {
        FullCount(was, c, p);
        assert false;
      }
      InsertStores(was, at, node, c, p);
      a[at] := node;
      assert a[..] == was[at := node];
    }

    /** Moves every node to its place in a larger table that is still empty. */
    method Refill(grown: array<Slot>, grownPower: nat) returns (ghost p: map<Id, nat>)
      requires Valid() && grown != slots && grownPower <= 32 && grown.Length == Pow2(grownPower)
      requires slots.Length < grown.Length && forall i :: 0 <= i < grown.Length ==> grown[i] == FREE
      modifies grown
      ensures Stores(grown[..], contents, p)
    {
      ghost var a := slots[..];
      ghost var c: map<Id, Node> := map[];
      p := map[];
      for i := 0 to slots.Length
        invariant slots[..] == a
        invariant Stores(grown[..], c, p) && |c| <= i && Part(c, contents, place, i)
      {
        var node := slots[i];
        PartOn(a, contents, place, c, i);
        if node.count != 0 {
          var at := Insert(grown, grownPower, node, c, p);
          c, p := c[node.id := Node(node.count, node.qos, node.data)], p[node.id := at];
        }
      }
      WholePart(a, contents, place, c);
    }

    static lemma WholePart(a: seq<Slot>, c: map<Id, Node>, p: map<Id, nat>, part: map<Id, Node>)
      requires Stores(a, c, p) && Part(part, c, p, |a|)
      ensures part == c
    {
      forall id | id in c ensures id in part { assert IdOk(a, id, p); }
    }

    /** The nodes of the first `n` slots. */
    static ghost predicate Part(part: map<Id, Node>, c: map<Id, Node>, p: map<Id, nat>, n: nat)
      requires c.Keys == p.Keys
    {
      forall id :: (id in part <==> id in c && p[id] < n) && (id in part ==> part[id] == c[id])
    }

    /** One more slot. */
    static lemma PartOn(a: seq<Slot>, c: map<Id, Node>, p: map<Id, nat>, part: map<Id, Node>, i: nat)
      requires Stores(a, c, p) && i < |a| && Part(part, c, p, i)
      ensures a[i].count != 0 ==> a[i].id != 0 && a[i].id !in part
      ensures Part(if a[i].count != 0 then part[a[i].id := Node(a[i].count, a[i].qos, a[i].data)] else part, c, p, i + 1)
    {
      assert SlotOk(a, i, c, p);
      forall id | id in c && p[id] == i ensures id == a[i].id { assert IdOk(a, id, p); }
    }

    /** Doubles the table. */
    method Rehash()
      requires Valid() && size == slots.Length
      modifies this
      ensures Valid() && fresh(slots) && contents == old(contents) && size == old(size)
      ensures slots.Length == 2 * old(slots.Length) && power == old(power) + 1
    {
      PowerIsBelow16();
      var grown := new Slot[2 * slots.Length](_ => FREE);
      assert grown.Length == Pow2(power + 1);
      ghost var p := Refill(grown, power + 1);
      slots, power, place := grown, power + 1, p;
    }

    /** A full table has less than 2^16 slots, because identifiers have 16 bits and 0 is not one. */
    lemma PowerIsBelow16()
      requires Valid() && size == slots.Length
      ensures power < 16
    {
      forall id | id in contents ensures id > 0 { assert IdOk(slots[..], id, place); }
      IdsBelow(contents.Keys, 0x1_0000);
      assert |contents.Keys| == |contents|;
      assert Pow2(16) == 0x1_0000 by { Pow2Values(); }
    }

    /** The end of `add`: the node goes to the nearest free slot. */
    method AddHere(node: Slot)
      requires Valid() && size < slots.Length && node.id != 0 && node.count != 0 && node.id !in contents
      modifies this`size, this`contents, this`place, slots
      ensures Valid() && contents == old(contents)[node.id := Node(node.count, node.qos, node.data)]
    {
      var at := Insert(slots, power, node, contents, place);
      contents, place := contents[node.id := Node(node.count, node.qos, node.data)], place[node.id := at];
      size := size + 1;
    }

    /** `add` of an identifier that is not stored. Nothing is stored when there is no memory for the
        doubled table (`larger`) or for the bytes (`copy`); a table that has been doubled by then stays so. */
    method Add(id: Id, data: Bytes, qos: nat, count: Count, larger: bool, copy: bool) returns (ok: bool)
      requires Valid() && id != 0 && id !in contents && count != 0
      modifies this, slots
      ensures Valid() && (slots == old(slots) || fresh(slots))
      ensures ok == (data != [] && copy && (larger || old(size) < old(slots.Length)))
      ensures contents == if ok then old(contents)[id := Node(count, qos, data)] else old(contents)
      ensures power == old(power) + (if old(size) == old(slots.Length) && larger then 1 else 0)
    {
      SizeBound();
      if size == slots.Length {
        if !larger {
          return false;
        }
        Rehash();
      }
      if data == [] || !copy {
        return false;
      }
      AddHere(Slot(count, qos, id, data));
      ok := true;
    }

    /** The table never holds more nodes than it has slots. */
    lemma SizeBound()
      requires Valid()
      ensures size <= slots.Length
    {
      var a := slots[..];
      forall id | id in contents ensures place[id] < |a| && a[place[id]].id == id { assert IdOk(a, id, place); }
      InjectionBound(contents.Keys, place, |a|);
    }

    static lemma {:induction false} InjectionBound(ids: set<Id>, p: map<Id, nat>, n: nat)
      requires forall id :: id in ids ==> id in p && p[id] < n
      requires forall x, y :: x in ids && y in ids && p[x] == p[y] ==> x == y
      ensures |ids| <= n
      decreases n
    {
      if n == 0 {
        assert ids == {};
      } else if x :| x in ids && p[x] == n - 1 {
        InjectionBound(ids - {x}, p, n - 1);
      } else {
        InjectionBound(ids, p, n - 1);
      }
    }

    /** `erase`: frees the node's slot and leaves no tombstone. */
    method Erase(id: Id)
      requires Valid()
      modifies this, slots
      ensures Valid() && slots == old(slots) && power == old(power) && contents == old(contents) - {id}
    {
      var at := Get(id);
      if at.Some? {
        RemoveStores(slots[..], id, contents, place);
        ghost var a := slots[..];
        slots[at.value] := FREE;
        assert slots[..] == a[place[id] := FREE];
        contents, place := contents - {id}, place - {id};
        size := size - 1;
      } else {
        assert contents - {id} == contents;
      }
    }

    method SetCount(id: Id, at: nat, count: Count)
      requires Valid() && id in contents && place[id] == at && count != 0
      modifies this`contents, slots
      ensures Valid() && contents == old(contents)[id := old(contents)[id].(count := count)]
    {
      ghost var a := slots[..];
      CountStores(a, id, count, contents, place);
      slots[at] := slots[at].(count := count);
      assert slots[..] == a[place[id] := a[place[id]].(count := count)];
      contents := contents[id := contents[id].(count := count)];
    }

    static lemma ReleaseIs(c: map<Id, Node>, id: Id)
      requires id in c && c[id].count > 0
      ensures var n := c[id].count;
              Protocol.Release(c, id) == if n == 1 then c - {id} else c[id := c[id].(count := n - 1)]
    {
    }

    /** `if (--node->count == 0) erase(id)`: one reference less, for a node that is stored. */
    method Release(id: Id)
      requires Valid()
      modifies this, slots
      ensures Valid() && slots == old(slots) && power == old(power)
      ensures contents == Protocol.Release(old(contents), id)
    {
      var at := Get(id);
      if at.Some? {
        assert SlotOk(slots[..], at.value, contents, place);
        ReleaseIs(contents, id);
        var n := slots[at.value].count;
        if n == 1 {
          Erase(id);
        } else {
          SetCount(id, at.value, n - 1);
        }
      }
    }

    /** `++node->count` for a node that is stored, below the limit of its 8 bits. */
    method Acquire(id: Id)
      requires Valid() && id in contents && contents[id].count < 0xFF
      modifies this, slots
      ensures Valid() && slots == old(slots) && power == old(power)
      ensures contents == Protocol.Acquire(old(contents), id)
    {
      var at := Get(id);
      SetCount(id, at.value, slots[at.value].count + 1);
    }
  }
}
