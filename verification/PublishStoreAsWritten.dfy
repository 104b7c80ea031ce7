/** The probe loops of main/Publishhashmap.cpp as they stand: each pass advances `id`, the slot that was
    probed first, and not `cur_id`. */
module PublishStoreAsWritten {
  import opened Protocol
  import opened PublishStores

  function Next(home: nat, n: nat): nat { if home + 1 == n then 0 else home + 1 }

  /** What the lookup returns: it sees the first slot and the one after it. */
  function Found(a: seq<Slot>, home: nat, x: Id): Option<nat>
    requires home < |a|
  {
    if a[home].id == x then Some(home)
    else if a[Next(home, |a|)].id == x then Some(Next(home, |a|))
    else None
  }

  /** Where `add` puts a node: in the first slot if that is free, otherwise in the one after it. */
  function Target(a: seq<Slot>, home: nat): nat
    requires home < |a|
  {
    if a[home].count == 0 then home else Next(home, |a|)
  }

  /** The loop of `get` (Publishhashmap.cpp:12-31); `id` is a 32-bit size_t. */
  method Get(a: array<Slot>, home: nat, x: Id) returns (at: Option<nat>)
    requires home < a.Length <= 0x1_0000
    ensures at == Found(a[..], home, x)
  {
    var id := home;
    if a[id].id != x {
      var cur := id + 1;
      while cur != id
        invariant id < WORD && (cur == home + 1 <= a.Length || cur == 0)
        invariant cur == home + 1 ==> id == home || (id == cur && cur < a.Length && a[cur].id != x)
        invariant cur == 0 ==> home + 1 == a.Length && (id == 0 || id > home) && a[0].id != x
        decreases if cur != home + 1 then 0 else if id == home then 2 else 1, if id == 0 then 0 else WORD - id
      {
        if cur == a.Length {
          cur := 0;
        }
        if a[cur].id == x {
          break;
        }
        id := (id + 1) % WORD;
      }
      if cur == id {
        return None;
      }
      id := cur;
    }
    at := Some(id);
  }

  /** The loop of `add` that looks for a slot (Publishhashmap.cpp:41-55). */
  method Slot(a: array<PublishStores.Slot>, home: nat) returns (id: nat)
    requires home < a.Length <= 0x1_0000
    ensures id == Target(a[..], home)
  {
    id := home;
    if a[id].count != 0 {
      var cur := id + 1;
      while cur != id
        invariant id < WORD && (cur == home + 1 <= a.Length || cur == 0)
        invariant cur == home + 1 ==> id == home || (id == cur && cur < a.Length)
        invariant cur == 0 ==> home + 1 == a.Length && (id == 0 || id > home)
        decreases if cur != home + 1 then 0 else if id == home then 2 else 1, if id == 0 then 0 else WORD - id
      {
        if cur == a.Length {
          cur := 0;
        }
        if a[cur].count == 0 {
          break;
        }
        id := (id + 1) % WORD;
      }
      id := cur;
    }
  }

  /** The lookup is right about an identifier exactly when its node, if there is one, lies in one of the
      two slots. */
  lemma FoundExactly(a: seq<Slot>, c: map<Id, Node>, p: map<Id, nat>, home: nat, x: Id)
    requires PublishStore.Stores(a, c, p) && home < |a| && x != 0
    ensures Found(a, home, x) == (if x in c then Some(p[x]) else None)
       <==> (x in c ==> p[x] == home || p[x] == Next(home, |a|))
  {
    assert PublishStore.SlotOk(a, home, c, p) && PublishStore.SlotOk(a, Next(home, |a|), c, p);
    assert x in p ==> PublishStore.IdOk(a, x, p);
  }

  /** The slots hold exactly the nodes of `c`. */
  ghost predicate Holds(a: seq<PublishStores.Slot>, c: map<Id, Node>) {
    exists q :: PublishStore.Stores(a, c, q)
  }

  /** A table stores one map. */
  lemma SameMap(a: seq<Slot>, c: map<Id, Node>, p: map<Id, nat>, c': map<Id, Node>, p': map<Id, nat>)
    requires PublishStore.Stores(a, c, p) && PublishStore.Stores(a, c', p')
    ensures c == c'
  {
    forall id | id in c ensures id in c' && c'[id] == c[id] {
      assert PublishStore.IdOk(a, id, p) && PublishStore.SlotOk(a, p[id], c, p) && PublishStore.SlotOk(a, p[id], c', p');
    }
    forall id | id in c' ensures id in c {
      assert PublishStore.IdOk(a, id, p') && PublishStore.SlotOk(a, p'[id], c, p);
    }
  }

  /** Writing a node into a slot of a table that stores part of what it should. The result stores everything
      exactly when the slot was free and nothing but this identifier was missing, or the slot held this
      identifier and nothing was missing. */
  lemma WriteExactly(g: seq<Slot>, part: map<Id, Node>, q: map<Id, nat>, k: nat, node: PublishStores.Slot, c: map<Id, Node>)
    requires PublishStore.Stores(g, part, q) && k < |g| && node.id != 0 && node.count != 0
    requires forall id :: id in part ==> id in c && part[id] == c[id]
    ensures Holds(g[k := node], c[node.id := Node(node.count, node.qos, node.data)])
       <==> || (g[k].count == 0 && part == c - {node.id})
            || (g[k].id == node.id && part == c)
  {
    var a', c' := g[k := node], c[node.id := Node(node.count, node.qos, node.data)];
    assert PublishStore.SlotOk(g, k, part, q);
    if g[k].count == 0 && part == c - {node.id} {
      PublishStore.InsertStores(g, k, node, part, q);
      assert c' == part[node.id := Node(node.count, node.qos, node.data)];
    } else if g[k].id == node.id && part == c {
      ReplaceStores(g, k, node, c, q);
    } else if q' :| PublishStore.Stores(a', c', q') {
      WriteFails(g, part, q, k, node, c, q');
    }
  }

  lemma WriteFails(g: seq<Slot>, part: map<Id, Node>, q: map<Id, nat>, k: nat, node: PublishStores.Slot, c: map<Id, Node>, q': map<Id, nat>)
    requires PublishStore.Stores(g, part, q) && k < |g| && node.id != 0 && node.count != 0
    requires forall id :: id in part ==> id in c && part[id] == c[id]
    requires PublishStore.Stores(g[k := node], c[node.id := Node(node.count, node.qos, node.data)], q')
    ensures (g[k].count == 0 && part == c - {node.id}) || (g[k].id == node.id && part == c)
  {
    var a', c' := g[k := node], c[node.id := Node(node.count, node.qos, node.data)];
    assert PublishStore.SlotOk(g, k, part, q);
    forall x | x in c && x != node.id ensures x in part {
      assert PublishStore.IdOk(a', x, q') && q'[x] != k && g[q'[x]] == a'[q'[x]];
      assert PublishStore.SlotOk(g, q'[x], part, q);
    }
    if node.id in part {
      assert PublishStore.IdOk(g, node.id, q);
      assert PublishStore.SlotOk(a', q[node.id], c', q') && PublishStore.SlotOk(a', k, c', q');
    }
    if g[k].count != 0 {
      var v := g[k].id;
      assert v in part && v in c';
      assert PublishStore.IdOk(a', v, q') && PublishStore.SlotOk(g, q'[v], part, q);
    }
  }

  // ---------- rehash ----------

  /** One of the two slots is free. */
  predicate Room(a: seq<Slot>, home: nat)
    requires home < |a|
  {
    a[home].count == 0 || a[Next(home, |a|)].count == 0
  }

  /** The larger table of `rehash` (Publishhashmap.hpp:20-43) when `n` slots have been moved to it. */
  function Refilled(a: seq<Slot>, n: nat, power: nat): (r: seq<Slot>)
    requires n <= |a| && power <= 32
    ensures |r| == Pow2(power)
  {
    if n == 0 then seq(Pow2(power), _ => FREE)
    else
      var r := Refilled(a, n - 1, power);
      if a[n - 1].count == 0 then r
      else
        KnuthHashInRange(a[n - 1].id, power);
        r[Target(r, KnuthHash(a[n - 1].id, power)) := a[n - 1]]
  }

  /** The loop of `rehash` as it stands. */
  method Rehash(a: array<PublishStores.Slot>, power: nat) returns (grown: array<PublishStores.Slot>)
    requires power <= 16
    ensures grown[..] == Refilled(a[..], a.Length, power)
  {
    Pow2AtMost(power);
    grown := new PublishStores.Slot[Pow2(power)](_ => FREE);
    for i := 0 to a.Length
      invariant grown[..] == Refilled(a[..], i, power) && fresh(grown)
    {
      if a[i].count != 0 {
        KnuthHashInRange(a[i].id, power);
        var k := Slot(grown, KnuthHash(a[i].id, power));
        grown[k] := a[i];
      }
    }
  }

  lemma {:induction false} Pow2AtMost(power: nat)
    requires power <= 16
    ensures Pow2(power) <= 0x1_0000
    decreases 16 - power
  {
    if power == 16 { Pow2Values(); } else { Pow2AtMost(power + 1); }
  }

  /** Every node that is moved finds one of its two new slots free. */
  ghost predicate AllFindRoom(a: seq<Slot>, n: nat, power: nat)
    requires n <= |a| && power <= 32
  {
    forall i :: 0 <= i < n && a[i].count != 0 ==> FindsRoom(a, i, power)
  }

  ghost predicate FindsRoom(a: seq<Slot>, i: nat, power: nat)
    requires i < |a| && power <= 32
  {
    KnuthHashInRange(a[i].id, power);
    Room(Refilled(a, i, power), KnuthHash(a[i].id, power))
  }

  /** Whatever `rehash` loses, what is left is stored as it was, each node in one of its two slots; and
      nothing is lost exactly as long as every node finds room. */
  lemma {:induction false} Survivors(a: seq<Slot>, c: map<Id, Node>, p: map<Id, nat>, n: nat, power: nat)
    returns (part: map<Id, Node>, q: map<Id, nat>)
    requires PublishStore.Stores(a, c, p) && n <= |a| && power <= 32
    ensures Sound(a, c, p, n, power, part, q) && (AllFindRoom(a, n, power) <==> Complete(c, p, n, part))
  {
    if n == 0 {
      part, q := map[], map[];
    } else {
      var part', q' := Survivors(a, c, p, n - 1, power);
      part, q := SurvivorsOn(a, c, p, n, power, part', q');
    }
  }

  /** What is known of the nodes that are left when `n` slots have been moved. */
  ghost predicate Sound(a: seq<Slot>, c: map<Id, Node>, p: map<Id, nat>, n: nat, power: nat, part: map<Id, Node>, q: map<Id, nat>)
    requires n <= |a| && power <= 32 && c.Keys == p.Keys
  {
    && PublishStore.Stores(Refilled(a, n, power), part, q)
    && (forall id :: id in part ==> id in c && p[id] < n && part[id] == c[id])
    && (forall id :: id in q ==> InTwoSlots(q, id, power))
  }

  ghost predicate Complete(c: map<Id, Node>, p: map<Id, nat>, n: nat, part: map<Id, Node>)
    requires c.Keys == p.Keys
  {
    forall id :: id in c && p[id] < n ==> id in part
  }

  lemma SurvivorsOn(a: seq<Slot>, c: map<Id, Node>, p: map<Id, nat>, n: nat, power: nat, part: map<Id, Node>, q: map<Id, nat>)
    returns (part': map<Id, Node>, q': map<Id, nat>)
    requires PublishStore.Stores(a, c, p) && 0 < n <= |a| && power <= 32
    requires Sound(a, c, p, n - 1, power, part, q) && (AllFindRoom(a, n - 1, power) <==> Complete(c, p, n - 1, part))
    ensures Sound(a, c, p, n, power, part', q') && (AllFindRoom(a, n, power) <==> Complete(c, p, n, part'))
  {
    var r, node := Refilled(a, n - 1, power), a[n - 1];
    RoomOn(a, n, power);
    LastMoved(a, c, p, n);
    if node.count == 0 {
      part', q' := part, q;
    } else {
      KnuthHashInRange(node.id, power);
      var k := Target(r, KnuthHash(node.id, power));
      assert Refilled(a, n, power) == r[k := node] && node.id !in part;
      if r[k].count == 0 {
        part', q' := MovesIn(a, c, p, n, power, part, q, k);
      } else {
        part', q' := MovesOver(a, c, p, n, power, part, q, k);
      }
    }
  }

  lemma RoomOn(a: seq<Slot>, n: nat, power: nat)
    requires 0 < n <= |a| && power <= 32
    ensures AllFindRoom(a, n, power) <==> AllFindRoom(a, n - 1, power) && (a[n - 1].count != 0 ==> FindsRoom(a, n - 1, power))
  {
  }

  lemma LastMoved(a: seq<Slot>, c: map<Id, Node>, p: map<Id, nat>, n: nat)
    requires PublishStore.Stores(a, c, p) && 0 < n <= |a|
    ensures forall id :: id in c && p[id] == n - 1 ==> id == a[n - 1].id
    ensures a[n - 1].count != 0 ==> a[n - 1].id in c && p[a[n - 1].id] == n - 1 && c[a[n - 1].id] == Node(a[n - 1].count, a[n - 1].qos, a[n - 1].data)
    ensures a[n - 1].count == 0 ==> forall id :: id in c ==> p[id] != n - 1
  {
    assert PublishStore.SlotOk(a, n - 1, c, p);
    forall id | id in c && p[id] == n - 1 ensures id == a[n - 1].id { assert PublishStore.IdOk(a, id, p); }
  }

  lemma MovesIn(a: seq<Slot>, c: map<Id, Node>, p: map<Id, nat>, n: nat, power: nat, part: map<Id, Node>, q: map<Id, nat>, k: nat)
    returns (part': map<Id, Node>, q': map<Id, nat>)
    requires PublishStore.Stores(a, c, p) && 0 < n <= |a| && power <= 32 && Sound(a, c, p, n - 1, power, part, q)
    requires a[n - 1].count != 0 && a[n - 1].id in c && p[a[n - 1].id] == n - 1 && a[n - 1].id !in part
    requires c[a[n - 1].id] == Node(a[n - 1].count, a[n - 1].qos, a[n - 1].data)
    requires k < Pow2(power) && Refilled(a, n, power) == Refilled(a, n - 1, power)[k := a[n - 1]]
    requires var h := KnuthHash(a[n - 1].id, power); k == h || k == Next(h, Pow2(power))
    requires Refilled(a, n - 1, power)[k].count == 0 && forall id :: id in c && p[id] == n - 1 ==> id == a[n - 1].id
    ensures Sound(a, c, p, n, power, part', q') && (Complete(c, p, n, part') <==> Complete(c, p, n - 1, part))
  {
    var node := a[n - 1];
    assert PublishStore.SlotOk(a, n - 1, c, p);
    PublishStore.InsertStores(Refilled(a, n - 1, power), k, node, part, q);
    part', q' := part[node.id := c[node.id]], q[node.id := k];
    forall id | id in q' ensures InTwoSlots(q', id, power) { assert id in q ==> InTwoSlots(q, id, power); }
  }

  lemma MovesOver(a: seq<Slot>, c: map<Id, Node>, p: map<Id, nat>, n: nat, power: nat, part: map<Id, Node>, q: map<Id, nat>, k: nat)
    returns (part': map<Id, Node>, q': map<Id, nat>)
    requires PublishStore.Stores(a, c, p) && 0 < n <= |a| && power <= 32 && Sound(a, c, p, n - 1, power, part, q)
    requires a[n - 1].count != 0 && a[n - 1].id in c && p[a[n - 1].id] == n - 1 && a[n - 1].id !in part
    requires c[a[n - 1].id] == Node(a[n - 1].count, a[n - 1].qos, a[n - 1].data)
    requires k < Pow2(power) && Refilled(a, n, power) == Refilled(a, n - 1, power)[k := a[n - 1]]
    requires var h := KnuthHash(a[n - 1].id, power); k == h || k == Next(h, Pow2(power))
    requires Refilled(a, n - 1, power)[k].count != 0
    ensures Sound(a, c, p, n, power, part', q') && !Complete(c, p, n, part')
  {
    var r, node := Refilled(a, n - 1, power), a[n - 1];
    assert PublishStore.SlotOk(a, n - 1, c, p) && PublishStore.SlotOk(r, k, part, q);
    var v: Id := r[k].id;
    TakeOver(r, k, node, part, q);
    part', q' := (part - {v})[node.id := c[node.id]], (q - {v})[node.id := k];
    forall id | id in q' ensures InTwoSlots(q', id, power) { assert id in q ==> InTwoSlots(q, id, power); }
    assert v in c && p[v] < n && v !in part';
  }

  ghost predicate InTwoSlots(q: map<Id, nat>, id: Id, power: nat)
    requires id in q && power <= 32
  {
    var h := KnuthHash(id, power); q[id] == h || q[id] == Next(h, Pow2(power))
  }

  /** A new node in the slot of another one. */
  lemma TakeOver(a: seq<Slot>, k: nat, node: PublishStores.Slot, c: map<Id, Node>, p: map<Id, nat>)
    requires PublishStore.Stores(a, c, p) && k < |a| && a[k].id != 0 && node.id != 0 && node.count != 0 && node.id !in c
    ensures PublishStore.Stores(a[k := node], (c - {a[k].id})[node.id := Node(node.count, node.qos, node.data)], (p - {a[k].id})[node.id := k])
  {
    assert PublishStore.SlotOk(a, k, c, p);
    PublishStore.RemoveStores(a, a[k].id, c, p);
    PublishStore.InsertStores(a[k := FREE], k, node, c - {a[k].id}, p - {a[k].id});
    assert a[k := FREE][k := node] == a[k := node];
  }

  /** `rehash` keeps every message exactly when each of them, as it is moved, finds one of its two slots free. */
  lemma RehashExactly(a: seq<Slot>, c: map<Id, Node>, p: map<Id, nat>, power: nat)
    requires PublishStore.Stores(a, c, p) && power <= 32
    ensures Holds(Refilled(a, |a|, power), c) <==> AllFindRoom(a, |a|, power)
    ensures AllFindRoom(a, |a|, power) ==> exists q :: TwoSlots(Refilled(a, |a|, power), c, q, power)
  {
    var part, q := Survivors(a, c, p, |a|, power);
    forall id | id in c ensures p[id] < |a| { assert PublishStore.IdOk(a, id, p); }
    if AllFindRoom(a, |a|, power) {
      assert part == c;
      assert TwoSlots(Refilled(a, |a|, power), c, q, power);
    } else if q' :| PublishStore.Stores(Refilled(a, |a|, power), c, q') {
      SameMap(Refilled(a, |a|, power), c, q', part, q);
    }
  }

  // ---------- add ----------

  /** The table that `add` looks for a slot in: it is doubled first if its counter of nodes is at the capacity.
      An add that takes another message's slot counts up as well, so the counter can be there before the
      table is full. */
  function Ready(a: seq<Slot>, size: nat, power: nat): seq<Slot>
    requires power < 32
  {
    if size == |a| then Refilled(a, |a|, power + 1) else a
  }

  function ReadyPower(a: seq<Slot>, size: nat, power: nat): nat { if size == |a| then power + 1 else power }

  /** Where the search for a slot begins. */
  function HomeIn(a: seq<Slot>, size: nat, power: nat, id: Id): (home: nat)
    requires power < 32 && |a| == Pow2(power)
    ensures home < |Ready(a, size, power)|
  {
    KnuthHashInRange(id, ReadyPower(a, size, power));
    KnuthHash(id, ReadyPower(a, size, power))
  }

  /** The table after `add` as it stands. */
  function AddedTo(a: seq<Slot>, size: nat, power: nat, node: PublishStores.Slot): seq<Slot>
    requires power < 32 && |a| == Pow2(power)
  {
    var g := Ready(a, size, power);
    g[Target(g, HomeIn(a, size, power, node.id)) := node]
  }

  /** `add` does not look whether the identifier is stored. It leaves the intended map exactly when the table
      it looks in - doubled if the counter says so - has lost nothing but the identifier and has room for it,
      or has lost nothing and its slot is the one that is taken. */
  lemma AddExactly(a: seq<Slot>, c: map<Id, Node>, p: map<Id, nat>, size: nat, power: nat, node: PublishStores.Slot)
    requires PublishStore.Stores(a, c, p) && power < 32 && |a| == Pow2(power) && node.id != 0 && node.count != 0
    ensures var g, home := Ready(a, size, power), HomeIn(a, size, power, node.id);
            Holds(AddedTo(a, size, power, node), c[node.id := Node(node.count, node.qos, node.data)])
            <==> || (Room(g, home) && Holds(g, c - {node.id}))
                 || (g[Target(g, home)].id == node.id && Holds(g, c))
  {
    var g, home := Ready(a, size, power), HomeIn(a, size, power, node.id);
    var part, q := ReadySurvivors(a, c, p, size, power);
    WriteExactly(g, part, q, Target(g, home), node, c);
    HoldsOnly(g, part, q, c);
    HoldsOnly(g, part, q, c - {node.id});
  }

  lemma ReadySurvivors(a: seq<Slot>, c: map<Id, Node>, p: map<Id, nat>, size: nat, power: nat) returns (part: map<Id, Node>, q: map<Id, nat>)
    requires PublishStore.Stores(a, c, p) && power < 32
    ensures PublishStore.Stores(Ready(a, size, power), part, q) && forall id :: id in part ==> id in c && part[id] == c[id]
  {
    part, q := c, p;
    if size == |a| {
      part, q := Survivors(a, c, p, |a|, power + 1);
    }
  }

  lemma HoldsOnly(g: seq<Slot>, part: map<Id, Node>, q: map<Id, nat>, c: map<Id, Node>)
    requires PublishStore.Stores(g, part, q)
    ensures Holds(g, c) <==> c == part
  {
    if q' :| PublishStore.Stores(g, c, q') {
      SameMap(g, c, q', part, q);
    }
  }

  /** So a new identifier is stored beside what was stored exactly when it finds one of its two slots free, and
      so did every message that had to be moved before. */
  lemma AddNewExactly(a: seq<Slot>, c: map<Id, Node>, p: map<Id, nat>, size: nat, power: nat, node: PublishStores.Slot)
    requires PublishStore.Stores(a, c, p) && power < 32 && |a| == Pow2(power) && node.id != 0 && node.count != 0 && node.id !in c
    ensures Holds(AddedTo(a, size, power, node), c[node.id := Node(node.count, node.qos, node.data)])
       <==> (size == |a| ==> AllFindRoom(a, |a|, power + 1)) && Room(Ready(a, size, power), HomeIn(a, size, power, node.id))
  {
    AddExactly(a, c, p, size, power, node);
    assert c - {node.id} == c;
    ReadyHolds(a, c, p, size, power);
    NewIsNowhere(a, c, p, size, power, Target(Ready(a, size, power), HomeIn(a, size, power, node.id)), node.id);
  }

  lemma ReadyHolds(a: seq<Slot>, c: map<Id, Node>, p: map<Id, nat>, size: nat, power: nat)
    requires PublishStore.Stores(a, c, p) && power < 32
    ensures Holds(Ready(a, size, power), c) <==> (size == |a| ==> AllFindRoom(a, |a|, power + 1))
  {
    if size == |a| {
      RehashExactly(a, c, p, power + 1);
    } else {
      assert Holds(a, c);
    }
  }

  lemma NewIsNowhere(a: seq<Slot>, c: map<Id, Node>, p: map<Id, nat>, size: nat, power: nat, k: nat, id: Id)
    requires PublishStore.Stores(a, c, p) && power < 32 && k < |Ready(a, size, power)| && id !in c && id != 0
    ensures Ready(a, size, power)[k].id != id
  {
    if size == |a| {
      var part, q := Survivors(a, c, p, |a|, power + 1);
      assert PublishStore.SlotOk(Ready(a, size, power), k, part, q);
    } else {
      assert PublishStore.SlotOk(a, k, c, p);
    }
  }

  /** And one that is stored, when the table is not doubled, replaces its message exactly when that lies in the
      slot that is taken; otherwise there are two nodes with the identifier. */
  lemma AddStoredExactly(a: seq<Slot>, c: map<Id, Node>, p: map<Id, nat>, size: nat, power: nat, node: PublishStores.Slot)
    requires PublishStore.Stores(a, c, p) && power < 32 && |a| == Pow2(power) && node.id in c && node.count != 0 && size != |a|
    ensures Holds(AddedTo(a, size, power, node), c[node.id := Node(node.count, node.qos, node.data)])
       <==> Target(a, HomeIn(a, size, power, node.id)) == p[node.id]
  {
    assert PublishStore.IdOk(a, node.id, p);
    AddExactly(a, c, p, size, power, node);
    HoldsOnly(a, c, p, c - {node.id});
    assert c - {node.id} != c by { assert node.id !in c - {node.id}; }
    var k := Target(a, HomeIn(a, size, power, node.id));
    assert PublishStore.SlotOk(a, k, c, p);
  }

  lemma ReplaceStores(a: seq<Slot>, k: nat, node: PublishStores.Slot, c: map<Id, Node>, p: map<Id, nat>)
    requires PublishStore.Stores(a, c, p) && k < |a| && node.id in c && k == p[node.id] && node.count != 0
    ensures Holds(a[k := node], c[node.id := Node(node.count, node.qos, node.data)])
  {
    var a', c' := a[k := node], c[node.id := Node(node.count, node.qos, node.data)];
    forall i | 0 <= i < |a'| ensures PublishStore.SlotOk(a', i, c', p) { assert PublishStore.SlotOk(a, i, c, p); }
    forall id | id in p ensures PublishStore.IdOk(a', id, p) { assert PublishStore.IdOk(a, id, p); }
    assert PublishStore.Stores(a', c', p);
  }

  /** A second node with the identifier of a stored one, wherever it is put - also where the repaired walk
      would put it, in the nearest free slot - leaves a table that stores no map at all. */
  lemma AddTwiceHoldsNothing(a: seq<Slot>, c: map<Id, Node>, p: map<Id, nat>, k: nat, node: PublishStores.Slot, c': map<Id, Node>)
    requires PublishStore.Stores(a, c, p) && k < |a| && node.id in c && k != p[node.id]
    ensures !Holds(a[k := node], c')
  {
    var a' := a[k := node];
    assert PublishStore.IdOk(a, node.id, p);
    TwoNodesHoldNothing(a', k, p[node.id], c');
  }

  /** Which message the lookup finds under an identifier that was added while it was stored, in the table that
      `add` looks in: the new one exactly when the old one does not lie in its first slot. So the deliveries of the old message are
      sent the new bytes, or those of the new message the old ones. */
  lemma CollidingAddExactly(a: seq<Slot>, c: map<Id, Node>, p: map<Id, nat>, home: nat, node: PublishStores.Slot)
    requires PublishStore.Stores(a, c, p) && 1 < |a| && home < |a| && node.id in c
    ensures var a' := a[Target(a, home) := node];
            var found := Found(a', home, node.id);
            && found.Some? && found.value < |a'|
            && (found.value == Target(a, home) <==> p[node.id] != home)
            && (p[node.id] == home ==> found.value == home && a'[home] == a[home])
  {
    assert PublishStore.IdOk(a, node.id, p);
    assert PublishStore.SlotOk(a, home, c, p) && PublishStore.SlotOk(a, p[node.id], c, p);
  }

  /** Identifiers 1 and 22 begin at slot 19. When 1 is gone and 22 is published again, the old deliveries of
      22 are sent the new bytes, and there are two nodes of it. */
  lemma CollidingExample(a: seq<Slot>, old': Bytes, new': Bytes)
    requires |a| == 32 && forall i :: 0 <= i < 32 ==> a[i] == FREE
    ensures KnuthHash(1, 5) == 19 && KnuthHash(22, 5) == 19
    ensures var one := a[Target(a, 19) := PublishStores.Slot(1, 0, 1, [0x30])];
            var two := one[Target(one, 19) := PublishStores.Slot(1, 0, 22, old')];
            var three := two[19 := FREE];
            var four := three[Target(three, 19) := PublishStores.Slot(1, 0, 22, new')];
            && Found(three, 19, 22) == Some(20) && three[20].data == old'
            && Found(four, 19, 22) == Some(19) && four[19].data == new' && four[20] == three[20]
  {
    forall x: Id | x == 1 || x == 22 ensures KnuthHash(x, 5) == 19 { HashOf32(x); }
  }

  /** Every node lies in its first slot or the one after it. */
  ghost predicate TwoSlots(a: seq<PublishStores.Slot>, c: map<Id, Node>, p: map<Id, nat>, power: nat) {
    && power <= 32 && |a| == Pow2(power) && PublishStore.Stores(a, c, p)
    && forall id :: id in p ==> var h := KnuthHash(id, power); p[id] == h || p[id] == Next(h, |a|)
  }

  /** As long as no `add` finds both its slots taken, the loops as they stand are right about every
      identifier. */
  lemma TwoSlotsSuffice(a: seq<PublishStores.Slot>, c: map<Id, Node>, p: map<Id, nat>, power: nat, node: PublishStores.Slot, x: Id)
    requires TwoSlots(a, c, p, power) && node.id != 0 && node.count != 0 && node.id !in c && x != 0
    ensures KnuthHash(node.id, power) < |a| && KnuthHash(x, power) < |a|
    ensures var h := KnuthHash(node.id, power);
            a[h].count == 0 || a[Next(h, |a|)].count == 0 ==>
              TwoSlots(a[Target(a, h) := node], c[node.id := Node(node.count, node.qos, node.data)],
                       p[node.id := Target(a, h)], power)
    ensures Found(a, KnuthHash(x, power), x) == if x in c then Some(p[x]) else None
  {
    KnuthHashInRange(node.id, power);
    KnuthHashInRange(x, power);
    FoundExactly(a, c, p, KnuthHash(x, power), x);
    var h := KnuthHash(node.id, power);
    if a[h].count == 0 || a[Next(h, |a|)].count == 0 {
      PublishStore.InsertStores(a, Target(a, h), node, c, p);
    }
  }

  // ---------- a retained PUBLISH ----------

  /** `if (node && --node->count == 0) erase` as it stands, for an identifier that is searched from `home`. */
  function Released(a: seq<Slot>, home: nat, x: Id): (r: seq<Slot>)
    requires home < |a|
    ensures |r| == |a|
  {
    match Found(a, home, x)
    case None => a
    case Some(k) => LowerSlot(a, k)
  }

  /** The message that the topic retained before, and where the search for it begins. */
  datatype Before = Nothing | Retained(id: Id, home: nat)

  /** A retained PUBLISH (worker.cpp:456-500): it is added with count 2, the topic's old message is released,
      and it is added again, with count 1. */
  function Between(a: seq<Slot>, home: nat, id: Id, qos: nat, data: Bytes, old': Before): (r: seq<Slot>)
    requires home < |a| && (old'.Retained? ==> old'.home < |a|)
    ensures |r| == |a|
  {
    var one := a[Target(a, home) := PublishStores.Slot(2, qos, id, data)];
    if old'.Nothing? then one else Released(one, old'.home, old'.id)
  }

  function StoredTwice(a: seq<Slot>, home: nat, id: Id, qos: nat, data: Bytes, old': Before): (r: seq<Slot>)
    requires home < |a| && (old'.Retained? ==> old'.home < |a|)
    ensures |r| == |a|
  {
    var mid := Between(a, home, id, qos, data, old');
    mid[Target(mid, home) := PublishStores.Slot(1, qos, id, data)]
  }

  /** The first slot is free when one of the two adds comes to it: from the start, or because the topic's old
      message lay in it, with no other reference. */
  predicate HomeIsFree(a: seq<Slot>, home: nat, old': Before)
    requires home < |a| && (old'.Retained? ==> old'.home < |a|)
  {
    a[home].count == 0 ||
    (old'.Retained? && a[home].id == old'.id && a[home].count == 1 && (home == old'.home || home == Next(old'.home, |a|)))
  }

  /** The table never ends up with the one node of count 2 that is meant, whatever is stored and whichever
      tables the two adds come to - also after a rehash: the second add leaves a count of 1 behind. */
  lemma StoredTwiceIsNeverRight(mid: seq<Slot>, home: nat, id: Id, qos: nat, data: Bytes, c: map<Id, Node>)
    requires home < |mid| && id != 0 && id in c && c[id].count == 2
    ensures !Holds(mid[Target(mid, home) := PublishStores.Slot(1, qos, id, data)], c)
  {
    var k := Target(mid, home);
    var two := mid[k := PublishStores.Slot(1, qos, id, data)];
    forall q ensures !PublishStore.Stores(two, c, q) { assert !PublishStore.SlotOk(two, k, c, q); }
  }

  /** What it is instead, as long as no add has to rehash: with the first slot free for one of the adds there are
      two nodes and the table stores no map at all; otherwise the second add overwrites the first and one
      reference is missing, besides the message that lay in the slot after it. */
  lemma StoredTwiceExactly(a: seq<Slot>, c: map<Id, Node>, p: map<Id, nat>, home: nat, id: Id, qos: nat, data: Bytes, old': Before)
    requires PublishStore.Stores(a, c, p) && 1 < |a| && home < |a| && id != 0 && id !in c
    requires old'.Retained? ==> old'.home < |a| && old'.id != 0 && old'.id != id
    ensures var two := StoredTwice(a, home, id, qos, data, old');
            && (HomeIsFree(a, home, old') ==> forall c' :: !Holds(two, c'))
            && (!HomeIsFree(a, home, old') ==>
                  (Holds(two, AfterRelease(a, c, home, id, qos, data, old')[id := Node(1, qos, data)]) <==> a[Next(home, |a|)].count == 0))
  {
    var two := StoredTwice(a, home, id, qos, data, old');
    if HomeIsFree(a, home, old') {
      BothSlots(a, c, p, home, id, qos, data, old');
      forall c' ensures !Holds(two, c') { TwoNodesHoldNothing(two, home, Next(home, |a|), c'); }
    } else {
      OnlyNext(a, c, p, home, id, qos, data, old');
    }
  }

  /** What is stored besides the new message once the old one has been released. */
  function AfterRelease(a: seq<Slot>, c: map<Id, Node>, home: nat, id: Id, qos: nat, data: Bytes, old': Before): map<Id, Node>
    requires home < |a| && (old'.Retained? ==> old'.home < |a|)
  {
    var one := a[Target(a, home) := PublishStores.Slot(2, qos, id, data)];
    if old'.Retained? && Found(one, old'.home, old'.id).Some? then Release(c, old'.id) else c
  }

  lemma BothSlots(a: seq<Slot>, c: map<Id, Node>, p: map<Id, nat>, home: nat, id: Id, qos: nat, data: Bytes, old': Before)
    requires PublishStore.Stores(a, c, p) && 1 < |a| && home < |a| && id != 0 && id !in c
    requires old'.Retained? ==> old'.home < |a| && old'.id != 0 && old'.id != id
    requires HomeIsFree(a, home, old')
    ensures var two := StoredTwice(a, home, id, qos, data, old'); two[home].id == id && two[Next(home, |a|)].id == id
  {
    assert PublishStore.SlotOk(a, home, c, p) && PublishStore.SlotOk(a, Next(home, |a|), c, p);
    if old'.Retained? {
      assert PublishStore.SlotOk(a, old'.home, c, p) && PublishStore.SlotOk(a, Next(old'.home, |a|), c, p);
    }
  }

  lemma OnlyNext(a: seq<Slot>, c: map<Id, Node>, p: map<Id, nat>, home: nat, id: Id, qos: nat, data: Bytes, old': Before)
    requires PublishStore.Stores(a, c, p) && 1 < |a| && home < |a| && id != 0 && id !in c
    requires old'.Retained? ==> old'.home < |a| && old'.id != 0 && old'.id != id
    requires !HomeIsFree(a, home, old')
    ensures var two := StoredTwice(a, home, id, qos, data, old');
            Holds(two, AfterRelease(a, c, home, id, qos, data, old')[id := Node(1, qos, data)]) <==> a[Next(home, |a|)].count == 0
  {
    var c1 := AfterRelease(a, c, home, id, qos, data, old');
    var b, q := OnlyNextIs(a, c, p, home, id, qos, data, old');
    var second := PublishStores.Slot(1, qos, id, data);
    WriteExactly(b, c1, q, Next(home, |a|), second, c1);
    assert Node(second.count, second.qos, second.data) == Node(1, qos, data);
    assert PublishStore.SlotOk(a, Next(home, |a|), c, p) && a[Next(home, |a|)].id != id;
    assert c1 - {id} == c1;
  }

  /** The release and the two adds come to the release and the second add. */
  lemma OnlyNextIs(a: seq<Slot>, c: map<Id, Node>, p: map<Id, nat>, home: nat, id: Id, qos: nat, data: Bytes, old': Before)
    returns (b: seq<Slot>, q: map<Id, nat>)
    requires PublishStore.Stores(a, c, p) && 1 < |a| && home < |a| && id != 0 && id !in c
    requires old'.Retained? ==> old'.home < |a| && old'.id != 0 && old'.id != id
    requires !HomeIsFree(a, home, old')
    ensures var next := Next(home, |a|);
            && |b| == |a| && b[next] == a[next] && PublishStore.Stores(b, AfterRelease(a, c, home, id, qos, data, old'), q)
            && StoredTwice(a, home, id, qos, data, old') == b[next := PublishStores.Slot(1, qos, id, data)]
            && id !in AfterRelease(a, c, home, id, qos, data, old')
  {
    var next, first := Next(home, |a|), PublishStores.Slot(2, qos, id, data);
    var one := a[next := first];
    b, q := a, p;
    assert PublishStore.SlotOk(a, home, c, p) && PublishStore.SlotOk(a, next, c, p);
    if old'.Retained? {
      var found := Found(one, old'.home, old'.id);
      if found.Some? {
        assert one[next].id == id && found.value != next && a[found.value].id == old'.id;
        b := LowerSlot(a, found.value);
        q := LoweredStores(a, c, p, found.value);
        assert Between(a, home, id, qos, data, old') == b[next := first];
      }
    }
  }

  /** `--count` on a used slot, and `erase` at zero. */
  function LowerSlot(a: seq<Slot>, k: nat): (r: seq<Slot>)
    requires k < |a|
    ensures |r| == |a|
  {
    if a[k].count == 1 then a[k := FREE] else a[k := a[k].(count := (a[k].count + 0xFF) % 0x100)]
  }

  lemma LoweredStores(a: seq<Slot>, c: map<Id, Node>, p: map<Id, nat>, k: nat) returns (q: map<Id, nat>)
    requires PublishStore.Stores(a, c, p) && k < |a| && a[k].id != 0
    ensures PublishStore.Stores(LowerSlot(a, k), Release(c, a[k].id), q)
  {
    var id: Id := a[k].id;
    assert PublishStore.SlotOk(a, k, c, p);
    PublishStore.ReleaseIs(c, id);
    if a[k].count == 1 {
      PublishStore.RemoveStores(a, id, c, p);
      q := p - {id};
    } else {
      assert (a[k].count as int + 0xFF) % 0x100 == a[k].count - 1;
      PublishStore.CountStores(a, id, a[k].count - 1, c, p);
      q := p;
    }
  }

  lemma TwoNodesHoldNothing(a: seq<PublishStores.Slot>, i: nat, j: nat, c: map<Id, Node>)
    requires i < |a| && j < |a| && i != j && a[i].id == a[j].id != 0
    ensures !Holds(a, c)
  {
    forall q ensures !PublishStore.Stores(a, c, q) {
      assert !PublishStore.SlotOk(a, i, c, q) || !PublishStore.SlotOk(a, j, c, q);
    }
  }

  /** What that means once the references of the node that the lookup finds are given back: the other node is
      found exactly when the first slot was free for one of the adds, and then the message is never gone;
      otherwise one erase removes it, while the retained slot still names it. */
  lemma StoredTwiceAfterErase(a: seq<Slot>, c: map<Id, Node>, p: map<Id, nat>, home: nat, id: Id, qos: nat, data: Bytes, old': Before)
    requires PublishStore.Stores(a, c, p) && 1 < |a| && home < |a| && id != 0 && id !in c
    requires old'.Retained? ==> old'.home < |a| && old'.id != 0 && old'.id != id
    ensures var two := StoredTwice(a, home, id, qos, data, old');
            var found := Found(two, home, id);
            && found.Some? && found.value < |two|
            && (Found(two[found.value := FREE], home, id).Some? <==> HomeIsFree(a, home, old'))
  {
    assert PublishStore.SlotOk(a, home, c, p) && PublishStore.SlotOk(a, Next(home, |a|), c, p);
    if old'.Retained? {
      assert PublishStore.SlotOk(a, old'.home, c, p) && PublishStore.SlotOk(a, Next(old'.home, |a|), c, p);
    }
  }

  lemma ShiftedBy3(y: nat, n: nat)
    requires n >= 3
    ensures Shifted(y, n) == Shifted(y / 8, n - 3)
  {
    assert Shifted(y, n) == Shifted(y / 2, n - 1) == Shifted(y / 2 / 2, n - 2);
    assert y / 2 / 2 / 2 == y / 8;
  }

  lemma ShiftedBy9(y: nat, n: nat)
    requires n >= 9
    ensures Shifted(y, n) == Shifted(y / 512, n - 9)
  {
    ShiftedBy3(y, n);
    ShiftedBy3(y / 8, n - 3);
    ShiftedBy3(y / 8 / 8, n - 6);
    assert y / 8 / 8 / 8 == y / 512;
  }

  /** With 32 slots the hash is what the multiplication leaves above its lowest 27 bits. */
  lemma HashOf32(x: Id)
    ensures KnuthHash(x, 5) == x * 2654435769 % 0x1_0000_0000 / 0x800_0000
  {
    var y := x * 2654435769 % 0x1_0000_0000;
    ShiftedBy9(y, 27);
    ShiftedBy9(y / 512, 18);
    ShiftedBy9(y / 512 / 512, 9);
    assert y / 512 / 512 / 512 == y / 0x800_0000;
  }

  /** Three messages whose search begins at the same slot, stored one after the other: the second is
      there until the third is stored. */
  predicate LosesSecond(a: seq<Slot>, h: nat, x: Id, y: Id, z: Id)
    requires h < |a|
  {
    var one := a[Target(a, h) := PublishStores.Slot(1, 0, x, [0x30])];
    var two := one[Target(one, h) := PublishStores.Slot(1, 0, y, [0x30])];
    var three := two[Target(two, h) := PublishStores.Slot(1, 0, z, [0x30])];
    Found(two, h, y).Some? && Found(three, h, y).None?
  }

  lemma ThirdReplacesSecond(a: seq<Slot>, h: nat, x: Id, y: Id, z: Id)
    requires 1 < |a| && h < |a| && x != 0 && y != 0 && x != y && y != z
    requires a[h].count == 0 && a[Next(h, |a|)].count == 0
    ensures LosesSecond(a, h, x, y, z)
  {
  }

  /** With the 32 slots that the broker starts with, identifiers 1, 22 and 56 begin at the same slot, so
      the second of them is lost while 29 slots are free. */
  lemma ThirdMessageReplacesSecond(a: seq<Slot>)
    requires |a| == 32 && forall i :: 0 <= i < 32 ==> a[i] == FREE
    ensures forall x: Id :: x == 1 || x == 22 || x == 56 ==> KnuthHash(x, 5) == 19
    ensures LosesSecond(a, 19, 1, 22, 56)
  {
    forall x: Id | x == 1 || x == 22 || x == 56 ensures KnuthHash(x, 5) == 19 { HashOf32(x); }
    ThirdReplacesSecond(a, 19, 1, 22, 56);
  }
}
