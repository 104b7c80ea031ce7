/** The chained hash table (main/includes/myhashmap.hpp) that holds clients, subscriptions and retained
    identifiers. Buckets are chains of nodes linked in place; the table refines a map.

    Repairs: `rehash` walks all old buckets and puts the empty key in bucket 0, as the other operations
    do. As it stands it runs to `tmpmap.size` (myhashmap.hpp:68), which is 0 for a table that was only
    reserved, and so drops every node; see RehashAsWritten and RehashBoundExactly.
 */
module ChainedMaps {

  // ---------- hashing ----------

  const PRIME := 16777619
  const OFFSET_BASIS := 2166136261

  /** One round of the hash: exclusive or with a byte, then multiplication, in 32 bits. */
  function Mix(h: nat, c: char): nat {
    var low := (h % 0x100) as bv8 ^ (c as int % 0x100) as bv8;
    ((h / 0x100 * 0x100 + low as nat) * PRIME) % 0x1_0000_0000
  }

  /** The hash after `rounds` rounds, each of which takes one character from both ends of the key. */
  function Fnv1aRounds(key: string, rounds: nat): nat
    requires rounds <= |key|
  {
    if rounds == 0 then OFFSET_BASIS
    else Mix(Mix(Fnv1aRounds(key, rounds - 1), key[rounds - 1]), key[|key| - rounds])
  }

  method Fnv1a(key: string) returns (hash: nat)
    requires key != ""
    ensures hash == Fnv1aRounds(key, if |key| < 4 then 1 else 2)
  {
    hash := OFFSET_BASIS;
    var maxIter := 2;
    if |key| < 4 {
      maxIter := maxIter - 1;
    }
    for i := 0 to maxIter
      invariant hash == Fnv1aRounds(key, i)
    {
      hash := Mix(hash, key[i]);
      hash := Mix(hash, key[|key| - (i + 1)]);
    }
  }

  /** The bucket of a key; the empty key belongs to bucket 0. */
  ghost function Bucket(key: string, capacity: nat): (b: nat)
    requires capacity > 0
    ensures b < capacity
  {
    if key == "" then 0 else Fnv1aRounds(key, if |key| < 4 then 1 else 2) % capacity
  }

  method BucketOf(key: string, capacity: nat) returns (b: nat)
    requires capacity > 0
    ensures b == Bucket(key, capacity)
  {
    b := 0;
    if |key| > 0 {
      var h := Fnv1a(key);
      b := h % capacity;
    }
  }

  // ---------- chains ----------

  class ChainNode<T> {
    const key: string
    var data: T
    var next: ChainNode?<T>

    constructor (key: string, data: T)
      ensures this.key == key && this.data == data && next == null
    {
      this.key, this.data, next := key, data, null;
    }
  }

  type Places<!T> = map<ChainNode<T>, (nat, nat)>
  type Chains<!T> = seq<seq<ChainNode<T>>>

  function After<T>(c: seq<ChainNode<T>>, i: nat): ChainNode?<T> {
    if i < |c| then c[i] else null
  }

  /** A table as a value: the heads, the next-link of every node, the nodes of every bucket in order, and
      the bucket and index of every node. */
  datatype Table<!T> = Table(heads: seq<ChainNode?<T>>, links: map<ChainNode<T>, ChainNode?<T>>,
                             chains: Chains<T>, places: Places<T>)
  {
    ghost predicate NodeOk(n: ChainNode<T>)
      requires n in places && n in links
    {
      var (b, i) := places[n];
      b < |chains| && i < |chains[b]| && chains[b][i] == n && links[n] == After(chains[b], i + 1)
    }

    ghost predicate PlaceOk(b: nat, i: nat)
      requires b < |chains| && i < |chains[b]|
    {
      chains[b][i] in places && places[chains[b][i]] == (b, i)
    }

    ghost predicate HeadOk(b: nat)
      requires b < |heads| && b < |chains|
    {
      heads[b] == After(chains[b], 0)
    }

    /** Heads and links lead along the chains, and no node occurs twice. */
    ghost predicate Ok() {
      && |heads| == |chains| && links.Keys == places.Keys
      && (forall b {:trigger HeadOk(b)} :: 0 <= b < |heads| ==> HeadOk(b))
      && (forall b, i {:trigger PlaceOk(b, i)} :: 0 <= b < |chains| && 0 <= i < |chains[b]| ==> PlaceOk(b, i))
      && (forall n {:trigger NodeOk(n)} :: n in places ==> NodeOk(n))
    }

    /** The table with a new node behind the last one of bucket `b`. */
    ghost function Append(b: nat, n: ChainNode<T>): Table<T>
      requires b < |heads| == |chains|
    {
      var c := chains[b];
      Table(if c == [] then heads[b := n] else heads,
            if c == [] then links[n := null] else links[c[|c| - 1] := n][n := null],
            chains[b := c + [n]], places[n := (b, |c|)])
    }

    lemma AppendOk(b: nat, n: ChainNode<T>)
      requires Ok() && b < |heads| && n !in places
      ensures Append(b, n).Ok()
    {
      var c, t := chains[b], Append(b, n);
      if c != [] { assert PlaceOk(b, |c| - 1); }
      forall x | 0 <= x < |t.heads| ensures t.HeadOk(x) { assert HeadOk(x); }
      forall x, i | 0 <= x < |t.chains| && 0 <= i < |t.chains[x]| ensures t.PlaceOk(x, i) {
        if x != b || i < |c| { assert PlaceOk(x, i); }
      }
      forall x | x in t.places ensures t.NodeOk(x) {
        if x == n {
          assert t.chains[b][|c|] == n;
        } else {
          assert NodeOk(x);
          var (bx, ix) := places[x];
          assert t.places[x] == (bx, ix) && t.chains[bx][ix] == x;
          if bx == b && ix + 1 == |c| {
            assert t.links[x] == n == After(t.chains[b], ix + 1);
          } else {
            if c != [] { assert x != c[|c| - 1]; }
            assert t.links[x] == links[x];
            assert After(t.chains[bx], ix + 1) == After(chains[bx], ix + 1);
          }
        }
      }
    }

    /** The table without node `i` of bucket `b`. */
    ghost function Remove(b: nat, i: nat): Table<T>
      requires b < |heads| == |chains| && i < |chains[b]|
    {
      var c := chains[b];
      Table(if i == 0 then heads[b := After(c, 1)] else heads,
            if i == 0 then links - {c[i]} else (links - {c[i]})[c[i - 1] := After(c, i + 1)],
            chains[b := c[..i] + c[i + 1..]],
            map n | n in places && n != c[i] :: if places[n].0 == b && places[n].1 > i then (b, places[n].1 - 1) else places[n])
    }

    lemma RemoveOk(b: nat, i: nat)
      requires Ok() && b < |heads| && i < |chains[b]|
      ensures chains[b][i] in places && Remove(b, i).Ok()
    {
      var c, t := chains[b], Remove(b, i);
      assert PlaceOk(b, i);
      if i > 0 { assert PlaceOk(b, i - 1); }
      assert t.links.Keys == t.places.Keys;
      forall x | 0 <= x < |t.heads| ensures t.HeadOk(x) { assert HeadOk(x); }
      forall x, j | 0 <= x < |t.chains| && 0 <= j < |t.chains[x]| ensures t.PlaceOk(x, j) {
        assert PlaceOk(x, if x == b && j >= i then j + 1 else j);
      }
      forall x | x in t.places ensures t.NodeOk(x) {
        assert NodeOk(x);
        var (bx, ix) := places[x];
        if bx == b {
          var j := if ix > i then ix - 1 else ix;
          assert ix != i && t.chains[b][j] == x;
          assert After(t.chains[b], j + 1) == After(c, if ix + 1 == i then i + 1 else ix + 1);
          assert i > 0 ==> (x == c[i - 1] <==> ix == i - 1);
        } else {
          assert i > 0 ==> x != c[i - 1];
        }
      }
    }
  }

  /** The heap shows the table: its heads in the array, its links in the nodes. */
  ghost predicate Shows<T>(heads: array<ChainNode?<T>>, t: Table<T>)
    reads heads, t.links.Keys
  {
    heads[..] == t.heads && forall n {:trigger t.links[n]} :: n in t.links ==> n.next == t.links[n]
  }

  /** Walks to the end of a bucket and links a node there. */
  method Append<T>(heads: array<ChainNode?<T>>, b: nat, n: ChainNode<T>, ghost t: Table<T>)
    requires t.Ok() && Shows(heads, t) && b < heads.Length && n !in t.places && n.next == null
    modifies heads, t.links.Keys`next
    ensures t.Append(b, n).Ok() && Shows(heads, t.Append(b, n))
  {
    ghost var c := t.chains[b];
    t.AppendOk(b, n);
    assert t.HeadOk(b);
    if heads[b] == null {
      heads[b] := n;
    } else {
      var ptr := heads[b];
      ghost var i := 0;
      while ptr.next != null
        invariant i < |c| && ptr == c[i]
        decreases |c| - i
      {
        assert t.PlaceOk(b, i) && t.NodeOk(c[i]);
        ptr := ptr.next;
        i := i + 1;
      }
      assert t.PlaceOk(b, i) && t.NodeOk(c[i]);
      ptr.next := n;
    }
  }

  /** Unlinks the last node of a bucket: the second last gives it up, or the head if there is no other. */
  method Detach<T>(heads: array<ChainNode?<T>>, b: nat, ghost t: Table<T>) returns (node: ChainNode<T>)
    requires t.Ok() && Shows(heads, t) && b < heads.Length && t.chains[b] != []
    modifies heads, t.links.Keys`next
    ensures node == t.chains[b][|t.chains[b]| - 1] && node in t.places && node.next == null
    ensures t.Remove(b, |t.chains[b]| - 1).Ok() && Shows(heads, t.Remove(b, |t.chains[b]| - 1))
  {
    ghost var c := t.chains[b];
    t.RemoveOk(b, |c| - 1);
    assert t.HeadOk(b) && t.PlaceOk(b, 0) && t.NodeOk(c[0]);
    var last := heads[b];
    if last.next == null {
      node := last;
      assert |c| == 1 && t.Remove(b, 0).links == t.links - {node};
      heads[b] := null;
    } else {
      ghost var i := 0;
      assert t.PlaceOk(b, 1) && t.NodeOk(c[1]);
      while last.next.next != null
        invariant i + 1 < |c| && last == c[i] && last.next == c[i + 1]
        invariant t.PlaceOk(b, i + 1) && t.NodeOk(c[i + 1])
        decreases |c| - i
      {
        last := last.next;
        i := i + 1;
        assert t.PlaceOk(b, i + 1) && t.NodeOk(c[i + 1]);
      }
      node := last.next;
      assert t.PlaceOk(b, i) && last != node && i + 2 == |c|;
      assert t.Remove(b, |c| - 1).links == (t.links - {node})[last := null];
      last.next := null;
    }
  }

  /** Walks bucket `b` up to the first node with the key. */
  method Find<T>(heads: array<ChainNode?<T>>, b: nat, key: string, ghost t: Table<T>) returns (node: ChainNode?<T>, ghost i: nat)
    requires t.Ok() && Shows(heads, t) && b < heads.Length
    ensures i <= |t.chains[b]| && node == After(t.chains[b], i) && (node != null ==> node.key == key)
    ensures forall j :: 0 <= j < i ==> t.chains[b][j].key != key
  {
    ghost var c := t.chains[b];
    assert t.HeadOk(b);
    node, i := heads[b], 0;
    while node != null && node.key != key
      invariant i <= |c| && node == After(c, i)
      invariant forall j :: 0 <= j < i ==> c[j].key != key
      decreases |c| - i
    {
      assert t.PlaceOk(b, i) && t.NodeOk(c[i]);
      assert node in t.links && node.next == t.links[node];
      node, i := node.next, i + 1;
    }
  }

  /** Unlinks the first node of bucket `b` with the key. The code reads the first node's key without
      looking whether there is one. */
  method Unlink<T>(heads: array<ChainNode?<T>>, b: nat, key: string, ghost t: Table<T>) returns (found: bool, ghost i: nat)
    requires t.Ok() && Shows(heads, t) && b < heads.Length && t.chains[b] != []
    modifies heads, t.links.Keys`next
    ensures if found
            then i < |t.chains[b]| && t.chains[b][i].key == key && t.Remove(b, i).Ok() && Shows(heads, t.Remove(b, i))
            else Shows(heads, t) && forall j :: 0 <= j < |t.chains[b]| ==> t.chains[b][j].key != key
  {
    ghost var c := t.chains[b];
    assert t.HeadOk(b) && t.PlaceOk(b, 0) && t.NodeOk(c[0]);
    var ptr := heads[b];
    i := 0;
    if ptr.key == key {
      t.RemoveOk(b, 0);
      heads[b] := ptr.next;
      return true, 0;
    }
    while ptr.next != null && ptr.next.key != key
      invariant i < |c| && ptr == c[i] && t.PlaceOk(b, i) && ptr.next == After(c, i + 1)
      invariant forall j :: 0 <= j <= i ==> c[j].key != key
      decreases |c| - i
    {
      assert t.PlaceOk(b, i + 1) && t.NodeOk(c[i + 1]);
      ptr := ptr.next;
      i := i + 1;
    }
    found := ptr.next != null;
    if found {
      i := i + 1;
      assert t.PlaceOk(b, i) && t.NodeOk(c[i]) && t.PlaceOk(b, i - 1);
      t.RemoveOk(b, i);
      assert ptr != c[i] && t.Remove(b, i).links == (t.links - {c[i]})[ptr := After(c, i + 1)];
      ptr.next := ptr.next.next;
    }
  }

  // ---------- rehashing ----------

  type Buckets<!T> = map<ChainNode<T>, nat>

  /** `at` gives each node's bucket in a table of this capacity. */
  ghost predicate Addressed<T>(at: Buckets<T>, capacity: nat)
    requires capacity > 0
  {
    forall n {:trigger Bucket(n.key, capacity)} :: n in at ==> at[n] == Bucket(n.key, capacity)
  }

  /** Every node is in one of the two tables, and in its bucket if it is in the new one. */
  ghost predicate Split<T>(from: Table<T>, to: Table<T>, at: Buckets<T>) {
    && from.Ok() && to.Ok()
    && from.places.Keys !! to.places.Keys && from.places.Keys + to.places.Keys == at.Keys
    && forall n :: n in to.places ==> to.places[n].0 == at[n]
  }

  /** A node that goes from one table to the end of its bucket in the other. */
  lemma SplitMoves<T>(from: Table<T>, to: Table<T>, at: Buckets<T>, id: nat, b: nat)
    requires Split(from, to, at) && id < |from.chains| && from.chains[id] != [] && b < |to.heads|
    requires var n := from.chains[id][|from.chains[id]| - 1]; n in from.places && at[n] == b
    ensures var c := from.chains[id]; var k := |c| - 1;
            Split(from.Remove(id, k), to.Append(b, c[k]), at) && from.Remove(id, k).chains == from.chains[id := c[..k]]
  {
    var c := from.chains[id];
    from.RemoveOk(id, |c| - 1);
    to.AppendOk(b, c[|c| - 1]);
    assert c[..|c| - 1] + c[|c|..] == c[..|c| - 1];
  }

  /** Moves the last node of bucket `id` of the old table to the end of its bucket in the new one. */
  method MoveLast<T>(old': array<ChainNode?<T>>, heads: array<ChainNode?<T>>, id: nat, ghost at: Buckets<T>,
                     ghost from: Table<T>, ghost to: Table<T>)
    returns (ghost from': Table<T>, ghost to': Table<T>)
    requires old' != heads && heads.Length > 0 && id < old'.Length && Addressed(at, heads.Length)
    requires Split(from, to, at) && Shows(old', from) && Shows(heads, to) && from.chains[id] != []
    modifies old', heads, at.Keys`next
    ensures Split(from', to', at) && Shows(old', from') && Shows(heads, to')
    ensures from'.chains == from.chains[id := from.chains[id][..|from.chains[id]| - 1]]
  {
    ghost var c := from.chains[id];
    var node := Detach(old', id, from);
    var b := BucketOf(node.key, heads.Length);
    SplitMoves(from, to, at, id, b);
    Append(heads, b, node, to);
    from', to' := from.Remove(id, |c| - 1), to.Append(b, node);
  }

  /** Empties bucket `id` of the old table into the new one, from the tail of the chain to its head. */
  method MoveBucket<T>(old': array<ChainNode?<T>>, heads: array<ChainNode?<T>>, id: nat, ghost at: Buckets<T>,
                       ghost from: Table<T>, ghost to: Table<T>)
    returns (ghost from': Table<T>, ghost to': Table<T>)
    requires old' != heads && heads.Length > 0 && id < old'.Length && Addressed(at, heads.Length)
    requires Split(from, to, at) && Shows(old', from) && Shows(heads, to)
    modifies old', heads, at.Keys`next
    ensures Split(from', to', at) && Shows(old', from') && Shows(heads, to')
    ensures from'.chains == from.chains[id := []]
  {
    from', to' := from, to;
    assert from.HeadOk(id);
    while old'[id] != null
      invariant Split(from', to', at) && Shows(old', from') && Shows(heads, to')
      invariant id < |from'.chains| && from'.HeadOk(id) && from'.chains == from.chains[id := from'.chains[id]]
      decreases |from'.chains[id]|
    {
      from', to' := MoveLast(old', heads, id, at, from', to');
      assert from'.HeadOk(id);
    }
    assert from'.chains[id] == [];
  }

  /** The nodes of the first `size` buckets. */
  function Below<T>(p: Places<T>, size: nat): set<ChainNode<T>> { set n | n in p && p[n].0 < size }

  /** What is left when the first `size` buckets have been emptied. */
  lemma LeftOver<T>(t: Table<T>, from: Table<T>, size: nat)
    requires t.Ok() && from.Ok() && |from.chains| == |t.chains|
    requires forall b :: 0 <= b < |t.chains| ==> from.chains[b] == if b < size then [] else t.chains[b]
    ensures from.places.Keys == t.places.Keys - Below(t.places, size)
  {
    forall n
      ensures n in from.places <==> n in t.places && t.places[n].0 >= size
    {
      if n in from.places {
        assert from.NodeOk(n);
        assert t.PlaceOk(from.places[n].0, from.places[n].1);
      }
      if n in t.places && t.places[n].0 >= size {
        assert t.NodeOk(n);
        assert from.PlaceOk(t.places[n].0, t.places[n].1);
      }
    }
  }

  /** The loop of `rehash`: moves the nodes of the first `size` buckets, and no other, to their buckets in
      the new table. */
  method Relink<T>(old': array<ChainNode?<T>>, size: nat, heads: array<ChainNode?<T>>, ghost t: Table<T>) returns (ghost to: Table<T>)
    requires old' != heads && heads.Length > 0 && size <= old'.Length && t.Ok() && Shows(old', t)
    requires forall b :: 0 <= b < heads.Length ==> heads[b] == null
    modifies old', heads, t.links.Keys`next
    ensures to.Ok() && Shows(heads, to) && to.places.Keys == Below(t.places, size)
    ensures forall n :: n in to.places ==> to.places[n].0 == Bucket(n.key, heads.Length)
  {
    ghost var from := t;
    ghost var at: Buckets<T> := map n | n in t.places :: Bucket(n.key, heads.Length);
    to := Table(heads[..], map[], seq(heads.Length, _ => []), map[]);
    for id := 0 to size
      invariant Split(from, to, at) && Shows(old', from) && Shows(heads, to) && |from.chains| == |t.chains|
      invariant forall b :: 0 <= b < |t.chains| ==> from.chains[b] == if b < id then [] else t.chains[b]
    {
      from, to := MoveBucket(old', heads, id, at, from, to);
    }
    LeftOver(t, from, size);
  }

  // ---------- the table as a map ----------

  function NonEmpty<T>(chains: Chains<T>): nat {
    if chains == [] then 0 else (if chains[0] == [] then 0 else 1) + NonEmpty(chains[1..])
  }

  lemma {:induction false} NonEmptyBound<T>(chains: Chains<T>)
    ensures NonEmpty(chains) <= |chains|
  {
    if chains != [] {
      NonEmptyBound(chains[1..]);
    }
  }

  lemma {:induction false} NonEmptyUpdate<T>(chains: Chains<T>, b: nat, c: seq<ChainNode<T>>)
    requires b < |chains|
    ensures NonEmpty(chains[b := c]) == NonEmpty(chains) - (if chains[b] == [] then 0 else 1) + (if c == [] then 0 else 1)
  {
    if b == 0 {
      assert chains[0 := c][1..] == chains[1..];
    } else {
      assert chains[b := c][1..] == chains[1..][b - 1 := c];
      NonEmptyUpdate(chains[1..], b - 1, c);
    }
  }

  /** A table together with the data of its nodes, the node of every key, and the map it stands for. */
  datatype State<!T> = State(table: Table<T>, data: map<ChainNode<T>, T>, home: map<string, ChainNode<T>>, contents: map<string, T>) {

    /** Every node is in the bucket of its key, and is the only one with that key. */
    ghost predicate NodeKeyed(n: ChainNode<T>)
      requires n in table.places
    {
      n.key in home && home[n.key] == n && |table.heads| > 0 && table.places[n].0 == Bucket(n.key, |table.heads|)
    }

    /** A key leads to its node, which holds the data that the map gives. */
    ghost predicate KeyFound(k: string)
      requires k in home && k in contents
    {
      home[k] in table.places && home[k].key == k && home[k] in data && data[home[k]] == contents[k]
    }

    ghost predicate Ok() {
      && table.Ok() && |table.heads| > 0 && data.Keys == table.places.Keys && contents.Keys == home.Keys
      && (forall n {:trigger NodeKeyed(n)} :: n in table.places ==> NodeKeyed(n))
      && (forall k {:trigger KeyFound(k)} :: k in home ==> KeyFound(k))
    }

    /** The bucket of a key has a node. */
    ghost predicate InUse(key: string)
      requires Ok()
    {
      table.chains[Bucket(key, |table.heads|)] != []
    }

    /** No more than four nodes for each bucket, and one for each bucket in use. */
    ghost predicate LoadBound() {
      |home| <= 4 * |table.heads| + NonEmpty(table.chains)
    }

    /** So never more than five nodes for each bucket on average. */
    lemma LoadIsBounded()
      requires Ok() && LoadBound()
      ensures |contents| <= 5 * |table.heads|
    {
      NonEmptyBound(table.chains);
      assert |contents| == |contents.Keys| && |home| == |home.Keys|;
    }

    /** A key has a node exactly when its bucket holds one, and that is its node. */
    lemma KeyInBucket(key: string)
      requires Ok()
      ensures forall i :: 0 <= i < |table.chains[Bucket(key, |table.heads|)]| && table.chains[Bucket(key, |table.heads|)][i].key == key ==>
                key in home && home[key] == table.chains[Bucket(key, |table.heads|)][i]
      ensures key in home <==> key in contents
      ensures key in home ==>
                && home[key] in data && contents[key] == data[home[key]]
                && home[key].key == key && home[key] in table.chains[Bucket(key, |table.heads|)]
    {
      var b := Bucket(key, |table.heads|);
      forall i | 0 <= i < |table.chains[b]| && table.chains[b][i].key == key
        ensures key in home && home[key] == table.chains[b][i]
      {
        assert table.PlaceOk(b, i) && NodeKeyed(table.chains[b][i]);
      }
      if key in home {
        assert KeyFound(key) && NodeKeyed(home[key]) && table.NodeOk(home[key]);
      }
    }

    ghost function Add(n: ChainNode<T>, d: T): State<T>
      requires Ok()
    {
      State(table.Append(Bucket(n.key, |table.heads|), n), data[n := d], home[n.key := n], contents[n.key := d])
    }

    lemma AddNodesKeyed(n: ChainNode<T>, d: T)
      requires Ok() && n !in table.places && n.key !in home
      ensures forall x {:trigger Add(n, d).NodeKeyed(x)} :: x in table.places || x == n ==> Add(n, d).NodeKeyed(x)
    {
      forall x | x in table.places || x == n ensures Add(n, d).NodeKeyed(x) { assert x != n ==> NodeKeyed(x); }
    }

    lemma AddKeysFound(n: ChainNode<T>, d: T)
      requires Ok() && n !in table.places && n.key !in home
      ensures forall k {:trigger Add(n, d).KeyFound(k)} :: k in home || k == n.key ==> Add(n, d).KeyFound(k)
    {
      forall k | k in home || k == n.key ensures Add(n, d).KeyFound(k) { assert k != n.key ==> KeyFound(k); }
    }

    lemma AddOk(n: ChainNode<T>, d: T)
      requires Ok() && n !in table.places && n.key !in home
      ensures Add(n, d).Ok() && |Add(n, d).home| == |home| + 1
    {
      table.AppendOk(Bucket(n.key, |table.heads|), n);
      AddNodesKeyed(n, d);
      AddKeysFound(n, d);
    }

    /** `add` does not look whether the key is there. The table with one more node is a map if and only if the
        key is new: a second node for a key is in its bucket, but the key leads to one of them only. */
    lemma AddExactly(n: ChainNode<T>, d: T)
      requires Ok() && n !in table.places
      ensures (exists s: State<T> :: s.Ok() && s.table == Add(n, d).table) <==> n.key !in home
    {
      if n.key !in home {
        AddOk(n, d);
      } else {
        var u, was := Add(n, d).table, home[n.key];
        assert KeyFound(n.key);
        forall s: State<T> | s.table == u ensures !s.Ok() {
          assert n in u.places && was in u.places;
          assert !s.NodeKeyed(n) || !s.NodeKeyed(was);
        }
      }
    }

    ghost function Remove(b: nat, i: nat): State<T>
      requires Ok() && b < |table.heads| && i < |table.chains[b]|
    {
      var n := table.chains[b][i];
      State(table.Remove(b, i), data - {n}, home - {n.key}, contents - {n.key})
    }

    lemma RemoveOk(b: nat, i: nat)
      requires Ok() && b < |table.heads| && i < |table.chains[b]|
      ensures Remove(b, i).Ok() && |Remove(b, i).home| == |home| - 1
    {
      var n, s := table.chains[b][i], Remove(b, i);
      table.RemoveOk(b, i);
      assert table.PlaceOk(b, i) && NodeKeyed(n);
      assert home.Keys == s.home.Keys + {n.key};
      forall x | x in s.table.places ensures s.NodeKeyed(x) { assert NodeKeyed(x); }
      forall k | k in s.home ensures s.KeyFound(k) { assert KeyFound(k) && home[k] != n; }
    }

    /** The same nodes in a table of another size. */
    lemma RelinkOk(to: Table<T>)
      requires Ok() && to.Ok() && to.places.Keys == table.places.Keys && |to.heads| > 0
      requires forall n :: n in to.places ==> to.places[n].0 == Bucket(n.key, |to.heads|)
      ensures this.(table := to).Ok()
    {
      var s := this.(table := to);
      forall x | x in to.places ensures s.NodeKeyed(x) { assert NodeKeyed(x); }
      forall k | k in home ensures s.KeyFound(k) { assert KeyFound(k); }
    }

    ghost function Update(key: string, d: T): State<T>
      requires key in home
    {
      this.(data := data[home[key] := d], contents := contents[key := d])
    }

    lemma UpdateOk(key: string, d: T)
      requires Ok() && key in home
      ensures Update(key, d).Ok()
    {
      var s := Update(key, d);
      assert KeyFound(key);
      assert s.data.Keys == data.Keys && s.contents.Keys == contents.Keys;
      forall x | x in table.places ensures s.NodeKeyed(x) { assert NodeKeyed(x); }
      forall k | k in home ensures s.KeyFound(k) { assert KeyFound(k); }
    }
  }

  ghost function Empty<T>(heads: seq<ChainNode?<T>>): State<T> {
    State(Table(heads, map[], seq(|heads|, _ => []), map[]), map[], map[], map[])
  }

  /** The heap shows the state: heads, links and data. */
  ghost predicate ShowsState<T>(heads: array<ChainNode?<T>>, s: State<T>)
    reads heads, s.table.links.Keys, s.data.Keys
  {
    Shows(heads, s.table) && forall n {:trigger s.data[n]} :: n in s.data ==> n.data == s.data[n]
  }

  /** Puts a new node at the end of its bucket; `collision` tells whether the bucket was in use. */
  method AddNode<T>(heads: array<ChainNode?<T>>, n: ChainNode<T>, ghost s: State<T>) returns (collision: bool, ghost s': State<T>)
    requires s.Ok() && ShowsState(heads, s) && n.key !in s.home && n !in s.table.places && n.next == null
    modifies heads, s.data.Keys`next
    ensures s'.Ok() && ShowsState(heads, s') && s'.contents == s.contents[n.key := n.data]
    ensures |s'.home| == |s.home| + 1 && (forall x {:trigger x in s'.data} :: x in s'.data ==> x in s.data || x == n)
    ensures NonEmpty(s'.table.chains) == NonEmpty(s.table.chains) + (if collision then 0 else 1)
  {
    s.AddOk(n, n.data);
    var b := BucketOf(n.key, heads.Length);
    NonEmptyUpdate(s.table.chains, b, s.table.chains[b] + [n]);
    assert s.table.HeadOk(b);
    collision := heads[b] != null;
    Append(heads, b, n, s.table);
    s' := s.Add(n, n.data);
  }

  /** The state without the key: a node less if there was one. */
  ghost predicate Erased<T>(s: State<T>, s': State<T>, key: string, found: bool) {
    && s'.Ok() && s'.contents == s.contents - {key} && |s'.table.heads| == |s.table.heads|
    && |s'.home| == |s.home| - (if found then 1 else 0)
    && NonEmpty(s'.table.chains) + (if found then 1 else 0) >= NonEmpty(s.table.chains)
  }

  lemma ErasedLoad<T>(s: State<T>, s': State<T>, key: string, found: bool)
    requires Erased(s, s', key, found) && s.LoadBound()
    ensures s'.LoadBound()
  {
  }

  lemma RemoveErases<T>(s: State<T>, b: nat, i: nat)
    requires s.Ok() && b < |s.table.heads| && i < |s.table.chains[b]|
    ensures Erased(s, s.Remove(b, i), s.table.chains[b][i].key, true)
  {
    s.RemoveOk(b, i);
    NonEmptyUpdate(s.table.chains, b, s.Remove(b, i).table.chains[b]);
  }

  lemma NothingErased<T>(s: State<T>, key: string)
    requires s.Ok() && key !in s.contents
    ensures Erased(s, s, key, false)
  {
    assert s.contents - {key} == s.contents;
  }

  /** Takes the node of a key out, if there is one. */
  method EraseNode<T>(heads: array<ChainNode?<T>>, key: string, ghost s: State<T>) returns (found: bool, ghost s': State<T>)
    requires s.Ok() && ShowsState(heads, s) && s.InUse(key)
    modifies heads, s.data.Keys`next
    ensures Erased(s, s', key, found) && ShowsState(heads, s')
  {
    s.KeyInBucket(key);
    var b := BucketOf(key, heads.Length);
    ghost var i;
    found, i := Unlink(heads, b, key, s.table);
    s' := s;
    if found {
      RemoveErases(s, b, i);
      s' := s.Remove(b, i);
    } else {
      NothingErased(s, key);
    }
  }

  /** A whole table has all its nodes below its capacity. */
  lemma AllBelow<T>(t: Table<T>)
    requires t.Ok()
    ensures Below(t.places, |t.heads|) == t.places.Keys
  {
    forall n | n in t.places ensures t.places[n].0 < |t.heads| { assert t.NodeOk(n); }
  }

  /** A loop that stops at `size` keeps all nodes exactly when the buckets from there on are empty. As it
      stands, `rehash` stops at `tmpmap.size`, which is 0 for a table that was only reserved, so it keeps
      all nodes exactly when there are none. */
  lemma RehashBoundExactly<T>(t: Table<T>, size: nat)
    requires t.Ok()
    ensures Below(t.places, size) == t.places.Keys <==> forall b :: size <= b < |t.chains| ==> t.chains[b] == []
  {
    if b :| size <= b < |t.chains| && t.chains[b] != [] {
      assert t.PlaceOk(b, 0);
      assert t.chains[b][0] in t.places && t.chains[b][0] !in Below(t.places, size);
    }
    if forall b :: size <= b < |t.chains| ==> t.chains[b] == [] {
      forall n | n in t.places ensures n in Below(t.places, size) { assert t.NodeOk(n); }
    }
  }

  /** Moves every node to its bucket in an empty table of another size. */
  method RelinkState<T>(old': array<ChainNode?<T>>, heads: array<ChainNode?<T>>, ghost s: State<T>) returns (ghost s': State<T>)
    requires old' != heads && heads.Length > 0 && s.Ok() && ShowsState(old', s)
    requires forall b :: 0 <= b < heads.Length ==> heads[b] == null
    modifies old', heads, s.data.Keys`next
    ensures s'.Ok() && ShowsState(heads, s') && s'.contents == s.contents
    ensures s'.home == s.home && s'.data == s.data
  {
    AllBelow(s.table);
    ghost var to := Relink(old', old'.Length, heads, s.table);
    s.RelinkOk(to);
    s' := s.(table := to);
  }

  class ChainedMap<T> {
    var heads: array<ChainNode?<T>>
    var count: nat

    ghost predicate Represents(s: State<T>)
      reads this, heads, s.table.links.Keys, s.data.Keys
    {
      s.Ok() && ShowsState(heads, s) && count == |s.home|
    }

    constructor (capacity: nat)
      requires capacity > 0
      ensures fresh(heads) && heads.Length == capacity && Represents(Empty(heads[..]))
    {
      heads := new ChainNode?<T>[capacity](_ => null);
      count := 0;
    }

    /** `get`: the node of a key, or nothing. */
    method Get(key: string, ghost s: State<T>) returns (node: ChainNode?<T>)
      requires Represents(s)
      ensures if node == null then key !in s.contents
              else key in s.contents && node.data == s.contents[key] && node == s.home[key]
    {
      s.KeyInBucket(key);
      var b := BucketOf(key, heads.Length);
      ghost var i;
      node, i := Find(heads, b, key, s.table);
    }

    /** `add` of a key that the table does not hold. */
    method Add(key: string, data: T, memory: bool, ghost s: State<T>) returns (ghost s': State<T>)
      requires Represents(s) && key !in s.contents
      modifies this, heads, s.data.Keys`next
      ensures Represents(s') && s'.contents == s.contents[key := data]
      ensures (forall n {:trigger n in s'.data} :: n in s'.data ==> n in s.data || fresh(n)) && (heads == old(heads) || fresh(heads))
      ensures s.LoadBound() && memory ==> s'.LoadBound()
      ensures heads == old(heads) || heads.Length >= 2 * old(heads.Length)
    {
      var n := new ChainNode(key, data);
      var collision;
      collision, s' := AddNode(heads, n, s);
      count := count + 1;
      assert ShowsState(heads, s');
      assert s'.Ok();
      if collision && count > heads.Length * 4 {
        s' := Rehash(count / 2, memory, s');
      }
    }

    /** Relinks all nodes into a table of another size; without memory for it nothing changes. */
    method Rehash(newSize: nat, memory: bool, ghost s: State<T>) returns (ghost s': State<T>)
      requires Represents(s) && newSize > 0
      modifies this`heads, heads, s.data.Keys`next
      ensures Represents(s') && s'.contents == s.contents && s'.data == s.data && s'.home == s.home
      ensures if memory then fresh(heads) && heads.Length == newSize else heads == old(heads) && s' == s
    {
      if !memory {
        return s;
      }
      var grown := new ChainNode?<T>[newSize](_ => null);
      s' := RelinkState(heads, grown, s);
      heads := grown;
    }

    /** `rehash` as it stands, with 0 for `tmpmap.size`: the new table is empty, and `count` still counts
        the nodes that are gone. */
    method RehashAsWritten(newSize: nat, ghost s: State<T>) returns (ghost to: Table<T>)
      requires Represents(s) && newSize > 0
      modifies this`heads, heads, s.data.Keys`next
      ensures to.Ok() && Shows(heads, to) && to.places.Keys == {} && count == |s.home|
    {
      var grown := new ChainNode?<T>[newSize](_ => null);
      to := Relink(heads, 0, grown, s.table);
      heads := grown;
    }

    /** `update`: new data for a key that the table holds. */
    method Update(key: string, data: T, ghost s: State<T>) returns (ok: bool, ghost s': State<T>)
      requires Represents(s)
      modifies s.data.Keys`data
      ensures Represents(s') && ok == (key in s.contents)
      ensures if ok then s'.contents == s.contents[key := data] && s'.table == s.table && s'.home == s.home else s' == s
    {
      s' := s;
      var node := Get(key, s);
      ok := node != null;
      if ok {
        s.KeyInBucket(key);
        s.UpdateOk(key, data);
        node.data := data;
        s' := s.Update(key, data);
      }
    }

    /** `erase`: the key goes, all others stay. */
    method Erase(key: string, ghost s: State<T>) returns (ghost s': State<T>)
      requires Represents(s) && s.InUse(key)
      modifies this`count, heads, s.data.Keys`next
      ensures Represents(s') && s'.contents == s.contents - {key}
      ensures s.LoadBound() ==> s'.LoadBound()
    {
      var found;
      found, s' := EraseNode(heads, key, s);
      if s.LoadBound() { ErasedLoad(s, s', key, found); }
      count := count - (if found then 1 else 0);
    }
  }
}
