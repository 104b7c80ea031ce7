/** Iteration over the chained table (main/includes/myhashmap.hpp:114-182), as the fan-out uses it. */
module ChainedIterators {
  import opened ChainedMaps

  /** The nodes in the order of iteration: bucket by bucket, each from its head. */
  function Flat<T>(chains: Chains<T>): seq<ChainNode<T>> {
    if chains == [] then [] else Flat(chains[..|chains| - 1]) + chains[|chains| - 1]
  }

  lemma {:induction false} FlatPrefix<T>(chains: Chains<T>, b: nat)
    requires b <= |chains|
    ensures Flat(chains[..b]) <= Flat(chains)
  {
    if b < |chains| {
      var front := chains[..|chains| - 1];
      assert front[..b] == chains[..b];
      FlatPrefix(front, b);
    } else {
      assert chains[..b] == chains;
    }
  }

  /** Where node `i` of bucket `b` comes in the iteration, and where the next bucket starts. */
  lemma FlatAt<T>(chains: Chains<T>, b: nat)
    requires b < |chains|
    ensures |Flat(chains[..b])| + |chains[b]| == |Flat(chains[..b + 1])| <= |Flat(chains)|
    ensures forall i :: 0 <= i < |chains[b]| ==> Flat(chains)[|Flat(chains[..b])| + i] == chains[b][i]
  {
    assert chains[..b + 1][..b] == chains[..b];
    FlatPrefix(chains, b + 1);
  }

  /** Buckets without nodes take no place in the iteration. */
  lemma {:induction false} FlatSkip<T>(chains: Chains<T>, b: nat, c: nat)
    requires b <= c <= |chains| && forall x :: b <= x < c ==> chains[x] == []
    ensures Flat(chains[..b]) == Flat(chains[..c])
    decreases c - b
  {
    if b < c {
      assert chains[..c][..c - 1] == chains[..c - 1];
      FlatSkip(chains, b, c - 1);
    }
  }

  ghost predicate Listed<T>(chains: Chains<T>, n: ChainNode<T>) {
    exists b, i :: 0 <= b < |chains| && 0 <= i < |chains[b]| && chains[b][i] == n
  }

  ghost predicate NoRepeats<T>(chains: Chains<T>) {
    forall b, i, c, j ::
      (0 <= b < |chains| && 0 <= i < |chains[b]| && 0 <= c < |chains| && 0 <= j < |chains[c]| && (b, i) != (c, j)
       ==> chains[b][i] != chains[c][j])
  }

  /** The iteration lists every node of the table, no other, and none twice. */
  lemma {:induction false} FlatIsTable<T>(chains: Chains<T>)
    requires NoRepeats(chains)
    ensures forall n :: n in Flat(chains) <==> Listed(chains, n)
    ensures forall x, y :: 0 <= x < y < |Flat(chains)| ==> Flat(chains)[x] != Flat(chains)[y]
  {
    if chains != [] {
      var front, last := chains[..|chains| - 1], chains[|chains| - 1];
      assert NoRepeats(front) by {
        forall b, i, c, j | 0 <= b < |front| && 0 <= i < |front[b]| && 0 <= c < |front| && 0 <= j < |front[c]| && (b, i) != (c, j)
          ensures front[b][i] != front[c][j]
        {
          assert chains[b][i] != chains[c][j];
        }
      }
      FlatIsTable(front);
      forall n
        ensures n in Flat(chains) <==> Listed(chains, n)
      {
        if n in Flat(front) {
          assert Listed(front, n);
          var b, i :| 0 <= b < |front| && 0 <= i < |front[b]| && front[b][i] == n;
          assert chains[b][i] == n;
        }
        if n in last {
          var i :| 0 <= i < |last| && last[i] == n;
          assert chains[|chains| - 1][i] == n;
        }
        if b, i :| 0 <= b < |chains| && 0 <= i < |chains[b]| && chains[b][i] == n {
          if b < |front| { assert front[b][i] == n; } else { assert last[i] == n; }
        }
      }
      forall x, y | 0 <= x < y < |Flat(chains)|
        ensures Flat(chains)[x] != Flat(chains)[y]
      {
        if y >= |Flat(front)| {
          var j := y - |Flat(front)|;
          assert Flat(chains)[y] == chains[|chains| - 1][j];
          if x < |Flat(front)| {
            assert Flat(chains)[x] in Flat(front) && Listed(front, Flat(chains)[x]);
            var b, i :| 0 <= b < |front| && 0 <= i < |front[b]| && front[b][i] == Flat(chains)[x];
            assert chains[b][i] != chains[|chains| - 1][j];
          } else {
            assert chains[|chains| - 1][x - |Flat(front)|] != chains[|chains| - 1][j];
          }
        }
      }
    }
  }

  /** From `begin()` to `end()` each node of the table is visited exactly once. */
  lemma EachNodeOnce<T>(t: Table<T>)
    requires t.Ok()
    ensures forall n :: n in Flat(t.chains) <==> n in t.places
    ensures forall x, y :: 0 <= x < y < |Flat(t.chains)| ==> Flat(t.chains)[x] != Flat(t.chains)[y]
  {
    assert NoRepeats(t.chains) by {
      forall b, i, c, j | 0 <= b < |t.chains| && 0 <= i < |t.chains[b]| && 0 <= c < |t.chains| && 0 <= j < |t.chains[c]| && (b, i) != (c, j)
        ensures t.chains[b][i] != t.chains[c][j]
      {
        assert t.PlaceOk(b, i) && t.PlaceOk(c, j);
      }
    }
    FlatIsTable(t.chains);
    forall n
      ensures n in Flat(t.chains) <==> n in t.places
    {
      if n in Flat(t.chains) {
        assert Listed(t.chains, n);
        var b, i :| 0 <= b < |t.chains| && 0 <= i < |t.chains[b]| && t.chains[b][i] == n;
        assert t.PlaceOk(b, i);
      }
      if n in t.places {
        assert t.NodeOk(n);
        assert t.chains[t.places[n].0][t.places[n].1] == n && Listed(t.chains, n);
      }
    }
  }

  class Iterator<T> {
    var ptr: ChainNode?<T>
    var cur: nat
    const heads: array<ChainNode?<T>>

    /** The iterator stands at element `k` of the iteration, or at its end. */
    ghost predicate At(t: Table<T>, k: nat)
      reads this
    {
      && k <= |Flat(t.chains)| && ptr == After(Flat(t.chains), k)
      && (ptr == null ==> cur == |t.chains|)
      && (ptr != null ==>
            && ptr in t.places && t.places[ptr].0 == cur < |t.chains|
            && k == |Flat(t.chains[..cur])| + t.places[ptr].1)
    }

    /** `begin()`. */
    constructor (heads: array<ChainNode?<T>>, ghost t: Table<T>)
      requires t.Ok() && Shows(heads, t)
      ensures At(t, 0) && this.heads == heads
    {
      this.heads := heads;
      this.ptr, this.cur := null, 0;
      new;
      Settle(t, 0);
    }

    /** Moves on to the first node of the next bucket that has one. */
    method Settle(ghost t: Table<T>, ghost from: nat)
      requires t.Ok() && Shows(heads, t) && cur == from <= |t.chains|
      modifies this
      ensures At(t, |Flat(t.chains[..from])|)
    {
      while cur < heads.Length && heads[cur] == null
        invariant from <= cur <= |t.chains| && forall b :: from <= b < cur ==> t.chains[b] == []
      {
        assert t.HeadOk(cur);
        cur := cur + 1;
      }
      FlatSkip(t.chains, from, cur);
      FlatPrefix(t.chains, cur);
      if cur == heads.Length {
        assert t.chains[..cur] == t.chains;
        ptr := null;
      } else {
        assert t.HeadOk(cur) && t.PlaceOk(cur, 0);
        FlatAt(t.chains, cur);
        ptr := heads[cur];
      }
    }

    /** `operator++`, anywhere but at the end. */
    method Next(ghost t: Table<T>, ghost k: nat)
      requires t.Ok() && Shows(heads, t) && At(t, k) && ptr != null
      modifies this
      ensures At(t, k + 1)
    {
      ghost var b, i := t.places[ptr].0, t.places[ptr].1;
      assert t.NodeOk(ptr);
      FlatAt(t.chains, b);
      if ptr.next == null {
        cur := cur + 1;
        Settle(t, b + 1);
      } else {
        assert t.PlaceOk(b, i + 1);
        ptr := ptr.next;
      }
    }
  }

  /** A loop from `begin()` to `end()` sees the nodes in order of iteration and ends. */
  method Visit<T>(heads: array<ChainNode?<T>>, ghost t: Table<T>) returns (visited: seq<ChainNode<T>>)
    requires t.Ok() && Shows(heads, t)
    ensures visited == Flat(t.chains)
  {
    visited := [];
    var it := new Iterator(heads, t);
    while it.ptr != null
      invariant it.heads == heads && it.At(t, |visited|) && visited == Flat(t.chains)[..|visited|]
      decreases |Flat(t.chains)| - |visited|
    {
      ghost var k := |visited|;
      visited := visited + [it.ptr];
      it.Next(t, k);
    }
  }
}
