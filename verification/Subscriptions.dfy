/** The subscription trie of a client (main/Subscription.cpp): insertion, lookup, and a deletion that
    removes the longest chain of nodes nobody needs any more in one pass. It refines the map from topics
    to QoS that the fan-out uses. Each node's children are kept in the chained table, here as the map it
    refines.

    Repairs: `delete_sub` goes down with `cur_node`, which the code never moves (Subscription.cpp:80-94),
    and does nothing when the last node is missing, where the code follows a null pointer
    (Subscription.cpp:61-62). Topics are split as module Topics says.
 */
module Subscriptions {
  import opened Topics

  const EMPTY_QOS := 255

  class Subscription {
    var maxQos: nat
    var children: map<string, Subscription>

    constructor ()
      ensures maxQos == EMPTY_QOS && children == map[]
    {
      maxQos, children := EMPTY_QOS, map[];
    }
  }

  /** A trie as a value: the node, the QoS and the children at every path, the path of every node, and
      the subscriptions. */
  datatype Trie = Trie(nodes: map<Path, Subscription>, qos: map<Path, nat>,
                       kids: map<Path, map<string, Subscription>>, place: map<Subscription, Path>,
                       subs: map<Path, nat>)
  {
    ghost predicate PathOk(p: Path)
      requires p in nodes && p in kids
    {
      && nodes[p] in place && place[nodes[p]] == p
      && (p != [] ==> p[..|p| - 1] in kids && p[|p| - 1] in kids[p[..|p| - 1]])
    }

    ghost predicate KidOk(p: Path, s: string)
      requires p in kids && s in kids[p]
    {
      p + [s] in nodes && nodes[p + [s]] == kids[p][s]
    }

    ghost predicate PlaceOk(n: Subscription)
      requires n in place
    {
      place[n] in nodes && nodes[place[n]] == n
    }

    /** A node is subscribed to exactly when it carries a QoS. */
    ghost predicate SubOk(p: Path)
      requires p in qos
    {
      if qos[p] == EMPTY_QOS then p !in subs else p in subs && subs[p] == qos[p]
    }

    /** Children and paths agree, and every node has one path. */
    ghost predicate Ok() {
      && [] in nodes && qos.Keys == nodes.Keys && kids.Keys == nodes.Keys && subs.Keys <= qos.Keys
      && (forall p {:trigger SubOk(p)} :: p in qos ==> SubOk(p))
      && (forall n {:trigger PlaceOk(n)} :: n in place ==> PlaceOk(n))
      && (forall p {:trigger PathOk(p)} :: p in nodes ==> PathOk(p))
      && (forall p, s {:trigger KidOk(p, s)} :: p in kids && s in kids[p] ==> KidOk(p, s))
    }

    /** A node without children, other than the root, carries a subscription. */
    ghost predicate Needed(p: Path)
      requires p in kids && p in qos
    {
      p != [] && kids[p] == map[] ==> qos[p] != EMPTY_QOS
    }

    /** No dead branches. */
    ghost predicate Alive()
      requires Ok()
    {
      forall p {:trigger Needed(p)} :: p in nodes ==> Needed(p)
    }

    lemma {:induction false} PrefixIn(p: Path, k: nat)
      requires Ok() && p in nodes && k <= |p|
      ensures p[..k] in nodes
      decreases |p|
    {
      if k == |p| {
        assert p[..k] == p;
      } else {
        assert PathOk(p);
        assert p[..|p| - 1][..k] == p[..k];
        PrefixIn(p[..|p| - 1], k);
      }
    }

    ghost function Mark(p: Path, q: nat): Trie {
      this.(qos := qos[p := q], subs := if q == EMPTY_QOS then subs - {p} else subs[p := q])
    }

    lemma MarkOk(p: Path, q: nat)
      requires Ok() && p in nodes
      ensures Mark(p, q).Ok()
    {
      var t := Mark(p, q);
      assert t.qos.Keys == qos.Keys;
      forall x | x in t.qos ensures t.SubOk(x) { assert SubOk(x); }
      forall n | n in t.place ensures t.PlaceOk(n) { assert PlaceOk(n); }
      forall x | x in t.nodes ensures t.PathOk(x) { assert PathOk(x); }
      forall x, s | x in t.kids && s in t.kids[x] ensures t.KidOk(x, s) { assert KidOk(x, s); }
    }

    /** A new node under `p`. */
    ghost function Grow(p: Path, s: string, n: Subscription): Trie
      requires p in kids
    {
      Trie(nodes[p + [s] := n], qos[p + [s] := EMPTY_QOS],
           kids[p := kids[p][s := n]][p + [s] := map[]], place[n := p + [s]], subs)
    }

    lemma ChildIsNew(p: Path, s: string)
      requires Ok() && p in kids && s !in kids[p]
      ensures p + [s] !in nodes
    {
      assert (p + [s])[..|p|] == p;
      assert p + [s] in nodes ==> PathOk(p + [s]);
    }

    lemma GrowKids(p: Path, s: string, n: Subscription, x: Path, k: string)
      requires Ok() && p in nodes && s !in kids[p] && n !in place && x in Grow(p, s, n).kids && k in Grow(p, s, n).kids[x]
      ensures Grow(p, s, n).KidOk(x, k)
    {
      ChildIsNew(p, s);
      if x != p || k != s {
        assert KidOk(x, k);
        assert x + [k] != p + [s];
      }
    }

    lemma GrowOk(p: Path, s: string, n: Subscription)
      requires Ok() && p in nodes && s !in kids[p] && n !in place
      ensures Grow(p, s, n).Ok()
    {
      var t, c := Grow(p, s, n), p + [s];
      ChildIsNew(p, s);
      assert c[..|c| - 1] == p && c[|c| - 1] == s;
      forall x | x in t.qos ensures t.SubOk(x) { if x != c { assert SubOk(x); } }
      forall m | m in t.place ensures t.PlaceOk(m) { if m != n { assert PlaceOk(m); } }
      forall x | x in t.nodes ensures t.PathOk(x) { if x != c { assert PathOk(x); } }
      forall x, k | x in t.kids && k in t.kids[x] ensures t.KidOk(x, k) { GrowKids(p, s, n, x, k); }
    }

    /** The trie without the branch that begins with child `s` of `p`. */
    ghost function Prune(p: Path, s: string): Trie
      requires p in kids
    {
      var gone := set x | x in nodes && p + [s] <= x;
      Trie(nodes - gone, qos - gone, (kids - gone)[p := kids[p] - {s}], map n | n in place && place[n] !in gone :: place[n], subs - gone)
    }

    lemma PrunePaths(p: Path, s: string, x: Path)
      requires Ok() && p in nodes && s in kids[p] && x in Prune(p, s).nodes
      ensures x in Prune(p, s).kids && Prune(p, s).PathOk(x)
    {
      assert PathOk(x);
      if x != [] {
        assert x[..|x| - 1] + [x[|x| - 1]] == x;
        PrefixIn(x, |x| - 1);
      }
    }

    lemma PruneKids(p: Path, s: string, x: Path, k: string)
      requires Ok() && p in nodes && s in kids[p] && x in Prune(p, s).kids && k in Prune(p, s).kids[x]
      ensures Prune(p, s).KidOk(x, k)
    {
      assert KidOk(x, k);
      assert |p| < |x| ==> x[..|p| + 1] == (x + [k])[..|p| + 1];
      assert (x + [k])[..|x|] == x && (x + [k])[|x|] == k && (p + [s])[..|p|] == p && (p + [s])[|p|] == s;
      assert p + [s] <= x + [k] ==> p + [s] <= x || (x == p && k == s);
    }

    lemma PruneOk(p: Path, s: string)
      requires Ok() && p in nodes && s in kids[p]
      ensures Prune(p, s).Ok()
    {
      var t := Prune(p, s);
      assert t.kids.Keys == t.nodes.Keys && t.qos.Keys == t.nodes.Keys && t.subs.Keys <= t.qos.Keys;
      forall x | x in t.qos ensures t.SubOk(x) { assert SubOk(x); }
      forall n | n in t.place ensures t.PlaceOk(n) { assert PlaceOk(n); }
      forall x | x in t.nodes ensures t.PathOk(x) { PrunePaths(p, s, x); }
      forall x, k | x in t.kids && k in t.kids[x] ensures t.KidOk(x, k) { PruneKids(p, s, x, k); }
    }
  }

  /** The heap shows the trie. */
  ghost predicate Shows(t: Trie)
    reads t.place.Keys
  {
    forall n {:trigger t.place[n]} :: n in t.place ==>
      && t.place[n] in t.qos && t.place[n] in t.kids
      && n.maxQos == t.qos[t.place[n]] && n.children == t.kids[t.place[n]]
  }

  /** The node at a path, as the heap shows it. */
  lemma NodeShown(t: Trie, p: Path)
    requires t.Ok() && Shows(t) && p in t.nodes
    ensures t.nodes[p] in t.place && t.nodes[p].maxQos == t.qos[p] && t.nodes[p].children == t.kids[p]
    ensures forall n {:trigger t.place[n]} :: n in t.place ==> (t.place[n] == p <==> n == t.nodes[p])
  {
    assert t.PathOk(p);
    forall n | n in t.place ensures t.place[n] == p <==> n == t.nodes[p] { assert t.PlaceOk(n); }
  }

  /** What the topic map of module Protocol is to this trie. */
  function Lookup(subs: map<Path, nat>, topic: string): nat {
    if Split(topic) in subs then subs[Split(topic)] else EMPTY_QOS
  }

  class Subscriptions {
    const root: Subscription
    ghost var trie: Trie

    ghost predicate Valid()
      reads this, trie.place.Keys
    {
      trie.Ok() && trie.Alive() && trie.nodes[[]] == root && Shows(trie)
    }

    constructor ()
      ensures Valid() && trie.subs == map[] && fresh(trie.place.Keys)
    {
      root := new Subscription();
      new;
      trie := Trie(map[[] := root], map[[] := EMPTY_QOS], map[[] := map[]], map[root := []], map[]);
    }

    /** `is_subed_to`: the QoS of the topic, or EMPTY_QOS. */
    method IsSubscribedTo(topic: string) returns (qos: nat)
      requires Valid()
      ensures qos == Lookup(trie.subs, topic)
    {
      var rest, cur := topic, root;
      ghost var path, i := Split(topic), 0;
      while rest != ""
        invariant i <= |path| && path == path[..i] + Split(rest)
        invariant path[..i] in trie.nodes && trie.nodes[path[..i]] == cur
        decreases |rest|
      {
        var end, child := Step(trie, path, i, cur, rest);
        if child == null { return EMPTY_QOS; }
        cur, rest, i := child, rest[end..], i + 1;
      }
      assert path == path[..i] && trie.SubOk(path);
      NodeShown(trie, path);
      qos := cur.maxQos;
    }

    /** The next segment of the topic, and the child it names. */
    static method Step(ghost t: Trie, ghost path: Path, ghost i: nat, cur: Subscription, rest: string) returns (end: nat, child: Subscription?)
      requires t.Ok() && Shows(t) && rest != "" && i <= |path| && path == path[..i] + Split(rest)
      requires path[..i] in t.nodes && t.nodes[path[..i]] == cur
      ensures 0 < end <= |rest| && i < |path| && path[i] == rest[..end] && path == path[..i + 1] + Split(rest[end..])
      ensures if child == null then path !in t.subs else path[..i + 1] in t.nodes && t.nodes[path[..i + 1]] == child
      ensures end == |rest| ==> path == path[..i + 1]
    {
      end := Scan(rest, 1);
      SplitStep(path[..i], rest);
      var segment := rest[..end];
      assert path[..i + 1] == path[..i] + [segment];
      NodeShown(t, path[..i]);
      if segment in cur.children {
        assert t.KidOk(path[..i], segment);
        child := cur.children[segment];
      } else {
        t.ChildIsNew(path[..i], segment);
        Missing(t, path, i + 1);
        child := null;
      }
    }

    /** A path is not subscribed to when a beginning of it has no node. */
    static lemma Missing(t: Trie, path: Path, k: nat)
      requires t.Ok() && k <= |path| && path[..k] !in t.nodes
      ensures path !in t.subs
    {
      if path in t.nodes {
        t.PrefixIn(path, k);
      }
    }

    /** The walk stands at `cur`, the node of path `done`; only that node may be a dead end yet. */
    static ghost predicate Stands(t: Trie, cur: Subscription, done: Path)
      reads t.place.Keys
    {
      && t.Ok() && Shows(t) && done in t.nodes && t.nodes[done] == cur
      && forall p {:trigger t.Needed(p)} :: p in t.nodes && p != done ==> t.Needed(p)
    }

    /** One step of `add_sub`: down to the child, which is made if there is none. */
    static method Descend(ghost t: Trie, cur: Subscription, ghost done: Path, segment: string) returns (next: Subscription, ghost u: Trie)
      requires Stands(t, cur, done)
      modifies cur`children
      ensures Stands(u, next, done + [segment]) && u.subs == t.subs
      ensures u.nodes[[]] == t.nodes[[]] && forall n :: n in u.place ==> n in t.place || fresh(n)
    {
      u := t;
      NodeShown(t, done);
      if segment !in cur.children {
        var n := new Subscription();
        u := MakeChild(t, done, segment, n, cur);
      }
      NodeShown(u, done);
      assert u.KidOk(done, segment) && u.Needed(done);
      next := cur.children[segment];
    }

    /** `add_sub`: the topic's QoS is set, nodes are made for the segments that have none. */
    method AddSub(topic: string, qos: nat) returns (code: nat)
      requires Valid() && qos != EMPTY_QOS
      modifies this`trie, trie.place.Keys
      ensures Valid() && forall n :: n in trie.place ==> n in old(trie.place) || fresh(n)
      ensures trie.subs == old(trie.subs)[Split(topic) := qos] && code == qos
    {
      trie := Insert(root, topic, qos, trie);
      code := qos;
    }

    static method Insert(root: Subscription, topic: string, qos: nat, ghost trie: Trie) returns (ghost t: Trie)
      requires trie.Ok() && trie.Alive() && Shows(trie) && trie.nodes[[]] == root && qos != EMPTY_QOS
      modifies trie.place.Keys
      ensures t.Ok() && t.Alive() && Shows(t) && t.nodes[[]] == root
      ensures t.subs == trie.subs[Split(topic) := qos] && forall n :: n in t.place ==> n in trie.place || fresh(n)
    {
      var rest, cur := topic, root;
      ghost var done: Path := [];
      t := trie;
      while rest != ""
        invariant Split(topic) == done + Split(rest)
        invariant Stands(t, cur, done) && t.subs == trie.subs && t.nodes[[]] == root
        invariant forall n :: n in t.place ==> n in trie.place || fresh(n)
        decreases |rest|
      {
        var end := Scan(rest, 1);
        SplitStep(done, rest);
        var segment := rest[..end];
        assert t.PathOk(done);
        cur, t := Descend(t, cur, done, segment);
        done, rest := done + [segment], rest[end..];
      }
      assert done + [] == done && t.PathOk(done);
      t := Finish(t, cur, done, qos);
    }

    /** The end of `add_sub`: the node that was reached carries the QoS. */
    static method Finish(ghost t: Trie, cur: Subscription, ghost done: Path, qos: nat) returns (ghost u: Trie)
      requires Stands(t, cur, done) && qos != EMPTY_QOS
      modifies cur`maxQos
      ensures u == t.Mark(done, qos) && u.Ok() && u.Alive() && Shows(u)
    {
      t.MarkOk(done, qos);
      NodeShown(t, done);
      cur.maxQos := qos;
      u := t.Mark(done, qos);
      forall p | p in u.nodes ensures u.Needed(p) { assert p != done ==> t.Needed(p); }
    }

    static lemma GrowNeeded(t: Trie, done: Path, s: string, n: Subscription)
      requires t.Ok() && done in t.nodes && s !in t.kids[done]
      requires forall p {:trigger t.Needed(p)} :: p in t.nodes && p != done ==> t.Needed(p)
      ensures var u := t.Grow(done, s, n); forall p {:trigger u.Needed(p)} :: p in u.nodes && p != done + [s] ==> p in u.qos && p in u.kids && u.Needed(p)
    {
      var u := t.Grow(done, s, n);
      forall p | p in u.nodes && p != done + [s] ensures p in u.qos && p in u.kids && u.Needed(p) {
        assert p != done ==> t.Needed(p);
        assert s in u.kids[done];
      }
    }

    /** Hangs a new node under the current one. */
    static method MakeChild(ghost t: Trie, ghost done: Path, segment: string, n: Subscription, cur: Subscription) returns (ghost u: Trie)
      requires Stands(t, cur, done) && segment !in cur.children && n !in t.place.Keys && n.maxQos == EMPTY_QOS && n.children == map[]
      modifies cur`children
      ensures u == t.Grow(done, segment, n) && u.Ok() && Shows(u) && u.place.Keys == t.place.Keys + {n}
      ensures cur.children == old(cur.children)[segment := n]
      ensures forall p {:trigger u.Needed(p)} :: p in u.nodes && p != done + [segment] ==> u.Needed(p)
    {
      NodeShown(t, done);
      t.ChildIsNew(done, segment);
      t.GrowOk(done, segment, n);
      u := t.Grow(done, segment, n);
      cur.children := cur.children[segment := n];
      GrowNeeded(t, done, segment, n);
    }

    // ---------- deletion ----------

    /** From node `j` of the path on, every node above the last has one child and no QoS. */
    static ghost predicate Chain(t: Trie, path: Path, j: nat, i: nat)
      requires t.Ok() && j <= i <= |path|
    {
      forall m {:trigger path[..m]} :: j < m <= i ==> path[..m] in t.nodes && t.qos[path[..m]] == EMPTY_QOS && |t.kids[path[..m]]| == 1
    }

    static lemma OneKey<K, V>(m: map<K, V>, a: K, b: K)
      requires |m| == 1 && a in m && b in m
      ensures a == b
    {
      assert |m.Keys - {a}| == |m| - 1 && (a != b ==> b in m.Keys - {a});
    }

    /** Below a chain there is nothing but the chain. */
    static lemma {:induction false} OnChain(t: Trie, path: Path, j: nat, x: Path)
      requires t.Ok() && path in t.nodes && j < |path| && t.kids[path] == map[] && Chain(t, path, j, |path| - 1)
      requires x in t.nodes && path[..j + 1] <= x
      ensures |x| <= |path| && x == path[..|x|]
      decreases |x|
    {
      if |x| > j + 1 {
        var up := x[..|x| - 1];
        assert t.PathOk(x);
        t.PrefixIn(x, |x| - 1);
        assert path[..j + 1] == x[..j + 1] == up[..j + 1];
        OnChain(t, path, j, up);
        assert |up| < |path| by { assert path[..|path|] == path; }
        t.PrefixIn(path, |up| + 1);
        assert t.PathOk(path[..|up| + 1]) && path[..|up| + 1][..|up|] == path[..|up|];
        OneKey(t.kids[up], x[|x| - 1], path[|up|]);
        assert x == up + [x[|x| - 1]];
      }
    }

    /** Cutting a chain off takes away its last subscription and no other. */
    static lemma ChainSubs(t: Trie, path: Path, j: nat)
      requires t.Ok() && path in t.nodes && j < |path| && t.kids[path] == map[] && Chain(t, path, j, |path| - 1)
      requires path[..j] in t.nodes
      ensures t.Prune(path[..j], path[j]).subs == t.subs - {path}
    {
      var p, s := path[..j], path[j];
      assert p + [s] == path[..j + 1];
      forall x | x in t.nodes && p + [s] <= x
        ensures x == path || x !in t.subs
      {
        OnChain(t, path, j, x);
        assert t.SubOk(x);
        assert x != path ==> j < |x| < |path| && path[..|x|] == x;
      }
      assert path in t.nodes && p + [s] <= path;
    }

    /** Cutting a chain off takes away its last subscription and no other, and leaves no dead end if the
        node it hung from is needed for something else. */
    static lemma PruneChain(t: Trie, path: Path, j: nat)
      requires t.Ok() && t.Alive() && path in t.nodes && j < |path| && t.kids[path] == map[] && Chain(t, path, j, |path| - 1)
      requires path[..j] in t.nodes && path[j] in t.kids[path[..j]]
      requires j == 0 || t.qos[path[..j]] != EMPTY_QOS || |t.kids[path[..j]]| > 1
      ensures var u := t.Prune(path[..j], path[j]); u.Ok() && u.Alive() && u.subs == t.subs - {path}
    {
      var p, s := path[..j], path[j];
      var u := t.Prune(p, s);
      t.PruneOk(p, s);
      ChainSubs(t, path, j);
      forall x | x in u.nodes ensures u.Needed(x) {
        assert t.Needed(x) && u.qos[x] == t.qos[x];
        assert |t.kids[p].Keys - {s}| == |t.kids[p].Keys| - 1 && u.kids[p].Keys == t.kids[p].Keys - {s};
      }
    }

    /** The erase that ends a deletion. */
    static method Cut(ghost t: Trie, ghost path: Path, ghost j: nat, parent: Subscription, segment: string) returns (ghost u: Trie)
      requires t.Ok() && t.Alive() && Shows(t) && path in t.nodes && j < |path| && t.kids[path] == map[] && Chain(t, path, j, |path| - 1)
      requires path[..j] in t.nodes && parent == t.nodes[path[..j]] && segment == path[j]
      requires j == 0 || t.qos[path[..j]] != EMPTY_QOS || |t.kids[path[..j]]| > 1
      modifies parent`children
      ensures u.Ok() && u.Alive() && Shows(u) && u.subs == t.subs - {path} && u.place.Keys <= t.place.Keys
      ensures [] in t.nodes && u.nodes[[]] == t.nodes[[]]
    {
      t.PrefixIn(path, j + 1);
      assert path[..j + 1][..j] == path[..j] && t.PathOk(path[..j + 1]);
      NodeShown(t, path[..j]);
      PruneChain(t, path, j);
      u := t.Prune(path[..j], segment);
      parent.children := parent.children - {segment};
    }

    /** `delete_sub`: exactly this topic is gone. The code finds no child "", so "" is never deleted. */
    method DeleteSub(topic: string)
      requires Valid()
      modifies this`trie, trie.place.Keys
      ensures Valid() && trie.place.Keys <= old(trie.place.Keys)
      ensures trie.subs == if topic == "" then old(trie.subs) else old(trie.subs) - {Split(topic)}
    {
      if topic != "" {
        trie := Remove(root, topic, trie);
      }
    }

    /** Where the walk of `delete_sub` is: at `cur`, the node of the first `i` segments, with the dead
        chain so far, if any, hanging from `parent`, the node of the first `j`. */
    static ghost predicate At(t: Trie, path: Path, i: nat, cur: Subscription, j: nat, parent: Subscription, segment: string)
      requires t.Ok()
    {
      && j <= i <= |path| && path[..i] in t.nodes && t.nodes[path[..i]] == cur
      && path[..j] in t.nodes && t.nodes[path[..j]] == parent
      && (if segment == "" then j == i else j < i && segment == path[j])
      && Chain(t, path, j, i)
      && (j == 0 || t.qos[path[..j]] != EMPTY_QOS || |t.kids[path[..j]]| > 1)
    }

    /** One step down with the bookkeeping of the dead chain. */
    static method Track(ghost t: Trie, ghost path: Path, ghost i: nat, ghost j: nat, node: Subscription, cur: Subscription,
                        segment: string, parent: Subscription, first: string)
      returns (delParent: Subscription, delTopic: string, ghost j': nat)
      requires t.Ok() && t.Alive() && Shows(t) && At(t, path, i, cur, j, parent, first)
      requires i < |path| && path[i] == segment && segment != "" && path[..i + 1] in t.nodes && t.nodes[path[..i + 1]] == node
      ensures At(t, path, i + 1, node, j', delParent, delTopic)
    {
      delParent, delTopic, j' := parent, first, j;
      NodeShown(t, path[..i + 1]);
      assert t.Needed(path[..i + 1]);
      if node.maxQos != EMPTY_QOS || |node.children| > 1 {
        delParent, delTopic, j' := node, "", i + 1;
      } else if delTopic == "" {
        delTopic := segment;
      }
    }

    static method Remove(root: Subscription, topic: string, ghost trie: Trie) returns (ghost t: Trie)
      requires trie.Ok() && trie.Alive() && Shows(trie) && trie.nodes[[]] == root && topic != ""
      modifies trie.place.Keys
      ensures t.Ok() && t.Alive() && Shows(t) && t.nodes[[]] == root && t.place.Keys <= trie.place.Keys
      ensures t.subs == trie.subs - {Split(topic)}
    {
      ghost var i, j;
      var node, cur, segment, delParent, delTopic;
      node, cur, segment, delParent, delTopic, i, j := Seek(root, topic, trie);
      t := trie;
      if node != null {
        t := Leave(t, Split(topic), i, cur, segment, node, j, delParent, delTopic);
      } else {
        assert t.subs - {Split(topic)} == t.subs;
      }
    }

    /** The loop of `delete_sub`: the node of the last segment, or null, and where its dead chain hangs. */
    static method Seek(root: Subscription, topic: string, ghost t: Trie)
      returns (node: Subscription?, cur: Subscription, segment: string, delParent: Subscription, delTopic: string, ghost i: nat, ghost j: nat)
      requires t.Ok() && t.Alive() && Shows(t) && t.nodes[[]] == root && topic != ""
      ensures node == null ==> Split(topic) !in t.subs
      ensures var path := Split(topic);
              node != null ==> |path| == i + 1 && path[i] == segment && path in t.nodes && t.nodes[path] == node
                               && At(t, path, i, cur, j, delParent, delTopic)
    {
      var rest := topic;
      cur, delParent, delTopic, i, j := root, root, "", 0, 0;
      ghost var path := Split(topic);
      while true
        invariant rest != "" && At(t, path, i, cur, j, delParent, delTopic) && path == path[..i] + Split(rest)
        decreases |rest|
      {
        var end;
        end, node := Step(t, path, i, cur, rest);
        segment := rest[..end];
        if node == null || end == |rest| {
          return;
        }
        delParent, delTopic, j := Track(t, path, i, j, node, cur, segment, delParent, delTopic);
        cur, rest, i := node, rest[end..], i + 1;
      }
    }

    /** The last segment. */
    static method Leave(ghost t: Trie, ghost path: Path, ghost i: nat, cur: Subscription, segment: string, node: Subscription,
                        ghost j: nat, parent: Subscription, first: string) returns (ghost u: Trie)
      requires t.Ok() && t.Alive() && Shows(t) && At(t, path, i, cur, j, parent, first)
      requires |path| == i + 1 && path[i] == segment && path in t.nodes && t.nodes[path] == node
      modifies t.place.Keys
      ensures u.Ok() && u.Alive() && Shows(u) && u.subs == t.subs - {path} && u.place.Keys <= t.place.Keys
      ensures [] in t.nodes && u.nodes[[]] == t.nodes[[]]
    {
      NodeShown(t, path);
      assert t.PathOk(path[..i]) && t.PathOk(path[..j]);
      if node.children != map[] {
        u := Unmark(t, path, node);
      } else if first != "" {
        u := Cut(t, path, j, parent, first);
      } else {
        u := Cut(t, path, i, cur, segment);
      }
    }

    /** The end of `delete_sub` at a node with children, which stays. */
    static method Unmark(ghost t: Trie, ghost path: Path, node: Subscription) returns (ghost u: Trie)
      requires t.Ok() && t.Alive() && Shows(t) && path in t.nodes && t.nodes[path] == node && node.children != map[]
      modifies node`maxQos
      ensures u.Ok() && u.Alive() && Shows(u) && u.subs == t.subs - {path} && u.place == t.place && u.nodes == t.nodes
    {
      t.MarkOk(path, EMPTY_QOS);
      NodeShown(t, path);
      node.maxQos := EMPTY_QOS;
      u := t.Mark(path, EMPTY_QOS);
      forall p | p in u.nodes ensures u.Needed(p) { assert t.Needed(p); }
    }
  }

  // ---------- what this means for topics ----------

  /** Subscribing sets the QoS of its topic and of no other. */
  lemma AddedTopic(subs: map<Path, nat>, topic: string, qos: nat, other: string)
    ensures Lookup(subs[Split(topic) := qos], other) == if other == topic then qos else Lookup(subs, other)
  {
    if Split(other) == Split(topic) {
      SplitInjective(other, topic);
    }
  }

  /** What a trie stands for in module Delivery: the topics that are subscribed to, with their QoS. */
  ghost predicate Refines(paths: map<Path, nat>, subs: map<string, nat>) {
    forall topic: string :: Lookup(paths, topic) == if topic in subs then subs[topic] else EMPTY_QOS
  }

  /** `add_sub` does to the trie what SUBSCRIBE does to those topics. */
  lemma SubscribeRefines(paths: map<Path, nat>, subs: map<string, nat>, topic: string, qos: nat)
    requires Refines(paths, subs)
    ensures Refines(paths[Split(topic) := qos], subs[topic := qos])
  {
    var subs' := subs[topic := qos];
    forall other: string
      ensures Lookup(paths[Split(topic) := qos], other) == if other in subs' then subs'[other] else EMPTY_QOS
    {
      AddedTopic(paths, topic, qos, other);
      assert Lookup(paths, other) == if other in subs then subs[other] else EMPTY_QOS;
    }
  }

  /** And `delete_sub` what UNSUBSCRIBE does. */
  lemma UnsubscribeRefines(paths: map<Path, nat>, subs: map<string, nat>, topic: string)
    requires Refines(paths, subs)
    ensures Refines(paths - {Split(topic)}, subs - {topic})
  {
    var subs' := subs - {topic};
    forall other: string
      ensures Lookup(paths - {Split(topic)}, other) == if other in subs' then subs'[other] else EMPTY_QOS
    {
      DeletedTopic(paths, topic, other);
      assert Lookup(paths, other) == if other in subs then subs[other] else EMPTY_QOS;
    }
  }

  /** Unsubscribing forgets its topic and no other. */
  lemma DeletedTopic(subs: map<Path, nat>, topic: string, other: string)
    ensures Lookup(subs - {Split(topic)}, other) == if other == topic then EMPTY_QOS else Lookup(subs, other)
  {
    if Split(other) == Split(topic) {
      SplitInjective(other, topic);
    }
  }
}
