/** The trie operations as they stand (main/Subscription.cpp).

    Their scan stops at a separator without getting over it, so on a topic with a separator each pass after
    the first sees the empty segment. The first part of this module says what that makes of the three
    loops: such a topic is never subscribed to, never found and never deleted.

    The second part is about `delete_sub` alone, with the topic split as module Topics does: the loop looks
    every segment up at the root, and uses the last node without a null check.
 */
module SubscriptionsAsWritten {
  import opened Topics
  import opened Subscriptions
  import ChainedMaps

  // ---------- the loops as they stand ----------

  /** The segment of the pass that begins with this rest. */
  function Segment(rest: string): string { rest[..SegmentEnd(rest, 0)] }

  /** `add_sub` (Subscription.cpp:5-29), on the paths that have nodes and with memory for so many more. */
  datatype Adding =
    | Running(nodes: set<Path>, memory: nat, at: Path, rest: string)
    | Added(at: Path)
    | NoMemory

  function AddPass(a: Adding): Adding {
    match a
    case Running(nodes, memory, at, rest) =>
      var child := at + [Segment(rest)];
      if rest == "" then Added(at)
      else if child in nodes then Running(nodes, memory, child, Pass(rest))
      else if memory == 0 then NoMemory
      else Running(nodes + {child}, memory - 1, child, Pass(rest))
    case _ => a
  }

  function AddAfter(nodes: set<Path>, memory: nat, topic: string, n: nat): Adding {
    if n == 0 then Running(nodes, memory, [], topic) else AddPass(AddAfter(nodes, memory, topic, n - 1))
  }

  lemma PassKeepsSeparator(rest: string)
    requires '/' in rest
    ensures '/' in Pass(rest)
  {
    var i :| 0 <= i < |rest| && rest[i] == '/';
    var e := SegmentEnd(rest, 0);
    assert e <= i && rest[e..][i - e] == '/';
  }

  /** The walk goes down one node in every pass, and what it makes it pays for. */
  lemma {:induction false} AddGoesDown(nodes: set<Path>, memory: nat, topic: string, n: nat, deep: nat)
    requires '/' in topic && forall p :: p in nodes ==> |p| <= deep
    ensures GoneDown(AddAfter(nodes, memory, topic, n), memory, n, deep)
  {
    if n > 0 {
      AddGoesDown(nodes, memory, topic, n - 1, deep);
      PassGoesDown(AddAfter(nodes, memory, topic, n - 1), memory, n - 1, deep);
    }
  }

  ghost predicate GoneDown(a: Adding, memory: nat, n: nat, deep: nat) {
    match a
    case Running(nodes, left, at, rest) =>
      && '/' in rest && |at| == n && left <= memory && n <= deep + (memory - left)
      && forall p :: p in nodes ==> |p| <= deep || |p| <= n
    case Added(_) => false
    case NoMemory => true
  }

  lemma PassGoesDown(a: Adding, memory: nat, n: nat, deep: nat)
    requires GoneDown(a, memory, n, deep)
    ensures GoneDown(AddPass(a), memory, n + 1, deep)
  {
    if a.Running? {
      PassKeepsSeparator(a.rest);
      assert |a.at + [Segment(a.rest)]| == n + 1;
    }
  }

  /** `add_sub` comes to its end exactly on a topic without a separator that has a node or for which there is
      memory; on a topic with one it makes nodes until there is no memory left, and fails. */
  lemma AddAsWrittenExactly(nodes: set<Path>, memory: nat, topic: string, deep: nat)
    requires forall p :: p in nodes ==> |p| <= deep
    ensures (exists n :: AddAfter(nodes, memory, topic, n).Added?)
       <==> '/' !in topic && (topic == "" || [topic] in nodes || memory > 0)
    ensures '/' in topic ==> AddAfter(nodes, memory, topic, deep + memory + 1) == NoMemory
  {
    if '/' in topic {
      forall n: nat ensures !AddAfter(nodes, memory, topic, n).Added? { AddGoesDown(nodes, memory, topic, n, deep); }
      AddGoesDown(nodes, memory, topic, deep + memory + 1, deep);
    } else if topic == "" {
      assert AddAfter(nodes, memory, topic, 1) == AddPass(AddAfter(nodes, memory, topic, 0)) == Added([]);
      assert exists n :: AddAfter(nodes, memory, topic, n).Added?;
    } else {
      assert Segment(topic) == topic && Pass(topic) == "" && [] + [topic] == [topic];
      var first := AddAfter(nodes, memory, topic, 1);
      assert first == AddPass(AddAfter(nodes, memory, topic, 0));
      if [topic] in nodes || memory > 0 {
        assert first.Running? && first.at == [topic] && first.rest == "";
        var last := 2;
        assert AddAfter(nodes, memory, topic, last) == AddPass(first);
        assert AddAfter(nodes, memory, topic, last).Added?;
        assert exists n :: AddAfter(nodes, memory, topic, n).Added?;
      } else {
        forall n: nat ensures !AddAfter(nodes, memory, topic, n).Added? { StaysWithoutMemory(nodes, topic, n); }
      }
    }
  }

  lemma {:induction false} StaysWithoutMemory(nodes: set<Path>, topic: string, n: nat)
    requires topic != "" && '/' !in topic && [topic] !in nodes
    ensures AddAfter(nodes, 0, topic, n) == if n == 0 then Running(nodes, 0, [], topic) else NoMemory
  {
    if n > 0 {
      StaysWithoutMemory(nodes, topic, n - 1);
      assert Segment(topic) == topic && [] + [topic] == [topic];
    }
  }

  /** `is_subed_to` (Subscription.cpp:31-45): on its way, at a node that is missing, or at the topic's. */
  datatype Looking = Down(at: Path, rest: string) | Absent | Reached(at: Path)

  function LookAfter(nodes: set<Path>, topic: string, n: nat): Looking {
    if n == 0 then Down([], topic)
    else
      match LookAfter(nodes, topic, n - 1)
      case Down(at, rest) =>
        if rest == "" then Reached(at)
        else if at + [Segment(rest)] in nodes then Down(at + [Segment(rest)], Pass(rest))
        else Absent
      case l => l
  }

  lemma {:induction false} LookGoesDown(nodes: set<Path>, topic: string, n: nat, deep: nat)
    requires '/' in topic && forall p :: p in nodes ==> |p| <= deep
    ensures match LookAfter(nodes, topic, n)
            case Down(at, rest) => '/' in rest && |at| == n <= deep
            case Absent => true
            case Reached(_) => false
  {
    if n > 0 {
      LookGoesDown(nodes, topic, n - 1, deep);
      var l := LookAfter(nodes, topic, n - 1);
      if l.Down? {
        PassKeepsSeparator(l.rest);
      }
    }
  }

  /** Nobody is found to be subscribed to a topic with a separator: the lookup always ends at a missing node. */
  lemma LookAsWrittenFindsNothing(nodes: set<Path>, topic: string, deep: nat)
    requires '/' in topic && forall p :: p in nodes ==> |p| <= deep
    ensures forall n :: !LookAfter(nodes, topic, n).Reached?
    ensures LookAfter(nodes, topic, deep + 1) == Absent
  {
    forall n: nat ensures !LookAfter(nodes, topic, n).Reached? { LookGoesDown(nodes, topic, n, deep); }
    LookGoesDown(nodes, topic, deep + 1, deep);
  }

  /** `delete_sub` (Subscription.cpp:47-96): on its way with this rest, gone without a change, or at its last
      segment. */
  datatype Deleting = Going(rest: string) | Unchanged | AtLast(segment: string)

  function DeleteAfter(nodes: set<Path>, topic: string, n: nat): Deleting {
    if n == 0 then Going(topic)
    else
      match DeleteAfter(nodes, topic, n - 1)
      case Going(rest) =>
        if Segment(rest) == rest then AtLast(rest)
        else if [Segment(rest)] in nodes then Going(Pass(rest))
        else Unchanged
      case d => d
  }

  /** After the first pass nothing moves any more. */
  lemma {:induction false} DeleteStands(nodes: set<Path>, topic: string, n: nat)
    requires '/' in topic
    ensures DeleteAfter(nodes, topic, n)
         == if n == 0 then Going(topic)
            else if [Segment(topic)] !in nodes || (n > 1 && [""] !in nodes) then Unchanged
            else Going(Pass(topic))
  {
    if n > 0 {
      DeleteStands(nodes, topic, n - 1);
      var i :| 0 <= i < |topic| && topic[i] == '/';
      assert Segment(topic) != topic;
      var rest := Pass(topic);
      assert rest[0] == '/';
      assert Segment(rest) == "" && Pass(rest) == rest;
    }
  }

  /** On a topic with a separator `delete_sub` ends exactly when the root lacks the first segment or the
      empty one, and then it has changed nothing; otherwise it never ends. On other topics it comes to the
      one segment there is. */
  lemma DeleteAsWrittenExactly(nodes: set<Path>, topic: string)
    ensures '/' in topic ==>
              ((exists n :: !DeleteAfter(nodes, topic, n).Going?) <==> [Segment(topic)] !in nodes || [""] !in nodes)
    ensures '/' in topic ==> forall n :: DeleteAfter(nodes, topic, n).Going? || DeleteAfter(nodes, topic, n) == Unchanged
    ensures '/' !in topic ==> DeleteAfter(nodes, topic, 1) == AtLast(topic)
  {
    if '/' in topic {
      forall n: nat
        ensures DeleteAfter(nodes, topic, n)
             == if n == 0 then Going(topic)
                else if [Segment(topic)] !in nodes || (n > 1 && [""] !in nodes) then Unchanged
                else Going(Pass(topic))
      {
        DeleteStands(nodes, topic, n);
      }
      assert !DeleteAfter(nodes, topic, 2).Going? <==> [Segment(topic)] !in nodes || [""] !in nodes;
    } else {
      assert SegmentEnd(topic, 0) == |topic|;
      assert DeleteAfter(nodes, topic, 0) == Going(topic);
    }
  }

  // ---------- `delete_sub` on topics that are split as repaired ----------

  datatype Effect = Nothing | NullPointer | Unmarked(at: Path) | Erased(parent: Path, child: string)

  /** Every node's table of children has a capacity. */
  ghost predicate Roomy(t: Trie, room: map<Path, nat>)
    requires t.Ok()
  {
    forall p :: p in t.kids ==> p in room && room[p] > 0
  }

  /** The bucket of a child's name in the table of node `p` holds some child. */
  ghost predicate InUse(t: Trie, room: map<Path, nat>, p: Path, name: string)
    requires t.Ok() && Roomy(t, room) && p in t.kids
  {
    exists other :: other in t.kids[p] && ChainedMaps.Bucket(other, room[p]) == ChainedMaps.Bucket(name, room[p])
  }

  /** From the `k`-th segment on, with the dead chain so far at child `first` of `parent`. The erase at the
      end reads the first node of the child's bucket without looking whether there is one
      (main/includes/myhashmap.hpp:334-335). */
  ghost function Delete(t: Trie, room: map<Path, nat>, path: Path, k: nat, parent: Path, first: string): (e: Effect)
    requires t.Ok() && Roomy(t, room) && k < |path| && parent in t.kids
    ensures e.Erased? ==> e.parent in t.kids
    decreases |path| - k
  {
    var segment := path[k];
    if segment !in t.kids[[]] then
      if k == |path| - 1 then NullPointer else Nothing
    else
      assert t.KidOk([], segment) && [] + [segment] == [segment];
      if k == |path| - 1 then
        if t.kids[[segment]] != map[] then Unmarked([segment])
        else if first == "" then Erased([], segment)
        else EraseAt(t, room, parent, first)
      else if Busy(t, segment) then Delete(t, room, path, k + 1, [segment], "")
      else Delete(t, room, path, k + 1, parent, if first == "" then segment else first)
  }

  /** The node below the root that is reached by this segment is needed for something. */
  ghost predicate Busy(t: Trie, segment: string)
    requires t.Ok()
  {
    [segment] in t.nodes && (t.qos[[segment]] != EMPTY_QOS || |t.kids[[segment]]| > 1)
  }

  ghost function Deleted(t: Trie, room: map<Path, nat>, path: Path): (e: Effect)
    requires t.Ok() && Roomy(t, room) && path != []
    ensures e.Erased? ==> e.parent in t.kids
  {
    Delete(t, room, path, 0, [], "")
  }

  /** The subscriptions afterwards. */
  ghost function Left(t: Trie, e: Effect): map<Path, nat>
    requires t.Ok() && e != NullPointer && (e.Erased? ==> e.parent in t.kids)
  {
    match e
    case Nothing => t.subs
    case Unmarked(p) => t.subs - {p}
    case Erased(p, s) => t.Prune(p, s).subs
  }

  /** The path is gone and nothing else. */
  ghost predicate Intended(t: Trie, e: Effect, path: Path)
    requires t.Ok() && (e.Erased? ==> e.parent in t.kids)
  {
    e != NullPointer && Left(t, e) == t.subs - {path}
  }

  ghost predicate Right(t: Trie, room: map<Path, nat>, path: Path)
    requires t.Ok() && Roomy(t, room) && path != []
  {
    Intended(t, Deleted(t, room, path), path)
  }

  // ---------- what the loop comes to, in terms of trie and path ----------

  /** The root has a child for each of the first `n` segments. */
  ghost predicate AtRoot(t: Trie, path: Path, n: nat)
    requires t.Ok() && n <= |path|
  {
    forall i :: 0 <= i < n ==> [path[i]] in t.nodes
  }

  /** The last of the first `n` segments whose node at the root is busy, or -1. */
  ghost function LastBusy(t: Trie, path: Path, n: nat): (b: int)
    requires t.Ok() && n <= |path|
    ensures -1 <= b < n && (b >= 0 ==> Busy(t, path[b])) && forall i :: b < i < n ==> !Busy(t, path[i])
  {
    if n == 0 then -1 else if Busy(t, path[n - 1]) then n - 1 else LastBusy(t, path, n - 1)
  }

  /** Where the dead chain hangs: the root, or the last busy node. */
  ghost function Holder(t: Trie, path: Path, n: nat): Path
    requires t.Ok() && n <= |path|
  {
    var b := LastBusy(t, path, n);
    if b < 0 then [] else [path[b]]
  }

  lemma RootChild(t: Trie, segment: string)
    requires t.Ok()
    ensures segment in t.kids[[]] <==> [segment] in t.nodes
  {
    assert [] + [segment] == [segment] && [segment][..0] == [];
    if segment in t.kids[[]] { assert t.KidOk([], segment); }
    if [segment] in t.nodes { assert t.PathOk([segment]); }
  }

  /** The child of it that begins the dead chain after `n` segments, or "". */
  ghost function Chained(t: Trie, path: Path, n: nat): string
    requires t.Ok() && n <= |path|
  {
    var b := LastBusy(t, path, n);
    if b == n - 1 then "" else path[b + 1]
  }

  /** The loop from its `k`-th segment on, having seen the ones before at the root. */
  lemma {:induction false} DeleteFrom(t: Trie, room: map<Path, nat>, path: Path, k: nat)
    requires t.Ok() && Roomy(t, room) && k < |path| && "" !in path && AtRoot(t, path, k) && Holder(t, path, k) in t.kids
    ensures Delete(t, room, path, k, Holder(t, path, k), Chained(t, path, k)) == Outcome(t, room, path)
    decreases |path| - k
  {
    RootChild(t, path[k]);
    if k == |path| - 1 {
      DeleteLast(t, room, path);
    } else if [path[k]] in t.nodes {
      HolderIsNode(t, path, k + 1);
      DeleteStep(t, room, path, k);
      assert AtRoot(t, path, k + 1);
      DeleteFrom(t, room, path, k + 1);
    } else {
      assert !AtRoot(t, path, |path| - 1);
    }
  }

  lemma DeleteStep(t: Trie, room: map<Path, nat>, path: Path, k: nat)
    requires t.Ok() && Roomy(t, room) && k < |path| - 1 && "" !in path && [path[k]] in t.nodes
    requires Holder(t, path, k) in t.kids && Holder(t, path, k + 1) in t.kids
    ensures Delete(t, room, path, k, Holder(t, path, k), Chained(t, path, k))
         == Delete(t, room, path, k + 1, Holder(t, path, k + 1), Chained(t, path, k + 1))
  {
    RootChild(t, path[k]);
    ChainedOn(t, path, k);
  }

  lemma DeleteLast(t: Trie, room: map<Path, nat>, path: Path)
    requires t.Ok() && Roomy(t, room) && path != [] && "" !in path && AtRoot(t, path, |path| - 1) && Holder(t, path, |path| - 1) in t.kids
    ensures Delete(t, room, path, |path| - 1, Holder(t, path, |path| - 1), Chained(t, path, |path| - 1)) == Outcome(t, room, path)
  {
    var n := |path| - 1;
    RootChild(t, path[n]);
    HolderIsNode(t, path, n);
    assert Chained(t, path, n) == "" <==> LastBusy(t, path, n) == n - 1 by { assert forall i :: 0 <= i < |path| ==> path[i] in path; }
  }

  lemma ChainedOn(t: Trie, path: Path, k: nat)
    requires t.Ok() && k < |path| && "" !in path && [path[k]] in t.nodes
    ensures Holder(t, path, k + 1) == if Busy(t, path[k]) then [path[k]] else Holder(t, path, k)
    ensures Chained(t, path, k + 1) == if Busy(t, path[k]) then "" else if Chained(t, path, k) == "" then path[k] else Chained(t, path, k)
  {
    assert forall i :: 0 <= i < |path| ==> path[i] in path;
  }

  lemma HolderIsNode(t: Trie, path: Path, n: nat)
    requires t.Ok() && n <= |path|
    ensures Holder(t, path, n) in t.nodes
  {
  }

  /** What becomes of it, read off trie and path. */
  ghost function Outcome(t: Trie, room: map<Path, nat>, path: Path): (e: Effect)
    requires t.Ok() && Roomy(t, room) && path != []
    ensures e.Erased? ==> e.parent in t.kids
  {
    var n, last := |path| - 1, path[|path| - 1];
    var b := LastBusy(t, path, n);
    HolderIsNode(t, path, n);
    if !AtRoot(t, path, n) then Nothing
    else if [last] !in t.nodes then NullPointer
    else if t.kids[[last]] != map[] then Unmarked([last])
    else if b == n - 1 then Erased([], last)
    else EraseAt(t, room, Holder(t, path, n), path[b + 1])
  }

  /** The erase of a child, which looks into its bucket. */
  ghost function EraseAt(t: Trie, room: map<Path, nat>, p: Path, name: string): (e: Effect)
    requires t.Ok() && Roomy(t, room) && p in t.kids
    ensures e.Erased? ==> e.parent in t.kids
  {
    if InUse(t, room, p, name) then Erased(p, name) else NullPointer
  }

  lemma DeletedIs(t: Trie, room: map<Path, nat>, path: Path)
    requires t.Ok() && Roomy(t, room) && path != [] && "" !in path
    ensures Deleted(t, room, path) == Outcome(t, room, path)
  {
    DeleteFrom(t, room, path, 0);
  }

  /** A topic of one segment is deleted as intended exactly when it has a node; otherwise the code follows
      the null pointer. On such topics the loop as it stands does the same. */
  lemma OneSegmentExactly(t: Trie, room: map<Path, nat>, s: string)
    requires t.Ok() && t.Alive() && Roomy(t, room)
    ensures Deleted(t, room, [s]) == NullPointer <==> [s] !in t.nodes
    ensures Right(t, room, [s]) <==> [s] in t.nodes
  {
    RootChild(t, s);
    assert [] + [s] == [s] && [s][..0] == [];
    if [s] in t.nodes && t.kids[[s]] == map[] {
      assert [s][..1] == [s] && [s][0] == s;
      Subscriptions.PruneChain(t, [s], 0);
    }
  }

  // ---------- every node leads to a subscription ----------

  lemma {:induction false} Depth(paths: set<Path>) returns (deep: nat)
    ensures forall p :: p in paths ==> |p| <= deep
  {
    deep := 0;
    if p :| p in paths {
      var rest := Depth(paths - {p});
      deep := if |p| > rest then |p| else rest;
    }
  }

  lemma {:induction false} SubBelow(t: Trie, x: Path, deep: nat) returns (y: Path)
    requires t.Ok() && t.Alive() && x in t.nodes && x != [] && forall p :: p in t.nodes ==> |p| <= deep
    ensures y in t.subs && x <= y
    decreases deep - |x|
  {
    assert t.Needed(x) && t.SubOk(x);
    if t.kids[x] == map[] {
      y := x;
    } else {
      var s :| s in t.kids[x];
      assert t.KidOk(x, s);
      y := SubBelow(t, x + [s], deep);
    }
  }

  /** A branch with a node in it has a subscription in it. */
  lemma BranchHasSub(t: Trie, x: Path) returns (y: Path)
    requires t.Ok() && t.Alive() && x in t.nodes && x != []
    ensures y in t.subs && x <= y
  {
    var deep := Depth(t.nodes.Keys);
    y := SubBelow(t, x, deep);
  }

  /** A node that is not on the path has a subscription below it that is another one. */
  lemma BranchHasOther(t: Trie, path: Path, top: Path, x: Path) returns (y: Path)
    requires t.Ok() && t.Alive() && x in t.nodes && x != [] && top <= x && !(x <= path)
    ensures y in t.subs && top <= y && y != path
  {
    y := BranchHasSub(t, x);
  }

  // ---------- longer topics ----------

  /** A branch whose only subscription is its last node is a chain. */
  lemma OnlyChains(t: Trie, path: Path, j: nat)
    requires t.Ok() && t.Alive() && path in t.subs && j < |path| && path[..j] in t.kids
    requires t.Prune(path[..j], path[j]).subs == t.subs - {path}
    ensures t.kids[path] == map[] && Subscriptions.Chain(t, path, j, |path| - 1)
  {
    var top := path[..j] + [path[j]];
    assert top == path[..j + 1];
    forall y | y in t.subs && top <= y ensures y == path { assert y !in t.Prune(path[..j], path[j]).subs; }
    forall s ensures s !in t.kids[path] {
      if s in t.kids[path] {
        assert t.KidOk(path, s);
        var y := BranchHasOther(t, path, top, path + [s]);
      }
    }
    forall m | j < m <= |path| - 1
      ensures path[..m] in t.nodes && t.qos[path[..m]] == EMPTY_QOS && |t.kids[path[..m]]| == 1
    {
      t.PrefixIn(path, m);
      t.PrefixIn(path, m + 1);
      assert t.SubOk(path[..m]) && top <= path[..m];
      assert t.PathOk(path[..m + 1]) && path[..m + 1][..m] == path[..m];
      OneChild(t, path, j, m);
    }
  }

  lemma OneChild(t: Trie, path: Path, j: nat, m: nat)
    requires t.Ok() && t.Alive() && j < m < |path| && path[..m] in t.nodes && path[m] in t.kids[path[..m]]
    requires forall y :: y in t.subs && path[..j + 1] <= y ==> y == path
    ensures |t.kids[path[..m]]| == 1
  {
    var keys := t.kids[path[..m]].Keys;
    forall s | s in keys ensures s == path[m] {
      assert t.KidOk(path[..m], s);
      if s != path[m] {
        assert path[..j + 1] <= path[..m] <= path[..m] + [s] && (path[..m] + [s])[m] == s;
        var y := BranchHasOther(t, path, path[..j + 1], path[..m] + [s]);
      }
    }
    assert keys == {path[m]};
  }

  /** A subscription of more than one segment is deleted as intended exactly when every segment has a node at
      the root, that of the last one has no children, the first segment after the last busy one lies before
      the last one, and what hangs there from the root or the busy node is the beginning of the path, from
      where the path is a dead chain that ends in a leaf. */
  lemma DeleteExactly(t: Trie, room: map<Path, nat>, path: Path)
    requires t.Ok() && t.Alive() && Roomy(t, room) && path in t.subs && |path| > 1 && "" !in path
    ensures var n := |path| - 1;
            var b := LastBusy(t, path, n);
            Right(t, room, path) <==>
            && AtRoot(t, path, |path|) && t.kids[[path[n]]] == map[]
            && b < n - 1
            && (b < 0 || (path[b] == path[0] && path[b + 1] == path[1]))
            && t.kids[path] == map[] && Subscriptions.Chain(t, path, if b < 0 then 0 else 1, n)
  {
    var n := |path| - 1;
    var b := LastBusy(t, path, n);
    DeletedIs(t, room, path);
    if AtRoot(t, path, |path|) && t.kids[[path[n]]] == map[] && b < n - 1 {
      assert AtRoot(t, path, n);
      ErasesExactly(t, room, path);
    } else {
      KeepsPath(t, room, path);
    }
  }

  /** The case in which something is erased away from the last segment. */
  lemma ErasesExactly(t: Trie, room: map<Path, nat>, path: Path)
    requires t.Ok() && t.Alive() && Roomy(t, room) && path in t.subs && |path| > 1 && "" !in path
    requires var n := |path| - 1; AtRoot(t, path, n + 1) && t.kids[[path[n]]] == map[] && LastBusy(t, path, n) < n - 1
    ensures var n := |path| - 1;
            var b := LastBusy(t, path, n);
            Intended(t, Outcome(t, room, path), path) <==>
            && (b < 0 || (path[b] == path[0] && path[b + 1] == path[1]))
            && t.kids[path] == map[] && Subscriptions.Chain(t, path, if b < 0 then 0 else 1, n)
  {
    var b := LastBusy(t, path, |path| - 1);
    if b < 0 || (path[b] == path[0] && path[b + 1] == path[1]) {
      ErasesOnPath(t, room, path);
    } else {
      ErasesElsewhere(t, room, path);
    }
  }

  lemma ErasesOnPath(t: Trie, room: map<Path, nat>, path: Path)
    requires t.Ok() && t.Alive() && Roomy(t, room) && path in t.subs && |path| > 1 && "" !in path
    requires var n := |path| - 1; AtRoot(t, path, n + 1) && t.kids[[path[n]]] == map[] && LastBusy(t, path, n) < n - 1
    requires var b := LastBusy(t, path, |path| - 1); b < 0 || (path[b] == path[0] && path[b + 1] == path[1])
    ensures Intended(t, Outcome(t, room, path), path) <==>
            t.kids[path] == map[] && Subscriptions.Chain(t, path, if LastBusy(t, path, |path| - 1) < 0 then 0 else 1, |path| - 1)
  {
    var n := |path| - 1;
    var b, holder := LastBusy(t, path, n), Holder(t, path, n);
    var child, j := path[b + 1], if b < 0 then 0 else 1;
    t.PrefixIn(path, j);
    t.PrefixIn(path, j + 1);
    assert holder == path[..j] && child == path[j];
    assert t.PathOk(path[..j + 1]) && path[..j + 1][..j] == path[..j];
    assert child in t.kids[holder];
    OutcomeThere(t, room, path);
    if t.kids[path] == map[] && Subscriptions.Chain(t, path, j, n) {
      Subscriptions.ChainSubs(t, path, j);
    } else if Intended(t, Outcome(t, room, path), path) {
      OnlyChains(t, path, j);
    }
  }

  /** Something is erased away from the last segment, if there is a bucket to look into. */
  lemma OutcomeAway(t: Trie, room: map<Path, nat>, path: Path)
    requires t.Ok() && Roomy(t, room) && path != [] && LastBusy(t, path, |path| - 1) < |path| - 2
    requires var n, last := |path| - 1, path[|path| - 1]; AtRoot(t, path, n) && [last] in t.nodes && t.kids[[last]] == map[]
    ensures var holder, child := Holder(t, path, |path| - 1), path[LastBusy(t, path, |path| - 1) + 1];
            holder in t.kids && Outcome(t, room, path) == EraseAt(t, room, holder, child)
  {
    HolderIsNode(t, path, |path| - 1);
  }

  lemma OutcomeThere(t: Trie, room: map<Path, nat>, path: Path)
    requires t.Ok() && Roomy(t, room) && |path| > 1
    requires var n := |path| - 1; AtRoot(t, path, n + 1) && t.kids[[path[n]]] == map[] && LastBusy(t, path, n) < n - 1
    ensures var n, o := |path| - 1, Outcome(t, room, path);
            var holder, child := Holder(t, path, n), path[LastBusy(t, path, n) + 1];
            holder in t.kids && (o == Erased(holder, child) || o == NullPointer) && (child in t.kids[holder] ==> o == Erased(holder, child))
  {
    var n := |path| - 1;
    assert [path[n]] in t.nodes && AtRoot(t, path, n);
    OutcomeAway(t, room, path);
    var holder, child := Holder(t, path, n), path[LastBusy(t, path, n) + 1];
    if child in t.kids[holder] {
      ChildInUse(t, room, holder, child);
    }
  }

  lemma ChildInUse(t: Trie, room: map<Path, nat>, p: Path, child: string)
    requires t.Ok() && Roomy(t, room) && p in t.kids && child in t.kids[p]
    ensures InUse(t, room, p, child)
  {
  }

  lemma ErasesElsewhere(t: Trie, room: map<Path, nat>, path: Path)
    requires t.Ok() && Roomy(t, room) && path in t.subs && |path| > 1 && "" !in path
    requires var n := |path| - 1; AtRoot(t, path, n + 1) && t.kids[[path[n]]] == map[] && LastBusy(t, path, n) < n - 1
    requires var b := LastBusy(t, path, |path| - 1); b >= 0 && !(path[b] == path[0] && path[b + 1] == path[1])
    ensures !Intended(t, Outcome(t, room, path), path)
  {
    var b := LastBusy(t, path, |path| - 1);
    OutcomeThere(t, room, path);
    OffPathIsWrong(t, [path[b]], path[b + 1], path, Outcome(t, room, path));
  }

  lemma OffPathIsWrong(t: Trie, p: Path, name: string, path: Path, e: Effect)
    requires t.Ok() && p in t.kids && path in t.subs && |p| == 1 && |path| > 1 && !(p[0] == path[0] && name == path[1])
    requires e == Erased(p, name) || e == NullPointer
    ensures !Intended(t, e, path)
  {
    OffPath(t, p, name, path);
  }

  /** A path that does not begin with the child that is erased keeps its subscription. */
  lemma OffPath(t: Trie, p: Path, name: string, path: Path)
    requires t.Ok() && p in t.kids && path in t.subs && |p| == 1 && |path| > 1 && !(p[0] == path[0] && name == path[1])
    ensures path in t.Prune(p, name).subs
  {
    assert (p + [name])[0] == p[0] && (p + [name])[1] == name;
    assert !(p + [name] <= path);
  }

  /** In the other cases the path keeps its subscription, or the code follows the null pointer. */
  lemma KeepsPath(t: Trie, room: map<Path, nat>, path: Path)
    requires t.Ok() && Roomy(t, room) && path in t.subs && |path| > 1 && "" !in path
    requires var n := |path| - 1; !(AtRoot(t, path, n + 1) && t.kids[[path[n]]] == map[] && LastBusy(t, path, n) < n - 1)
    ensures !Intended(t, Outcome(t, room, path), path)
  {
    var n := |path| - 1;
    var last := path[n];
    if AtRoot(t, path, n + 1) && t.kids[[last]] == map[] {
      assert AtRoot(t, path, n) && Outcome(t, room, path) == Erased([], last);
      SurvivesLast(t, path);
    } else {
      SmallOutcome(t, room, path);
    }
  }

  lemma SmallOutcome(t: Trie, room: map<Path, nat>, path: Path)
    requires t.Ok() && Roomy(t, room) && |path| > 1
    requires var n := |path| - 1; !(AtRoot(t, path, n + 1) && t.kids[[path[n]]] == map[])
    ensures Outcome(t, room, path) in {Nothing, NullPointer, Unmarked([path[|path| - 1]])}
  {
    var n := |path| - 1;
    if AtRoot(t, path, n) && [path[n]] in t.nodes {
      assert AtRoot(t, path, n + 1);
    }
  }

  /** Erasing a leaf of the root does not touch a longer subscription. */
  lemma SurvivesLast(t: Trie, path: Path)
    requires t.Ok() && path in t.subs && |path| > 1
    requires var last := path[|path| - 1]; [last] in t.nodes && t.kids[[last]] == map[] && [] in t.kids
    ensures path in t.Prune([], path[|path| - 1]).subs
  {
    var last := path[|path| - 1];
    t.PrefixIn(path, 1);
    t.PrefixIn(path, 2);
    assert path[..2][..1] == path[..1] == [path[0]] && t.PathOk(path[..2]);
    assert path[1] in t.kids[[path[0]]];
    assert path[0] != last && ([] + [last])[0] == last;
  }

  /** Spelled out for two segments: the second must be a topic of its own with nothing under it, and the
      first a dead end but for this subscription. */
  lemma TwoSegmentsExactly(t: Trie, room: map<Path, nat>, x: string, y: string)
    requires t.Ok() && t.Alive() && Roomy(t, room) && [x, y] in t.subs && x != "" && y != ""
    ensures [x] in t.nodes && [x, y] in t.nodes
    ensures Right(t, room, [x, y])
       <==> [y] in t.nodes && t.kids[[y]] == map[]
            && t.qos[[x]] == EMPTY_QOS && |t.kids[[x]]| == 1 && t.kids[[x, y]] == map[]
  {
    var path := [x, y];
    t.PrefixIn(path, 1);
    assert path[..1] == [x] && path[..0] == [];
    assert t.PathOk(path) && path[1] in t.kids[[x]];
    DeleteExactly(t, room, path);
    assert LastBusy(t, path, 1) == if Busy(t, x) then 0 else -1;
    assert |t.kids[[x]]| > 0;
    assert AtRoot(t, path, 2) <==> [y] in t.nodes;
    assert Subscriptions.Chain(t, path, 0, 1) <==> t.qos[path[..1]] == EMPTY_QOS && |t.kids[path[..1]]| == 1;
  }

  /** A topic nobody subscribes to is left alone exactly when the root lacks a segment before the last, or the
      last one's node has children and no mark, or the busy node lacks the segment that follows it and has
      some other child in its bucket. In all other cases a subscription is lost or the code follows the null
      pointer. */
  lemma DeleteAbsentExactly(t: Trie, room: map<Path, nat>, path: Path)
    requires t.Ok() && t.Alive() && Roomy(t, room) && path !in t.subs && path != [] && "" !in path
    ensures var n, last := |path| - 1, path[|path| - 1];
            var b := LastBusy(t, path, n);
            Right(t, room, path) <==>
            || !AtRoot(t, path, n)
            || ([last] in t.nodes && t.kids[[last]] != map[] && t.qos[[last]] == EMPTY_QOS)
            || ([last] in t.nodes && t.kids[[last]] == map[] && 0 <= b < n - 1
                && [path[b], path[b + 1]] !in t.nodes && InUse(t, room, [path[b]], path[b + 1]))
  {
    var n, last := |path| - 1, path[|path| - 1];
    var b := LastBusy(t, path, n);
    DeletedIs(t, room, path);
    assert t.subs - {path} == t.subs;
    if AtRoot(t, path, n) && [last] in t.nodes {
      if t.kids[[last]] != map[] {
        assert t.SubOk([last]);
      } else {
        AbsentEraseExactly(t, room, path);
      }
    }
  }

  lemma AbsentEraseExactly(t: Trie, room: map<Path, nat>, path: Path)
    requires t.Ok() && t.Alive() && Roomy(t, room) && path != [] && "" !in path
    requires var n, last := |path| - 1, path[|path| - 1]; AtRoot(t, path, n) && [last] in t.nodes && t.kids[[last]] == map[]
    ensures var b, e := LastBusy(t, path, |path| - 1), Outcome(t, room, path);
            (e != NullPointer && Left(t, e) == t.subs) <==>
            0 <= b < |path| - 2 && [path[b], path[b + 1]] !in t.nodes && InUse(t, room, [path[b]], path[b + 1])
  {
    if LastBusy(t, path, |path| - 1) == |path| - 2 {
      AbsentAtEnd(t, room, path);
    } else {
      AbsentAway(t, room, path);
    }
  }

  lemma AbsentAtEnd(t: Trie, room: map<Path, nat>, path: Path)
    requires t.Ok() && t.Alive() && Roomy(t, room) && path != [] && LastBusy(t, path, |path| - 1) == |path| - 2
    requires var n, last := |path| - 1, path[|path| - 1]; AtRoot(t, path, n) && [last] in t.nodes && t.kids[[last]] == map[]
    ensures var e := Outcome(t, room, path); e != NullPointer && Left(t, e) != t.subs
  {
    var last := path[|path| - 1];
    assert Outcome(t, room, path) == Erased([], last) && [] + [last] == [last];
    EraseLeaves(t, [], last);
  }

  lemma AbsentAway(t: Trie, room: map<Path, nat>, path: Path)
    requires t.Ok() && t.Alive() && Roomy(t, room) && path != [] && LastBusy(t, path, |path| - 1) < |path| - 2
    requires var n, last := |path| - 1, path[|path| - 1]; AtRoot(t, path, n) && [last] in t.nodes && t.kids[[last]] == map[]
    ensures var b, e := LastBusy(t, path, |path| - 1), Outcome(t, room, path);
            (e != NullPointer && Left(t, e) == t.subs) <==>
            0 <= b && [path[b], path[b + 1]] !in t.nodes && InUse(t, room, [path[b]], path[b + 1])
  {
    var n := |path| - 1;
    var b, holder := LastBusy(t, path, n), Holder(t, path, n);
    var child := path[b + 1];
    OutcomeAway(t, room, path);
    EraseLeaves(t, holder, child);
    if b < 0 {
      assert [child] in t.nodes && holder + [child] == [child];
    } else {
      assert holder + [child] == [path[b], child];
    }
  }

  /** An erase leaves the subscriptions as they are exactly when there is no such child. */
  lemma EraseLeaves(t: Trie, p: Path, name: string)
    requires t.Ok() && t.Alive() && p in t.kids
    ensures t.Prune(p, name).subs == t.subs <==> p + [name] !in t.nodes
    ensures |p| == 1 ==> p + [name] == [p[0], name]
  {
    var top, u := p + [name], t.Prune(p, name);
    if top in t.nodes {
      var y := BranchHasSub(t, top);
      assert y !in u.subs;
    } else {
      forall x | x in t.nodes ensures !(top <= x) {
        assert top <= x ==> x[..|top|] == top;
        if top <= x { t.PrefixIn(x, |top|); }
      }
      assert u.subs == t.subs;
    }
  }
}
