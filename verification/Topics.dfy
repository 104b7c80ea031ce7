/** Splitting a topic into the segments that name the nodes of a subscription trie.

    Repair: each scan starts one character later than in main/Subscription.cpp:9, :35 and :54, so the
    separator begins the next segment. As written the scan that follows a separator stops at it again;
    see the end of this module.
 */
module Topics {
  type Path = seq<string>

  /** The end of the segment: the first separator at or after `from`, or the end of the topic. */
  function SegmentEnd(topic: string, from: nat): (e: nat)
    requires from <= |topic|
    ensures from <= e <= |topic| && (e < |topic| ==> topic[e] == '/')
    ensures forall i :: from <= i < e ==> topic[i] != '/'
    decreases |topic| - from
  {
    if from == |topic| || topic[from] == '/' then from else SegmentEnd(topic, from + 1)
  }

  /** The scan of the three trie operations. */
  method Scan(topic: string, from: nat) returns (end: nat)
    requires from <= |topic|
    ensures end == SegmentEnd(topic, from)
  {
    end := from;
    while end < |topic| && topic[end] != '/'
      invariant from <= end <= |topic| && SegmentEnd(topic, end) == SegmentEnd(topic, from)
    {
      end := end + 1;
    }
  }

  function Split(topic: string): Path
    decreases |topic|
  {
    if topic == "" then []
    else var e := SegmentEnd(topic, 1); [topic[..e]] + Split(topic[e..])
  }

  /** Taking the next segment off the rest of a topic. */
  lemma SplitStep(done: Path, rest: string)
    requires rest != ""
    ensures var e := SegmentEnd(rest, 1); done + Split(rest) == (done + [rest[..e]]) + Split(rest[e..])
  {
  }

  function Join(path: Path): string {
    if path == [] then "" else path[0] + Join(path[1..])
  }

  /** The segments put together again are the topic, none is empty, and a separator only begins one. */
  lemma {:induction false} SplitJoins(topic: string)
    ensures Join(Split(topic)) == topic
    ensures forall s :: s in Split(topic) ==> s != "" && forall i :: 0 < i < |s| ==> s[i] != '/'
    decreases |topic|
  {
    if topic != "" {
      var e := SegmentEnd(topic, 1);
      var first, rest := topic[..e], Split(topic[e..]);
      SplitJoins(topic[e..]);
      assert Split(topic) == [first] + rest && ([first] + rest)[1..] == rest;
      assert first + topic[e..] == topic;
      forall s | s in Split(topic)
        ensures s != "" && forall i :: 0 < i < |s| ==> s[i] != '/'
      {
        assert s == first || s in rest;
      }
    }
  }

  /** Distinct topics have distinct paths. */
  lemma SplitInjective(a: string, b: string)
    requires Split(a) == Split(b)
    ensures a == b
  {
    SplitJoins(a);
    SplitJoins(b);
  }

  // ---------- as written ----------

  /** What is left of the topic after one pass of the loop as it stands (Subscription.cpp:7-26). */
  function Pass(rest: string): string { rest[SegmentEnd(rest, 0)..] }

  function Passes(topic: string, n: nat): string {
    if n == 0 then topic else Pass(Passes(topic, n - 1))
  }

  /** The scan of the loop as it stands comes to the end of the topic exactly if that has no separator: once
      a separator is next, no pass gets over it. How the loops of the three operations end all the same is
      in module SubscriptionsAsWritten. */
  lemma SplitAsWrittenExactly(topic: string)
    ensures (exists n :: Passes(topic, n) == "") <==> '/' !in topic
  {
    if '/' !in topic {
      assert SegmentEnd(topic, 0) == |topic|;
      assert Passes(topic, 1) == Pass(Passes(topic, 0)) == "";
    } else {
      forall n: nat ensures Passes(topic, n) != "" { KeepsSeparator(topic, n); }
    }
  }

  lemma {:induction false} KeepsSeparator(topic: string, n: nat)
    requires '/' in topic
    ensures '/' in Passes(topic, n)
  {
    if n > 0 {
      KeepsSeparator(topic, n - 1);
      var rest := Passes(topic, n - 1);
      var i :| 0 <= i < |rest| && rest[i] == '/';
      var e := SegmentEnd(rest, 0);
      assert e <= i && rest[e..][i - e] == '/';
    }
  }

  /** On those topics the loop as it stands and the repaired one find the same single segment. */
  lemma SameWithoutSeparator(topic: string)
    requires '/' !in topic && topic != ""
    ensures Split(topic) == [topic] && topic[..SegmentEnd(topic, 0)] == topic
  {
    assert SegmentEnd(topic, 1) == |topic| && SegmentEnd(topic, 0) == |topic|;
    assert topic[..|topic|] == topic && topic[|topic|..] == "";
  }
}
