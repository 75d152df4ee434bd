/** Fixed memberships and majority quorums (common/membership.py). */
module Membership {
  import opened Wrappers

  type NodeId = string

  /** The strict majority of `count`; a membership needs at least three members. */
  function QuorumSize(count: nat): (quorum: Option<nat>)
    ensures quorum.Some? <==> 3 <= count
    ensures quorum.Some? ==> count < 2 * quorum.value <= count + 2 && quorum.value < count
  {
    if count < 3 then None else Some(Majority(count))
  }

  function Majority(count: nat): nat {
    count / 2 + 1
  }

  ghost predicate IsQuorum(members: set<NodeId>, q: set<NodeId>) {
    q <= members && Majority(|members|) <= |q|
  }

  /** A legal fixed membership, tested as the code tests it: by the size of the set of members. */
  predicate ValidateFixedMembers(members: seq<NodeId>) {
    3 <= |members| && |members| == |Elements(members)| && "" !in members
  }

  /** What the test means: at least three members, no two the same, none empty. */
  lemma ValidMembership(members: seq<NodeId>)
    ensures ValidateFixedMembers(members) <==>
      && 3 <= |members|
      && (forall i, j :: 0 <= i < j < |members| ==> members[i] != members[j])
      && (forall i :: 0 <= i < |members| ==> members[i] != "")
  {
    DistinctMeansFullSize(members);
  }

  lemma DistinctMeansFullSize<T>(s: seq<T>)
    ensures |Elements(s)| == |s| <==> forall i, j :: 0 <= i < j < |s| ==> s[i] != s[j]
  {
    if |Elements(s)| == |s| {
      SizeDistinct(s);
    }
    if forall i, j :: 0 <= i < j < |s| ==> s[i] != s[j] {
      DistinctSize(s);
    }
  }

  function Elements<T>(s: seq<T>): set<T> {
    set x | x in s
  }

  /** Two quorums of one membership share a member. */
  lemma QuorumsIntersect(members: set<NodeId>, a: set<NodeId>, b: set<NodeId>) returns (shared: NodeId)
    requires IsQuorum(members, a) && IsQuorum(members, b)
    ensures shared in a && shared in b && shared in members
  {
    SubsetSize(a + b, members);
    assert |a + b| == |a| + |b| - |a * b|;
    shared :| shared in a * b;
  }

  lemma {:induction false} SubsetSize<T>(a: set<T>, b: set<T>)
    requires a <= b
    ensures |a| <= |b|
  {
    assert b == a + (b - a);
    assert |b| == |a| + |b - a|;
  }

  /** A list without repetitions has as many elements as positions. */
  lemma {:induction false} DistinctSize<T>(s: seq<T>)
    requires forall i, j :: 0 <= i < j < |s| ==> s[i] != s[j]
    ensures |Elements(s)| == |s|
  {
    if s == [] {
      assert Elements(s) == {};
    } else {
      var front, last := s[..|s| - 1], s[|s| - 1];
      DistinctSize(front);
      assert s == front + [last];
      assert Elements(s) == Elements(front) + {last};
      assert last !in front;
    }
  }

  /** A list as long as its set of elements repeats nothing. */
  lemma {:induction false} SizeDistinct<T>(s: seq<T>)
    requires |Elements(s)| == |s|
    ensures forall i, j :: 0 <= i < j < |s| ==> s[i] != s[j]
  {
    if s != [] {
      var front, last := s[..|s| - 1], s[|s| - 1];
      assert s == front + [last];
      assert Elements(s) == Elements(front) + {last};
      ElementsSize(front);
      assert last !in Elements(front);
      SizeDistinct(front);
    }
  }

  lemma {:induction false} ElementsSize<T>(s: seq<T>)
    ensures |Elements(s)| <= |s|
  {
    if s == [] {
      assert Elements(s) == {};
    } else {
      var front, last := s[..|s| - 1], s[|s| - 1];
      assert s == front + [last];
      assert Elements(s) == Elements(front) + {last};
      ElementsSize(front);
    }
  }

  /** The listed nodes that are not down, in their order. */
  function UpAmong(nodes: seq<NodeId>, down: set<NodeId>): (reached: seq<NodeId>)
    ensures forall n :: n in reached <==> n in nodes && n !in down
    ensures |reached| <= |nodes|
  {
    if nodes == [] then []
    else
      var last := nodes[|nodes| - 1];
      assert nodes == nodes[..|nodes| - 1] + [last];
      UpAmong(nodes[..|nodes| - 1], down) + if last !in down then [last] else []
  }

  lemma UpAmongNone(down: set<NodeId>)
    ensures UpAmong([], down) == []
  {
  }

  lemma UpAmongLonger(nodes: seq<NodeId>, n: NodeId, down: set<NodeId>)
    ensures UpAmong(nodes + [n], down) == if n !in down then UpAmong(nodes, down) + [n] else UpAmong(nodes, down)
  {
    assert (nodes + [n])[..|nodes|] == nodes;
  }

  lemma {:induction false} UpAmongDistinct(nodes: seq<NodeId>, down: set<NodeId>)
    requires forall i, j :: 0 <= i < j < |nodes| ==> nodes[i] != nodes[j]
    ensures forall i, j :: 0 <= i < j < |UpAmong(nodes, down)| ==> UpAmong(nodes, down)[i] != UpAmong(nodes, down)[j]
  {
    if nodes != [] {
      var front := nodes[..|nodes| - 1];
      UpAmongDistinct(front, down);
      forall i | 0 <= i < |UpAmong(front, down)|
        ensures UpAmong(front, down)[i] in front
      {
      }
    }
  }

  /** Enough members are not down exactly when those that are not are a quorum. */
  lemma UpAmongQuorum(members: seq<NodeId>, down: set<NodeId>)
    requires forall i, j :: 0 <= i < j < |members| ==> members[i] != members[j]
    ensures Majority(|members|) <= |UpAmong(members, down)| <==>
      IsQuorum(Elements(members), set n | n in members && n !in down)
  {
    UpAmongDistinct(members, down);
    DistinctSize(members);
    DistinctSize(UpAmong(members, down));
    assert Elements(UpAmong(members, down)) == set n | n in members && n !in down;
  }
}
