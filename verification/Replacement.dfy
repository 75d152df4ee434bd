/**
 Preparing another membership for a closed segment (native_loglet/replacement.py): the source's entries
 are repaired onto the target, its trims carried over, and the target sealed. Members may belong to both.
 */
module Replacement {
  import opened Wrappers
  import opened Membership
  import opened LogChains
  import opened LogletStore
  import opened LogletProtocol
  import opened LogletNetwork
  import opened LogletTheorems
  import opened NativeClient
  import opened TargetNetwork
  import opened TargetClient
  import opened LogletReader

  /**
   `watermark` is the trim carried over, `published` the source tail told to the target, `targetTail` the
   tail the target's own check_tail found and `trimPoint` the highest trim it heard of there.
   */
  datatype PrepareOutcome =
    | Prepared(watermark: nat, published: nat, targetTail: nat, trimPoint: nat)
    | SegmentOpen
    | SourceUnsettled
    | SourceTooShort
    | EntryMissing(position: nat)
    | NoTargetQuorum
    | TargetUnsettled

  // ---- The highest watermark a quorum has reached ----------------------------------------------

  function InsertDescending(sorted: seq<nat>, w: nat): seq<nat> {
    if sorted == [] then [w]
    else if sorted[0] <= w then [w] + sorted
    else [sorted[0]] + InsertDescending(sorted[1..], w)
  }

  function SortDescending(watermarks: seq<nat>): seq<nat> {
    if watermarks == [] then []
    else InsertDescending(SortDescending(watermarks[..|watermarks| - 1]), watermarks[|watermarks| - 1])
  }

  function AtLeast(watermarks: seq<nat>, w: nat): (count: nat)
    ensures count <= |watermarks|
  {
    if watermarks == [] then 0 else (if w <= watermarks[0] then 1 else 0) + AtLeast(watermarks[1..], w)
  }

  ghost predicate Descending(s: seq<nat>) {
    forall i, j :: 0 <= i < j < |s| ==> s[j] <= s[i]
  }

  lemma {:induction false} Inserted(sorted: seq<nat>, w: nat, v: nat)
    requires Descending(sorted)
    ensures Descending(InsertDescending(sorted, w)) && |InsertDescending(sorted, w)| == |sorted| + 1
    ensures AtLeast(InsertDescending(sorted, w), v) == AtLeast(sorted, v) + if v <= w then 1 else 0
    ensures forall x :: x in InsertDescending(sorted, w) ==> x == w || x in sorted
  {
    if sorted != [] && w < sorted[0] {
      Inserted(sorted[1..], w, v);
      var rest := InsertDescending(sorted[1..], w);
      assert InsertDescending(sorted, w)[1..] == rest;
      forall x | x in rest
        ensures x <= sorted[0]
      {
      }
    } else {
      assert ([w] + sorted)[1..] == sorted;
    }
  }

  lemma {:induction false} AtLeastSnoc(s: seq<nat>, w: nat, v: nat)
    ensures AtLeast(s + [w], v) == AtLeast(s, v) + if v <= w then 1 else 0
  {
    if s != [] {
      AtLeastSnoc(s[1..], w, v);
      assert (s + [w])[1..] == s[1..] + [w];
    }
  }

  lemma {:induction false} Sorted(watermarks: seq<nat>, v: nat)
    ensures Descending(SortDescending(watermarks)) && |SortDescending(watermarks)| == |watermarks|
    ensures AtLeast(SortDescending(watermarks), v) == AtLeast(watermarks, v)
  {
    if watermarks != [] {
      var shorter, w := watermarks[..|watermarks| - 1], watermarks[|watermarks| - 1];
      Sorted(shorter, v);
      Inserted(SortDescending(shorter), w, v);
      AtLeastSnoc(shorter, w, v);
      assert watermarks == shorter + [w];
    }
  }

  lemma {:induction false} PrefixAtLeast(sorted: seq<nat>, k: nat, v: nat)
    requires Descending(sorted) && k < |sorted| && v <= sorted[k]
    ensures k + 1 <= AtLeast(sorted, v)
  {
    if k != 0 {
      PrefixAtLeast(sorted[1..], k - 1, v);
    }
    assert v <= sorted[0];
  }

  lemma {:induction false} SuffixBelow(sorted: seq<nat>, k: nat, v: nat)
    requires Descending(sorted) && k < |sorted| && sorted[k] < v
    ensures AtLeast(sorted, v) <= k
  {
    if k != 0 {
      SuffixBelow(sorted[1..], k - 1, v);
    } else {
      NoneAtLeast(sorted, v);
    }
  }

  lemma {:induction false} NoneAtLeast(s: seq<nat>, v: nat)
    requires forall i :: 0 <= i < |s| ==> s[i] < v
    ensures AtLeast(s, v) == 0
  {
    if s != [] {
      NoneAtLeast(s[1..], v);
    }
  }

  /** The k-th highest watermark is the highest that k servers have reached. */
  lemma KthHighest(watermarks: seq<nat>, k: nat, v: nat)
    requires 0 < k <= |watermarks|
    ensures |SortDescending(watermarks)| == |watermarks|
    ensures v <= SortDescending(watermarks)[k - 1] <==> k <= AtLeast(watermarks, v)
  {
    Sorted(watermarks, v);
    var sorted := SortDescending(watermarks);
    if v <= sorted[k - 1] {
      PrefixAtLeast(sorted, k - 1, v);
    } else {
      SuffixBelow(sorted, k - 1, v);
    }
  }

  // ---- The preparer ------------------------------------------------------------------------------


  /** The listed servers that have trimmed at least `v`. */
  ghost function Reaching(s: Segment, nodes: seq<NodeId>, v: nat): set<NodeId> {
    set n | n in nodes && n in s.servers && v <= s.servers[n].trimmed
  }

  lemma ReachingOne(s: Segment, n: NodeId, rest: seq<NodeId>, v: nat)
    requires n !in rest && n in s.servers
    ensures |Reaching(s, rest, v)| + (if v <= s.servers[n].trimmed then 1 else 0) == |Reaching(s, [n] + rest, v)|
  {
    if v <= s.servers[n].trimmed {
      assert Reaching(s, [n] + rest, v) == Reaching(s, rest, v) + {n};
    } else {
      assert Reaching(s, [n] + rest, v) == Reaching(s, rest, v);
    }
  }

  /** Every listed node has trimmed at least the watermark it reported. */
  ghost predicate Reported(s: Segment, nodes: seq<NodeId>, watermarks: seq<nat>) {
    && |nodes| == |watermarks|
    && forall i :: 0 <= i < |nodes| ==> nodes[i] in s.servers && watermarks[i] <= s.servers[nodes[i]].trimmed
  }

  lemma {:induction false} ReportedAtLeast(s: Segment, nodes: seq<NodeId>, watermarks: seq<nat>, v: nat)
    requires Reported(s, nodes, watermarks) && Distinct(nodes)
    ensures AtLeast(watermarks, v) <= |Reaching(s, nodes, v)|
  {
    if nodes != [] {
      ReportedAtLeast(s, nodes[1..], watermarks[1..], v);
      ReachingOne(s, nodes[0], nodes[1..], v);
      assert nodes == [nodes[0]] + nodes[1..];
    }
  }

  lemma WatermarkCertified(s: Segment, nodes: seq<NodeId>, watermarks: seq<nat>, v: nat)
    requires s.servers.Keys == s.members && Reported(s, nodes, watermarks) && Distinct(nodes)
    requires Majority(|s.members|) <= AtLeast(watermarks, v)
    ensures IsQuorum(s.members, TrimmedServers(s, v))
  {
    ReportedAtLeast(s, nodes, watermarks, v);
    SubsetSize(Reaching(s, nodes, v), TrimmedServers(s, v));
  }

  lemma ReportedStays(s: Segment, t: Segment, nodes: seq<NodeId>, watermarks: seq<nat>)
    requires Grows(s, t) && Reported(s, nodes, watermarks)
    ensures Reported(t, nodes, watermarks)
  {
    hide LocalTail;
    SealsStay(s, t);
  }

  /** Each of these servers reported exactly its watermark, which has not changed since `s`. */
  ghost predicate ReportedExactly(s: Segment, t: Segment, nodes: seq<NodeId>, watermarks: seq<nat>) {
    && |nodes| == |watermarks| && SameCopies(s, t)
    && (forall i :: 0 <= i < |nodes| ==> nodes[i] in s.servers && watermarks[i] == s.servers[nodes[i]].trimmed)
  }

  lemma NothingReported(s: Segment)
    ensures ReportedExactly(s, s, [], [])
  {
  }

  /** Distinct asked members reported. */
  ghost predicate ReportedAmong(s: Segment, asked: seq<NodeId>, nodes: seq<NodeId>, watermarks: seq<nat>) {
    && Reported(s, nodes, watermarks) && Distinct(nodes) && (forall n :: n in nodes ==> n in asked)
    && (forall w :: w in watermarks ==> w <= s.known)
  }

  lemma NoneReported(s: Segment)
    ensures ReportedAmong(s, [], [], [])
  {
  }

  /** One more member has been asked; it may have answered. */
  lemma ReportedNext(s: Segment, t: Segment, asked: seq<NodeId>, nodes: seq<NodeId>, watermarks: seq<nat>,
      node: NodeId, reply: Option<nat>)
    requires Grows(s, t) && ReportedAmong(s, asked, nodes, watermarks) && node !in asked && node in t.servers
    requires s.known <= t.known && (reply.Some? ==> reply.value <= t.known && reply.value <= t.servers[node].trimmed)
    ensures ReportedAmong(t, asked + [node], if reply.Some? then nodes + [node] else nodes,
                          if reply.Some? then watermarks + [reply.value] else watermarks)
  {
    hide LocalTail, Grows;
    ReportedStays(s, t, nodes, watermarks);
  }

  lemma ChosenCertified(s: Segment, nodes: seq<NodeId>, watermarks: seq<nat>, quorum: nat)
    requires s.servers.Keys == s.members && Reported(s, nodes, watermarks) && Distinct(nodes)
    requires quorum == Majority(|s.members|) && 0 < quorum <= |watermarks|
    requires forall w :: w in watermarks ==> w <= s.known
    ensures |SortDescending(watermarks)| == |watermarks|
    ensures var chosen := SortDescending(watermarks)[quorum - 1];
      chosen <= s.known && IsQuorum(s.members, TrimmedServers(s, chosen))
  {
    hide SortDescending, AtLeast, Reported, IsQuorum, TrimmedServers, LocalTail;
    Sorted(watermarks, 0);
    var chosen := SortDescending(watermarks)[quorum - 1];
    KthHighest(watermarks, quorum, chosen);
    SortedSame(watermarks);
    assert chosen in SortDescending(watermarks);
    WatermarkCertified(s, nodes, watermarks, chosen);
  }

  lemma ReportedLength(s: Segment, t: Segment, nodes: seq<NodeId>, watermarks: seq<nat>)
    ensures ReportedExactly(s, t, nodes, watermarks) ==> |watermarks| == |nodes| && SameCopies(s, t)
  {
  }

  lemma ReportsOn(s0: Segment, s: Segment, t: Segment, nodes: seq<NodeId>, watermarks: seq<nat>, node: NodeId,
      asked: nat)
    requires ReportedExactly(s0, s, nodes, watermarks) && node in s.servers
    requires Served(s, t, node, Observe(s.servers[node], asked))
    ensures ReportedExactly(s0, t, nodes + [node], watermarks + [t.servers[node].trimmed])
  {
  }

  /** The watermark is the highest one that a quorum of servers has reached. */
  ghost predicate HighestCertified(s: Segment, watermark: nat) {
    forall v: nat :: v <= watermark <==> IsQuorum(s.members, TrimmedServers(s, v))
  }

  lemma {:induction false} ExactlyAtLeast(s: Segment, nodes: seq<NodeId>, watermarks: seq<nat>, v: nat)
    requires |nodes| == |watermarks| && Distinct(nodes)
    requires forall i :: 0 <= i < |nodes| ==> nodes[i] in s.servers && watermarks[i] == s.servers[nodes[i]].trimmed
    ensures AtLeast(watermarks, v) == |Reaching(s, nodes, v)|
  {
    if nodes != [] {
      ExactlyAtLeast(s, nodes[1..], watermarks[1..], v);
      ReachingOne(s, nodes[0], nodes[1..], v);
      assert nodes == [nodes[0]] + nodes[1..];
    }
  }

  lemma ExactlyCertified(s: Segment, t: Segment, members: seq<NodeId>, watermarks: seq<nat>, chosen: nat)
    requires 0 < |members| == |watermarks| == |SortDescending(watermarks)|
    requires chosen == SortDescending(watermarks)[Majority(|members|) - 1]
    requires Inv(s) && ReportedExactly(s, t, members, watermarks) && Elements(members) == s.members
    requires ValidateFixedMembers(members)
    ensures HighestCertified(s, chosen)
  {
    hide Inv, LocalTail, SortDescending, AtLeast;
    ShapeFacts(s);
    SizeDistinct(members);
    forall v: nat
      ensures v <= chosen <==> IsQuorum(s.members, TrimmedServers(s, v))
    {
      KthHighest(watermarks, Majority(|members|), v);
      ExactlyAtLeast(s, members, watermarks, v);
      assert forall n :: n in members <==> n in Elements(members);
      assert Reaching(s, members, v) == TrimmedServers(s, v);
    }
  }

  class NativeLogletReplacementPreparer {
    const net: ReplacementNetwork

    constructor (net: ReplacementNetwork)
      ensures this.net == net
    {
      this.net := net;
    }

    /** The highest watermark that a quorum of the source members has reached. */
    method QuorumTrimmedPrefix(members: seq<NodeId>) returns (watermark: Option<nat>)
      requires net.Valid() && ValidateFixedMembers(members) && Elements(members) == net.source.seg.members
      modifies net.source
      ensures net.Valid() && MovesOn(old(net.source.seg), net.extra, net.source.seg, net.extra)
      ensures watermark.Some? ==>
        && watermark.value <= net.source.seg.known
        && IsQuorum(net.source.seg.members, TrimmedServers(net.source.seg, watermark.value))
      ensures net.source.calm ==> (watermark.Some? <==> Majority(|members|) <= |UpAmong(members, net.source.down)|)
      ensures net.source.whole ==>
        && watermark.Some? && HighestCertified(old(net.source.seg), watermark.value)
        && SameCopies(old(net.source.seg), net.source.seg)
    {
      hide Inv, Interference, ExtrasFit, ExtrasGrow, LocalTail, ServerGrows, Grows, StateReplied, SortDescending,
        AtLeast, ReportedExactly, HighestCertified, MovesOn, Reported, IsQuorum, TrimmedServers, SameCopies, UpAmong;
      ghost var s0 := net.source.seg;
      var watermarks, nodes := AskTrims(members);
      ReportedLength(s0, net.source.seg, members, watermarks);
      var quorum := Majority(|members|);
      if |watermarks| < quorum {
        return None;
      }
      MovedFits(s0, net.extra, net.source.seg, net.extra);
      ShapeFacts(net.source.seg);
      CountedMembers(members);
      ChosenCertified(net.source.seg, nodes, watermarks, quorum);
      var chosen := SortDescending(watermarks)[quorum - 1];
      if net.source.whole {
        ExactlyCertified(s0, net.source.seg, members, watermarks, chosen);
      }
      watermark := Some(chosen);
    }

    /** The watermarks that members reported, each that of a member of its own. */
    method AskTrims(members: seq<NodeId>) returns (watermarks: seq<nat>, ghost nodes: seq<NodeId>)
      requires net.Valid() && ValidateFixedMembers(members) && Elements(members) == net.source.seg.members
      modifies net.source
      ensures net.Valid() && MovesOn(old(net.source.seg), net.extra, net.source.seg, net.extra)
      ensures ReportedAmong(net.source.seg, members, nodes, watermarks)
      ensures net.source.calm ==> |watermarks| == |UpAmong(members, net.source.down)|
      ensures net.source.whole ==> ReportedExactly(old(net.source.seg), net.source.seg, members, watermarks)
    {
      hide Inv, Interference, ExtrasFit, ExtrasGrow, LocalTail, ServerGrows, Grows, ReportedExactly, Observe, MovesOn,
        ReportedAmong, UpAmong;
      UpAmongNone(net.source.down);
      ghost var s0, x := net.source.seg, net.extra;
      MovesOnReflexive(s0, x);
      ShapeFacts(s0);
      NothingReported(s0);
      assert ReportedAmong(s0, [], [], []) by { NoneReported(s0); }
      SizeDistinct(members);
      nodes, watermarks := [], [];
      for i := 0 to |members|
        invariant net.Valid() && MovesOn(s0, x, net.source.seg, x)
        invariant ReportedAmong(net.source.seg, members[..i], nodes, watermarks)
        invariant net.source.calm ==> |watermarks| == |UpAmong(members[..i], net.source.down)|
        invariant net.source.whole ==> ReportedExactly(s0, net.source.seg, members[..i], watermarks)
      {
        ghost var s, before := net.source.seg, watermarks;
        MovedFits(s0, x, s, x);
        assert members[..i + 1] == members[..i] + [members[i]];
        assert members[i] in members && members[i] !in members[..i];
        UpAmongLonger(members[..i], members[i], net.source.down);
        var reply := AskTrim(members[i], s0);
        ReportedNext(s, net.source.seg, members[..i], nodes, watermarks, members[i], reply);
        if reply.Some? {
          nodes := nodes + [members[i]];
          watermarks := watermarks + [reply.value];
        }
        if net.source.whole {
          ReportsOn(s0, s, net.source.seg, members[..i], before, members[i], 0);
        }
      }
      assert members[..|members|] == members;
    }

    /** Asks one source member how far it has trimmed. */
    method AskTrim(node: NodeId, ghost s0: Segment) returns (watermark: Option<nat>)
      requires net.Valid() && MovesOn(s0, net.extra, net.source.seg, net.extra) && node in net.source.seg.servers
      modifies net.source
      ensures net.Valid() && MovesOn(s0, net.extra, net.source.seg, net.extra)
      ensures Grows(old(net.source.seg), net.source.seg) && old(net.source.seg).known <= net.source.seg.known
      ensures node in net.source.seg.servers
      ensures watermark.Some? ==>
        watermark.value <= net.source.seg.known && watermark.value <= net.source.seg.servers[node].trimmed
      ensures net.source.calm ==> (watermark.Some? <==> node !in net.source.down)
      ensures net.source.whole ==>
        && Served(old(net.source.seg), net.source.seg, node, Observe(old(net.source.seg).servers[node], 0))
        && watermark == Some(net.source.seg.servers[node].trimmed)
    {
      hide Inv, Interference, ExtrasFit, ExtrasGrow, LocalTail, ServerGrows, Grows, StateReplied, Observe;
      ghost var s, x := net.source.seg, net.extra;
      var reply := net.source.ReadState(node, 0);
      ghost var t := net.source.seg;
      SourceMoves(s, t, x, net.source.quiet);
      MovesOnTransitive(s0, x, s, x, t, x);
      MovedFits(s, x, t, x);
      if reply.Some? {
        ReplyTrim(s, t, node, reply.value);
      }
      watermark := if reply.Some? then Some(reply.value.trimmedPrefix) else None;
    }

    /** The first copy any source member has. */
    method ReadEntry(position: nat, members: seq<NodeId>, knownTail: nat) returns (entry: Option<LogEntry>)
      requires net.Valid() && Elements(members) == net.source.seg.members && knownTail <= net.source.seg.known
      modifies net.source
      ensures net.Valid() && MovesOn(old(net.source.seg), net.extra, net.source.seg, net.extra)
      ensures entry.Some? ==>
        && position < |net.source.seg.issued| && entry.value == net.source.seg.issued[position]
        && entry.value.position == position
      ensures net.source.whole ==> SameCopies(old(net.source.seg), net.source.seg)
      ensures net.source.whole && HeldBy(old(net.source.seg), members, position) ==> entry.Some?
    {
      hide Inv, Interference, ExtrasFit, ExtrasGrow, LocalTail, ServerGrows, Grows, HeldBy, SameCopies, Observe,
        MovesOn;
      ghost var s0, x := net.source.seg, net.extra;
      CopiesReflexive(s0);
      NobodyHolds(s0, members, position);
      MovesOnReflexive(s0, x);
      ShapeFacts(s0);
      for i := 0 to |members|
        invariant net.Valid() && MovesOn(s0, x, net.source.seg, x)
        invariant net.source.whole ==> SameCopies(s0, net.source.seg) && !HeldBy(s0, members[..i], position)
      {
        ghost var s := net.source.seg;
        if net.source.whole {
          HeldAmong(s0, s, members, i, position);
        }
        MovedFits(s0, x, s, x);
        assert members[i] in Elements(members);
        var outcome := net.source.Get(members[i], position, knownTail);
        SourceMoves(s, net.source.seg, x, net.source.quiet);
        MovesOnTransitive(s0, x, s, x, net.source.seg, x);
        MovedFits(s, x, net.source.seg, x);
        if net.source.whole {
          ServedCopies(s0, s, net.source.seg, members[i], knownTail);
        }
        if outcome.Answer? && outcome.entry.Some? {
          return outcome.entry;
        }
      }
      assert members[..|members|] == members;
      entry := None;
    }

    /** Repairs an entry onto the target; succeeds once a quorum of it stored the entry. */
    method RepairQuorum(entry: LogEntry, target: seq<NodeId>, knownTail: nat, ghost from: nat) returns (done: bool)
      requires net.Serves(target) && knownTail <= net.source.seg.known
      requires entry.position < net.source.seg.known && entry.position < |net.source.seg.issued|
      requires entry == net.source.seg.issued[entry.position]
      modifies net, net.source
      ensures net.Serves(target) && MovesOn(old(net.source.seg), old(net.extra), net.source.seg, net.extra)
      ensures done ==> TargetCovered(net.source.seg, net.extra, Elements(target), entry.position)
      ensures net.source.calm && from <= entry.position ==>
        Uniform(All(old(net.source.seg), old(net.extra)), target, 0, from, entry.position, false) ==>
          (done <==> Majority(|target|) <= |UpAmong(target, net.source.down)|)
      ensures net.source.whole ==>
        OthersSame(All(old(net.source.seg), old(net.extra)), All(net.source.seg, net.extra), target)
      ensures net.source.whole && from <= entry.position ==>
        Uniform(All(old(net.source.seg), old(net.extra)), target, 0, from, entry.position, false) ==>
          done && Uniform(All(net.source.seg, net.extra), target, 0, from, entry.position + 1, false)
    {
      hide Inv, Interference, ExtrasFit, ExtrasGrow, LocalTail, ServerGrows, Grows, CoversAt, TargetCovered, MovesOn,
        SealedAt, TrimmedAt, Uniform, OthersSame, All, UpAmong;
      UpAmongNone(net.source.down);
      ghost var s0, x0 := net.source.seg, net.extra;
      MovesOnReflexive(s0, x0);
      SizeDistinct(target);
      var confirmed: seq<NodeId> := [];
      ghost var p := entry.position;
      ghost var alike := net.source.calm && from <= p && Uniform(All(s0, x0), target, 0, from, p, false);
      UniformBegins(All(s0, x0), target, from, p);
      OthersReflexive(All(s0, x0), target);
      for i := 0 to |target|
        invariant net.Serves(target) && MovesOn(s0, x0, net.source.seg, net.extra)
        invariant Distinct(confirmed) && AllCovering(net.source.seg, net.extra, confirmed, p)
        invariant forall n :: n in confirmed ==> n in target[..i]
        invariant net.source.whole ==> OthersSame(All(s0, x0), All(net.source.seg, net.extra), target)
        invariant alike ==>
          && |confirmed| == |UpAmong(target[..i], net.source.down)|
          && Uniform(All(net.source.seg, net.extra), target[i..], 0, from, p, false)
        invariant alike && net.source.whole ==>
          Uniform(All(net.source.seg, net.extra), target[..i], 0, from, p + 1, false) && |confirmed| == i
      {
        assert target[i] in target && target[i] !in target[..i];
        assert target[..i + 1] == target[..i] + [target[i]];
        UpAmongLonger(target[..i], target[i], net.source.down);
        var stored := RepairMember(entry, target, i, knownTail, from, s0, x0, confirmed);
        if stored {
          CoveringOne(net.source.seg, net.extra, confirmed, target[i], p);
          confirmed := confirmed + [target[i]];
        }
      }
      assert target[..|target|] == target;
      done := Majority(|target|) <= |confirmed|;
      if done {
        CoveringQuorum(net.source.seg, net.extra, Elements(target), confirmed, entry.position);
      }
    }

    /** One repair of that round. */
    method RepairMember(entry: LogEntry, target: seq<NodeId>, i: nat, knownTail: nat, ghost from: nat,
        ghost s0: Segment, ghost x0: Extras, ghost confirmed: seq<NodeId>)
      returns (stored: bool)
      requires net.Serves(target) && i < |target| && MovesOn(s0, x0, net.source.seg, net.extra) && Inv(s0)
      requires knownTail <= s0.known && Distinct(target)
      requires entry.position < s0.known && entry.position < |s0.issued| && entry == s0.issued[entry.position]
      requires AllCovering(net.source.seg, net.extra, confirmed, entry.position)
      modifies net, net.source
      ensures net.Serves(target) && MovesOn(s0, x0, net.source.seg, net.extra)
      ensures AllCovering(net.source.seg, net.extra, confirmed, entry.position)
      ensures stored ==> CoversAt(net.source.seg, net.extra, target[i], entry.position)
      ensures net.source.whole && OthersSame(All(s0, x0), All(old(net.source.seg), old(net.extra)), target) ==>
        OthersSame(All(s0, x0), All(net.source.seg, net.extra), target)
      ensures net.source.calm && from <= entry.position ==>
        Uniform(All(old(net.source.seg), old(net.extra)), target[i..], 0, from, entry.position, false) ==>
          && Uniform(All(net.source.seg, net.extra), target[i + 1..], 0, from, entry.position, false)
          && (stored <==> target[i] !in net.source.down)
      ensures net.source.whole && from <= entry.position ==>
        Uniform(All(old(net.source.seg), old(net.extra)), target[i..], 0, from, entry.position, false) ==>
          Uniform(All(old(net.source.seg), old(net.extra)), target[..i], 0, from, entry.position + 1, false) ==>
            Uniform(All(net.source.seg, net.extra), target[..i + 1], 0, from, entry.position + 1, false)
    {
      hide Inv, Interference, ExtrasFit, ExtrasGrow, LocalTail, ServerGrows, Grows, CoversAt, MovesOn, SealedAt,
        TrimmedAt, Uniform, OthersSame, All, Does, LogletStore.Repair;
      ghost var s, x, p := net.source.seg, net.extra, entry.position;
      MovedFits(s0, x0, s, x);
      assert target[i] in target;
      stored := net.RepairAt(target[i], entry, knownTail);
      if net.source.whole && OthersSame(All(s0, x0), All(s, x), target) {
        OthersOn(s0, x0, s, x, net.source.seg, net.extra, target, target[i],
                 LogletStore.Repair(All(s, x)[target[i]], entry, knownTail).0);
      }
      if net.source.calm && from <= p && Uniform(All(s, x), target[i..], 0, from, p, false) {
        if target[i] in net.source.down {
          UniformTail(All(s, x), target, i, from, p);
        } else {
          RepairUniform(s, x, net.source.seg, net.extra, target, i, entry, knownTail, from);
        }
      }
      MovesOnTransitive(s0, x0, s, x, net.source.seg, net.extra);
      MovedFits(s, x, net.source.seg, net.extra);
      AllStay(s, x, net.source.seg, net.extra, confirmed, p);
    }

    /** Copies [from, length) of the source onto a quorum of the target. */
    method CopyRange(members: seq<NodeId>, target: seq<NodeId>, from: nat, length: nat, tail: nat)
      returns (outcome: Option<PrepareOutcome>)
      requires net.Serves(target) && Elements(members) == net.source.seg.members
      requires length <= tail <= net.source.seg.known
      modifies net, net.source
      ensures net.Serves(target) && MovesOn(old(net.source.seg), old(net.extra), net.source.seg, net.extra)
      ensures outcome == None ==> RangeCovered(net.source.seg, net.extra, Elements(target), from, length)
      ensures outcome.Some? ==> !outcome.value.Prepared?
      ensures net.source.whole && Uniform(All(old(net.source.seg), old(net.extra)), target, 0, from, from, false) ==>
        Apart(target, old(net.source.seg)) && HeldRange(old(net.source.seg), members, from, length) ==>
          outcome == None && Uniform(All(net.source.seg, net.extra), target, 0, from, length, false)
    {
      hide Inv, Interference, ExtrasFit, ExtrasGrow, LocalTail, ServerGrows, Grows, CoversAt, TargetCovered, MovesOn,
        SealedAt, TrimmedAt, Uniform, OthersSame, All, HeldBy, SameCopies;
      ghost var s0, x0 := net.source.seg, net.extra;
      MovesOnReflexive(s0, x0);
      var position := from;
      ghost var uniform := && net.source.whole && Uniform(All(s0, x0), target, 0, from, from, false)
                           && Apart(target, s0) && HeldRange(s0, members, from, length);
      CopiesReflexive(s0);
      while position < length
        invariant net.Serves(target) && MovesOn(s0, x0, net.source.seg, net.extra)
        invariant RangeCovered(net.source.seg, net.extra, Elements(target), from, position)
        invariant from <= position && (position <= length || position == from)
        invariant uniform ==>
          SameCopies(s0, net.source.seg) && Uniform(All(net.source.seg, net.extra), target, 0, from, position, false)
      {
        ghost var s, x := net.source.seg, net.extra;
        MovedFits(s0, x0, s, x);
        if uniform {
          HeldStill(s0, s, members, position);
        }
        var entry := ReadEntry(position, members, tail);
        ghost var t := net.source.seg;
        if uniform {
          CopiesJoin(s0, s, t);
          ReadKeeps(s, t, x, target, from, position);
        }
        MovesOnTransitive(s0, x0, s, x, t, x);
        MovedFits(s, x, t, x);
        ServesStill(target, s, x);
        if entry.None? {
          return Some(EntryMissing(position));
        }
        RangeStays(s, x, t, x, Elements(target), from, position);
        var done := RepairQuorum(entry.value, target, tail, from);
        MovedFits(t, x, net.source.seg, net.extra);
        if uniform {
          ApartCopies(s0, t, x, net.source.seg, net.extra, target);
        }
        MovesOnTransitive(s0, x0, t, x, net.source.seg, net.extra);
        if !done {
          return Some(NoTargetQuorum);
        }
        RangeStays(t, x, net.source.seg, net.extra, Elements(target), from, position);
        position := position + 1;
      }
      NothingMore(All(net.source.seg, net.extra), target, from, position, length);
      outcome := None;
    }

    lemma ServesStill(target: seq<NodeId>, s: Segment, x: Extras)
      requires net.Valid() && ValidateFixedMembers(target)
      requires x.Keys == net.extra.Keys && s.servers.Keys == net.source.seg.servers.Keys
      requires forall n :: n in target ==> n in s.servers || n in x
      ensures net.Serves(target)
    {
    }

    /**
     Prepares `target` to serve the closed segment. On success every position of the segment is covered
     on a quorum of the target, where nothing but the source's entries can be found, and a quorum of the
     target is sealed; the positions below the watermark had been trimmed on a source quorum. The tail
     published to the target may exceed the segment. If the target's own tail did not reach it, it was not
     covered there when the target's last check began at `seen`; if it did, it is covered exactly when the
     positions between the segment's end and the highest trim heard of are.
     */
    method Prepare(segment: LogSegment, members: seq<NodeId>, target: seq<NodeId>, rounds: nat)
      returns (outcome: PrepareOutcome, ghost seen: Segment, ghost seenExtra: Extras)
      requires net.Serves(target) && segment.Valid()
      requires ValidateFixedMembers(members) && Elements(members) == net.source.seg.members
      modifies net, net.source
      ensures net.Serves(target) && MovesOn(old(net.source.seg), old(net.extra), net.source.seg, net.extra)
      ensures segment.virtualStop.None? <==> outcome == SegmentOpen
      ensures outcome.Prepared? ==>
        && RangeCovered(net.source.seg, net.extra, Elements(target), 0,
                        segment.virtualStop.value - segment.virtualStart)
        && OnlySource(net.source.seg, net.extra, Elements(target))
        && IsQuorum(Elements(target), TargetSealed(net.source.seg, net.extra, Elements(target)))
        && IsQuorum(net.source.seg.members, TrimmedServers(net.source.seg, outcome.watermark))
        && outcome.published in net.source.seg.sealedTails
        && segment.virtualStop.value - segment.virtualStart <= outcome.published
        && segment.virtualStop.value - segment.virtualStart <= outcome.targetTail
      ensures outcome.Prepared? && outcome.published <= outcome.targetTail ==>
        (RangeCovered(net.source.seg, net.extra, Elements(target), 0, outcome.published) <==>
         RangeCovered(net.source.seg, net.extra, Elements(target), segment.virtualStop.value - segment.virtualStart,
                      Min(outcome.trimPoint, outcome.published)))
      ensures outcome.Prepared? && outcome.targetTail < outcome.published ==>
        && MovesOn(seen, seenExtra, net.source.seg, net.extra)
        && !RangeCovered(seen, seenExtra, Elements(target), 0, outcome.published)
      ensures net.source.whole && 2 <= rounds && SomeSealed(old(net.source.seg)) && segment.virtualStop.Some? ==>
        Pristine(old(net.source.seg), old(net.extra), target) ==>
          forall tail :: HighestTail(old(net.source.seg), tail) ==>
            if segment.virtualStop.value - segment.virtualStart <= tail
            then outcome.Prepared? && outcome.published == tail
            else outcome == SourceTooShort
    {
      hide HighestTail, SomeSealed, HighestCertified, HeldRange, Uniform, All, SameCopies, Pristine, CheckedCalmly;
      hide Inv, Interference, ExtrasFit, ExtrasGrow, LocalTail, ServerGrows, Grows, CoversAt, TargetCovered, MovesOn,
        SealedAt, TrimmedAt, TargetSealed, RangeCovered, IsQuorum, QuorumCovered, RepairedRange, OnlySource,
        TrimmedServers, TrimSeen;
      ghost var s0, x0 := net.source.seg, net.extra;
      seen, seenExtra := s0, x0;
      MovesOnReflexive(s0, x0);
      if segment.virtualStop.None? {
        outcome := SegmentOpen;
        return;
      }
      var length := segment.virtualStop.value - segment.virtualStart;
      var client := new NativeLogletClient(members, net.source);
      var checked := client.CheckTail(rounds);
      ghost var s1 := net.source.seg;
      if net.source.whole && 2 <= rounds && SomeSealed(s0) {
        SealedCalmly(s0, checked);
      }
      SourceMoves(s0, s1, x0, net.source.quiet);
      MovedFits(s0, x0, s1, x0);
      ServesStill(target, s0, x0);
      if !checked.TailFound? || !checked.isSealed {
        outcome := SourceUnsettled;
        return;
      }
      var tail := checked.tail;
      if tail < length {
        outcome := SourceTooShort;
        return;
      }
      var trimmed := QuorumTrimmedPrefix(members);
      ghost var s2 := net.source.seg;
      MovesOnTransitive(s0, x0, s1, x0, s2, x0);
      MovedFits(s1, x0, s2, x0);
      ServesStill(target, s1, x0);
      if trimmed.None? {
        outcome := SourceUnsettled;
        return;
      }
      ghost var ready := net.source.whole && 2 <= rounds && SomeSealed(s0) && Pristine(s0, x0, target);
      if ready {
        ReadyToCopy(s0, s1, s2, x0, members, target, trimmed.value, length, tail);
      }
      var copied := CopyRange(members, target, trimmed.value, length, tail);
      ghost var s3, x3 := net.source.seg, net.extra;
      MovesOnTransitive(s0, x0, s2, x0, s3, x3);
      MovedFits(s2, x0, s3, x3);
      if copied.Some? {
        outcome := match copied.value case EntryMissing(p) => EntryMissing(p) case _ => NoTargetQuorum;
        return;
      }
      outcome, seen, seenExtra := SettleTarget(target, trimmed.value, length, tail, rounds);
      ghost var s4, x4 := net.source.seg, net.extra;
      MovesOnTransitive(s0, x0, s3, x3, s4, x4);
      MovesOnTransitive(s2, x0, s3, x3, s4, x4);
      MovedFits(s2, x0, s4, x4);
      if outcome.Prepared? {
        TargetHoldsOnlySource(s4, x4, Elements(target));
        SourceFactsStay(s1, s2, s4, trimmed.value, tail);
      }
    }

    /** Carries the trim over, seals the target and lets its own check_tail settle it. */
    method SettleTarget(target: seq<NodeId>, watermark: nat, length: nat, tail: nat, rounds: nat)
      returns (outcome: PrepareOutcome, ghost seen: Segment, ghost seenExtra: Extras)
      requires net.Serves(target) && watermark <= net.source.seg.known && tail <= net.source.seg.known
      requires RangeCovered(net.source.seg, net.extra, Elements(target), watermark, length)
      modifies net, net.source
      ensures net.Serves(target) && MovesOn(old(net.source.seg), old(net.extra), net.source.seg, net.extra)
      ensures outcome.Prepared? || outcome == NoTargetQuorum || outcome == TargetUnsettled
      ensures outcome.Prepared? ==>
        && outcome.watermark == watermark && outcome.published == tail && length <= outcome.targetTail
        && RangeCovered(net.source.seg, net.extra, Elements(target), 0, length)
        && IsQuorum(Elements(target), TargetSealed(net.source.seg, net.extra, Elements(target)))
        && (tail <= outcome.targetTail ==>
              (RangeCovered(net.source.seg, net.extra, Elements(target), 0, tail) <==>
               RangeCovered(net.source.seg, net.extra, Elements(target), length, Min(outcome.trimPoint, tail))))
        && (outcome.targetTail < tail ==>
              && MovesOn(seen, seenExtra, net.source.seg, net.extra)
              && !RangeCovered(seen, seenExtra, Elements(target), 0, tail))
      ensures net.source.whole && 0 < rounds ==>
        Uniform(All(old(net.source.seg), old(net.extra)), target, 0, watermark, length, false) ==> outcome.Prepared?
    {
      hide Inv, Interference, ExtrasFit, ExtrasGrow, LocalTail, ServerGrows, Grows, CoversAt, TargetCovered, MovesOn,
        SealedAt, TrimmedAt, TargetSealed, RangeCovered, IsQuorum, Uniform, All;
      ghost var s0, x0 := net.source.seg, net.extra;
      seen, seenExtra := s0, x0;
      MovesOnReflexive(s0, x0);
      var client := new TargetClient(target, net, tail, Range(watermark, length));
      StayedAlike(All(s0, x0), target, watermark, length);
      if watermark != 0 {
        var confirmed := client.PrefixTrim(watermark);
        if confirmed.None? {
          outcome := NoTargetQuorum;
          return;
        }
        if confirmed.value < watermark {
          outcome := TargetUnsettled;
          return;
        }
      }
      ghost var s1, x1 := net.source.seg, net.extra;
      RangeStays(s0, x0, s1, x1, Elements(target), watermark, length);
      JoinRanges(s1, x1, Elements(target), watermark, length);
      var done := client.Seal();
      ghost var s2, x2 := net.source.seg, net.extra;
      MovesOnTransitive(s0, x0, s1, x1, s2, x2);
      if !done {
        outcome := NoTargetQuorum;
        return;
      }
      var checked;
      checked, seen, seenExtra := client.CheckTail(rounds);
      ghost var s3, x3 := net.source.seg, net.extra;
      MovesOnTransitive(s0, x0, s2, x2, s3, x3);
      if !checked.TailFound? || !checked.isSealed || checked.tail < length {
        outcome := TargetUnsettled;
        return;
      }
      MovesOnTransitive(s1, x1, s2, x2, s3, x3);
      RangeStays(s1, x1, s3, x3, Elements(target), 0, length);
      if tail <= checked.tail {
        PatchRanges(s3, x3, Elements(target), client.trimmedPrefix, length, checked.tail, tail);
      }
      if checked.tail < tail {
        assert !RangeCovered(seen, seenExtra, Elements(target), 0, tail) by {
          RangeBroken(seen, seenExtra, Elements(target), checked.tail, tail);
        }
      }
      outcome := Prepared(watermark, tail, checked.tail, client.trimmedPrefix);
    }
  }

  // ---- A calm preparation ----------------------------------------------------------------------------

  /** The target shares no member with the source, and its servers have nothing of the segment. */
  ghost predicate Pristine(s: Segment, x: Extras, target: seq<NodeId>) {
    forall n :: n in target ==> n !in s.servers && n in x && x[n] == EMPTY_SEGMENT
  }

  ghost predicate Apart(target: seq<NodeId>, s: Segment) {
    forall n :: n in target ==> n !in s.servers
  }

  ghost predicate HeldRange(s: Segment, members: seq<NodeId>, from: nat, length: nat) {
    forall p: nat :: from <= p < length ==> HeldBy(s, members, p)
  }

  lemma UniformBegins(a: map<NodeId, SegmentState>, nodes: seq<NodeId>, from: nat, upTo: nat)
    ensures Uniform(a, nodes, 0, from, upTo, false) ==> Uniform(a, nodes[0..], 0, from, upTo, false)
    ensures Uniform(a, nodes[..0], 0, from, upTo + 1, false)
  {
    assert nodes[0..] == nodes;
  }

  lemma OthersOn(s0: Segment, x0: Extras, s: Segment, x: Extras, t: Segment, y: Extras, nodes: seq<NodeId>,
      node: NodeId, server: SegmentState)
    requires OthersSame(All(s0, x0), All(s, x), nodes) && Does(s, x, t, y, node, server) && node in nodes
    requires node in All(s, x)
    ensures OthersSame(All(s0, x0), All(t, y), nodes)
  {
    hide All;
  }

  lemma RepairUniform(s: Segment, x: Extras, t: Segment, y: Extras, target: seq<NodeId>, i: nat, entry: LogEntry,
      knownTail: nat, from: nat)
    requires i < |target| && Distinct(target) && target[i] in All(s, x) && from <= entry.position
    requires Does(s, x, t, y, target[i], LogletStore.Repair(All(s, x)[target[i]], entry, knownTail).0)
    requires Uniform(All(s, x), target[i..], 0, from, entry.position, false)
    ensures Uniform(All(s, x), target[..i], 0, from, entry.position + 1, false) ==>
      Uniform(All(t, y), target[..i + 1], 0, from, entry.position + 1, false)
    ensures Uniform(All(t, y), target[i + 1..], 0, from, entry.position, false)
    ensures LogletStore.Repair(All(s, x)[target[i]], entry, knownTail).1 == Stored
  {
    hide All, Uniform, LogletStore.Repair, LocalTail;
    var server := LogletStore.Repair(All(s, x)[target[i]], entry, knownTail).0;
    DoesMeans(s, x, t, y, target[i], server);
    UniformRest(All(s, x), target, i, server, 0, from, entry.position, false);
    RepairExact(All(s, x)[target[i]], entry, knownTail, from);
    if Uniform(All(s, x), target[..i], 0, from, entry.position + 1, false) {
      UniformStep(All(s, x), target, i, server, 0, from, entry.position + 1, false);
    }
  }

  ghost predicate AllCovering(s: Segment, x: Extras, nodes: seq<NodeId>, position: nat) {
    forall n :: n in nodes ==> CoversAt(s, x, n, position)
  }

  lemma CoveringOne(s: Segment, x: Extras, nodes: seq<NodeId>, n: NodeId, position: nat)
    requires AllCovering(s, x, nodes, position) && CoversAt(s, x, n, position)
    ensures AllCovering(s, x, nodes + [n], position)
  {
    hide CoversAt;
  }

  lemma UniformTail(a: map<NodeId, SegmentState>, target: seq<NodeId>, i: nat, from: nat, upTo: nat)
    requires i < |target| && Uniform(a, target[i..], 0, from, upTo, false)
    ensures Uniform(a, target[i + 1..], 0, from, upTo, false)
  {
    hide HoldsExactly;
    assert forall n :: n in target[i + 1..] ==> n in target[i..];
  }

  /** What the source does leaves a target that shares no member with it as it is. */
  lemma ReadKeeps(s: Segment, t: Segment, x: Extras, target: seq<NodeId>, from: nat, upTo: nat)
    requires SameCopies(s, t) && Apart(target, s) && Uniform(All(s, x), target, 0, from, upTo, false)
    ensures Uniform(All(t, x), target, 0, from, upTo, false)
  {
    hide HoldsExactly;
  }

  lemma ApartCopies(s0: Segment, s: Segment, x: Extras, t: Segment, y: Extras, target: seq<NodeId>)
    requires SameCopies(s0, s) && t.servers.Keys == s.servers.Keys && Apart(target, s0)
    requires OthersSame(All(s, x), All(t, y), target)
    ensures SameCopies(s0, t)
  {
    forall n | n in s.servers
      ensures t.servers[n].entries == s.servers[n].entries && t.servers[n].trimmed == s.servers[n].trimmed
    {
      assert n in All(s, x) && n !in target;
    }
  }

  lemma NothingMore(a: map<NodeId, SegmentState>, nodes: seq<NodeId>, from: nat, position: nat, length: nat)
    requires from <= position && (position == length || (position == from && length <= from))
    ensures Uniform(a, nodes, 0, from, position, false) ==> Uniform(a, nodes, 0, from, length, false)
  {
  }

  lemma StayedAlike(a: map<NodeId, SegmentState>, nodes: seq<NodeId>, from: nat, length: nat)
    ensures Uniform(a, nodes, 0, from, length, false) ==> Uniform(a, nodes, 0, from, length, false)
  {
  }

  lemma SealedCalmly(s: Segment, outcome: CheckOutcome)
    requires exists asked :: CheckedCalmly(s, outcome, asked)
    requires SomeSealed(s)
    ensures outcome.TailFound? && outcome.isSealed
    ensures forall tail :: HighestTail(s, tail) <==> tail == outcome.tail
  {
    hide LocalTail;
  }

  /** What the source holds suffices for the copy, and the target still has nothing. */
  lemma ReadyToCopy(s0: Segment, s1: Segment, s2: Segment, x: Extras, members: seq<NodeId>, target: seq<NodeId>,
      watermark: nat, length: nat, tail: nat)
    requires Inv(s1) && HighestCertified(s1, watermark) && SameCopies(s1, s2) && Elements(members) == s1.members
    requires s1.servers.Keys == s0.servers.Keys && length <= tail
    requires forall q :: 0 <= q < tail ==> QuorumCovered(s1, q)
    requires Pristine(s0, x, target)
    ensures HeldRange(s2, members, watermark, length) && Apart(target, s2)
    ensures Uniform(All(s2, x), target, 0, watermark, watermark, false)
  {
    hide Inv, LocalTail, HeldBy, QuorumCovered, HighestCertified;
    forall p: nat | watermark <= p < length
      ensures HeldBy(s2, members, p)
    {
      CoveredHeld(s1, members, watermark, p);
      HeldStill(s1, s2, members, p);
    }
  }

  /** A covered position beyond the certified watermark is held by some member. */
  lemma CoveredHeld(s: Segment, members: seq<NodeId>, watermark: nat, p: nat)
    requires Inv(s) && HighestCertified(s, watermark) && watermark <= p && QuorumCovered(s, p)
    requires Elements(members) == s.members
    ensures HeldBy(s, members, p)
  {
    hide Inv, LocalTail;
    ShapeFacts(s);
    assert !IsQuorum(s.members, TrimmedServers(s, p + 1));
    if Coverers(s, p) <= TrimmedServers(s, p + 1) {
      SubsetSize(Coverers(s, p), TrimmedServers(s, p + 1));
    }
    var n :| n in Coverers(s, p) && n !in TrimmedServers(s, p + 1);
    assert n in Elements(members);
  }

  function Min(a: nat, b: nat): nat {
    if a < b then a else b
  }

  lemma PatchRanges(s: Segment, x: Extras, target: set<NodeId>, from: nat, length: nat, upTo: nat, tail: nat)
    requires RangeCovered(s, x, target, 0, length) && RangeCovered(s, x, target, from, upTo) && tail <= upTo
    ensures RangeCovered(s, x, target, 0, tail) <==> RangeCovered(s, x, target, length, Min(from, tail))
  {
    hide TargetCovered;
  }

  lemma RangeBroken(s: Segment, x: Extras, target: set<NodeId>, position: nat, tail: nat)
    requires !TargetCovered(s, x, target, position) && position < tail
    ensures !RangeCovered(s, x, target, 0, tail)
  {
    hide TargetCovered;
  }

  // ---- The tail published to the target ---------------------------------------------------------

  /** The members shared with the source that cover the position. */
  ghost function SharedCoverers(s: Segment, target: set<NodeId>, p: nat): set<NodeId> {
    set n | n in target && n in s.servers && s.servers[n].Covers(p)
  }

  /** The target-only servers hold nothing past the segment, as before anything but it was copied. */
  ghost predicate ExtrasWithin(x: Extras, length: nat) {
    forall n :: n in x ==> LocalTail(x[n]) <= length
  }

  /**
   Copying the segment alone makes a published tail sound on the target exactly when, at every position
   from the segment's end up to it, the members shared with the source already are a covering quorum.
   */
  lemma PublishedSoundExactly(s: Segment, x: Extras, target: set<NodeId>, length: nat, published: nat)
    requires RangeCovered(s, x, target, 0, length) && ExtrasWithin(x, length)
    ensures RangeCovered(s, x, target, 0, published) <==>
      forall p: nat :: length <= p < published ==> IsQuorum(target, SharedCoverers(s, target, p))
  {
    hide LocalTail, TargetCovered;
    forall p: nat | length <= p
      ensures TargetCovered(s, x, target, p) <==> IsQuorum(target, SharedCoverers(s, target, p))
    {
      OnlySharedCover(s, x, target, length, p);
    }
  }

  lemma OnlySharedCover(s: Segment, x: Extras, target: set<NodeId>, length: nat, p: nat)
    requires ExtrasWithin(x, length) && length <= p
    ensures TargetCoverers(s, x, target, p) == SharedCoverers(s, target, p)
    ensures TargetCovered(s, x, target, p) <==> IsQuorum(target, SharedCoverers(s, target, p))
  {
    hide LocalTail;
    forall n | n in target
      ensures CoversAt(s, x, n, p) <==> n in SharedCoverers(s, target, p)
    {
      if n in s.servers {
        assert At(s, x, n, s.servers[n]);
      } else if n in x {
        NotCovered(x[n], p);
      }
    }
  }

  /** So a target that shares no member with the source gets a sound tail exactly when none is past the segment. */
  lemma FreshTargetSoundExactly(s: Segment, x: Extras, target: set<NodeId>, length: nat, published: nat)
    requires 3 <= |target| && target !! s.servers.Keys
    requires RangeCovered(s, x, target, 0, length) && ExtrasWithin(x, length)
    ensures RangeCovered(s, x, target, 0, published) <==> published <= length
  {
    hide LocalTail, RangeCovered;
    PublishedSoundExactly(s, x, target, length, published);
    assert SharedCoverers(s, target, length) == {};
  }

  /** And as sealed tails differ by at most one, only the position at the segment's end is ever in doubt. */
  lemma OnlyTheEndInDoubt(s: Segment, x: Extras, target: set<NodeId>, length: nat, published: nat)
    requires Inv(s) && AllButLastAcked(s) && length in s.sealedTails && published in s.sealedTails
    requires RangeCovered(s, x, target, 0, length) && ExtrasWithin(x, length)
    ensures RangeCovered(s, x, target, 0, published) <==>
      published <= length || IsQuorum(target, SharedCoverers(s, target, length))
  {
    hide Inv, LocalTail, RangeCovered, SharedCoverers, IsQuorum;
    PublishedSoundExactly(s, x, target, length, published);
    SealedTailsAtEnd(s, length);
    SealedTailsAtEnd(s, published);
  }

  /**
   It happens: in every membership a segment can end at the sealed tail 0 and later report 1, and then a
   fresh target to which its whole range, which is empty, was copied does not cover the published tail.
   */
  lemma PublishedUnsound(members: set<NodeId>, target: set<NodeId>) returns (s: Segment, x: Extras)
    requires 3 <= |members| && 3 <= |target| && members !! target
    ensures Reachable(s) && s.members == members && {0, 1} <= s.sealedTails
    ensures x.Keys == target && ExtrasFit(s, x) && (forall n :: n in x ==> x[n] == EMPTY_SEGMENT)
    ensures RangeCovered(s, x, target, 0, 0) && !RangeCovered(s, x, target, 0, 1)
  {
    hide Reachable, RangeCovered;
    var d :| d in members;
    assert |members - {d}| == |members| - 1;
    s := SecondSealedTail(members, members - {d}, d);
    x := map n | n in target :: EMPTY_SEGMENT;
    EmptyWithin(x);
    assert RangeCovered(s, x, target, 0, 0) by { EmptyRange(s, x, target); }
    FreshTargetSoundExactly(s, x, target, 0, 1);
  }

  lemma EmptyWithin(x: Extras)
    requires forall n :: n in x ==> x[n] == EMPTY_SEGMENT
    ensures ExtrasWithin(x, 0)
  {
    assert IsLocalTail(EMPTY_SEGMENT, LocalTail(EMPTY_SEGMENT));
  }

  lemma EmptyRange(s: Segment, x: Extras, target: set<NodeId>)
    ensures RangeCovered(s, x, target, 0, 0)
  {
  }

  lemma SourceFactsStay(s: Segment, t: Segment, u: Segment, watermark: nat, tail: nat)
    requires Inv(u) && Grows(s, t) && Grows(t, u)
    requires IsQuorum(t.members, TrimmedServers(t, watermark)) && tail in s.sealedTails
    ensures IsQuorum(u.members, TrimmedServers(u, watermark)) && tail in u.sealedTails
  {
    hide Inv, LocalTail, Grows;
    ShapeFacts(u);
    SealsStay(t, u);
    SubsetSize(TrimmedServers(t, watermark), TrimmedServers(u, watermark));
    TailsAndMembersStay(s, t);
    TailsAndMembersStay(t, u);
  }

  lemma TailsAndMembersStay(s: Segment, t: Segment)
    requires Grows(s, t)
    ensures s.sealedTails <= t.sealedTails && s.members == t.members && s.servers.Keys == t.servers.Keys
  {
    hide ServerGrows;
  }

  lemma JoinRanges(s: Segment, x: Extras, target: set<NodeId>, watermark: nat, length: nat)
    requires RangeCovered(s, x, target, watermark, length)
    requires watermark == 0 || exists w :: watermark <= w && RangeCovered(s, x, target, 0, w)
    ensures RangeCovered(s, x, target, 0, length)
  {
    hide TargetCovered;
  }

  lemma ReplyTrim(s: Segment, t: Segment, node: NodeId, state: LogServerState)
    requires StateReplied(s, t, node, state)
    ensures node in t.servers && state.trimmedPrefix <= t.servers[node].trimmed && state.trimmedPrefix <= t.known
  {
    hide LocalTail;
  }

  lemma {:induction false} SortedSame(watermarks: seq<nat>)
    ensures forall w :: w in SortDescending(watermarks) ==> w in watermarks
  {
    if watermarks != [] {
      var shorter, last := watermarks[..|watermarks| - 1], watermarks[|watermarks| - 1];
      SortedSame(shorter);
      Sorted(shorter, 0);
      Inserted(SortDescending(shorter), last, 0);
      assert watermarks == shorter + [last];
    }
  }
}
