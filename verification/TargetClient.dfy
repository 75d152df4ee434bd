/**
 The quorum client of a closed segment's target membership (native_loglet/client.py, as
 native_loglet/replacement.py uses it), and readers of that membership (native_loglet/virtual_log_adapter.py).
 */
module TargetClient {
  import opened Wrappers
  import opened Membership
  import opened LogletStore
  import opened LogletProtocol
  import opened LogletTheorems
  import opened LogletNetwork
  import opened NativeClient
  import opened TargetNetwork

  // ---- Replies of one round ----------------------------------------------------------------------

  ghost predicate AllReplied(s: Segment, x: Extras, t: Segment, y: Extras, states: seq<NodeState>) {
    forall r :: r in states ==> TargetReplied(s, x, t, y, r.node, r.state)
  }

  lemma AllRepliedLonger(s: Segment, x: Extras, t: Segment, y: Extras, u: Segment, z: Extras, states: seq<NodeState>)
    requires Inv(s) && ExtrasFit(s, x) && AllReplied(s, x, t, y, states) && MovesOn(t, y, u, z)
    ensures AllReplied(s, x, u, z, states)
  {
    hide Inv, MovesOn, TargetReplied, ExtrasFit;
    MovesOnReflexive(s, x);
    MovedFits(t, y, u, z);
    forall r | r in states
      ensures TargetReplied(s, x, u, z, r.node, r.state)
    {
      RepliedLonger(s, x, s, x, t, y, u, z, r.node, r.state);
    }
  }

  lemma NodesOf(states: seq<NodeState>)
    requires DistinctReplies(states)
    ensures Distinct(Nodes(states)) && |Elements(Nodes(states))| == |states|
    ensures forall r :: r in states ==> r.node in Nodes(states)
    ensures forall n :: n in Nodes(states) ==> exists r :: r in states && r.node == n
  {
    DistinctSize(Nodes(states));
    forall r | r in states
      ensures r.node in Nodes(states)
    {
      var i :| 0 <= i < |states| && states[i] == r;
      assert Nodes(states)[i] == r.node;
    }
    forall n | n in Nodes(states)
      ensures exists r :: r in states && r.node == n
    {
      var i :| 0 <= i < |states| && Nodes(states)[i] == n;
      assert states[i] in states;
    }
  }

  /** Responders whose tails all lie at or below a position did not cover it, so no quorum did. */
  lemma TailBoundsCoverage(s: Segment, x: Extras, t: Segment, y: Extras, target: set<NodeId>, states: seq<NodeState>,
      position: nat)
    requires AllReplied(s, x, t, y, states) && DistinctReplies(states) && Majority(|target|) <= |states|
    requires forall r :: r in states ==> r.node in target && r.state.localTail <= position
    ensures !TargetCovered(s, x, target, position)
  {
    hide LocalTail;
    NodesOf(states);
    forall n | n in Nodes(states)
      ensures !CoversAt(s, x, n, position)
    {
      var r :| r in states && r.node == n;
      var a, b :| At(s, x, n, a) && At(t, y, n, b) && RepliedBetween(t.known, a, b, r.state);
      NotCovered(a, position);
    }
    if TargetCovered(s, x, target, position) {
      assert IsQuorum(target, Elements(Nodes(states)));
      var n := QuorumsIntersect(target, TargetCoverers(s, x, target, position), Elements(Nodes(states)));
    }
  }

  lemma NotCovered(a: SegmentState, position: nat)
    requires LocalTail(a) <= position
    ensures !a.Covers(position)
  {
    assert IsLocalTail(a, LocalTail(a));
  }

  // ---- Repairing the target ------------------------------------------------------------------------

  /** What lets the repair go on at `position`: sealed responders, and no holes below where it matters. */
  ghost predicate TargetReady(s: Segment, x: Extras, nodes: seq<NodeId>, position: nat) {
    forall n :: n in nodes ==> NodeReady(s, x, n, position)
  }

  ghost predicate NodeReady(s: Segment, x: Extras, n: NodeId, position: nat) {
    && (n in s.servers || n in x) && SealedAt(s, x, n)
    && (n in s.servers ==> DenseUpTo(s, n, position))
  }

  lemma ReadyStays(s: Segment, x: Extras, t: Segment, y: Extras, nodes: seq<NodeId>, position: nat)
    requires MovesOn(s, x, t, y) && TargetReady(s, x, nodes, position)
    ensures TargetReady(t, y, nodes, position)
  {
    hide Inv, MovesOn, SealedAt, CoversAt, TrimmedAt, DenseUpTo, ServerGrows;
    MovedFits(s, x, t, y);
    forall n | n in nodes
      ensures NodeReady(t, y, n, position)
    {
      assert NodeReady(s, x, n, position);
      ConfirmationsStay(s, x, t, y, n, 0);
      if n in s.servers {
        DenseStays(s, t, n, position);
      }
    }
  }

  /** A position every responder covers leaves no hole there. */
  lemma CoveredOn(s: Segment, x: Extras, nodes: seq<NodeId>, position: nat)
    requires Inv(s) && TargetReady(s, x, nodes, position) && forall n :: n in nodes ==> CoversAt(s, x, n, position)
    ensures TargetReady(s, x, nodes, position + 1)
  {
    hide LocalTail, Inv;
    forall n | n in nodes
      ensures NodeReady(s, x, n, position + 1)
    {
      assert NodeReady(s, x, n, position);
      if n in s.servers {
        ServerBounds(s, n);
      }
    }
  }

  /** Up to an established position there is nothing to hold against anybody. */
  lemma ReadyFrom(s: Segment, x: Extras, nodes: seq<NodeId>, position: nat)
    requires position <= s.known
    requires forall n :: n in nodes ==> (n in s.servers || n in x) && SealedAt(s, x, n)
    ensures TargetReady(s, x, nodes, position)
  {
    hide SealedAt;
  }

  ghost predicate AllCover(s: Segment, x: Extras, nodes: seq<NodeId>, from: nat, upTo: nat) {
    forall n, p: nat :: n in nodes && from <= p < upTo ==> CoversAt(s, x, n, p)
  }

  lemma AllCoverStays(s: Segment, x: Extras, t: Segment, y: Extras, nodes: seq<NodeId>, from: nat, upTo: nat)
    requires MovesOn(s, x, t, y) && AllCover(s, x, nodes, from, upTo)
    ensures AllCover(t, y, nodes, from, upTo)
  {
    hide MovesOn, CoversAt, SealedAt, TrimmedAt;
    forall n, p: nat | n in nodes && from <= p < upTo
      ensures CoversAt(t, y, n, p)
    {
      ConfirmationsStay(s, x, t, y, n, p);
    }
  }

  lemma AllCoverQuorum(s: Segment, x: Extras, target: set<NodeId>, nodes: seq<NodeId>, from: nat, upTo: nat)
    requires AllCover(s, x, nodes, from, upTo) && Distinct(nodes) && Majority(|target|) <= |nodes|
    requires forall n :: n in nodes ==> n in target
    ensures RangeCovered(s, x, target, from, upTo)
  {
    hide CoversAt, TargetCovered;
    forall p: nat | from <= p < upTo
      ensures TargetCovered(s, x, target, p)
    {
      CoveringQuorum(s, x, target, nodes, p);
    }
  }

  /** The copies read at the responders: all the source's entry, which is then fit for repairs. */
  ghost predicate CopiesFit(s: Segment, position: nat, copies: seq<LogEntry>) {
    && (forall e :: e in copies ==> position < |s.issued| && e == s.issued[position] && e.position == position)
    && (copies != [] ==> Repairable(s, position))
  }

  lemma CopiesFitLater(s: Segment, t: Segment, position: nat, copies: seq<LogEntry>)
    requires Grows(s, t) && CopiesFit(s, position, copies)
    ensures CopiesFit(t, position, copies)
  {
    hide LocalTail, ServerGrows, Repairable;
    if copies != [] {
      RepairableStays(s, t, position);
    }
  }

  lemma UniformStart(a: map<NodeId, SegmentState>, nodes: seq<NodeId>, trim: nat, from: nat, upTo: nat, isSealed: bool,
      later: nat)
    ensures Uniform(a, nodes, trim, from, upTo, isSealed) ==> Uniform(a, nodes[0..], trim, from, upTo, isSealed)
    ensures forall laterTo: nat, laterSealed: bool :: Uniform(a, nodes[..0], later, later, laterTo, laterSealed)
  {
    assert nodes[0..] == nodes;
  }

  lemma TrimUniform(s: Segment, x: Extras, t: Segment, y: Extras, members: seq<NodeId>, i: nat,
      position: nat, upTo: nat)
    requires i < |members| && Distinct(members) && members[i] in All(s, x)
    requires Does(s, x, t, y, members[i], LogletStore.PrefixTrim(All(s, x)[members[i]], position))
    requires Uniform(All(s, x), members[..i], position, position, upTo, false)
    requires Uniform(All(s, x), members[i..], 0, position, upTo, false)
    ensures Uniform(All(t, y), members[..i + 1], position, position, upTo, false)
    ensures Uniform(All(t, y), members[i + 1..], 0, position, upTo, false)
    ensures members[i] in All(t, y) && All(t, y)[members[i]].trimmed == position
  {
    hide All, Uniform, LogletStore.PrefixTrim, LocalTail;
    var server := LogletStore.PrefixTrim(All(s, x)[members[i]], position);
    DoesMeans(s, x, t, y, members[i], server);
    UniformRest(All(s, x), members, i, server, 0, position, upTo, false);
    TrimExact(All(s, x)[members[i]], position, upTo);
    UniformStep(All(s, x), members, i, server, position, position, upTo, false);
  }

  lemma SealUniform(s: Segment, x: Extras, t: Segment, y: Extras, members: seq<NodeId>, i: nat, knownTail: nat,
      trim: nat, upTo: nat)
    requires i < |members| && Distinct(members) && members[i] in All(s, x)
    requires Does(s, x, t, y, members[i], Seal(All(s, x)[members[i]], knownTail))
    requires Uniform(All(s, x), members[..i], trim, trim, upTo, true)
    requires Uniform(All(s, x), members[i..], trim, trim, upTo, false)
    ensures Uniform(All(t, y), members[..i + 1], trim, trim, upTo, true)
    ensures Uniform(All(t, y), members[i + 1..], trim, trim, upTo, false)
  {
    hide All, Uniform, LocalTail;
    var server := Seal(All(s, x)[members[i]], knownTail);
    DoesMeans(s, x, t, y, members[i], server);
    UniformRest(All(s, x), members, i, server, trim, trim, upTo, false);
    FlagsExact(All(s, x)[members[i]], knownTail, trim, trim, upTo);
    UniformStep(All(s, x), members, i, server, trim, trim, upTo, true);
  }

  datatype Range = Range(from: nat, upTo: nat)
  {
    /** The tail of a server that has trimmed to the start of the range and holds exactly the range. */
    function Tail(): nat {
      if from < upTo then upTo else from
    }
  }

  /** A request that leaves what its server holds as it is leaves the members alike. */
  lemma UniformKept(s: Segment, x: Extras, t: Segment, y: Extras, members: seq<NodeId>, node: NodeId,
      server: SegmentState, trim: nat, from: nat, upTo: nat, isSealed: bool)
    requires Does(s, x, t, y, node, server) && node in members
    requires Uniform(All(s, x), members, trim, from, upTo, isSealed)
    requires HoldsExactly(server, trim, from, upTo) && server.isSealed == isSealed
    ensures Uniform(All(t, y), members, trim, from, upTo, isSealed)
  {
    hide HoldsExactly;
  }

  /** All replies are sealed ones of servers that hold the range. */
  ghost predicate SameReplies(states: seq<NodeState>, range: Range) {
    forall r :: r in states ==>
      r.state.isSealed && r.state.trimmedPrefix == range.from && r.state.localTail == range.Tail()
  }

  lemma SameTails(states: seq<NodeState>, range: Range)
    requires states != []
    ensures SameReplies(states, range) ==> MaxTail(states) == range.Tail() && SealedCount(states) == |states|
    ensures SameReplies(states, range) ==> forall start: nat :: range.from <= MaxTrimmed(states, start)
  {
    hide SealedCount, MaxTail;
    if SameReplies(states, range) {
      var r := TopReply(states);
      assert states[0] in states;
    }
  }

  lemma StateSays(x: SegmentState)
    ensures var state := StateOf(x);
      state.isSealed == x.isSealed && state.trimmedPrefix == x.trimmed && state.localTail == LocalTail(x)
  {
    hide LocalTail;
  }

  /** A read leaves the members alike; a sealed member that holds the range reports its tail. */
  lemma ObserveUniform(s: Segment, x: Extras, t: Segment, y: Extras, members: seq<NodeId>, node: NodeId,
      knownTail: nat, range: Range)
    requires node in members && node in All(s, x)
    requires Does(s, x, t, y, node, Observe(All(s, x)[node], knownTail))
    requires Uniform(All(s, x), members, range.from, range.from, range.upTo, true)
    ensures Uniform(All(t, y), members, range.from, range.from, range.upTo, true)
    ensures node in All(t, y) && All(t, y)[node].isSealed && All(t, y)[node].trimmed == range.from
    ensures LocalTail(All(t, y)[node]) == range.Tail()
    ensures forall p: nat :: range.from <= p < range.upTo ==> p in All(s, x)[node].entries
  {
    hide All, Observe, LocalTail;
    FlagsExact(All(s, x)[node], knownTail, range.from, range.from, range.upTo);
    UniformKept(s, x, t, y, members, node, Observe(All(s, x)[node], knownTail), range.from, range.from, range.upTo,
      true);
    DoesMeans(s, x, t, y, node, Observe(All(s, x)[node], knownTail));
    ExactTail(All(t, y)[node], range.from, range.from, range.upTo);
  }

  /** Distinct asked members confirmed, and each of them has trimmed at least that far. */
  ghost predicate TrimConfirmations(s: Segment, x: Extras, asked: seq<NodeId>, confirmed: seq<NodeId>, lowest: nat) {
    Distinct(confirmed) && forall n :: n in confirmed ==> n in asked && TrimmedAt(s, x, n, lowest)
  }

  lemma NoTrimConfirmed(s: Segment, x: Extras)
    ensures TrimConfirmations(s, x, [], [], 0)
  {
  }

  lemma ConfirmTrim(s: Segment, x: Extras, t: Segment, y: Extras, asked: seq<NodeId>, confirmed: seq<NodeId>,
      lowest: nat, node: NodeId, reported: Option<nat>)
    requires MovesOn(s, x, t, y) && TrimConfirmations(s, x, asked, confirmed, lowest) && node !in asked
    requires reported.Some? ==> TrimmedAt(t, y, node, reported.value)
    ensures reported.Some? ==>
      TrimConfirmations(t, y, asked + [node], confirmed + [node],
                        if confirmed == [] || reported.value < lowest then reported.value else lowest)
    ensures reported.None? ==> TrimConfirmations(t, y, asked + [node], confirmed, lowest)
  {
    hide MovesOn, CoversAt, SealedAt, TrimmedAt;
    AllStay(s, x, t, y, confirmed, lowest);
    if reported.Some? {
      var next := if confirmed == [] || reported.value < lowest then reported.value else lowest;
      AllLower(t, y, confirmed, lowest, next);
      LowerTrim(t, y, node, reported.value, next);
    }
  }

  lemma TrimConfirmedBy(s: Segment, x: Extras, members: seq<NodeId>, confirmed: seq<NodeId>, lowest: nat)
    requires TrimConfirmations(s, x, members, confirmed, lowest) && Majority(|Elements(members)|) <= |confirmed|
    ensures RangeCovered(s, x, Elements(members), 0, lowest)
    ensures IsQuorum(Elements(members), TargetTrimmers(s, x, Elements(members), lowest))
  {
    hide TrimmedAt, CoversAt, TargetCovered;
    TrimmingQuorum(s, x, Elements(members), confirmed, lowest);
  }

  class TargetClient {
    const members: seq<NodeId>
    const quorum: nat
    const net: ReplacementNetwork
    var knownTail: nat
    var trimmedPrefix: nat
    /** What the members may be expected to hold, when all of them do. */
    ghost const range: Range

    /** The network is whole, and the members have trimmed to `trim` and hold exactly the expected range. */
    ghost predicate Alike(trim: nat, isSealed: bool)
      reads this, net, net.source
    {
      && net.source.whole
      && Uniform(All(net.source.seg, net.extra), members, trim, range.from, range.upTo, isSealed)
    }

    /** Some members are asked for a position of the range. */
    ghost predicate InRange(nodes: seq<NodeId>, position: nat) {
      && nodes != [] && (forall n :: n in nodes ==> n in members)
      && range.from <= position < range.upTo
    }

    ghost predicate AllInRange(nodes: seq<NodeId>, tail: nat)
      reads this`trimmedPrefix
    {
      && nodes != [] && (forall n :: n in nodes ==> n in members)
      && range.from <= trimmedPrefix && (trimmedPrefix < tail ==> tail <= range.upTo)
    }

    ghost predicate Sound()
      reads this, net, net.source
    {
      net.Serves(members) && quorum == Majority(|members|)
    }

    /** Nothing the client believes runs ahead of what the source has established. */
    ghost predicate Valid()
      reads this, net, net.source
    {
      Sound() && knownTail <= net.source.seg.known && trimmedPrefix <= net.source.seg.known
    }

    constructor (members: seq<NodeId>, net: ReplacementNetwork, knownTail: nat, ghost range: Range)
      requires net.Serves(members) && knownTail <= net.source.seg.known
      ensures Valid() && this.net == net && this.members == members && this.range == range
      ensures this.knownTail == knownTail && trimmedPrefix == 0
    {
      this.range := range;
      this.members, this.net, this.knownTail := members, net, knownTail;
      quorum, trimmedPrefix := Majority(|members|), 0;
    }

    /** A quorum of the members is not down. */
    ghost predicate QuorumUp() {
      quorum <= |UpAmong(members, net.source.down)|
    }

    lemma StillValid(s: Segment, x: Extras)
      requires net.Valid() && ValidateFixedMembers(members) && quorum == Majority(|members|)
      requires x.Keys == net.extra.Keys && s.servers.Keys == net.source.seg.servers.Keys
      requires forall n :: n in members ==> n in s.servers || n in x
      requires knownTail <= s.known <= net.source.seg.known && trimmedPrefix <= s.known
      ensures Valid()
    {
    }

    /**
     Trims the target; returns the lowest watermark a quorum of it confirmed. In a whole network, members that
     all hold exactly the range confirm exactly its start.
     */
    method PrefixTrim(position: nat) returns (watermark: Option<nat>)
      requires Valid() && position <= net.source.seg.known
      modifies net, net.source, this`trimmedPrefix
      ensures Valid() && MovesOn(old(net.source.seg), old(net.extra), net.source.seg, net.extra)
      ensures watermark.Some? ==>
        && position <= watermark.value
        && RangeCovered(net.source.seg, net.extra, Elements(members), 0, watermark.value)
        && IsQuorum(Elements(members), TargetTrimmers(net.source.seg, net.extra, Elements(members), watermark.value))
      ensures watermark.Some? ==> trimmedPrefix == Max(old(trimmedPrefix), watermark.value)
      ensures net.source.calm ==> (watermark.Some? <==> QuorumUp())
      ensures old(Alike(0, false)) && position == range.from ==>
        watermark == Some(position) && Alike(position, false)
    {
      hide Inv, Interference, ExtrasFit, ExtrasGrow, LocalTail, ServerGrows, Grows, CoversAt, TargetCovered, MovesOn,
        SealedAt, TrimmedAt, RangeCovered, Uniform, OthersSame, LogletStore.PrefixTrim, All, TargetTrimmers, IsQuorum,
        HoldsExactly, Does, Range.Tail, ValidateFixedMembers, UpAmong, TrimConfirmations;
      UpAmongNone(net.source.down);
      ghost var s0, x0 := net.source.seg, net.extra;
      MovesOnReflexive(s0, x0);
      CountedMembers(members);
      SizeDistinct(members);
      var confirmed: seq<NodeId> := [];
      var lowest: nat := 0;
      ghost var upTo := range.upTo;
      ghost var uniform := Alike(0, false) && position == range.from;
      UniformStart(All(s0, x0), members, 0, position, upTo, false, position);
      NoTrimConfirmed(s0, x0);
      for i := 0 to |members|
        invariant Valid() && MovesOn(s0, x0, net.source.seg, net.extra)
        invariant confirmed != [] ==> position <= lowest <= net.source.seg.known
        invariant TrimConfirmations(net.source.seg, net.extra, members[..i], confirmed, lowest)
        invariant trimmedPrefix == old(trimmedPrefix) && position <= net.source.seg.known
        invariant net.source.calm ==> |confirmed| == |UpAmong(members[..i], net.source.down)|
        invariant uniform ==>
          && Uniform(All(net.source.seg, net.extra), members[..i], position, position, upTo, false)
          && Uniform(All(net.source.seg, net.extra), members[i..], 0, position, upTo, false)
          && |confirmed| == i && (confirmed != [] ==> lowest == position)
      {
        ghost var s, x, before, least := net.source.seg, net.extra, confirmed, lowest;
        assert members[i] in members && members[i] !in members[..i];
        assert members[..i + 1] == members[..i] + [members[i]];
        UpAmongLonger(members[..i], members[i], net.source.down);
        var reply := TrimMember(members[i], position, s0, x0);
        if uniform {
          TrimUniform(s, x, net.source.seg, net.extra, members, i, position, upTo);
        }
        ConfirmTrim(s, x, net.source.seg, net.extra, members[..i], before, least, members[i], reply);
        if reply.Some? {
          lowest := if confirmed == [] || reply.value < lowest then reply.value else lowest;
          confirmed := confirmed + [members[i]];
        }
      }
      assert members[..|members|] == members;
      if |confirmed| < quorum {
        return None;
      }
      TrimConfirmedBy(net.source.seg, net.extra, members, confirmed, lowest);
      trimmedPrefix := Max(trimmedPrefix, lowest);
      watermark := Some(lowest);
    }

    method TrimMember(node: NodeId, position: nat, ghost s0: Segment, ghost x0: Extras) returns (watermark: Option<nat>)
      requires Valid() && position <= net.source.seg.known && node in members
      requires MovesOn(s0, x0, net.source.seg, net.extra)
      modifies net, net.source
      ensures Valid() && MovesOn(s0, x0, net.source.seg, net.extra)
      ensures MovesOn(old(net.source.seg), old(net.extra), net.source.seg, net.extra)
      ensures old(net.source.seg).known <= net.source.seg.known
      ensures watermark.Some? ==>
        && position <= watermark.value <= net.source.seg.known
        && TrimmedAt(net.source.seg, net.extra, node, watermark.value)
      ensures node in All(old(net.source.seg), old(net.extra)) && node in All(net.source.seg, net.extra)
      ensures net.source.calm ==> (watermark.Some? <==> node !in net.source.down)
      ensures net.source.whole ==>
        && Does(old(net.source.seg), old(net.extra), net.source.seg, net.extra, node,
                LogletStore.PrefixTrim(All(old(net.source.seg), old(net.extra))[node], position))
        && watermark == Some(All(net.source.seg, net.extra)[node].trimmed)
    {
      hide Inv, Interference, ExtrasFit, ExtrasGrow, LocalTail, ServerGrows, Grows, CoversAt, TargetCovered, MovesOn,
        SealedAt, TrimmedAt, LogletStore.PrefixTrim, All, Does;
      ghost var s, x := net.source.seg, net.extra;
      MovedFits(s0, x0, s, x);
      watermark := net.TrimAt(node, position);
      MovesOnTransitive(s0, x0, s, x, net.source.seg, net.extra);
      MovedFits(s, x, net.source.seg, net.extra);
      StillValid(s, x);
      if watermark.Some? {
        TrimWithinKnown(net.source.seg, net.extra, node, watermark.value);
      }
    }

    /** Seals the target; succeeds once a quorum of it confirmed. */
    method Seal() returns (done: bool)
      requires Valid()
      modifies net, net.source
      ensures Valid() && MovesOn(old(net.source.seg), old(net.extra), net.source.seg, net.extra)
      ensures done ==> IsQuorum(Elements(members), TargetSealed(net.source.seg, net.extra, Elements(members)))
      ensures net.source.calm ==> (done <==> QuorumUp())
      ensures old(Alike(range.from, false)) ==> done && Alike(range.from, true)
    {
      hide Inv, Interference, ExtrasFit, ExtrasGrow, LocalTail, ServerGrows, Grows, CoversAt, TargetCovered, MovesOn,
        SealedAt, TrimmedAt, TargetSealed, Uniform, OthersSame, All, IsQuorum, HoldsExactly, Does, UpAmong;
      UpAmongNone(net.source.down);
      ghost var s0, x0 := net.source.seg, net.extra;
      MovesOnReflexive(s0, x0);
      SizeDistinct(members);
      var confirmed: seq<NodeId> := [];
      ghost var trim, upTo := range.from, range.upTo;
      ghost var uniform := Alike(trim, false);
      UniformStart(All(s0, x0), members, trim, trim, upTo, false, trim);
      for i := 0 to |members|
        invariant Valid() && MovesOn(s0, x0, net.source.seg, net.extra)
        invariant Distinct(confirmed)
        invariant forall n :: n in confirmed ==> n in members[..i] && SealedAt(net.source.seg, net.extra, n)
        invariant net.source.calm ==> |confirmed| == |UpAmong(members[..i], net.source.down)|
        invariant uniform ==>
          && Uniform(All(net.source.seg, net.extra), members[..i], trim, trim, upTo, true)
          && Uniform(All(net.source.seg, net.extra), members[i..], trim, trim, upTo, false)
          && |confirmed| == i
      {
        ghost var s, x := net.source.seg, net.extra;
        MovedFits(s0, x0, s, x);
        assert members[i] in members && members[i] !in members[..i];
        assert members[..i + 1] == members[..i] + [members[i]];
        UpAmongLonger(members[..i], members[i], net.source.down);
        var closed := net.SealAt(members[i], knownTail);
        if uniform {
          SealUniform(s, x, net.source.seg, net.extra, members, i, knownTail, trim, upTo);
        }
        MovesOnTransitive(s0, x0, s, x, net.source.seg, net.extra);
        MovedFits(s, x, net.source.seg, net.extra);
        StillValid(s, x);
        AllStay(s, x, net.source.seg, net.extra, confirmed, 0);
        if closed {
          confirmed := confirmed + [members[i]];
        }
      }
      assert members[..|members|] == members;
      done := quorum <= |confirmed|;
      if done {
        SealingQuorum(net.source.seg, net.extra, Elements(members), confirmed);
      }
    }

    /** Asks every member for its state; without a quorum of answers there is none. */
    method ReadStates() returns (states: Option<seq<NodeState>>)
      requires Valid()
      modifies net, net.source, this`knownTail
      ensures Valid() && MovesOn(old(net.source.seg), old(net.extra), net.source.seg, net.extra)
      ensures states.Some? ==>
        && DistinctReplies(states.value) && quorum <= |states.value|
        && (forall r :: r in states.value ==> r.node in members)
        && AllReplied(old(net.source.seg), old(net.extra), net.source.seg, net.extra, states.value)
      ensures net.source.calm ==> (states.Some? <==> QuorumUp())
      ensures old(Alike(range.from, true)) ==>
        Alike(range.from, true) && states.Some? && SameReplies(states.value, range)
    {
      hide Inv, Interference, ExtrasFit, ExtrasGrow, LocalTail, ServerGrows, Grows, MovesOn, TargetReplied, Uniform,
        All, Observe, Does, StateOf, UpAmong;
      UpAmongNone(net.source.down);
      ghost var uniform := Alike(range.from, true);
      ghost var s0, x0 := net.source.seg, net.extra;
      MovesOnReflexive(s0, x0);
      SizeDistinct(members);
      var replies: seq<NodeState> := [];
      for i := 0 to |members|
        invariant Valid() && MovesOn(s0, x0, net.source.seg, net.extra)
        invariant DistinctReplies(replies) && AllReplied(s0, x0, net.source.seg, net.extra, replies)
        invariant forall r :: r in replies ==> r.node in members[..i]
        invariant net.source.calm ==> |replies| == |UpAmong(members[..i], net.source.down)|
        invariant uniform ==> Alike(range.from, true) && |replies| == i && SameReplies(replies, range)
      {
        ghost var s, x := net.source.seg, net.extra;
        MovedFits(s0, x0, s, x);
        assert members[i] in members && members[i] !in members[..i];
        assert members[..i + 1] == members[..i] + [members[i]];
        UpAmongLonger(members[..i], members[i], net.source.down);
        var reply := net.StateAt(members[i], knownTail);
        if uniform {
          ObserveUniform(s, x, net.source.seg, net.extra, members, members[i], knownTail, range);
          StateSays(All(net.source.seg, net.extra)[members[i]]);
        }
        MovesOnTransitive(s0, x0, s, x, net.source.seg, net.extra);
        MovedFits(s, x, net.source.seg, net.extra);
        StillValid(s, x);
        AllRepliedLonger(s0, x0, s, x, net.source.seg, net.extra, replies);
        if reply.Some? {
          RepliedSince(s0, x0, s, x, net.source.seg, net.extra, members[i], reply.value);
          replies := replies + [NodeState(members[i], reply.value)];
          ReplyKnown(s0, x0, net.source.seg, net.extra, members[i], reply.value);
          knownTail := Max(knownTail, reply.value.knownTail);
        }
      }
      assert members[..|members|] == members;
      states := if |replies| < quorum then None else Some(replies);
    }

    /** Reads one position at every responder. */
    method CollectCopies(position: nat, nodes: seq<NodeId>) returns (copies: Option<seq<LogEntry>>)
      requires Valid() && TargetReady(net.source.seg, net.extra, nodes, position)
      modifies net, net.source
      ensures Valid() && MovesOn(old(net.source.seg), old(net.extra), net.source.seg, net.extra)
      ensures TargetReady(net.source.seg, net.extra, nodes, position)
      ensures copies.Some? ==> CopiesFit(net.source.seg, position, copies.value)
      ensures old(Alike(range.from, true)) && InRange(nodes, position) ==>
        Alike(range.from, true) && copies.Some? && copies.value != []
    {
      hide Inv, Interference, ExtrasFit, ExtrasGrow, LocalTail, ServerGrows, Grows, MovesOn, DenseUpTo, SealedAt,
        CoversAt, TrimmedAt, Repairable, Uniform, All, Observe, Does;
      ghost var uniform := Alike(range.from, true) && InRange(nodes, position);
      ghost var s0, x0 := net.source.seg, net.extra;
      MovesOnReflexive(s0, x0);
      var found: seq<LogEntry> := [];
      for i := 0 to |nodes|
        invariant Valid() && MovesOn(s0, x0, net.source.seg, net.extra)
        invariant TargetReady(net.source.seg, net.extra, nodes, position)
        invariant CopiesFit(net.source.seg, position, found)
        invariant uniform ==> Alike(range.from, true) && |found| == i
      {
        ghost var s, x := net.source.seg, net.extra;
        assert NodeReady(s, x, nodes[i], position);
        var outcome := net.GetAt(nodes[i], position, knownTail);
        if uniform {
          ObserveUniform(s, x, net.source.seg, net.extra, members, nodes[i], knownTail, range);
        }
        MovesOnTransitive(s0, x0, s, x, net.source.seg, net.extra);
        MovedFits(s, x, net.source.seg, net.extra);
        StillValid(s, x);
        ReadyStays(s, x, net.source.seg, net.extra, nodes, position);
        CopiesFitLater(s, net.source.seg, position, found);
        if outcome.Unreachable? {
          return None;
        }
        assert NodeReady(net.source.seg, net.extra, nodes[i], position);
        if outcome.entry.Some? {
          found := found + [outcome.entry.value];
        }
      }
      copies := Some(found);
    }

    /** Gives the position to every responder that lacks it. */
    method FillPosition(position: nat, canonical: LogEntry, nodes: seq<NodeId>) returns (outcome: RepairOutcome)
      requires Valid() && TargetReady(net.source.seg, net.extra, nodes, position)
      requires CopiesFit(net.source.seg, position, [canonical])
      modifies net, net.source
      ensures Valid() && MovesOn(old(net.source.seg), old(net.extra), net.source.seg, net.extra)
      ensures outcome == Repaired || outcome == ConnectionLost || outcome == TrimmedMeanwhile
      ensures outcome == Repaired ==>
        && TargetReady(net.source.seg, net.extra, nodes, position + 1)
        && forall n :: n in nodes ==> CoversAt(net.source.seg, net.extra, n, position)
      ensures old(Alike(range.from, true)) && InRange(nodes, position) ==>
        Alike(range.from, true) && outcome == Repaired
    {
      hide Inv, Interference, ExtrasFit, ExtrasGrow, LocalTail, ServerGrows, Grows, MovesOn, DenseUpTo, SealedAt,
        CoversAt, TrimmedAt, Repairable, Uniform, All, Observe, Does;
      ghost var uniform := Alike(range.from, true) && InRange(nodes, position);
      ghost var s0, x0 := net.source.seg, net.extra;
      MovesOnReflexive(s0, x0);
      for i := 0 to |nodes|
        invariant Valid() && MovesOn(s0, x0, net.source.seg, net.extra)
        invariant TargetReady(net.source.seg, net.extra, nodes, position)
        invariant CopiesFit(net.source.seg, position, [canonical])
        invariant forall n :: n in nodes[..i] ==> CoversAt(net.source.seg, net.extra, n, position)
        invariant uniform ==> Alike(range.from, true)
      {
        ghost var s, x := net.source.seg, net.extra;
        assert NodeReady(s, x, nodes[i], position);
        var current := net.GetAt(nodes[i], position, knownTail);
        if uniform {
          ObserveUniform(s, x, net.source.seg, net.extra, members, nodes[i], knownTail, range);
        }
        StepOn(s0, x0, s, x, nodes, i, position, canonical);
        if current.Unreachable? {
          return ConnectionLost;
        }
        if current.entry.None? {
          ghost var t, y := net.source.seg, net.extra;
          assert NodeReady(t, y, nodes[i], position) && canonical in [canonical];
          var written := net.RepairAt(nodes[i], canonical, knownTail);
          StepOn(s0, x0, t, y, nodes, i, position, canonical);
          if !written {
            return TrimmedMeanwhile;
          }
        }
      }
      assert nodes[..|nodes|] == nodes;
      CoveredOn(net.source.seg, net.extra, nodes, position);
      outcome := Repaired;
    }

    /** Everything one request of a loop over the responders needs to carry on. */
    lemma StepOn(s0: Segment, x0: Extras, s: Segment, x: Extras, nodes: seq<NodeId>, i: nat, position: nat,
        canonical: LogEntry)
      requires net.Valid() && MovesOn(s0, x0, s, x) && MovesOn(s, x, net.source.seg, net.extra)
      requires ValidateFixedMembers(members) && quorum == Majority(|members|)
      requires forall n :: n in members ==> n in s.servers || n in x
      requires knownTail <= s.known && trimmedPrefix <= s.known
      requires TargetReady(s, x, nodes, position) && CopiesFit(s, position, [canonical]) && i <= |nodes|
      requires forall n :: n in nodes[..i] ==> CoversAt(s, x, n, position)
      ensures Valid() && MovesOn(s0, x0, net.source.seg, net.extra)
      ensures TargetReady(net.source.seg, net.extra, nodes, position)
      ensures CopiesFit(net.source.seg, position, [canonical])
      ensures forall n :: n in nodes[..i] ==> CoversAt(net.source.seg, net.extra, n, position)
    {
      hide Inv, MovesOn, DenseUpTo, SealedAt, CoversAt, TrimmedAt, Repairable, Grows, ExtrasFit, TargetReady, CopiesFit;
      MovesOnTransitive(s0, x0, s, x, net.source.seg, net.extra);
      MovedFits(s, x, net.source.seg, net.extra);
      StillValid(s, x);
      ReadyStays(s, x, net.source.seg, net.extra, nodes, position);
      CopiesFitLater(s, net.source.seg, position, [canonical]);
      AllStay(s, x, net.source.seg, net.extra, nodes[..i], position);
    }

    method RepairPosition(position: nat, nodes: seq<NodeId>) returns (outcome: RepairOutcome)
      requires Valid() && TargetReady(net.source.seg, net.extra, nodes, position)
      modifies net, net.source
      ensures Valid() && MovesOn(old(net.source.seg), old(net.extra), net.source.seg, net.extra)
      ensures outcome != ConflictingEntries
      ensures outcome == Repaired ==>
        && TargetReady(net.source.seg, net.extra, nodes, position + 1)
        && forall n :: n in nodes ==> CoversAt(net.source.seg, net.extra, n, position)
      ensures old(Alike(range.from, true)) && InRange(nodes, position) ==>
        Alike(range.from, true) && outcome == Repaired
    {
      hide Inv, Interference, ExtrasFit, ExtrasGrow, LocalTail, ServerGrows, Grows, MovesOn, TargetReady, Repairable,
        Uniform;
      ghost var s0, x0 := net.source.seg, net.extra;
      var copies := CollectCopies(position, nodes);
      ghost var s, x := net.source.seg, net.extra;
      if copies.None? {
        return ConnectionLost;
      }
      if copies.value == [] {
        return TailUnavailable;
      }
      var canonical := copies.value[0];
      OneCopy(s, position, copies.value);
      if exists i | 1 <= i < |copies.value| :: copies.value[i] != canonical {
        return ConflictingEntries;
      }
      outcome := FillPosition(position, canonical, nodes);
      MovesOnTransitive(s0, x0, s, x, net.source.seg, net.extra);
    }

    /** Repairs [trimmedPrefix, tail) on all responders, lowest position first. */
    method RepairThrough(tail: nat, nodes: seq<NodeId>) returns (outcome: RepairOutcome)
      requires Valid() && TargetReady(net.source.seg, net.extra, nodes, trimmedPrefix)
      modifies net, net.source
      ensures Valid() && MovesOn(old(net.source.seg), old(net.extra), net.source.seg, net.extra)
      ensures outcome != ConflictingEntries
      ensures outcome == Repaired ==> AllCover(net.source.seg, net.extra, nodes, trimmedPrefix, tail)
      ensures old(Alike(range.from, true)) && AllInRange(nodes, tail) ==> outcome == Repaired
    {
      hide Inv, Interference, ExtrasFit, ExtrasGrow, LocalTail, ServerGrows, Grows, MovesOn, TargetReady, CoversAt,
        Uniform;
      ghost var uniform := Alike(range.from, true) && AllInRange(nodes, tail);
      ghost var s0, x0 := net.source.seg, net.extra;
      MovesOnReflexive(s0, x0);
      var position := trimmedPrefix;
      while position < tail
        invariant Valid() && MovesOn(s0, x0, net.source.seg, net.extra) && trimmedPrefix <= position
        invariant TargetReady(net.source.seg, net.extra, nodes, position)
        invariant AllCover(net.source.seg, net.extra, nodes, trimmedPrefix, position)
        invariant uniform ==> Alike(range.from, true)
      {
        ghost var s, x := net.source.seg, net.extra;
        outcome := RepairPosition(position, nodes);
        MovesOnTransitive(s0, x0, s, x, net.source.seg, net.extra);
        if outcome != Repaired {
          return;
        }
        AllCoverStays(s, x, net.source.seg, net.extra, nodes, trimmedPrefix, position);
        position := position + 1;
      }
      outcome := Repaired;
    }

    /** Waits for one tail or seal notification. */
    method WaitForProgress() returns (notified: bool)
      requires Valid()
      modifies net, net.source, this`knownTail
      ensures Valid() && MovesOn(old(net.source.seg), old(net.extra), net.source.seg, net.extra)
    {
      hide Inv, Interference, ExtrasFit, ExtrasGrow, LocalTail, ServerGrows, Grows, MovesOn, TargetReplied;
      ghost var s0, x0 := net.source.seg, net.extra;
      MovesOnReflexive(s0, x0);
      for i := 0 to |members|
        invariant Valid() && MovesOn(s0, x0, net.source.seg, net.extra)
      {
        ghost var s, x := net.source.seg, net.extra;
        assert members[i] in members;
        var reply := net.StateAt(members[i], knownTail);
        MovesOnTransitive(s0, x0, s, x, net.source.seg, net.extra);
        MovedFits(s, x, net.source.seg, net.extra);
        StillValid(s, x);
        if reply.Some? {
          ReplyKnown(s, x, net.source.seg, net.extra, members[i], reply.value);
          knownTail := Max(knownTail, reply.value.knownTail);
          return true;
        }
      }
      notified := false;
    }

    /**
     The three-state check on the target. The last round began at the state `seen`, `seenExtra`. A sealed
     tail: a quorum of the target is sealed and covers everything from the client's trim point up to it,
     and when that round began no quorum covered anything at or above it.
     */
    method CheckTail(rounds: nat) returns (outcome: CheckOutcome, ghost seen: Segment, ghost seenExtra: Extras)
      requires Valid()
      modifies net, net.source, this
      ensures Sound() && MovesOn(old(net.source.seg), old(net.extra), net.source.seg, net.extra)
      ensures old(trimmedPrefix) <= trimmedPrefix
      ensures outcome.TailFound? && outcome.isSealed ==>
        && MovesOn(old(net.source.seg), old(net.extra), seen, seenExtra)
        && MovesOn(seen, seenExtra, net.source.seg, net.extra)
        && IsQuorum(Elements(members), TargetSealed(net.source.seg, net.extra, Elements(members)))
        && RangeCovered(net.source.seg, net.extra, Elements(members), trimmedPrefix, outcome.tail)
        && (forall q :: outcome.tail <= q ==> !TargetCovered(seen, seenExtra, Elements(members), q))
      ensures outcome.RepairFailed? ==> outcome.why != ConflictingEntries
      ensures net.source.calm && !QuorumUp() && 0 < rounds ==> outcome == NoQuorum
      ensures old(Alike(range.from, true)) && 0 < rounds ==> outcome == TailFound(range.Tail(), true)
    {
      hide Inv, Interference, ExtrasFit, ExtrasGrow, LocalTail, ServerGrows, Grows, MovesOn, TargetReplied,
        TargetCovered, RangeCovered, TargetSealed, IsQuorum, AllReplied, Uniform, MaxTail, SealedCount, UpAmong;
      ghost var uniform := Alike(range.from, true);
      ghost var s0, x0 := net.source.seg, net.extra;
      MovesOnReflexive(s0, x0);
      seen, seenExtra := s0, x0;
      for round := 0 to rounds
        invariant Valid() && MovesOn(s0, x0, net.source.seg, net.extra) && old(trimmedPrefix) <= trimmedPrefix
        invariant uniform ==> round == 0 && Alike(range.from, true)
        invariant net.source.calm && !QuorumUp() ==> round == 0
      {
        ghost var s1, x1 := net.source.seg, net.extra;
        seen, seenExtra := s1, x1;
        var states := ReadStates();
        ghost var s2, x2 := net.source.seg, net.extra;
        MovesOnTransitive(s0, x0, s1, x1, s2, x2);
        MovedFits(s0, x0, s1, x1);
        MovedFits(s1, x1, s2, x2);
        if states.None? {
          outcome := NoQuorum;
          return;
        }
        SameTails(states.value, range);
        TrimsKnown(s1, x1, s2, x2, states.value, trimmedPrefix);
        trimmedPrefix := MaxTrimmed(states.value, trimmedPrefix);
        var sealedCount := SealedCount(states.value);
        if 0 < sealedCount < |states.value| {
          var done := Seal();
          MovesOnTransitive(s0, x0, s2, x2, net.source.seg, net.extra);
          if !done {
            outcome := NoQuorum;
            return;
          }
        } else if sealedCount == |states.value| {
          outcome := FinishSealed(states.value, s1, x1);
          MovesOnTransitive(s0, x0, s2, x2, net.source.seg, net.extra);
          MovesOnTransitive(s1, x1, s2, x2, net.source.seg, net.extra);
          return;
        } else {
          var tail := MaxTail(states.value);
          if tail == 0 || tail <= knownTail || quorum <= |WithTail(states.value, tail)| {
            knownTail := Max(knownTail, tail);
            outcome := TailFound(tail, false);
            return;
          }
          var notified := WaitForProgress();
          MovesOnTransitive(s0, x0, s2, x2, net.source.seg, net.extra);
          if !notified {
            outcome := NoQuorum;
            return;
          }
        }
      }
      outcome := StillWaiting;
    }

    /** All responders sealed: repair up to their maximal tail, then that tail stands. */
    method FinishSealed(states: seq<NodeState>, ghost s: Segment, ghost x: Extras) returns (outcome: CheckOutcome)
      requires Valid() && DistinctReplies(states) && quorum <= |states|
      requires forall r :: r in states ==> r.node in members && r.state.isSealed
      requires MovesOn(s, x, net.source.seg, net.extra) && AllReplied(s, x, net.source.seg, net.extra, states)
      modifies net, net.source, this`knownTail
      ensures Sound() && MovesOn(old(net.source.seg), old(net.extra), net.source.seg, net.extra)
      ensures outcome.TailFound? || outcome.RepairFailed?
      ensures outcome.TailFound? ==>
        && outcome == TailFound(MaxTail(states), true)
        && IsQuorum(Elements(members), TargetSealed(net.source.seg, net.extra, Elements(members)))
        && RangeCovered(net.source.seg, net.extra, Elements(members), trimmedPrefix, outcome.tail)
        && (forall q :: outcome.tail <= q ==> !TargetCovered(s, x, Elements(members), q))
      ensures outcome.RepairFailed? ==> outcome.why != ConflictingEntries
      ensures old(Alike(range.from, true)) && SameReplies(states, range) && old(range.from <= trimmedPrefix) ==>
        outcome == TailFound(range.Tail(), true)
    {
      hide Inv, Interference, ExtrasFit, ExtrasGrow, LocalTail, ServerGrows, Grows, MovesOn, TargetReplied,
        TargetCovered, RangeCovered, TargetSealed, IsQuorum, AllReplied, AllCover, TargetReady, SealedAt, CoversAt,
        TrimmedAt, MaxTail, Uniform;
      ghost var s1, x1 := net.source.seg, net.extra;
      var tail := MaxTail(states);
      var nodes := Nodes(states);
      NodesOf(states);
      SameTails(states, range);
      SealedResponders(s, x, s1, x1, states);
      ReadyFrom(s1, x1, nodes, trimmedPrefix);
      var repaired := RepairThrough(tail, nodes);
      ghost var s2, x2 := net.source.seg, net.extra;
      if repaired != Repaired {
        return RepairFailed(repaired);
      }
      SetSize(members);
      AllStay(s1, x1, s2, x2, nodes, 0);
      SealingQuorum(s2, x2, Elements(members), nodes);
      AllCoverQuorum(s2, x2, Elements(members), nodes, trimmedPrefix, tail);
      forall q | tail <= q
        ensures !TargetCovered(s, x, Elements(members), q)
      {
        TailBoundsCoverage(s, x, s1, x1, Elements(members), states, q);
      }
      knownTail := Max(knownTail, tail);
      outcome := TailFound(tail, true);
    }
  }

  lemma SetSize(members: seq<NodeId>)
    requires ValidateFixedMembers(members)
    ensures |Elements(members)| == |members|
  {
  }

  lemma OneCopy(s: Segment, position: nat, copies: seq<LogEntry>)
    requires CopiesFit(s, position, copies) && copies != []
    ensures forall i :: 0 <= i < |copies| ==> copies[i] == copies[0]
    ensures CopiesFit(s, position, [copies[0]])
  {
    assert copies[0] in copies;
    forall i | 0 <= i < |copies|
      ensures copies[i] == copies[0]
    {
      assert copies[i] in copies;
    }
  }

  lemma SealedResponders(s: Segment, x: Extras, t: Segment, y: Extras, states: seq<NodeState>)
    requires AllReplied(s, x, t, y, states) && DistinctReplies(states)
    requires forall r :: r in states ==> r.state.isSealed
    ensures forall n :: n in Nodes(states) ==> (n in t.servers || n in y) && SealedAt(t, y, n)
  {
    hide LocalTail;
    NodesOf(states);
    forall n | n in Nodes(states)
      ensures (n in t.servers || n in y) && SealedAt(t, y, n)
    {
      var r :| r in states && r.node == n;
      assert TargetReplied(s, x, t, y, n, r.state);
    }
  }

  lemma ReplyKnown(s: Segment, x: Extras, t: Segment, y: Extras, node: NodeId, state: LogServerState)
    requires TargetReplied(s, x, t, y, node, state)
    ensures state.knownTail <= t.known && state.trimmedPrefix <= t.known
  {
    hide LocalTail;
  }

  lemma TrimsKnown(s: Segment, x: Extras, t: Segment, y: Extras, states: seq<NodeState>, start: nat)
    requires AllReplied(s, x, t, y, states) && start <= t.known
    ensures MaxTrimmed(states, start) <= t.known
  {
    hide LocalTail, TargetReplied;
    forall r | r in states
      ensures r.state.trimmedPrefix <= t.known
    {
      ReplyKnown(s, x, t, y, r.node, r.state);
    }
  }

  lemma TrimWithinKnown(s: Segment, x: Extras, n: NodeId, watermark: nat)
    requires Inv(s) && ExtrasFit(s, x) && TrimmedAt(s, x, n, watermark)
    ensures watermark <= s.known
  {
    hide Inv, LocalTail, Repairable;
    var state :| At(s, x, n, state) && watermark <= state.trimmed;
    if n in s.servers {
      ServerBounds(s, n);
    } else {
      ExtrasAt(s, x, n);
    }
  }

  // ---- Reading through the target ----------------------------------------------------------------

  /** A quorum of the target has trimmed the position away. */
  ghost predicate TargetTrimmed(s: Segment, x: Extras, target: set<NodeId>, position: nat) {
    IsQuorum(target, TargetTrimmers(s, x, target, position + 1))
  }

  /** Every listed member answered that it has nothing there, at some moment between the two states. */
  ghost predicate AllEmpty(s: Segment, x: Extras, t: Segment, y: Extras, nodes: seq<NodeId>, position: nat) {
    forall n :: n in nodes && CoversAt(s, x, n, position) ==> TrimmedAt(t, y, n, position + 1)
  }

  lemma EmptyEverywhereMeansTrimmed(s: Segment, x: Extras, t: Segment, y: Extras, members: seq<NodeId>, position: nat)
    requires AllEmpty(s, x, t, y, members, position)
    ensures TargetCovered(s, x, Elements(members), position) ==> TargetTrimmed(t, y, Elements(members), position)
  {
    hide CoversAt, TrimmedAt;
    var target := Elements(members);
    if TargetCovered(s, x, target, position) {
      SubsetSize(TargetCoverers(s, x, target, position), TargetTrimmers(t, y, target, position + 1));
    }
  }

  /** What was on a target quorum when the read began is passed over only if trimmed on one. */
  ghost predicate TargetSkips(s: Segment, x: Extras, t: Segment, y: Extras, target: set<NodeId>, from: int, to: int) {
    forall q: nat :: from <= q < to && TargetCovered(s, x, target, q) ==> TargetTrimmed(t, y, target, q)
  }

  lemma TrimmersStay(s: Segment, x: Extras, t: Segment, y: Extras, target: set<NodeId>, watermark: nat)
    requires MovesOn(s, x, t, y) && IsQuorum(target, TargetTrimmers(s, x, target, watermark))
    ensures IsQuorum(target, TargetTrimmers(t, y, target, watermark))
  {
    hide MovesOn, CoversAt, SealedAt, TrimmedAt;
    forall n | n in TargetTrimmers(s, x, target, watermark)
      ensures n in TargetTrimmers(t, y, target, watermark)
    {
      ConfirmationsStay(s, x, t, y, n, watermark);
    }
    SubsetSize(TargetTrimmers(s, x, target, watermark), TargetTrimmers(t, y, target, watermark));
  }

  lemma SkipsMoveOn(s0: Segment, x0: Extras, s: Segment, x: Extras, t: Segment, y: Extras, target: set<NodeId>,
      from: int, to: int)
    requires MovesOn(s, x, t, y) && TargetSkips(s0, x0, s, x, target, from, to)
    ensures TargetSkips(s0, x0, t, y, target, from, to)
  {
    hide MovesOn, TargetCovered, CoversAt, SealedAt, TrimmedAt;
    forall q: nat | from <= q < to && TargetCovered(s0, x0, target, q)
      ensures TargetTrimmed(t, y, target, q)
    {
      TrimmersStay(s, x, t, y, target, q + 1);
    }
  }

  lemma SkipEmpty(s0: Segment, x0: Extras, s: Segment, x: Extras, t: Segment, y: Extras, members: seq<NodeId>,
      from: int, position: nat)
    requires MovesOn(s0, x0, s, x) && AllEmpty(s, x, t, y, members, position)
    requires TargetSkips(s0, x0, t, y, Elements(members), from, position)
    ensures TargetSkips(s0, x0, t, y, Elements(members), from, position + 1)
  {
    hide MovesOn, TargetCovered, TargetTrimmed, AllEmpty;
    if TargetCovered(s0, x0, Elements(members), position) {
      CoveredStays(s0, x0, s, x, Elements(members), position);
      EmptyEverywhereMeansTrimmed(s, x, t, y, members, position);
    }
  }

  lemma EmptyOne(s0: Segment, x0: Extras, s: Segment, x: Extras, t: Segment, y: Extras, members: seq<NodeId>, i: nat,
      position: nat)
    requires MovesOn(s0, x0, s, x) && MovesOn(s, x, t, y) && i < |members|
    requires AllEmpty(s0, x0, s, x, members[..i], position)
    requires TargetAnswered(s, x, t, y, members[i], position, None)
    ensures AllEmpty(s0, x0, t, y, members[..i + 1], position)
  {
    hide MovesOn, CoversAt, SealedAt, TrimmedAt;
    forall n | n in members[..i + 1] && CoversAt(s0, x0, n, position)
      ensures TrimmedAt(t, y, n, position + 1)
    {
      ConfirmationsStay(s0, x0, s, x, n, position);
      ConfirmationsStay(s, x, t, y, n, position + 1);
    }
  }

  datatype TargetRead = Found(entry: LogEntry) | Nothing | Unavailable | InvalidRange

  /**
   The first entry of [localStart, localStop) found through the target's members. What a quorum of the
   target covered when the read began is passed over only if a quorum of it has trimmed it.
   */
  method ReadThroughTarget(net: ReplacementNetwork, members: seq<NodeId>, localStart: int, localStop: int,
      knownTail: nat)
    returns (outcome: TargetRead)
    requires net.Serves(members) && knownTail <= net.source.seg.known
    modifies net, net.source
    ensures net.Valid() && MovesOn(old(net.source.seg), old(net.extra), net.source.seg, net.extra)
    ensures outcome == InvalidRange <==> localStart < 0 || localStop <= localStart
    ensures outcome.Found? ==>
      && localStart <= outcome.entry.position < localStop
      && outcome.entry.position < |net.source.seg.issued|
      && outcome.entry == net.source.seg.issued[outcome.entry.position]
      && TargetSkips(old(net.source.seg), old(net.extra), net.source.seg, net.extra, Elements(members),
                     localStart, outcome.entry.position)
    ensures outcome == Nothing ==>
      TargetSkips(old(net.source.seg), old(net.extra), net.source.seg, net.extra, Elements(members),
                  localStart, localStop)
  {
    hide Inv, Interference, ExtrasFit, ExtrasGrow, LocalTail, ServerGrows, Grows, MovesOn, CoversAt, SealedAt,
      TrimmedAt, TargetCovered, TargetTrimmed, AllEmpty, TargetSkips;
    ghost var s0, x0 := net.source.seg, net.extra;
    MovesOnReflexive(s0, x0);
    if localStart < 0 || localStop <= localStart {
      return InvalidRange;
    }
    assert TargetSkips(s0, x0, s0, x0, Elements(members), localStart, localStart) by {
      NothingSkipped(s0, x0, Elements(members), localStart);
    }
    for position := localStart to localStop
      invariant net.Serves(members) && MovesOn(s0, x0, net.source.seg, net.extra)
      invariant knownTail <= net.source.seg.known
      invariant TargetSkips(s0, x0, net.source.seg, net.extra, Elements(members), localStart, position)
    {
      ghost var s, x := net.source.seg, net.extra;
      var entry, complete := ReadOneThroughTarget(net, members, position, knownTail);
      MovesOnTransitive(s0, x0, s, x, net.source.seg, net.extra);
      MovedFits(s, x, net.source.seg, net.extra);
      SkipsMoveOn(s0, x0, s, x, net.source.seg, net.extra, Elements(members), localStart, position);
      if entry.Some? {
        return Found(entry.value);
      }
      if !complete {
        return Unavailable;
      }
      SkipEmpty(s0, x0, s, x, net.source.seg, net.extra, members, localStart, position);
    }
    outcome := Nothing;
  }

  lemma NothingSkipped(s: Segment, x: Extras, target: set<NodeId>, from: int)
    ensures TargetSkips(s, x, s, x, target, from, from)
  {
  }

  /** Asks the members in turn for one position; `complete` when every one of them answered. */
  method ReadOneThroughTarget(net: ReplacementNetwork, members: seq<NodeId>, position: nat, knownTail: nat)
    returns (entry: Option<LogEntry>, complete: bool)
    requires net.Serves(members) && knownTail <= net.source.seg.known
    modifies net, net.source
    ensures net.Serves(members) && MovesOn(old(net.source.seg), old(net.extra), net.source.seg, net.extra)
    ensures entry.Some? ==>
      && position < |net.source.seg.issued| && entry.value == net.source.seg.issued[position]
      && entry.value.position == position
    ensures entry.None? && complete ==>
      AllEmpty(old(net.source.seg), old(net.extra), net.source.seg, net.extra, members, position)
  {
    hide Inv, Interference, ExtrasFit, ExtrasGrow, LocalTail, ServerGrows, Grows, MovesOn, CoversAt, SealedAt,
      TrimmedAt, Repairable, AllEmpty;
    ghost var s0, x0 := net.source.seg, net.extra;
    MovesOnReflexive(s0, x0);
    assert AllEmpty(s0, x0, s0, x0, members[..0], position) by { NobodyAsked(s0, x0, members, position); }
    var responses := 0;
    entry := None;
    for i := 0 to |members|
      invariant net.Serves(members) && MovesOn(s0, x0, net.source.seg, net.extra)
      invariant knownTail <= net.source.seg.known && responses <= i
      invariant responses == i ==> AllEmpty(s0, x0, net.source.seg, net.extra, members[..i], position)
    {
      ghost var s, x := net.source.seg, net.extra;
      assert members[i] in members;
      var outcome := net.GetAt(members[i], position, knownTail);
      MovesOnTransitive(s0, x0, s, x, net.source.seg, net.extra);
      MovedFits(s, x, net.source.seg, net.extra);
      if outcome.Answer? {
        responses := responses + 1;
        if outcome.entry.Some? {
          return outcome.entry, false;
        }
        if responses == i + 1 {
          EmptyOne(s0, x0, s, x, net.source.seg, net.extra, members, i, position);
        }
      }
    }
    complete := responses == |members|;
    assert members[..|members|] == members;
  }

  lemma NobodyAsked(s: Segment, x: Extras, members: seq<NodeId>, position: nat)
    ensures AllEmpty(s, x, s, x, members[..0], position)
  {
  }

  /**
   Once a target covers a closed segment that ended at a sealed tail, every position ever acknowledged by
   a commit is on a quorum of it, so reads through it skip none that was not trimmed.
   */
  lemma AcknowledgedServed(s: Segment, x: Extras, target: set<NodeId>, length: nat, p: nat)
    requires Inv(s) && RangeCovered(s, x, target, 0, length) && length in s.sealedTails && p in s.acked
    ensures TargetCovered(s, x, target, p)
  {
    hide Inv, TargetCovered;
    AckedBelowSealedTails(s, p, length);
  }
}
