/**
 The quorum client of one segment (native_loglet/client.py): seal, prefix_trim, multi-state
 check_tail and the repair of a sealed segment, with everyone else acting in between.
 */
module NativeClient {
  import opened Wrappers
  import opened Membership
  import opened LogletStore
  import opened LogletProtocol
  import opened LogletTheorems
  import opened LogletNetwork

  datatype NodeState = NodeState(node: NodeId, state: LogServerState)

  datatype RepairOutcome = Repaired | ConnectionLost | TailUnavailable | ConflictingEntries | TrimmedMeanwhile

  datatype CheckOutcome =
    | TailFound(tail: nat, isSealed: bool)
    | NoQuorum
    | RepairFailed(why: RepairOutcome)
    | StillWaiting

  // ---- Replies gathered in one round -------------------------------------------------------

  ghost predicate DistinctReplies(states: seq<NodeState>) {
    forall i, j :: 0 <= i < j < |states| ==> states[i].node != states[j].node
  }

  /** Each reply was true of its server at some moment between `s` and `t`. */
  ghost predicate RepliesHold(s: Segment, t: Segment, states: seq<NodeState>) {
    forall r :: r in states ==> StateReplied(s, t, r.node, r.state)
  }

  function Nodes(states: seq<NodeState>): seq<NodeId> {
    seq(|states|, i requires 0 <= i < |states| => states[i].node)
  }

  lemma NodesAreQuorum(s: Segment, t: Segment, states: seq<NodeState>)
    requires DistinctReplies(states) && RepliesHold(s, t, states) && s.servers.Keys == s.members
    requires Majority(|s.members|) <= |states|
    ensures IsQuorum(s.members, Elements(Nodes(states)))
    ensures forall r :: r in states ==> r.node in Elements(Nodes(states))
  {
    hide LocalTail;
    DistinctSize(Nodes(states));
    forall n | n in Nodes(states)
      ensures n in s.members
    {
      var i :| 0 <= i < |states| && Nodes(states)[i] == n;
      assert states[i] in states;
    }
    forall r | r in states
      ensures r.node in Elements(Nodes(states))
    {
      var i :| 0 <= i < |states| && states[i] == r;
      assert Nodes(states)[i] == r.node;
    }
  }

  /** Replies read later than `s0` and held by an earlier `t` still hold between `s0` and a later `u`. */
  lemma RepliesHoldLonger(s0: Segment, s: Segment, t: Segment, u: Segment, states: seq<NodeState>)
    requires RepliesHold(s, t, states) && Grows(s0, s) && Grows(t, u)
    ensures RepliesHold(s0, u, states)
  {
    hide LocalTail;
    forall r | r in states
      ensures StateReplied(s0, u, r.node, r.state)
    {
      assert StateReplied(s, t, r.node, r.state);
    }
  }

  function MaxTail(states: seq<NodeState>): (tail: nat)
    ensures forall r :: r in states ==> r.state.localTail <= tail
  {
    if states == [] then 0
    else
      var rest := MaxTail(states[1..]);
      assert forall r :: r in states ==> r == states[0] || r in states[1..];
      Max(rest, states[0].state.localTail)
  }

  lemma {:induction false} TopReply(states: seq<NodeState>) returns (r: NodeState)
    requires states != []
    ensures r in states && r.state.localTail == MaxTail(states)
  {
    r := states[0];
    if 1 < |states| && r.state.localTail != MaxTail(states) {
      r := TopReply(states[1..]);
      assert r in states[1..];
    }
  }

  function MaxTrimmed(states: seq<NodeState>, start: nat): (trimmed: nat)
    ensures start <= trimmed && forall r :: r in states ==> r.state.trimmedPrefix <= trimmed
    ensures trimmed == start || exists r :: r in states && r.state.trimmedPrefix == trimmed
  {
    if states == [] then start
    else
      assert states[0] in states;
      assert forall r :: r in states ==> r == states[0] || r in states[1..];
      MaxTrimmed(states[1..], Max(start, states[0].state.trimmedPrefix))
  }

  function WithTail(states: seq<NodeState>, tail: nat): (kept: seq<NodeState>)
    ensures forall r :: r in kept <==> r in states && tail <= r.state.localTail
  {
    if states == [] then []
    else if tail <= states[0].state.localTail then [states[0]] + WithTail(states[1..], tail)
    else WithTail(states[1..], tail)
  }

  lemma {:induction false} WithTailDistinct(states: seq<NodeState>, tail: nat)
    requires DistinctReplies(states)
    ensures DistinctReplies(WithTail(states, tail))
  {
    if states != [] {
      WithTailDistinct(states[1..], tail);
      var rest := WithTail(states[1..], tail);
      forall i | 0 <= i < |rest|
        ensures rest[i].node != states[0].node
      {
        assert rest[i] in states[1..];
      }
    }
  }

  function SealedCount(states: seq<NodeState>): (count: nat)
    ensures count <= |states|
    ensures count == |states| ==> forall r :: r in states ==> r.state.isSealed
    ensures count == 0 ==> forall r :: r in states ==> !r.state.isSealed
    ensures (forall r :: r in states ==> r.state.isSealed) ==> count == |states|
    ensures (forall r :: r in states ==> !r.state.isSealed) ==> count == 0
  {
    if states == [] then 0
    else
      assert states[0] in states;
      assert forall r :: r in states[1..] ==> r in states;
      assert forall r :: r in states ==> r == states[0] || r in states[1..];
      SealedCount(states[1..]) + if states[0].state.isSealed then 1 else 0
  }

  // ---- What the evidence shows -------------------------------------------------------------

  /** The tail over a quorum of replies is at or above everything established before they were read. */
  lemma TailCoversKnown(s: Segment, t: Segment, states: seq<NodeState>)
    requires Inv(s) && DistinctReplies(states) && RepliesHold(s, t, states)
    requires Majority(|s.members|) <= |states|
    ensures s.known <= MaxTail(states)
  {
    hide LocalTail, Inv, IsQuorum, MaxTail;
    ShapeFacts(s);
    NodesAreQuorum(s, t, states);
    QuorumReachesKnown(s);
    var n := QuorumsIntersect(s.members, Reached(s, s.known), Elements(Nodes(states)));
    var i :| 0 <= i < |states| && Nodes(states)[i] == n;
    assert states[i] in states;
    assert StateReplied(s, t, n, states[i].state);
  }

  /** A quorum of open replies means that no quorum was sealed when they were asked for. */
  lemma OpenRepliesMeanOpen(s: Segment, t: Segment, states: seq<NodeState>)
    requires DistinctReplies(states) && RepliesHold(s, t, states) && s.servers.Keys == s.members
    requires Majority(|s.members|) <= |states|
    requires forall r :: r in states ==> !r.state.isSealed
    ensures !IsQuorum(s.members, SealedServers(s))
  {
    hide LocalTail, IsQuorum;
    NodesAreQuorum(s, t, states);
    forall n | n in Elements(Nodes(states))
      ensures n !in SealedServers(s)
    {
      var i :| 0 <= i < |states| && Nodes(states)[i] == n;
      assert states[i] in states;
      assert StateReplied(s, t, n, states[i].state);
    }
    if IsQuorum(s.members, SealedServers(s)) {
      var n := QuorumsIntersect(s.members, SealedServers(s), Elements(Nodes(states)));
    }
  }

  lemma SealedQuorumStays(s: Segment, t: Segment)
    requires Inv(t) && Grows(s, t) && IsQuorum(s.members, SealedServers(s))
    ensures IsQuorum(t.members, SealedServers(t))
  {
    hide LocalTail, Inv;
    ShapeFacts(t);
    SealsStay(s, t);
    SubsetSize(SealedServers(s), SealedServers(t));
  }

  /** Copies of the maximal tail on a quorum establish it. */
  lemma CopiesEstablish(s: Segment, t: Segment, states: seq<NodeState>, tail: nat)
    requires Inv(t) && DistinctReplies(states) && RepliesHold(s, t, states) && s.members == t.members == s.servers.Keys
    requires Majority(|s.members|) <= |WithTail(states, tail)|
    ensures IsQuorum(t.members, Reached(t, tail))
  {
    hide LocalTail, Inv, WithTail;
    var kept := WithTail(states, tail);
    WithTailDistinct(states, tail);
    NodesAreQuorum(s, t, kept);
    ShapeFacts(t);
    forall n | n in Elements(Nodes(kept))
      ensures n in Reached(t, tail)
    {
      var i :| 0 <= i < |kept| && Nodes(kept)[i] == n;
      assert kept[i] in kept;
      assert StateReplied(s, t, n, kept[i].state);
    }
    SubsetSize(Elements(Nodes(kept)), Reached(t, tail));
  }

  /** A quorum of sealed replies bounds every acknowledged position by their maximal tail. */
  lemma SealedRepliesBound(s: Segment, t: Segment, states: seq<NodeState>)
    requires RepliesHold(s, t, states) && s.members == t.members == s.servers.Keys
    requires forall r :: r in states ==> r.state.isSealed
    ensures Elements(Nodes(states)) <= SealedBelow(t, MaxTail(states))
    ensures states != [] ==> exists r :: r in t.sealedReads && r.tail == MaxTail(states)
  {
    hide LocalTail;
    forall n | n in Nodes(states)
      ensures n in SealedBelow(t, MaxTail(states))
    {
      var i :| 0 <= i < |states| && Nodes(states)[i] == n;
      assert states[i] in states;
      assert StateReplied(s, t, n, states[i].state);
      assert SealedRead(n, states[i].state.localTail) in t.sealedReads;
    }
    if states != [] {
      var r := TopReply(states);
      assert StateReplied(s, t, r.node, r.state);
      assert SealedRead(r.node, r.state.localTail) in t.sealedReads;
    }
  }

  /** What lets a repair of [from, tail) over the sealed `nodes` go on: no holes below `position`. */
  ghost predicate RepairReady(s: Segment, nodes: seq<NodeId>, position: nat) {
    && IsQuorum(s.members, Elements(nodes)) && s.servers.Keys == s.members
    && (forall n :: n in nodes ==> s.servers[n].isSealed && DenseUpTo(s, n, position))
  }

  lemma RepairReadyStays(s: Segment, t: Segment, nodes: seq<NodeId>, position: nat)
    requires Inv(t) && Grows(s, t) && RepairReady(s, nodes, position)
    ensures RepairReady(t, nodes, position)
  {
    hide LocalTail, Inv;
    forall n | n in nodes
      ensures t.servers[n].isSealed && DenseUpTo(t, n, position)
    {
      assert ServerGrows(s.servers[n], t.servers[n]);
      DenseStays(s, t, n, position);
    }
  }

  /** Some responding server accounts for every position below the maximal tail. */
  lemma SomeResponderCovers(s: Segment, nodes: seq<NodeId>, top: NodeId, position: nat) returns (n: NodeId)
    requires Inv(s) && RepairReady(s, nodes, 0) && top in nodes && position < LocalTail(s.servers[top])
    ensures n in nodes && s.servers[n].Covers(position)
  {
    hide LocalTail, CopiesAssigned, KnownPut, CopiesPut, SequencerBacked, ReadsFinal;
    if position < s.known {
      assert QuorumCovered(s, position);
      n := QuorumsIntersect(s.members, Coverers(s, position), Elements(nodes));
    } else {
      assert DenseUpTo(s, top, LocalTail(s.servers[top]));
      n := top;
    }
  }

  /** A position every responder covers leaves no hole there. */
  lemma CoveredAdvances(s: Segment, nodes: seq<NodeId>, position: nat)
    requires Inv(s) && RepairReady(s, nodes, position)
    requires forall n :: n in nodes ==> s.servers[n].Covers(position)
    ensures RepairReady(s, nodes, position + 1)
  {
    hide LocalTail, Inv;
    forall n | n in nodes
      ensures DenseUpTo(s, n, position + 1)
    {
      ServerBounds(s, n);
      assert DenseUpTo(s, n, position);
    }
  }

  lemma CoverStays(s: Segment, t: Segment, nodes: seq<NodeId>, position: nat)
    requires Grows(s, t) && forall n :: n in nodes ==> n in s.servers && s.servers[n].Covers(position)
    ensures forall n :: n in nodes ==> n in t.servers && t.servers[n].Covers(position)
  {
    hide LocalTail;
    forall n | n in nodes
      ensures t.servers[n].Covers(position)
    {
      assert ServerGrows(s.servers[n], t.servers[n]);
    }
  }

  /** Server `n` holds the assigned entry at position `p`. */
  ghost predicate HoldsAssigned(s: Segment, n: NodeId, p: nat) {
    && n in s.servers && p < |s.issued|
    && p in s.servers[n].entries && s.servers[n].entries[p] == s.issued[p]
  }

  /** All responders hold the assigned entry in every position of the range. */
  ghost predicate RepairedRange(s: Segment, nodes: seq<NodeId>, from: nat, tail: nat) {
    forall n, p: nat :: n in nodes && from <= p < tail ==> HoldsAssigned(s, n, p)
  }

  /** Some server has really trimmed that far. */
  ghost predicate TrimSeen(s: Segment, watermark: nat) {
    watermark == 0 || exists n :: n in s.servers && watermark <= s.servers[n].trimmed
  }

  lemma TrimSeenStays(s: Segment, t: Segment, watermark: nat)
    requires Grows(s, t) && TrimSeen(s, watermark)
    ensures TrimSeen(t, watermark)
  {
    hide LocalTail;
    SealsStay(s, t);
  }

  lemma TrimReported(s: Segment, t: Segment, states: seq<NodeState>, start: nat)
    requires RepliesHold(s, t, states) && TrimSeen(t, start)
    ensures TrimSeen(t, MaxTrimmed(states, start))
  {
    hide LocalTail;
    var watermark := MaxTrimmed(states, start);
    if watermark != start {
      var r :| r in states && r.state.trimmedPrefix == watermark;
      assert StateReplied(s, t, r.node, r.state);
    }
  }

  lemma TrimConfirmed(s: Segment, watermark: nat, other: nat)
    requires IsQuorum(s.members, TrimmedServers(s, watermark)) && TrimSeen(s, other)
    ensures TrimSeen(s, Max(other, watermark))
  {
    var n :| n in TrimmedServers(s, watermark);
  }

  lemma NothingReplied(s: Segment, knownTail: nat)
    ensures DistinctReplies([]) && RepliesHold(s, s, []) && LearnedFrom([], knownTail, knownTail)
  {
  }

  lemma ReplyAdded(s: Segment, t: Segment, replies: seq<NodeState>, r: NodeState)
    requires DistinctReplies(replies) && RepliesHold(s, t, replies) && StateReplied(s, t, r.node, r.state)
    requires forall other :: other in replies ==> other.node != r.node
    ensures DistinctReplies(replies + [r]) && RepliesHold(s, t, replies + [r])
  {
    hide LocalTail, StateReplied;
  }

  /** The known tail has risen to the highest one reported, if at all. */
  ghost predicate LearnedFrom(replies: seq<NodeState>, before: nat, after: nat) {
    && (forall r :: r in replies ==> r.state.knownTail <= after)
    && (after == before || exists r :: r in replies && r.state.knownTail == after)
  }

  lemma LearnedNext(replies: seq<NodeState>, before: nat, knew: nat, r: NodeState)
    ensures LearnedFrom(replies, before, knew) ==>
      LearnedFrom(replies + [r], before, Max(knew, r.state.knownTail))
  {
    assert r in replies + [r];
    assert forall other :: other in replies ==> other in replies + [r];
  }

  lemma RepliesUp(replies: seq<NodeState>, down: set<NodeId>)
    requires forall r :: r in replies ==> r.node !in down
    ensures forall n :: n in Nodes(replies) ==> n !in down
  {
    forall n | n in Nodes(replies)
      ensures n !in down
    {
      var i :| 0 <= i < |replies| && Nodes(replies)[i] == n;
      assert replies[i] in replies;
    }
  }

  // ---- The client --------------------------------------------------------------------------

  class NativeLogletClient {
    const members: seq<NodeId>
    const quorum: nat
    const network: Network
    var knownTail: nat
    var trimmedPrefix: nat

    /** Nothing the client believes runs ahead of what is established. */
    ghost predicate Valid()
      reads this, network
    {
      && Inv(network.seg)
      && ValidateFixedMembers(members) && Elements(members) == network.seg.members && quorum == Majority(|members|)
      && knownTail <= network.seg.known && trimmedPrefix <= network.seg.known
      && (network.calm ==> network.quiet)
    }

    constructor (members: seq<NodeId>, network: Network)
      requires ValidateFixedMembers(members) && Inv(network.seg) && Elements(members) == network.seg.members
      requires network.calm ==> network.quiet
      ensures Valid() && this.network == network && knownTail == 0 == trimmedPrefix
    {
      this.members := members;
      this.quorum := Majority(|members|);
      this.network := network;
      knownTail, trimmedPrefix := 0, 0;
    }

    /** A quorum of the members is not down. */
    ghost predicate QuorumUp() {
      quorum <= |UpAmong(members, network.down)|
    }

    ghost predicate AllUp(nodes: seq<NodeId>) {
      forall n :: n in nodes ==> n !in network.down
    }

    method ObserveKnownTail(tail: nat)
      requires Valid() && tail <= network.seg.known
      modifies this`knownTail
      ensures Valid() && knownTail == Max(old(knownTail), tail)
    {
      hide Inv, ValidateFixedMembers;
      knownTail := Max(knownTail, tail);
    }

    /** Seals every reachable member; fails without a quorum of confirmations. */
    method Seal() returns (done: bool)
      requires Valid()
      modifies network, this`knownTail
      ensures Valid() && Interference(old(network.seg), network.seg, false, network.quiet)
      ensures old(knownTail) <= knownTail
      ensures done ==> IsQuorum(network.seg.members, SealedServers(network.seg))
      ensures network.calm ==> (done <==> QuorumUp())
      ensures network.whole ==> done && SameCopies(old(network.seg), network.seg) && AllSealed(network.seg)
    {
      hide Inv, Grows, Interference, ServerGrows, LocalTail, SameCopies, IsQuorum, SealedServers, UpAmong,
        SealConfirmations;
      UpAmongNone(network.down);
      ghost var s0 := network.seg;
      InterferenceReflexive(s0, false, network.quiet);
      CopiesReflexive(s0);
      ShapeFacts(s0);
      SizeDistinct(members);
      var confirmed: seq<NodeId> := [];
      var asked := knownTail;
      NobodyConfirmed(s0);
      for i := 0 to |members|
        invariant Valid() && Interference(s0, network.seg, false, network.quiet) && old(knownTail) <= knownTail
        invariant asked <= network.seg.known
        invariant SealConfirmations(network.seg, members[..i], confirmed)
        invariant network.calm ==> |confirmed| == |UpAmong(members[..i], network.down)|
        invariant network.whole ==> SameCopies(s0, network.seg) && confirmed == members[..i]
      {
        ghost var s := network.seg;
        assert members[i] in members && members[i] !in members[..i];
        assert members[..i + 1] == members[..i] + [members[i]];
        UpAmongLonger(members[..i], members[i], network.down);
        var answered := SealMember(members[i], asked, s0);
        ConfirmSeal(s, network.seg, members[..i], confirmed, members[i], answered);
        if answered {
          confirmed := confirmed + [members[i]];
        }
      }
      assert members[..|members|] == members;
      SealConcluded(network.seg, members, confirmed);
      done := quorum <= |confirmed|;
    }

    method SealMember(node: NodeId, asked: nat, ghost s0: Segment) returns (answered: bool)
      requires Valid() && Interference(s0, network.seg, false, network.quiet) && node in members
      requires asked <= network.seg.known
      modifies network, this`knownTail
      ensures Valid() && Interference(s0, network.seg, false, network.quiet) && old(knownTail) <= knownTail
      ensures Grows(old(network.seg), network.seg) && asked <= network.seg.known
      ensures answered ==> node in network.seg.servers && network.seg.servers[node].isSealed
      ensures network.calm ==> (answered <==> node !in network.down)
      ensures network.whole && SameCopies(s0, old(network.seg)) ==> answered && SameCopies(s0, network.seg)
    {
      hide Inv, Grows, Interference, ServerGrows, LocalTail, SameCopies;
      ghost var s := network.seg;
      ShapeFacts(s);
      var reply := network.SealServer(node, asked);
      InterferenceGives(s, network.seg, false, network.quiet);
      InterferenceTransitive(s0, s, network.seg, false, network.quiet);
      answered := reply.Some?;
      if network.whole && SameCopies(s0, s) {
        SealServed(s0, s, network.seg, node, asked);
      }
      if reply.Some? {
        ObserveKnownTail(reply.value.knownTail);
      }
    }

    /** Trims a prefix the caller knows to be established; returns the watermark a quorum confirmed. */
    method PrefixTrim(trimPosition: nat) returns (watermark: Option<nat>)
      requires Valid() && trimPosition <= network.seg.known
      modifies network, this`trimmedPrefix
      ensures Valid() && Interference(old(network.seg), network.seg, false, false)
      ensures old(trimmedPrefix) <= trimmedPrefix
      ensures TrimSeen(old(network.seg), old(trimmedPrefix)) ==> TrimSeen(network.seg, trimmedPrefix)
      ensures watermark.Some? ==>
        && trimPosition <= watermark.value <= trimmedPrefix
        && IsQuorum(network.seg.members, TrimmedServers(network.seg, watermark.value))
      ensures watermark.None? ==> trimmedPrefix == old(trimmedPrefix)
      ensures network.calm ==> (watermark.Some? <==> QuorumUp())
      ensures network.whole ==>
        && TrimmedAll(old(network.seg), network.seg, members, trimPosition)
        && watermark.Some? && LowestTrim(network.seg, watermark.value)
        && trimmedPrefix == Max(old(trimmedPrefix), watermark.value)
    {
      hide Inv, Grows, Interference, ServerGrows, LocalTail, TrimSeen, TrimmedServers, TrimmedAll,
        LogletStore.PrefixTrim, IsQuorum, TrimmedHere, LowestTrim, UpAmong, Confirmations, TrimmedSoFar;
      UpAmongNone(network.down);
      ghost var s0 := network.seg;
      InterferenceReflexive(s0, false, false);
      NothingTrimmed(s0, trimPosition);
      ShapeFacts(s0);
      SizeDistinct(members);
      var confirmed: seq<NodeId> := [];
      var lowest: nat := 0;
      for i := 0 to |members|
        invariant Valid() && Interference(s0, network.seg, false, false)
        invariant trimPosition <= network.seg.known && trimmedPrefix == old(trimmedPrefix)
        invariant confirmed != [] ==> trimPosition <= lowest <= network.seg.known
        invariant Confirmations(network.seg, members[..i], confirmed, lowest)
        invariant network.calm ==> |confirmed| == |UpAmong(members[..i], network.down)|
        invariant network.whole ==> TrimmedSoFar(s0, network.seg, members[..i], trimPosition, confirmed, lowest)
      {
        ghost var s, before, least := network.seg, confirmed, lowest;
        assert members[i] in members && members[i] !in members[..i];
        assert members[..i + 1] == members[..i] + [members[i]];
        UpAmongLonger(members[..i], members[i], network.down);
        var reply := TrimMember(members[i], trimPosition, s0);
        ConfirmOne(s, network.seg, members[..i], before, least, members[i], reply);
        if reply.Some? {
          lowest := if confirmed == [] || reply.value < lowest then reply.value else lowest;
          confirmed := confirmed + [members[i]];
        }
        if network.whole {
          TrimServed(s0, s, network.seg, members[..i], trimPosition, before, least, members[i]);
        }
      }
      assert members[..|members|] == members;
      CountedMembers(members);
      TrimConcluded(s0, network.seg, members, confirmed, lowest, trimmedPrefix, trimPosition);
      if |confirmed| < quorum {
        return None;
      }
      trimmedPrefix := Max(trimmedPrefix, lowest);
      watermark := Some(lowest);
    }

    method TrimMember(node: NodeId, trimPosition: nat, ghost s0: Segment) returns (watermark: Option<nat>)
      requires Valid() && Interference(s0, network.seg, false, false) && node in members
      requires trimPosition <= network.seg.known
      modifies network
      ensures Valid() && Interference(s0, network.seg, false, false)
      ensures Grows(old(network.seg), network.seg) && old(network.seg).known <= network.seg.known
      ensures node in network.seg.servers && node in old(network.seg).servers
      ensures watermark.Some? ==> trimPosition <= watermark.value <= network.seg.servers[node].trimmed
      ensures watermark.Some? ==> watermark.value <= network.seg.known
      ensures network.calm ==> (watermark.Some? <==> node !in network.down)
      ensures network.whole ==>
        && Served(old(network.seg), network.seg, node,
                  LogletStore.PrefixTrim(old(network.seg).servers[node], trimPosition))
        && watermark == Some(network.seg.servers[node].trimmed)
    {
      hide Inv, Grows, Interference, ServerGrows, LocalTail, LogletStore.PrefixTrim;
      ghost var s := network.seg;
      ShapeFacts(s);
      var reply := network.TrimServer(node, trimPosition);
      InterferenceGives(s, network.seg, false, false);
      InterferenceTransitive(s0, s, network.seg, false, false);
      watermark := if reply.Some? then Some(reply.value.trimmedPrefix) else None;
    }

    /** Asks every member for its state; without a quorum of answers there is none. */
    method ReadStates() returns (states: Option<seq<NodeState>>)
      requires Valid()
      modifies network, this`knownTail
      ensures Valid() && Interference(old(network.seg), network.seg, false, network.quiet)
      ensures old(knownTail) <= knownTail
      ensures states.Some? ==>
        && DistinctReplies(states.value) && quorum <= |states.value|
        && RepliesHold(old(network.seg), network.seg, states.value)
      ensures network.calm ==> (states.Some? <==> QuorumUp()) && (states.Some? ==> AllUp(Nodes(states.value)))
      ensures network.whole ==>
        && SameAnswers(old(network.seg), network.seg) && network.seg.known == old(network.seg).known
        && states.Some? && ReadExactly(network.seg, members, states.value)
        && LearnedFrom(states.value, old(knownTail), knownTail)
    {
      hide Inv, Grows, Interference, ServerGrows, LocalTail, StateReplied, SameAnswers, ReadExactly, UpAmong,
        DistinctReplies, RepliesHold, Nodes, LearnedFrom;
      ghost var s0 := network.seg;
      AnswersReflexive(s0);
      NothingRead(s0);
      NothingReplied(s0, knownTail);
      UpAmongNone(network.down);
      InterferenceReflexive(s0, false, network.quiet);
      SizeDistinct(members);
      var replies: seq<NodeState> := [];
      var asked := knownTail;
      for i := 0 to |members|
        invariant Valid() && Interference(s0, network.seg, false, network.quiet) && old(knownTail) <= knownTail
        invariant asked <= network.seg.known
        invariant DistinctReplies(replies) && RepliesHold(s0, network.seg, replies)
        invariant forall r :: r in replies ==> r.node in members[..i]
        invariant network.calm ==>
          && |replies| == |UpAmong(members[..i], network.down)|
          && forall r :: r in replies ==> r.node !in network.down
        invariant network.whole ==>
          && SameAnswers(s0, network.seg) && network.seg.known == s0.known
          && ReadExactly(network.seg, members[..i], replies)
          && LearnedFrom(replies, old(knownTail), knownTail)
      {
        ghost var s, before, knew := network.seg, replies, knownTail;
        assert members[..i + 1] == members[..i] + [members[i]];
        assert members[i] in members && members[i] !in members[..i];
        UpAmongLonger(members[..i], members[i], network.down);
        var reply := AskState(members[i], asked, s0, replies);
        if reply.Some? {
          ReplyAdded(s0, network.seg, before, NodeState(members[i], reply.value));
          replies := replies + [NodeState(members[i], reply.value)];
          LearnedNext(before, old(knownTail), knew, NodeState(members[i], reply.value));
        }
        if network.whole {
          ReadServed(s0, s, network.seg, members[..i], before, members[i], asked);
        }
      }
      assert members[..|members|] == members;
      ReadAll(network.seg, members, replies);
      if network.calm {
        RepliesUp(replies, network.down);
      }
      states := if |replies| < quorum then None else Some(replies);
    }

    method AskState(node: NodeId, asked: nat, ghost s0: Segment, ghost replies: seq<NodeState>)
      returns (reply: Option<LogServerState>)
      requires Valid() && Interference(s0, network.seg, false, network.quiet) && node in members
      requires asked <= network.seg.known && RepliesHold(s0, network.seg, replies) && Inv(s0)
      modifies network, this`knownTail
      ensures Valid() && Interference(s0, network.seg, false, network.quiet) && asked <= network.seg.known
      ensures RepliesHold(s0, network.seg, replies) && node in old(network.seg).servers
      ensures reply.Some? ==> StateReplied(s0, network.seg, node, reply.value)
      ensures knownTail == if reply.Some? then Max(old(knownTail), reply.value.knownTail) else old(knownTail)
      ensures network.calm ==> (reply.Some? <==> node !in network.down)
      ensures network.whole ==>
        && Served(old(network.seg), network.seg, node, Observe(old(network.seg).servers[node], asked))
        && reply == Some(StateOf(network.seg.servers[node]))
    {
      hide Inv, Grows, Interference, ServerGrows, LocalTail, StateReplied, Observe, StateOf;
      ghost var s := network.seg;
      ShapeFacts(s);
      reply := network.ReadState(node, asked);
      InterferenceGives(s0, s, false, network.quiet);
      InterferenceGives(s, network.seg, false, network.quiet);
      InterferenceTransitive(s0, s, network.seg, false, network.quiet);
      GrowsReflexive(s0);
      RepliesHoldLonger(s0, s0, s, network.seg, replies);
      if reply.Some? {
        ghost var one := [NodeState(node, reply.value)];
        GrowsReflexive(network.seg);
        RepliesHoldLonger(s0, s, network.seg, network.seg, one);
        assert one[0] in one;
        ReplyBounds(s0, network.seg, node, reply.value);
        ObserveKnownTail(reply.value.knownTail);
      }
    }

    /** Reads one position at every responder. */
    method CollectCopies(position: nat, nodes: seq<NodeId>) returns (copies: Option<seq<LogEntry>>)
      requires Valid() && RepairReady(network.seg, nodes, position)
      modifies network
      ensures Valid() && Interference(old(network.seg), network.seg, false, network.quiet)
      ensures RepairReady(network.seg, nodes, position)
      ensures copies.Some? ==> Collected(old(network.seg), network.seg, nodes, position, copies.value)
      ensures network.calm && AllUp(nodes) ==> copies.Some?
    {
      hide Inv, Grows, Interference, ServerGrows, LocalTail, DenseUpTo;
      ghost var s0 := network.seg;
      InterferenceReflexive(s0, false, network.quiet);
      var found: seq<LogEntry> := [];
      for i := 0 to |nodes|
        invariant Valid() && Interference(s0, network.seg, false, network.quiet)
        invariant RepairReady(network.seg, nodes, position)
        invariant Collected(s0, network.seg, nodes[..i], position, found)
      {
        ghost var s := network.seg;
        var outcome := network.Get(nodes[i], position, knownTail);
        InterferenceGives(s0, s, false, network.quiet);
        InterferenceGives(s, network.seg, false, network.quiet);
        InterferenceTransitive(s0, s, network.seg, false, network.quiet);
        RepairReadyStays(s, network.seg, nodes, position);
        if outcome.Unreachable? {
          return None;
        }
        CollectOne(s0, s, network.seg, nodes, i, position, found, outcome.entry);
        if outcome.entry.Some? {
          found := found + [outcome.entry.value];
        }
      }
      assert nodes[..|nodes|] == nodes;
      copies := Some(found);
    }

    /** Gives the position to every responder that lacks it. */
    method FillPosition(position: nat, canonical: LogEntry, nodes: seq<NodeId>) returns (outcome: RepairOutcome)
      requires Valid() && RepairReady(network.seg, nodes, position)
      requires position < |network.seg.issued| && canonical == network.seg.issued[position]
      requires Repairable(network.seg, position)
      modifies network
      ensures Valid() && Interference(old(network.seg), network.seg, false, network.quiet)
      ensures outcome == Repaired || outcome == ConnectionLost || outcome == TrimmedMeanwhile
      ensures outcome == Repaired ==> RepairReady(network.seg, nodes, position + 1)
      ensures outcome == Repaired ==> forall n :: n in nodes ==> network.seg.servers[n].Covers(position)
      ensures outcome == TrimmedMeanwhile ==> exists n :: n in nodes && position < network.seg.servers[n].trimmed
      ensures network.calm && AllUp(nodes) ==> outcome != ConnectionLost
    {
      hide Inv, Grows, Interference, ServerGrows, LocalTail, DenseUpTo;
      ghost var s0 := network.seg;
      InterferenceReflexive(s0, false, network.quiet);
      ShapeFacts(s0);
      for i := 0 to |nodes|
        invariant Valid() && Interference(s0, network.seg, false, network.quiet)
        invariant RepairReady(network.seg, nodes, position)
        invariant s0.issued <= network.seg.issued
        invariant Repairable(network.seg, position)
        invariant forall n :: n in nodes[..i] ==> n in network.seg.servers && network.seg.servers[n].Covers(position)
      {
        ghost var s := network.seg;
        var current := network.Get(nodes[i], position, knownTail);
        StepOn(s0, s, network.seg, nodes, i, position);
        if current.Unreachable? {
          return ConnectionLost;
        }
        if current.entry.None? {
          ghost var t := network.seg;
          DenseAt(t, nodes, i, position);
          var written := network.RepairServer(nodes[i], canonical, knownTail);
          StepOn(s0, t, network.seg, nodes, i, position);
          if written.None? {
            return ConnectionLost;
          }
          if written.value != Stored {
            return TrimmedMeanwhile;
          }
        }
      }
      assert nodes[..|nodes|] == nodes;
      CoveredAdvances(network.seg, nodes, position);
      outcome := Repaired;
    }

    /** Everything one step of a loop over the responders needs to carry on. */
    lemma StepOn(s0: Segment, s: Segment, t: Segment, nodes: seq<NodeId>, i: nat, position: nat)
      requires Interference(s0, s, false, network.quiet) && Interference(s, t, false, network.quiet)
      requires RepairReady(s, nodes, position) && i <= |nodes|
      requires Repairable(s, position)
      requires forall n :: n in nodes[..i] ==> n in s.servers && s.servers[n].Covers(position)
      ensures Interference(s0, t, false, network.quiet) && RepairReady(t, nodes, position)
      ensures Repairable(t, position)
      ensures forall n :: n in nodes[..i] ==> n in t.servers && t.servers[n].Covers(position)
      ensures Inv(t) && t.members == s.members && s.known <= t.known && s.issued <= t.issued
    {
      hide Inv, Grows, Interference, ServerGrows, LocalTail, DenseUpTo;
      InterferenceTransitive(s0, s, t, false, network.quiet);
      InterferenceGives(s, t, false, network.quiet);
      RepairReadyStays(s, t, nodes, position);
      CoverStays(s, t, nodes[..i], position);
      RepairableStays(s, t, position);
    }

    method RepairPosition(position: nat, nodes: seq<NodeId>) returns (outcome: RepairOutcome)
      requires Valid() && RepairReady(network.seg, nodes, position) && trimmedPrefix <= position
      requires exists top :: top in nodes && position < LocalTail(network.seg.servers[top])
      requires network.quiet ==> TrimsBelow(network.seg, nodes, trimmedPrefix)
      modifies network
      ensures Valid() && Interference(old(network.seg), network.seg, false, network.quiet)
      ensures outcome != ConflictingEntries
      ensures network.quiet ==> outcome == Repaired || outcome == ConnectionLost
      ensures outcome == Repaired ==> RepairReady(network.seg, nodes, position + 1)
      ensures outcome == Repaired ==> forall n :: n in nodes ==> network.seg.servers[n].Covers(position)
      ensures network.calm && AllUp(nodes) ==> outcome == Repaired
    {
      hide Inv, Grows, Interference, ServerGrows, LocalTail, DenseUpTo, RepairReady;
      ghost var s0 := network.seg;
      var copies := CollectCopies(position, nodes);
      ghost var s1 := network.seg;
      InterferenceGives(s0, s1, false, network.quiet);
      if copies.None? {
        return ConnectionLost;
      }
      if copies.value == [] {
        NoCopyMeansTrim(s0, s1, nodes, position, trimmedPrefix);
        return TailUnavailable;
      }
      var canonical := copies.value[0];
      if exists i | 1 <= i < |copies.value| :: copies.value[i] != canonical {
        CopiesIdentical(s0, s1, nodes, position, copies.value);
        return ConflictingEntries;
      }
      assert canonical in copies.value;
      outcome := FillPosition(position, canonical, nodes);
      InterferenceTransitive(s0, s1, network.seg, false, network.quiet);
      InterferenceGives(s0, network.seg, false, network.quiet);
    }

    /** Repairs [trimmedPrefix, tail) on all responders, lowest position first. */
    method RepairThrough(tail: nat, nodes: seq<NodeId>) returns (outcome: RepairOutcome)
      requires Valid() && RepairReady(network.seg, nodes, 0)
      requires exists top :: top in nodes && tail <= LocalTail(network.seg.servers[top])
      requires network.quiet ==> TrimsBelow(network.seg, nodes, trimmedPrefix)
      modifies network
      ensures Valid() && Interference(old(network.seg), network.seg, false, network.quiet)
      ensures outcome != ConflictingEntries
      ensures network.quiet ==> outcome == Repaired || outcome == ConnectionLost
      ensures outcome == Repaired ==> RepairReady(network.seg, nodes, tail)
      ensures network.quiet && outcome == Repaired ==> RepairedRange(network.seg, nodes, trimmedPrefix, tail)
      ensures network.calm && AllUp(nodes) ==> outcome == Repaired
    {
      hide Inv, Grows, Interference, ServerGrows, LocalTail, DenseUpTo, RepairReady, RepairedRange;
      ghost var s0 := network.seg;
      InterferenceReflexive(s0, false, network.quiet);
      var position := trimmedPrefix;
      ReadyBelowKnown(s0, nodes, trimmedPrefix);
      NothingToRepair(s0, nodes, trimmedPrefix, trimmedPrefix);
      if tail <= trimmedPrefix {
        ReadyBelowKnown(s0, nodes, tail);
        NothingToRepair(s0, nodes, trimmedPrefix, tail);
      }
      while position < tail
        invariant Valid() && Interference(s0, network.seg, false, network.quiet)
        invariant trimmedPrefix <= position && (position <= tail || position == trimmedPrefix)
        invariant RepairReady(network.seg, nodes, position)
        invariant tail <= trimmedPrefix ==> RepairReady(network.seg, nodes, tail)
        invariant network.quiet ==> RepairedRange(network.seg, nodes, trimmedPrefix, position)
        invariant tail <= trimmedPrefix ==> network.seg == s0
      {
        ghost var s := network.seg;
        TopStays(s0, s, nodes, tail, trimmedPrefix, network.quiet);
        outcome := RepairPosition(position, nodes);
        InterferenceTransitive(s0, s, network.seg, false, network.quiet);
        if outcome != Repaired {
          return;
        }
        RangeGrows(s, network.seg, nodes, trimmedPrefix, position, network.quiet);
        position := position + 1;
      }
      outcome := Repaired;
    }
  
    /** Waits for one tail or seal notification; which server answers first is not determined. */
    method WaitForProgress() returns (notified: bool)
      requires Valid()
      modifies network, this`knownTail
      ensures Valid() && Interference(old(network.seg), network.seg, false, network.quiet)
      ensures network.calm ==> (notified <==> exists n :: n in members && n !in network.down)
      ensures network.whole ==> notified && SameAnswers(old(network.seg), network.seg)
      ensures old(knownTail) <= knownTail
    {
      hide Inv, Grows, Interference, ServerGrows, LocalTail, StateReplied;
      ghost var s0 := network.seg;
      ShapeFacts(s0);
      InterferenceReflexive(s0, false, network.quiet);
      for i := 0 to |members|
        invariant Valid() && Interference(s0, network.seg, false, network.quiet)
        invariant network.calm ==> forall n :: n in members[..i] ==> n in network.down
        invariant network.whole ==> i == 0 && network.seg == s0
        invariant knownTail == old(knownTail)
      {
        ghost var s := network.seg;
        ShapeFacts(s);
        assert members[i] in members;
        var reply := network.ReadState(members[i], knownTail);
        InterferenceGives(s, network.seg, false, network.quiet);
        InterferenceTransitive(s0, s, network.seg, false, network.quiet);
        if reply.Some? {
          ReplyBounds(s, network.seg, members[i], reply.value);
          ObserveKnownTail(reply.value.knownTail);
          return true;
        }
      }
      notified := false;
    }

    /** All responders sealed: repair up to their maximal tail, then that tail stands. */
    method FinishSealed(states: seq<NodeState>, ghost s0: Segment) returns (outcome: CheckOutcome)
      requires Valid() && DistinctReplies(states) && quorum <= |states|
      requires Grows(s0, network.seg) && Inv(s0) && RepliesHold(s0, network.seg, states)
      requires forall r :: r in states ==> r.state.isSealed && r.state.trimmedPrefix <= trimmedPrefix
      requires network.quiet ==> SameTrims(s0, network.seg)
      modifies network, this`knownTail
      ensures Valid() && Interference(old(network.seg), network.seg, false, network.quiet)
      ensures outcome.TailFound? || outcome.RepairFailed?
      ensures outcome.TailFound? ==>
        && outcome == TailFound(MaxTail(states), true)
        && outcome.tail <= network.seg.known && outcome.tail in network.seg.sealedTails
        && IsQuorum(network.seg.members, Elements(Nodes(states)))
        && (network.quiet ==> RepairedRange(network.seg, Nodes(states), trimmedPrefix, outcome.tail))
      ensures outcome.RepairFailed? ==> outcome.why != ConflictingEntries
      ensures network.quiet && outcome.RepairFailed? ==> outcome.why == ConnectionLost
      ensures network.calm && AllUp(Nodes(states)) ==> outcome.TailFound?
    {
      hide Inv, Grows, Interference, ServerGrows, LocalTail, StateReplied, RepairReady, RepairedRange, SealedBelow,
        DenseUpTo;
      ghost var s1 := network.seg;
      var tail := MaxTail(states);
      var nodes := Nodes(states);
      SameMembers(s0, s1);
      SealedReady(s0, s1, states, trimmedPrefix);
      var repaired := RepairThrough(tail, nodes);
      ghost var s2 := network.seg;
      InterferenceGives(s1, s2, false, network.quiet);
      if repaired != Repaired {
        return RepairFailed(repaired);
      }
      GrowsReflexive(s0);
      RepliesHoldLonger(s0, s0, s1, s2, states);
      GrowsTransitive(s0, s1, s2);
      SealedTailEnabled(s0, s2, states);
      ghost var action := SealedTailAction(Elements(nodes), tail);
      OthersInterfere(s2, action, false, network.quiet);
      network.seg := network.seg.(known := Max(network.seg.known, tail),
                                  sealedTails := network.seg.sealedTails + {tail});
      InterferenceTransitive(s1, s2, network.seg, false, network.quiet);
      InterferenceGives(s1, network.seg, false, network.quiet);
      RangeSame(s2, network.seg, nodes, trimmedPrefix, tail);
      ObserveKnownTail(tail);
      outcome := TailFound(tail, true);
    }

    lemma QuorumHasSomebody()
      requires Valid()
      ensures QuorumUp() ==> exists n :: n in members && n !in network.down
    {
      hide Inv;
      CountedMembers(members);
      if QuorumUp() {
        assert UpAmong(members, network.down)[0] in UpAmong(members, network.down);
      }
    }

    /** One more request behind us. */
    lemma CarryOn(s0: Segment, s: Segment, t: Segment)
      requires Interference(s0, s, false, network.quiet) && Interference(s, t, false, network.quiet)
      ensures Interference(s0, t, false, network.quiet)
      ensures TrimSeen(s, trimmedPrefix) ==> TrimSeen(t, trimmedPrefix)
    {
      hide Inv, Grows, Interference, TrimSeen;
      InterferenceTransitive(s0, s, t, false, network.quiet);
      InterferenceGives(s, t, false, network.quiet);
      if TrimSeen(s, trimmedPrefix) {
        TrimSeenStays(s, t, trimmedPrefix);
      }
    }

    /** One look at every server's state, with what it shows. */
    method Look(ghost s0: Segment, ghost round: nat, ghost asked: nat) returns (states: Option<seq<NodeState>>)
      requires Valid() && Inv(s0) && Interference(s0, network.seg, false, network.quiet)
      requires network.whole ==> CalmSoFar(s0, network.seg, round, asked)
      modifies network, this
      ensures Valid() && Interference(s0, network.seg, false, network.quiet)
      ensures Interference(old(network.seg), network.seg, false, network.quiet)
      ensures old(knownTail) <= knownTail && old(trimmedPrefix) <= trimmedPrefix
      ensures TrimSeen(old(network.seg), old(trimmedPrefix)) ==> TrimSeen(network.seg, trimmedPrefix)
      ensures states.Some? ==>
        && DistinctReplies(states.value) && quorum <= |states.value|
        && RepliesHold(old(network.seg), network.seg, states.value)
        && (forall r :: r in states.value ==> r.state.trimmedPrefix <= trimmedPrefix)
        && old(network.seg).known <= MaxTail(states.value)
      ensures network.calm ==> (states.Some? <==> QuorumUp()) && (states.Some? ==> AllUp(Nodes(states.value)))
      ensures network.whole ==>
        && states.Some? && ReadExactly(network.seg, members, states.value)
        && LearnedFrom(states.value, old(knownTail), knownTail)
        && HighestTail(s0, MaxTail(states.value)) && SameCopies(s0, network.seg)
        && (!SomeSealed(s0) ==> SealedCount(states.value) == 0 && SameAnswers(s0, network.seg))
        && (SomeSealed(s0) ==>
              0 < SealedCount(states.value) && (0 < round ==> SealedCount(states.value) == |states.value|))
    {
      hide Inv, Grows, Interference, ServerGrows, LocalTail, StateReplied, TrimSeen, SameCopies, SameAnswers,
        ReadExactly, SomeSealed, HighestTail, SealedCount, MaxTail, CalmSoFar, ValidateFixedMembers, UpAmong, Nodes,
        LearnedFrom;
      ghost var s1 := network.seg;
      states := ReadStates();
      ghost var s2 := network.seg;
      InterferenceTransitive(s0, s1, s2, false, network.quiet);
      InterferenceGives(s1, s2, false, network.quiet);
      if TrimSeen(s1, trimmedPrefix) {
        TrimSeenStays(s1, s2, trimmedPrefix);
      }
      if states.None? {
        return;
      }
      if network.whole {
        ShapeFacts(s0);
        InterferenceGives(s0, s2, false, network.quiet);
        CalmRead(s0, s1, s2, members, states.value, round, asked);
      }
      TrimmedKnown(s1, s2, states.value);
      if TrimSeen(s2, trimmedPrefix) {
        TrimReported(s1, s2, states.value, trimmedPrefix);
      }
      trimmedPrefix := MaxTrimmed(states.value, trimmedPrefix);
      CountedMembers(members);
      TailCoversKnown(s1, s2, states.value);
    }

    /**
     The three-state check: some sealed means finish the seal and look again; all sealed means repair;
     none sealed means wait until the maximal tail is known or on a quorum. `rounds` bounds the loop.
     */
    method CheckTail(rounds: nat) returns (outcome: CheckOutcome)
      requires Valid()
      modifies network, this
      ensures Valid() && Interference(old(network.seg), network.seg, false, network.quiet)
      ensures TrimSeen(old(network.seg), old(trimmedPrefix)) ==> TrimSeen(network.seg, trimmedPrefix)
      ensures outcome.TailFound? ==>
        && old(network.seg).known <= outcome.tail <= network.seg.known
        && (forall p :: p in old(network.seg).acked || p in old(network.seg).shortcutAcked ==> p < outcome.tail)
        && (forall q :: 0 <= q < outcome.tail ==> QuorumCovered(network.seg, q))
        && (outcome.isSealed ==> outcome.tail in network.seg.sealedTails)
        && (!outcome.isSealed ==> !IsQuorum(old(network.seg).members, SealedServers(old(network.seg))))
        && (outcome.isSealed && network.quiet ==> exists nodes ::
              && IsQuorum(network.seg.members, Elements(nodes))
              && RepairedRange(network.seg, nodes, trimmedPrefix, outcome.tail))
      ensures outcome.RepairFailed? ==> outcome.why != ConflictingEntries
      ensures network.quiet && outcome.RepairFailed? ==> outcome.why == ConnectionLost
      ensures network.calm && !QuorumUp() && 0 < rounds ==> outcome == NoQuorum
      ensures network.calm && QuorumUp() ==> outcome.TailFound? || outcome == StillWaiting
      ensures network.whole && 2 <= rounds ==> CheckedCalmly(old(network.seg), outcome, old(knownTail))
    {
      hide Inv, Grows, Interference, ServerGrows, LocalTail, StateReplied, RepairedRange, QuorumCovered, Reached,
        TrimSeen, SameCopies, SameAnswers, ReadExactly, AllSealed, SomeSealed, HighestTail, NotVouchedFor,
        SealedCount, MaxTail, WithTail, CalmSoFar, CheckedCalmly, IsQuorum, UpAmong, Nodes, LearnedFrom,
        NativeLogletClient.QuorumUp, NativeLogletClient.AllUp, ValidateFixedMembers, DistinctReplies, RepliesHold;
      QuorumHasSomebody();
      CountedMembers(members);
      ghost var s0 := network.seg;
      ShapeFacts(s0);
      InterferenceReflexive(s0, false, network.quiet);
      CalmStart(s0, old(knownTail));
      for round := 0 to rounds
        invariant network.whole ==> CalmSoFar(s0, network.seg, round, old(knownTail))
        invariant network.calm && !QuorumUp() ==> round == 0
        invariant old(knownTail) <= knownTail
        invariant Valid() && Interference(s0, network.seg, false, network.quiet)
        invariant TrimSeen(s0, old(trimmedPrefix)) ==> TrimSeen(network.seg, trimmedPrefix)
      {
        ghost var s1 := network.seg;
        InterferenceGives(s0, s1, false, network.quiet);
        ghost var knew := knownTail;
        var states := Look(s0, round, old(knownTail));
        ghost var s2 := network.seg;
        InterferenceGives(s1, s2, false, network.quiet);
        if states.None? {
          return NoQuorum;
        }
        var sealedCount := SealedCount(states.value);
        if 0 < sealedCount < |states.value| {
          var done := Seal();
          CarryOn(s0, s2, network.seg);
          if !done {
            return NoQuorum;
          }
          if network.whole {
            CalmSealed(s0, s2, network.seg, round + 1, old(knownTail));
          }
        } else if sealedCount == |states.value| {
          outcome := FinishSealed(states.value, s1);
          CarryOn(s0, s2, network.seg);
          if outcome.TailFound? {
            EstablishedFacts(s0, network.seg, outcome.tail);
          }
          CalmlyDone(s0, outcome, old(knownTail));
          return;
        } else {
          var settled := SettleOpen(states.value, s0, s1);
          if settled {
            CalmlyDone(s0, TailFound(MaxTail(states.value), false), old(knownTail));
            return TailFound(MaxTail(states.value), false);
          }
          ghost var known := knownTail;
          var notified := WaitForProgress();
          CarryOn(s0, s2, network.seg);
          if !notified {
            return NoQuorum;
          }
          if network.whole {
            CalmWaits(s0, s2, network.seg, members, states.value, round + 1, old(knownTail), knew, known);
          }
        }
      }
      CalmlyWaiting(s0, network.seg, rounds, old(knownTail));
      outcome := StillWaiting;
    }

    /** With no seal in sight the maximal tail stands if it is 0, already known, or held by a quorum. */
    method SettleOpen(states: seq<NodeState>, ghost s0: Segment, ghost s1: Segment) returns (settled: bool)
      requires Valid() && Inv(s0) && Inv(s1) && Grows(s0, s1) && Interference(s0, network.seg, false, network.quiet)
      requires DistinctReplies(states) && RepliesHold(s1, network.seg, states) && Grows(s1, network.seg)
      requires quorum <= |states| && SealedCount(states) == 0 && s0.known <= MaxTail(states)
      modifies network, this`knownTail
      ensures Valid() && Interference(s0, network.seg, false, network.quiet)
      ensures TrimSeen(old(network.seg), trimmedPrefix) ==> TrimSeen(network.seg, trimmedPrefix)
      ensures settled <==> MaxTail(states) == 0 || MaxTail(states) <= old(knownTail)
                           || quorum <= |WithTail(states, MaxTail(states))|
      ensures !settled ==> network.seg == old(network.seg) && knownTail == old(knownTail)
      ensures settled ==>
        var tail := MaxTail(states);
        && s0.known <= tail <= network.seg.known
        && (forall p :: p in s0.acked || p in s0.shortcutAcked ==> p < tail)
        && (forall q :: 0 <= q < tail ==> QuorumCovered(network.seg, q))
        && !IsQuorum(s0.members, SealedServers(s0))
    {
      hide Inv, Grows, Interference, ServerGrows, LocalTail, StateReplied, TrimSeen, MaxTail, WithTail, SealedCount,
        IsQuorum, QuorumCovered;
      ghost var s2 := network.seg;
      InterferenceGives(s0, s2, false, network.quiet);
      ShapeFacts(s1);
      SameMembers(s1, s2);
      CountedMembers(members);
      var tail := MaxTail(states);
      settled := tail == 0 || tail <= knownTail || quorum <= |WithTail(states, tail)|;
      if settled {
        OpenSinceStart(s0, s1, s2, states);
        EstablishOpen(states, tail, s1);
        CarryOn(s0, s2, network.seg);
        EstablishedFacts(s0, network.seg, tail);
      }
    }

    method EstablishOpen(states: seq<NodeState>, tail: nat, ghost s1: Segment)
      requires Valid() && Inv(s1) && DistinctReplies(states) && RepliesHold(s1, network.seg, states)
      requires Grows(s1, network.seg)
      requires tail == 0 || tail <= knownTail || quorum <= |WithTail(states, tail)|
      modifies network, this`knownTail
      ensures Valid() && Interference(old(network.seg), network.seg, false, network.quiet)
      ensures tail <= network.seg.known
    {
      hide Inv, Grows, Interference, ServerGrows, LocalTail, StateReplied, Reached;
      ghost var s := network.seg;
      InterferenceReflexive(s, false, network.quiet);
      if 0 < tail && knownTail < tail {
        SameMembers(s1, s);
        CopiesEstablish(s1, s, states, tail);
        OthersInterfere(s, OpenTailAction(tail), false, network.quiet);
        network.seg := network.seg.(known := Max(network.seg.known, tail));
        InterferenceGives(s, network.seg, false, network.quiet);
      }
      ObserveKnownTail(tail);
    }
  }

  ghost predicate TrimsBelow(s: Segment, nodes: seq<NodeId>, limit: nat) {
    forall n :: n in nodes ==> n in s.servers && s.servers[n].trimmed <= limit
  }

  /** The copies seen at `nodes`: all the assigned entry; none only where nothing was, or trims came. */
  ghost predicate Collected(s0: Segment, t: Segment, nodes: seq<NodeId>, position: nat, copies: seq<LogEntry>) {
    && (forall e :: e in copies ==> position < |t.issued| && e == t.issued[position])
    && (copies != [] ==> Repairable(t, position))
    && (copies == [] ==> forall n :: n in nodes ==>
          && n in s0.servers && n in t.servers
          && (s0.servers[n].Covers(position) ==> position < t.servers[n].trimmed))
  }

  ghost function TrimmedServers(s: Segment, watermark: nat): set<NodeId> {
    set n | n in s.servers && watermark <= s.servers[n].trimmed
  }

  lemma SealsStay(s: Segment, t: Segment)
    requires Grows(s, t)
    ensures forall n :: n in s.servers ==> n in t.servers && s.servers[n].trimmed <= t.servers[n].trimmed
    ensures forall n :: n in s.servers && s.servers[n].isSealed ==> t.servers[n].isSealed
  {
    hide LocalTail;
    forall n | n in s.servers
      ensures s.servers[n].trimmed <= t.servers[n].trimmed && (s.servers[n].isSealed ==> t.servers[n].isSealed)
    {
      assert ServerGrows(s.servers[n], t.servers[n]);
    }
  }

  lemma ConfirmedSeals(s: Segment, confirmed: seq<NodeId>)
    requires s.servers.Keys == s.members && |Elements(confirmed)| == |confirmed|
    requires forall n :: n in confirmed ==> n in s.servers && s.servers[n].isSealed
    ensures Majority(|s.members|) <= |confirmed| ==> IsQuorum(s.members, SealedServers(s))
  {
    SubsetSize(Elements(confirmed), SealedServers(s));
  }

  lemma ConfirmedTrims(s: Segment, confirmed: seq<NodeId>, watermark: nat)
    requires s.servers.Keys == s.members && |Elements(confirmed)| == |confirmed|
    requires forall n :: n in confirmed ==> n in s.servers && watermark <= s.servers[n].trimmed
    ensures Majority(|s.members|) <= |confirmed| ==> IsQuorum(s.members, TrimmedServers(s, watermark))
  {
    SubsetSize(Elements(confirmed), TrimmedServers(s, watermark));
  }

  lemma ReplyBounds(s: Segment, t: Segment, node: NodeId, state: LogServerState)
    requires StateReplied(s, t, node, state)
    ensures state.knownTail <= t.known && state.trimmedPrefix <= t.known
  {
    hide LocalTail;
  }

  lemma CollectOne(s0: Segment, s: Segment, t: Segment, nodes: seq<NodeId>, i: nat, position: nat,
      found: seq<LogEntry>, entry: Option<LogEntry>)
    requires Grows(s0, s) && Grows(s, t) && i < |nodes| && RepairReady(t, nodes, position)
    requires Collected(s0, s, nodes[..i], position, found)
    requires GetAnswered(s, t, nodes[i], position, entry)
    ensures Collected(s0, t, nodes[..i + 1], position, if entry.Some? then found + [entry.value] else found)
  {
    hide LocalTail, DenseUpTo, ServerGrows, SealedHolder;
    if entry.Some? {
      ReadCopyHeld(t, nodes, i, position);
    } else if found == [] {
      forall n | n in nodes[..i + 1]
        ensures n in s0.servers && n in t.servers
        ensures s0.servers[n].Covers(position) ==> position < t.servers[n].trimmed
      {
        CollectTrims(s0, s, t, n, position);
      }
    } else {
      RepairableStays(s, t, position);
    }
  }

  /** A copy read at a sealed responder was accepted by some sealed server. */
  lemma ReadCopyHeld(t: Segment, nodes: seq<NodeId>, i: nat, position: nat)
    requires i < |nodes| && RepairReady(t, nodes, position)
    requires PutOk(nodes[i], position) in t.puts || Repairable(t, position)
    ensures Repairable(t, position)
  {
    assert nodes[i] in nodes;
    if PutOk(nodes[i], position) in t.puts {
      assert SealedHolder(t, nodes[i], position);
    }
  }

  lemma CollectTrims(s0: Segment, s: Segment, t: Segment, n: NodeId, position: nat)
    requires Grows(s0, s) && Grows(s, t) && n in s0.servers
    requires || (s0.servers[n].Covers(position) ==> position < s.servers[n].trimmed)
             || (s.servers[n].Covers(position) ==> position < t.servers[n].trimmed)
    ensures n in t.servers
    ensures s0.servers[n].Covers(position) ==> position < t.servers[n].trimmed
  {
    hide LocalTail;
    assert ServerGrows(s0.servers[n], s.servers[n]) && ServerGrows(s.servers[n], t.servers[n]);
  }

  lemma DenseAt(s: Segment, nodes: seq<NodeId>, i: nat, position: nat)
    requires RepairReady(s, nodes, position) && i < |nodes|
    ensures DenseUpTo(s, nodes[i], position) && nodes[i] in s.servers
  {
  }

  /** With no copy at any responder, one of them has trimmed past the position meanwhile. */
  lemma NoCopyMeansTrim(s: Segment, t: Segment, nodes: seq<NodeId>, position: nat, trimmedPrefix: nat)
    requires Inv(s) && RepairReady(s, nodes, position) && Collected(s, t, nodes, position, [])
    requires exists top :: top in nodes && position < LocalTail(s.servers[top])
    requires trimmedPrefix <= position
    ensures TrimsBelow(s, nodes, trimmedPrefix) ==> !SameTrims(s, t)
  {
    hide LocalTail, Inv;
    var top :| top in nodes && position < LocalTail(s.servers[top]);
    assert RepairReady(s, nodes, 0);
    var n := SomeResponderCovers(s, nodes, top, position);
  }

  lemma CopiesIdentical(s: Segment, t: Segment, nodes: seq<NodeId>, position: nat, copies: seq<LogEntry>)
    requires Collected(s, t, nodes, position, copies)
    ensures forall i, j :: 0 <= i < j < |copies| ==> copies[i] == copies[j]
  {
    forall i, j | 0 <= i < j < |copies|
      ensures copies[i] == copies[j]
    {
      assert copies[i] in copies && copies[j] in copies;
    }
  }

  lemma ReadyBelowKnown(s: Segment, nodes: seq<NodeId>, limit: nat)
    requires RepairReady(s, nodes, 0) && limit <= s.known
    ensures RepairReady(s, nodes, limit)
  {
  }

  lemma NothingToRepair(s: Segment, nodes: seq<NodeId>, from: nat, tail: nat)
    requires tail <= from
    ensures RepairedRange(s, nodes, from, tail)
  {
  }

  lemma TopStays(s: Segment, t: Segment, nodes: seq<NodeId>, tail: nat, trimmedPrefix: nat, quiet: bool)
    requires Interference(s, t, false, quiet) && RepairReady(s, nodes, 0)
    requires exists top :: top in nodes && tail <= LocalTail(s.servers[top])
    requires quiet ==> TrimsBelow(s, nodes, trimmedPrefix)
    ensures exists top :: top in nodes && top in t.servers && tail <= LocalTail(t.servers[top])
    ensures quiet ==> TrimsBelow(t, nodes, trimmedPrefix)
  {
    hide LocalTail, Inv, DenseUpTo;
    var top :| top in nodes && tail <= LocalTail(s.servers[top]);
    assert ServerGrows(s.servers[top], t.servers[top]);
  }

  lemma RangeGrows(s: Segment, t: Segment, nodes: seq<NodeId>, from: nat, position: nat, quiet: bool)
    requires Interference(s, t, false, quiet) && from <= position
    requires RepairReady(s, nodes, position) && RepairReady(t, nodes, position + 1)
    requires forall n :: n in nodes ==> t.servers[n].Covers(position)
    requires quiet ==> TrimsBelow(s, nodes, from) && RepairedRange(s, nodes, from, position)
    ensures quiet ==> RepairedRange(t, nodes, from, position + 1)
  {
    hide LocalTail, Inv, DenseUpTo;
    if quiet {
      forall n, p: nat | n in nodes && from <= p < position + 1
        ensures HoldsAssigned(t, n, p)
      {
        assert p < position ==> HoldsAssigned(s, n, p);
        RangeGrowsAt(s, t, n, from, position, p);
      }
    }
  }

  lemma RangeGrowsAt(s: Segment, t: Segment, n: NodeId, from: nat, position: nat, p: nat)
    requires Interference(s, t, false, true) && from <= p <= position && n in s.servers && n in t.servers
    requires s.servers[n].trimmed <= from && t.servers[n].Covers(position)
    requires p < position ==> p in s.servers[n].entries
    ensures HoldsAssigned(t, n, p)
  {
    hide LocalTail, Inv;
    assert ServerGrows(s.servers[n], t.servers[n]);
    assert t.servers[n].trimmed == s.servers[n].trimmed;
    CopyFacts(t, n, p);
  }

  lemma SameMembers(s: Segment, t: Segment)
    requires Inv(s) && Grows(s, t)
    ensures s.members == t.members == s.servers.Keys
  {
  }

  lemma TrimmedKnown(s: Segment, t: Segment, states: seq<NodeState>)
    requires RepliesHold(s, t, states)
    ensures forall r :: r in states ==> r.state.trimmedPrefix <= t.known
  {
    hide LocalTail;
    forall r | r in states
      ensures r.state.trimmedPrefix <= t.known
    {
      assert StateReplied(s, t, r.node, r.state);
    }
  }

  lemma SealedReady(s: Segment, t: Segment, states: seq<NodeState>, trimmedPrefix: nat)
    requires Inv(s) && Grows(s, t) && DistinctReplies(states) && RepliesHold(s, t, states) && states != []
    requires s.members == t.members == s.servers.Keys && Majority(|s.members|) <= |states|
    requires forall r :: r in states ==> r.state.isSealed && r.state.trimmedPrefix <= trimmedPrefix
    ensures RepairReady(t, Nodes(states), 0)
    ensures exists top :: top in Nodes(states) && top in t.servers && MaxTail(states) <= LocalTail(t.servers[top])
    ensures SameTrims(s, t) ==> TrimsBelow(t, Nodes(states), trimmedPrefix)
  {
    hide LocalTail, Inv, MaxTail, IsQuorum, ServerGrows;
    NodesAreQuorum(s, t, states);
    forall n | n in Nodes(states)
      ensures n in s.servers && n in t.servers && t.servers[n].isSealed && DenseUpTo(t, n, 0)
      ensures SameTrims(s, t) ==> t.servers[n].trimmed <= trimmedPrefix
    {
      ResponderReady(s, t, states, n, trimmedPrefix);
    }
    var r := TopReply(states);
    assert StateReplied(s, t, r.node, r.state);
    assert r.node in Nodes(states);
  }

  lemma ResponderReady(s: Segment, t: Segment, states: seq<NodeState>, n: NodeId, trimmedPrefix: nat)
    requires RepliesHold(s, t, states) && n in Nodes(states)
    requires forall r :: r in states ==> r.state.isSealed && r.state.trimmedPrefix <= trimmedPrefix
    ensures n in s.servers && n in t.servers && t.servers[n].isSealed && DenseUpTo(t, n, 0)
    ensures SameTrims(s, t) ==> t.servers[n].trimmed <= trimmedPrefix
  {
    hide LocalTail;
    var i :| 0 <= i < |states| && Nodes(states)[i] == n;
    assert states[i] in states;
    assert StateReplied(s, t, n, states[i].state);
  }

  lemma SealedTailEnabled(s: Segment, t: Segment, states: seq<NodeState>)
    requires Inv(s) && Inv(t) && Grows(s, t) && RepliesHold(s, t, states) && states != []
    requires forall r :: r in states ==> r.state.isSealed
    requires RepairReady(t, Nodes(states), MaxTail(states))
    ensures Enabled(t, SealedTailAction(Elements(Nodes(states)), MaxTail(states)))
  {
    hide LocalTail, Inv, MaxTail, DenseUpTo;
    ShapeFacts(s);
    SealedRepliesBound(s, t, states);
  }

  lemma RangeSame(s: Segment, t: Segment, nodes: seq<NodeId>, from: nat, tail: nat)
    requires t.servers == s.servers && t.issued == s.issued
    ensures RepairedRange(s, nodes, from, tail) ==> RepairedRange(t, nodes, from, tail)
  {
    if RepairedRange(s, nodes, from, tail) {
      forall n, p: nat | n in nodes && from <= p < tail
        ensures HoldsAssigned(t, n, p)
      {
        assert HoldsAssigned(s, n, p);
      }
    }
  }

  lemma OpenSinceStart(s0: Segment, s: Segment, t: Segment, states: seq<NodeState>)
    requires Inv(s) && Grows(s0, s) && RepliesHold(s, t, states) && DistinctReplies(states)
    requires Majority(|s.members|) <= |states| && SealedCount(states) == 0
    ensures !IsQuorum(s0.members, SealedServers(s0))
  {
    hide LocalTail, Inv, IsQuorum;
    ShapeFacts(s);
    OpenRepliesMeanOpen(s, t, states);
    if IsQuorum(s0.members, SealedServers(s0)) {
      SealedQuorumStays(s0, s);
    }
  }

  /** What an established tail promises to whoever asked before. */
  lemma EstablishedFacts(s: Segment, t: Segment, tail: nat)
    requires Inv(s) && Inv(t) && tail <= t.known && s.known <= tail
    ensures forall p :: p in s.acked || p in s.shortcutAcked ==> p < tail
    ensures forall q :: 0 <= q < tail ==> QuorumCovered(t, q)
  {
    hide LocalTail, Dense, CopiesAssigned, KnownPut, CopiesPut, TwoReach, ReadsFinal;
  }

  // ---- A whole network -----------------------------------------------------------------------------

  /** The servers hold what they held, trimmed as far as they were; seals and known tails may have changed. */
  ghost predicate SameCopies(s: Segment, t: Segment) {
    && t.servers.Keys == s.servers.Keys
    && forall n :: n in s.servers ==>
         t.servers[n].entries == s.servers[n].entries && t.servers[n].trimmed == s.servers[n].trimmed
  }

  ghost predicate AllSealed(s: Segment) {
    forall n :: n in s.servers ==> s.servers[n].isSealed
  }

  lemma CopiesReflexive(s: Segment)
    ensures SameCopies(s, s)
  {
  }

  /** The servers would answer as before, but that known tails may have risen. */
  ghost predicate SameAnswers(s: Segment, t: Segment) {
    && SameCopies(s, t)
    && forall n :: n in s.servers ==>
         t.servers[n].isSealed == s.servers[n].isSealed && s.servers[n].knownTail <= t.servers[n].knownTail
  }

  lemma AnswersJoin(s: Segment, t: Segment, u: Segment)
    requires SameAnswers(s, t) && SameAnswers(t, u)
    ensures SameAnswers(s, u)
  {
  }

  lemma AnswersReflexive(s: Segment)
    ensures SameAnswers(s, s)
  {
  }

  ghost predicate SomeSealed(s: Segment) {
    exists n :: n in s.servers && s.servers[n].isSealed
  }

  ghost predicate HighestTail(s: Segment, tail: nat) {
    && (forall n :: n in s.servers ==> LocalTail(s.servers[n]) <= tail)
    && (exists n :: n in s.servers && LocalTail(s.servers[n]) == tail)
  }

  /** The highest tail is not 0, nobody who answers or asks knows it, and no quorum has reached it. */
  ghost predicate NotVouchedFor(s: Segment, tail: nat, asked: nat) {
    && HighestTail(s, tail) && 0 < tail && asked < tail && !IsQuorum(s.members, Reached(s, tail))
    && forall n :: n in s.servers ==> s.servers[n].knownTail < tail
  }

  /**
   A check in a whole network returns the highest local tail, as sealed exactly if somebody was sealed; it
   waits only for an open tail that nothing vouches for.
   */
  ghost predicate CheckedCalmly(s: Segment, outcome: CheckOutcome, asked: nat) {
    && (outcome.TailFound? || (outcome.StillWaiting? && !SomeSealed(s)))
    && (outcome.TailFound? ==> HighestTail(s, outcome.tail) && (outcome.isSealed <==> SomeSealed(s)))
    && (outcome.StillWaiting? ==> exists tail :: NotVouchedFor(s, tail, asked))
  }

  /** The state of a check in a whole network after `round` rounds. */
  ghost predicate CalmSoFar(s0: Segment, s: Segment, round: nat, asked: nat) {
    && SameCopies(s0, s)
    && (round == 0 || !SomeSealed(s0) ==> SameAnswers(s0, s))
    && (0 < round && SomeSealed(s0) ==> round == 1 && AllSealed(s))
    && (0 < round && !SomeSealed(s0) ==> exists tail :: NotVouchedFor(s0, tail, asked))
  }

  lemma CalmStart(s: Segment, asked: nat)
    ensures CalmSoFar(s, s, 0, asked)
  {
  }

  lemma CalmlyDone(s: Segment, outcome: CheckOutcome, asked: nat)
    ensures outcome.TailFound? && HighestTail(s, outcome.tail) && (outcome.isSealed <==> SomeSealed(s)) ==>
      CheckedCalmly(s, outcome, asked)
  {
  }

  lemma CalmlyWaiting(s0: Segment, s: Segment, rounds: nat, asked: nat)
    ensures CalmSoFar(s0, s, rounds, asked) && 2 <= rounds ==> CheckedCalmly(s0, StillWaiting, asked)
  {
  }

  lemma CalmRead(s0: Segment, s1: Segment, s2: Segment, members: seq<NodeId>, states: seq<NodeState>, round: nat,
      asked: nat)
    requires CalmSoFar(s0, s1, round, asked) && SameAnswers(s1, s2) && ReadExactly(s2, members, states)
    requires Elements(members) == s0.servers.Keys && states != []
    ensures HighestTail(s0, MaxTail(states)) && SameCopies(s0, s2)
    ensures !SomeSealed(s0) ==> SealedCount(states) == 0 && SameAnswers(s0, s2)
    ensures SomeSealed(s0) ==> 0 < SealedCount(states) && (0 < round ==> SealedCount(states) == |states|)
  {
    hide LocalTail, MaxTail, SealedCount, ReadExactly, HighestTail;
    CopiesJoin(s0, s1, s2);
    ReadShows(s0, s2, members, states);
  }

  lemma CalmSealed(s0: Segment, s: Segment, t: Segment, round: nat, asked: nat)
    requires SameCopies(s0, s) && SameCopies(s, t) && AllSealed(t) && SomeSealed(s0) && round == 1
    ensures CalmSoFar(s0, t, round, asked)
  {
    CopiesJoin(s0, s, t);
  }

  lemma CalmWaits(s0: Segment, s: Segment, t: Segment, members: seq<NodeId>, states: seq<NodeState>, round: nat,
      asked: nat, knew: nat, knownTail: nat)
    requires Inv(s0) && SameAnswers(s0, s) && SameAnswers(s, t) && ReadExactly(s, members, states)
    requires Elements(members) == s0.members && !SomeSealed(s0) && HighestTail(s0, MaxTail(states))
    requires LearnedFrom(states, knew, knownTail)
    requires 0 < MaxTail(states) && asked <= knownTail < MaxTail(states)
    requires |WithTail(states, MaxTail(states))| < Majority(|s0.members|)
    ensures CalmSoFar(s0, t, round, asked)
  {
    hide Inv, LocalTail, MaxTail, WithTail, ReadExactly, HighestTail, IsQuorum, Reached;
    AnswersJoin(s0, s, t);
    ShapeFacts(s0);
    var tail := MaxTail(states);
    TooFewReach(s0, s, members, states, tail);
    forall n | n in s0.servers
      ensures s0.servers[n].knownTail < tail
    {
      KnownRead(s, members, states, n);
    }
    assert NotVouchedFor(s0, tail, asked);
  }

  lemma KnownRead(t: Segment, members: seq<NodeId>, states: seq<NodeState>, n: NodeId)
    requires ReadExactly(t, members, states) && n in Elements(members)
    ensures exists r :: r in states && ReadAt(t, n, r)
  {
    hide LocalTail;
    var i :| 0 <= i < |members| && members[i] == n;
    assert ReadAt(t, members[i], states[i]) && states[i] in states;
  }

  lemma ReadOf(t: Segment, members: seq<NodeId>, states: seq<NodeState>, r: NodeState)
    requires ReadExactly(t, members, states) && r in states
    ensures ReadAt(t, r.node, r)
  {
    hide LocalTail;
    var i :| 0 <= i < |states| && states[i] == r;
    assert ReadAt(t, members[i], states[i]);
  }

  /** What a whole round of answers shows of the servers as they stood at `s0`. */
  lemma ReadShows(s0: Segment, t: Segment, members: seq<NodeId>, states: seq<NodeState>)
    requires SameCopies(s0, t) && ReadExactly(t, members, states) && Elements(members) == s0.servers.Keys
    requires states != []
    ensures HighestTail(s0, MaxTail(states))
    ensures SealedCount(states) == 0 <==> !SomeSealed(t)
    ensures SealedCount(states) == |states| <==> AllSealed(t)
  {
    hide LocalTail, MaxTail, ReadExactly, SealedCount;
    forall n | n in s0.servers
      ensures LocalTail(s0.servers[n]) <= MaxTail(states)
    {
      KnownRead(t, members, states, n);
      SameTail(s0.servers[n], t.servers[n]);
    }
    var top := TopReply(states);
    ReadOf(t, members, states, top);
    SameTail(s0.servers[top.node], t.servers[top.node]);
    SealsShow(t, members, states);
  }

  lemma SealsShow(t: Segment, members: seq<NodeId>, states: seq<NodeState>)
    requires ReadExactly(t, members, states) && Elements(members) == t.servers.Keys
    ensures SealedCount(states) == 0 <==> !SomeSealed(t)
    ensures SealedCount(states) == |states| <==> AllSealed(t)
  {
    hide LocalTail, ReadExactly, SealedCount;
    forall n | n in t.servers
      ensures exists r :: r in states && ReadAt(t, n, r)
    {
      KnownRead(t, members, states, n);
    }
    forall r | r in states
      ensures ReadAt(t, r.node, r)
    {
      ReadOf(t, members, states, r);
    }
  }

  /** Too few answers reach the tail: no quorum of servers does. */
  lemma TooFewReach(s0: Segment, t: Segment, members: seq<NodeId>, states: seq<NodeState>, tail: nat)
    requires Inv(s0) && SameCopies(s0, t) && ReadExactly(t, members, states) && Elements(members) == s0.members
    requires |WithTail(states, tail)| < Majority(|s0.members|)
    ensures !IsQuorum(s0.members, Reached(s0, tail))
  {
    hide LocalTail, Inv, WithTail, ReadExactly;
    ShapeFacts(s0);
    var kept := WithTail(states, tail);
    forall n | n in Reached(s0, tail)
      ensures n in Nodes(kept)
    {
      KnownRead(t, members, states, n);
      var r :| r in states && ReadAt(t, n, r);
      SameTail(s0.servers[n], t.servers[n]);
      NodeListed(kept, r);
    }
    SubsetSize(Reached(s0, tail), Elements(Nodes(kept)));
    ElementsSize(Nodes(kept));
  }

  lemma NodeListed(states: seq<NodeState>, r: NodeState)
    requires r in states
    ensures r.node in Nodes(states)
  {
    var i :| 0 <= i < |states| && states[i] == r;
    assert Nodes(states)[i] == r.node;
  }

  lemma CopiesJoin(s: Segment, t: Segment, u: Segment)
    requires SameCopies(s, t) && SameCopies(t, u)
    ensures SameCopies(s, u)
  {
  }

  lemma SameTail(a: SegmentState, b: SegmentState)
    requires a.entries == b.entries && a.trimmed == b.trimmed
    ensures LocalTail(a) == LocalTail(b)
  {
    LocalTailUnique(b, LocalTail(a));
  }

  lemma SealServed(s0: Segment, s: Segment, t: Segment, node: NodeId, knownTail: nat)
    requires SameCopies(s0, s) && node in s.servers && Served(s, t, node, Seal(s.servers[node], knownTail))
    ensures SameCopies(s0, t)
  {
  }

  /** The answers of all these members, as the servers stand. */
  ghost predicate ReadExactly(s: Segment, members: seq<NodeId>, states: seq<NodeState>) {
    && |states| == |members|
    && forall i :: 0 <= i < |members| ==> ReadAt(s, members[i], states[i])
  }

  ghost predicate ReadAt(s: Segment, n: NodeId, r: NodeState) {
    && r.node == n && n in s.servers
    && r.state == StateOf(s.servers[n])
  }

  lemma NothingRead(s: Segment)
    ensures ReadExactly(s, [], [])
  {
  }

  lemma ReadServed(s0: Segment, s: Segment, t: Segment, members: seq<NodeId>, states: seq<NodeState>, node: NodeId,
      asked: nat)
    requires SameAnswers(s0, s) && ReadExactly(s, members, states) && node in s.servers && node !in members
    requires Served(s, t, node, Observe(s.servers[node], asked))
    ensures SameAnswers(s0, t) && ReadExactly(t, members + [node], states + [NodeState(node, StateOf(t.servers[node]))])
  {
    hide LocalTail;
    var more := states + [NodeState(node, StateOf(t.servers[node]))];
    forall i | 0 <= i < |members + [node]|
      ensures ReadAt(t, (members + [node])[i], more[i])
    {
      if i < |members| {
        assert members[i] in members;
        assert ReadAt(s, members[i], states[i]);
      }
    }
  }

  lemma ReadAll(s: Segment, members: seq<NodeId>, states: seq<NodeState>)
    ensures ReadExactly(s, members, states) ==> |states| == |members|
  {
  }

  /** These servers have trimmed to the position, and nothing else has changed. */
  ghost predicate TrimmedAll(s: Segment, t: Segment, nodes: seq<NodeId>, position: nat) {
    && t.servers.Keys == s.servers.Keys
    && forall n :: n in s.servers ==>
         t.servers[n] == if n in nodes then LogletStore.PrefixTrim(s.servers[n], position) else s.servers[n]
  }

  /** The lowest watermark of any server. */
  ghost predicate LowestTrim(s: Segment, watermark: nat) {
    && (forall n :: n in s.servers ==> watermark <= s.servers[n].trimmed)
    && (exists n :: n in s.servers && s.servers[n].trimmed == watermark)
  }

  lemma NothingTrimmed(s: Segment, position: nat)
    ensures TrimmedSoFar(s, s, [], position, [], 0) && Confirmations(s, [], [], 0)
  {
  }

  ghost predicate TrimmedHere(s: Segment, nodes: seq<NodeId>, watermark: nat) {
    exists n :: n in nodes && n in s.servers && s.servers[n].trimmed == watermark
  }

  /** Distinct asked members confirmed, and each of them is sealed. */
  ghost predicate SealConfirmations(s: Segment, asked: seq<NodeId>, confirmed: seq<NodeId>) {
    && (forall i, j :: 0 <= i < j < |confirmed| ==> confirmed[i] != confirmed[j])
    && (forall n :: n in confirmed ==> n in asked && n in s.servers && s.servers[n].isSealed)
  }

  lemma NobodyConfirmed(s: Segment)
    ensures SealConfirmations(s, [], [])
  {
  }

  lemma ConfirmSeal(s: Segment, t: Segment, asked: seq<NodeId>, confirmed: seq<NodeId>, node: NodeId, answered: bool)
    requires Grows(s, t) && SealConfirmations(s, asked, confirmed) && node !in asked
    requires answered ==> node in t.servers && t.servers[node].isSealed
    ensures SealConfirmations(t, asked + [node], if answered then confirmed + [node] else confirmed)
  {
    hide LocalTail;
    SealsStay(s, t);
  }

  lemma SealConcluded(s: Segment, members: seq<NodeId>, confirmed: seq<NodeId>)
    requires Inv(s) && Elements(members) == s.members && SealConfirmations(s, members, confirmed)
    ensures Majority(|s.members|) <= |confirmed| ==> IsQuorum(s.members, SealedServers(s))
    ensures confirmed == members ==> AllSealed(s)
  {
    hide Inv, LocalTail, IsQuorum;
    ShapeFacts(s);
    DistinctSize(confirmed);
    ConfirmedSeals(s, confirmed);
    assert forall n :: n in members <==> n in Elements(members);
  }

  /** Distinct asked members confirmed, and each of them has trimmed at least that far. */
  ghost predicate Confirmations(s: Segment, asked: seq<NodeId>, confirmed: seq<NodeId>, lowest: nat) {
    && (forall i, j :: 0 <= i < j < |confirmed| ==> confirmed[i] != confirmed[j])
    && (forall n :: n in confirmed ==> n in asked && n in s.servers && lowest <= s.servers[n].trimmed)
  }

  lemma ConfirmOne(s: Segment, t: Segment, asked: seq<NodeId>, confirmed: seq<NodeId>, lowest: nat, node: NodeId,
      reported: Option<nat>)
    requires Grows(s, t) && Confirmations(s, asked, confirmed, lowest) && node !in asked
    requires reported.Some? ==> node in t.servers && reported.value <= t.servers[node].trimmed
    ensures reported.Some? ==>
      Confirmations(t, asked + [node], confirmed + [node],
                    if confirmed == [] || reported.value < lowest then reported.value else lowest)
    ensures reported.None? ==> Confirmations(t, asked + [node], confirmed, lowest)
  {
    hide LocalTail;
    SealsStay(s, t);
  }

  /** All asked members have trimmed to the position, nothing else has changed, and the lowest is one of them. */
  ghost predicate TrimmedSoFar(s: Segment, t: Segment, asked: seq<NodeId>, position: nat, confirmed: seq<NodeId>,
      lowest: nat)
  {
    && TrimmedAll(s, t, asked, position) && confirmed == asked
    && (confirmed != [] ==> TrimmedHere(t, confirmed, lowest))
  }

  lemma TrimConcluded(s: Segment, t: Segment, members: seq<NodeId>, confirmed: seq<NodeId>, lowest: nat, before: nat,
      position: nat)
    requires Interference(s, t, false, false) && Elements(members) == t.members && members != []
    requires Confirmations(t, members, confirmed, lowest)
    ensures TrimSeen(s, before) ==> TrimSeen(t, before)
    ensures Majority(|t.members|) <= |confirmed| ==>
      && IsQuorum(t.members, TrimmedServers(t, lowest))
      && (TrimSeen(s, before) ==> TrimSeen(t, Max(before, lowest)))
    ensures TrimmedSoFar(s, t, members, position, confirmed, lowest) ==>
      confirmed == members && TrimmedAll(s, t, members, position) && LowestTrim(t, lowest)
  {
    hide Inv, Interference, LocalTail, TrimSeen, TrimmedServers, TrimmedHere, LowestTrim, Grows, IsQuorum, TrimmedAll;
    InterferenceGives(s, t, false, false);
    ShapeFacts(t);
    DistinctSize(confirmed);
    ConfirmedTrims(t, confirmed, lowest);
    if TrimSeen(s, before) {
      TrimSeenStays(s, t, before);
      if Majority(|t.members|) <= |confirmed| {
        TrimConfirmed(t, lowest, before);
      }
    }
    LowestOfAll(t, members, confirmed, lowest);
  }

  lemma CountedMembers(members: seq<NodeId>)
    requires ValidateFixedMembers(members)
    ensures |Elements(members)| == |members| && 3 <= |members|
  {
  }

  lemma LowestOfAll(s: Segment, members: seq<NodeId>, confirmed: seq<NodeId>, lowest: nat)
    requires s.servers.Keys == Elements(members)
    requires forall n :: n in confirmed ==> n in s.servers && lowest <= s.servers[n].trimmed
    ensures confirmed == members && TrimmedHere(s, confirmed, lowest) ==> LowestTrim(s, lowest)
  {
    assert forall n :: n in members <==> n in Elements(members);
  }

  lemma TrimmedHereStays(s: Segment, t: Segment, nodes: seq<NodeId>, node: NodeId)
    requires node in t.servers && node !in nodes && t.servers == s.servers[node := t.servers[node]]
    ensures forall watermark :: TrimmedHere(s, nodes, watermark) ==> TrimmedHere(t, nodes + [node], watermark)
    ensures TrimmedHere(t, nodes + [node], t.servers[node].trimmed)
  {
    forall watermark | TrimmedHere(s, nodes, watermark)
      ensures TrimmedHere(t, nodes + [node], watermark)
    {
      var n :| n in nodes && n in s.servers && s.servers[n].trimmed == watermark;
      assert n in nodes + [node];
    }
    assert node in nodes + [node];
  }

  lemma TrimServed(s0: Segment, s: Segment, t: Segment, asked: seq<NodeId>, position: nat, confirmed: seq<NodeId>,
      lowest: nat, node: NodeId)
    requires TrimmedSoFar(s0, s, asked, position, confirmed, lowest) && node !in asked && node in s.servers
    requires Served(s, t, node, LogletStore.PrefixTrim(s.servers[node], position))
    ensures var reported := t.servers[node].trimmed;
      TrimmedSoFar(s0, t, asked + [node], position, confirmed + [node],
                   if confirmed == [] || reported < lowest then reported else lowest)
  {
    hide LogletStore.PrefixTrim, TrimmedHere;
    TrimmedHereStays(s, t, confirmed, node);
  }
}
