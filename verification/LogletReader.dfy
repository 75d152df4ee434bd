/** Reading a segment through its members (native_loglet/virtual_log_adapter.py). */
module LogletReader {
  import opened Wrappers
  import opened Membership
  import opened LogletStore
  import opened LogletProtocol
  import opened LogletTheorems
  import opened LogletNetwork
  import opened NativeClient

  datatype ReadOutcome = Found(entry: LogEntry) | Nothing | Unavailable | InvalidRange

  /** A quorum has trimmed the position away. */
  ghost predicate QuorumTrimmed(s: Segment, position: nat) {
    IsQuorum(s.members, TrimmedServers(s, position + 1))
  }

  /** From the trim point on, only what a quorum has trimmed is passed over. */
  ghost predicate SkipsTrimmed(s: Segment, t: Segment, trimmedPrefix: nat, from: int, to: int) {
    forall q: nat :: QuorumCovered(s, q) && trimmedPrefix <= q && from <= q < to ==> QuorumTrimmed(t, q)
  }

  /** A skipped position was not on a quorum when the read began, or has been trimmed on one. */
  ghost predicate SkippedFairly(s: Segment, t: Segment, from: int, to: int) {
    forall q: nat :: from <= q < to && QuorumCovered(s, q) ==> QuorumTrimmed(t, q)
  }

  /** Every listed member answered None for `position` at some moment between `s` and `t`. */
  ghost predicate AllAnsweredNone(s: Segment, t: Segment, members: seq<NodeId>, position: nat) {
    forall n :: n in members && n in s.servers ==>
      n in t.servers && (s.servers[n].Covers(position) ==> position < t.servers[n].trimmed)
  }

  lemma NoneEverywhereMeansTrimmed(s: Segment, t: Segment, members: seq<NodeId>, position: nat)
    requires Grows(s, t) && s.members == s.servers.Keys && s.members <= Elements(members)
    requires AllAnsweredNone(s, t, members, position)
    ensures QuorumCovered(s, position) ==> QuorumTrimmed(t, position)
  {
    hide LocalTail;
    if QuorumCovered(s, position) {
      forall n | n in Coverers(s, position)
        ensures n in TrimmedServers(t, position + 1)
      {
      }
      assert TrimmedServers(t, position + 1) <= t.servers.Keys;
      SubsetSize(Coverers(s, position), TrimmedServers(t, position + 1));
    }
  }

  lemma TrimsStay(s: Segment, t: Segment, position: nat)
    requires Inv(t) && Grows(s, t) && QuorumTrimmed(s, position)
    ensures QuorumTrimmed(t, position)
  {
    hide LocalTail, Inv;
    SealsStay(s, t);
    ShapeFacts(t);
    SubsetSize(TrimmedServers(s, position + 1), TrimmedServers(t, position + 1));
  }

  /** Some listed member holds the position. */
  ghost predicate HeldBy(s: Segment, members: seq<NodeId>, position: nat) {
    exists n :: n in members && n in s.servers && position in s.servers[n].entries
  }

  ghost predicate NoneHeld(s: Segment, members: seq<NodeId>, from: int, to: int) {
    forall q: nat :: from <= q < to ==> !HeldBy(s, members, q)
  }

  lemma NoneHeldLonger(s: Segment, members: seq<NodeId>, from: int, to: nat)
    requires NoneHeld(s, members, from, to) && !HeldBy(s, members, to)
    ensures NoneHeld(s, members, from, to + 1)
  {
    hide HeldBy;
  }

  lemma NothingHeld(s: Segment, members: seq<NodeId>, from: int)
    ensures NoneHeld(s, members, from, from)
  {
  }

  lemma NothingSkipped(s: Segment, from: int)
    ensures SkippedFairly(s, s, from, from)
  {
  }

  lemma NobodyHolds(s: Segment, members: seq<NodeId>, position: nat)
    ensures !HeldBy(s, members[..0], position)
  {
  }

  lemma HeldStill(s: Segment, t: Segment, members: seq<NodeId>, position: nat)
    requires SameCopies(s, t)
    ensures HeldBy(s, members, position) <==> HeldBy(t, members, position)
  {
  }

  /** A member's answer in a whole network is what it holds. */
  lemma HeldAmong(s0: Segment, s: Segment, members: seq<NodeId>, i: nat, position: nat)
    requires SameCopies(s0, s) && i < |members| && !HeldBy(s0, members[..i], position)
    ensures HeldBy(s0, members[..i + 1], position) <==>
      members[i] in s.servers && position in s.servers[members[i]].entries
    ensures HeldBy(s0, members[..i + 1], position) ==> HeldBy(s0, members, position)
  {
    assert members[..i + 1] == members[..i] + [members[i]];
  }

  lemma ServedCopies(s0: Segment, s: Segment, t: Segment, node: NodeId, knownTail: nat)
    requires SameCopies(s0, s) && node in s.servers && Served(s, t, node, Observe(s.servers[node], knownTail))
    ensures SameCopies(s0, t)
  {
  }

  lemma CoveredLater(s: Segment, t: Segment)
    requires Grows(s, t)
    ensures forall q: nat :: QuorumCovered(s, q) ==> QuorumCovered(t, q)
  {
    EvidenceStays(s, t);
  }

  class MemberReader {
    const network: Network
    const members: seq<NodeId>

    constructor (network: Network, members: seq<NodeId>)
      ensures this.network == network && this.members == members
    {
      this.network := network;
      this.members := members;
    }

    /**
     The first entry of [localStart, localStop). A position counts as absent only after every member
     answered, so a committed one is skipped only if a quorum has trimmed it.
     */
    method ReadNext(localStart: int, localStop: int, knownTail: nat) returns (outcome: ReadOutcome)
      requires Inv(network.seg) && knownTail <= network.seg.known
      requires network.seg.members <= Elements(members)
      modifies network
      ensures Interference(old(network.seg), network.seg, false, network.quiet)
      ensures outcome == InvalidRange <==> localStart < 0 || localStop <= localStart
      ensures outcome.Found? ==>
        && localStart <= outcome.entry.position < localStop
        && outcome.entry.position < |network.seg.issued|
        && outcome.entry == network.seg.issued[outcome.entry.position]
        && SkippedFairly(old(network.seg), network.seg, localStart, outcome.entry.position)
      ensures outcome == Nothing ==> SkippedFairly(old(network.seg), network.seg, localStart, localStop)
      ensures network.whole ==> outcome != Unavailable && SameCopies(old(network.seg), network.seg)
      ensures network.whole && outcome.Found? ==>
        && HeldBy(old(network.seg), members, outcome.entry.position)
        && NoneHeld(old(network.seg), members, localStart, outcome.entry.position)
      ensures network.whole && outcome == Nothing ==> NoneHeld(old(network.seg), members, localStart, localStop)
    {
      hide Inv, Grows, Interference, LocalTail, QuorumCovered, QuorumTrimmed, HeldBy, NoneHeld, SameCopies,
        SkippedFairly;
      ghost var s0 := network.seg;
      CopiesReflexive(s0);
      assert NoneHeld(s0, members, localStart, localStart) by { NothingHeld(s0, members, localStart); }
      assert SkippedFairly(s0, s0, localStart, localStart) by { NothingSkipped(s0, localStart); }
      InterferenceReflexive(s0, false, network.quiet);
      if localStart < 0 || localStop <= localStart {
        return InvalidRange;
      }
      for position := localStart to localStop
        invariant Interference(s0, network.seg, false, network.quiet)
        invariant SkippedFairly(s0, network.seg, localStart, position)
        invariant network.whole ==> SameCopies(s0, network.seg) && NoneHeld(s0, members, localStart, position)
      {
        ghost var s := network.seg;
        InterferenceGives(s0, s, false, network.quiet);
        var entry, complete := ReadPosition(position, knownTail);
        InterferenceGives(s, network.seg, false, network.quiet);
        InterferenceTransitive(s0, s, network.seg, false, network.quiet);
        SkipsStay(s0, s, network.seg, localStart, position);
        if network.whole {
          CopiesJoin(s0, s, network.seg);
          HeldStill(s0, s, members, position);
        }
        if entry.Some? {
          return Found(entry.value);
        }
        if !complete {
          return Unavailable;
        }
        SkipOne(s0, s, network.seg, members, localStart, position);
        if network.whole {
          NoneHeldLonger(s0, members, localStart, position);
        }
      }
      outcome := Nothing;
    }

    /** Asks the members in turn for one position; `complete` when every one of them answered. */
    method ReadPosition(position: nat, knownTail: nat) returns (entry: Option<LogEntry>, complete: bool)
      requires Inv(network.seg) && knownTail <= network.seg.known
      modifies network
      ensures Interference(old(network.seg), network.seg, false, network.quiet)
      ensures entry.Some? ==>
        && position < |network.seg.issued| && entry.value == network.seg.issued[position]
        && entry.value.position == position
      ensures entry.None? && complete ==> AllAnsweredNone(old(network.seg), network.seg, members, position)
      ensures network.whole ==>
        && (entry.Some? || complete) && SameCopies(old(network.seg), network.seg)
        && (entry.Some? <==> HeldBy(old(network.seg), members, position))
    {
      hide Inv, Grows, Interference, LocalTail, HeldBy, SameCopies, Observe;
      ghost var s0 := network.seg;
      CopiesReflexive(s0);
      assert !HeldBy(s0, members[..0], position) by { NobodyHolds(s0, members, position); }
      InterferenceReflexive(s0, false, network.quiet);
      var responses := 0;
      entry := None;
      for i := 0 to |members|
        invariant Inv(network.seg) && Interference(s0, network.seg, false, network.quiet)
        invariant knownTail <= network.seg.known
        invariant responses <= i
        invariant responses == i ==> AllAnsweredNone(s0, network.seg, members[..i], position)
        invariant network.whole ==>
          responses == i && SameCopies(s0, network.seg) && !HeldBy(s0, members[..i], position)
      {
        ghost var s := network.seg;
        InterferenceGives(s0, s, false, network.quiet);
        if network.whole {
          HeldAmong(s0, s, members, i, position);
        }
        if members[i] in network.seg.servers {
          var outcome := network.Get(members[i], position, knownTail);
          InterferenceGives(s, network.seg, false, network.quiet);
          InterferenceTransitive(s0, s, network.seg, false, network.quiet);
          if network.whole {
            ServedCopies(s0, s, network.seg, members[i], knownTail);
          }
          if outcome.Answer? {
            responses := responses + 1;
            if outcome.entry.Some? {
              return outcome.entry, false;
            }
            if responses == i + 1 {
              AnsweredOne(s0, s, network.seg, members, i, position);
            }
          }
        } else {
          // A reader that stores nothing of the segment answers that it has nothing.
          var lost := network.Lost(members[i]);
          if !lost {
            responses := responses + 1;
            if responses == i + 1 {
              AnsweredOne(s0, s, network.seg, members, i, position);
            }
          }
        }
      }
      complete := responses == |members|;
      assert members[..|members|] == members;
    }
  }

  lemma AnsweredOne(s0: Segment, s: Segment, t: Segment, members: seq<NodeId>, i: nat, position: nat)
    requires Grows(s0, s) && (s == t || Grows(s, t)) && i < |members|
    requires AllAnsweredNone(s0, s, members[..i], position)
    requires members[i] in s.servers ==> GetAnswered(s, t, members[i], position, None)
    ensures AllAnsweredNone(s0, t, members[..i + 1], position)
  {
    hide LocalTail, Grows;
    forall n | n in members[..i + 1] && n in s0.servers
      ensures n in t.servers && (s0.servers[n].Covers(position) ==> position < t.servers[n].trimmed)
    {
      GrownServer(s0, s, n, position);
      if s != t {
        GrownServer(s, t, n, position);
      }
    }
  }

  lemma GrownServer(s: Segment, t: Segment, n: NodeId, position: nat)
    requires Grows(s, t) && n in s.servers
    ensures n in t.servers && s.servers[n].trimmed <= t.servers[n].trimmed
    ensures s.servers[n].Covers(position) ==> t.servers[n].Covers(position)
  {
    hide LocalTail;
    assert ServerGrows(s.servers[n], t.servers[n]);
  }

  lemma SkipsStay(s0: Segment, s: Segment, t: Segment, from: int, to: int)
    requires Inv(t) && Grows(s, t) && SkippedFairly(s0, s, from, to)
    ensures SkippedFairly(s0, t, from, to)
  {
    hide Inv, Grows, QuorumCovered, QuorumTrimmed;
    forall q: nat | from <= q < to && QuorumCovered(s0, q)
      ensures QuorumTrimmed(t, q)
    {
      TrimsStay(s, t, q);
    }
  }

  lemma SkipOne(s0: Segment, s: Segment, t: Segment, members: seq<NodeId>, from: int, position: nat)
    requires Inv(s) && Grows(s0, s) && Grows(s, t) && s.members <= Elements(members)
    requires SkippedFairly(s0, t, from, position) && AllAnsweredNone(s, t, members, position)
    ensures SkippedFairly(s0, t, from, position + 1)
  {
    hide Inv, Grows, QuorumCovered, QuorumTrimmed, AllAnsweredNone;
    CoveredLater(s0, s);
    ShapeFacts(s);
    NoneEverywhereMeansTrimmed(s, t, members, position);
  }

  /**
   A runtime starts no lower than the trim point its client has observed; from there on no position
   that was on a quorum is skipped unless a quorum has trimmed it.
   */
  method RuntimeReadNext(client: NativeLogletClient, reader: MemberReader, localStart: int, localStop: int)
    returns (outcome: ReadOutcome)
    requires client.Valid() && client.network == reader.network
    requires client.network.seg.members <= Elements(reader.members)
    modifies client.network
    ensures Interference(old(client.network.seg), client.network.seg, false, client.network.quiet)
    ensures outcome.Found? ==>
      && localStart <= outcome.entry.position < localStop && client.trimmedPrefix <= outcome.entry.position
      && outcome.entry.position < |client.network.seg.issued|
      && outcome.entry == client.network.seg.issued[outcome.entry.position]
    ensures outcome == Nothing ==>
      SkipsTrimmed(old(client.network.seg), client.network.seg, client.trimmedPrefix, localStart, localStop)
    ensures outcome.Found? ==>
      SkipsTrimmed(old(client.network.seg), client.network.seg, client.trimmedPrefix, localStart,
                   outcome.entry.position)
    ensures client.network.whole && 0 <= localStart < localStop ==>
      && outcome != Unavailable && outcome != InvalidRange
      && var start := if localStart < client.trimmedPrefix then client.trimmedPrefix else localStart;
         && (outcome.Found? ==>
               && HeldBy(old(client.network.seg), reader.members, outcome.entry.position)
               && NoneHeld(old(client.network.seg), reader.members, start, outcome.entry.position))
         && (outcome == Nothing ==> NoneHeld(old(client.network.seg), reader.members, start, localStop))
  {
    hide Inv, Grows, Interference, LocalTail, QuorumCovered, QuorumTrimmed, HeldBy;
    ghost var s := client.network.seg;
    InterferenceReflexive(s, false, client.network.quiet);
    var effectiveStart := if localStart < client.trimmedPrefix then client.trimmedPrefix else localStart;
    if localStop <= effectiveStart {
      return Nothing;
    }
    outcome := reader.ReadNext(effectiveStart, localStop, client.knownTail);
  }
}
