/**
 A closed segment under its replacement configuration is still the Loglet it was: what reconfig_modify
 leaves to its caller (virtual_log/core.py), for a target that was prepared (native_loglet/replacement.py).
 */
module ReplacementContract {
  import opened Wrappers
  import opened Membership
  import opened LogChains
  import opened LogletStore
  import opened LogletProtocol
  import opened LogletTheorems
  import opened NativeClient
  import opened NativeContract
  import opened TargetNetwork
  import opened TargetClient
  import Virtual = VirtualLogProtocol
  import VirtualLogTheorems
  import VirtualLogNetwork

  /** `target` covers the closed segment's positions, as a successful preparation leaves it. */
  ghost predicate Covers(s: Segment, x: Extras, target: set<NodeId>, length: nat) {
    Inv(s) && ExtrasFit(s, x) && RangeCovered(s, x, target, 0, length)
  }

  /** The servers of both memberships. */
  ghost function Together(s: Segment, x: Extras): Segment {
    s.(servers := x + s.servers)
  }

  ghost predicate Certified(s: Segment, x: Extras, target: set<NodeId>, watermark: nat) {
    IsQuorum(s.members, TrimmedServers(s, watermark)) || IsQuorum(target, TargetTrimmers(s, x, target, watermark))
  }

  /**
   `l` is what the segment has promised while both memberships serve it: its trim is certified by a quorum
   of either, and its discarded mark is the highest watermark of any server.
   */
  ghost predicate ServedBy(s: Segment, x: Extras, target: set<NodeId>, l: Virtual.Loglet) {
    && l.issued == Issued(s) && l.acked == Acknowledged(s) && l.sealedTails == s.sealedTails
    && l.established == s.known
    && Certified(s, x, target, l.trimmed) && HighestTrim(Together(s, x), l.discarded)
  }

  lemma TrimmedTogether(s: Segment, x: Extras, n: NodeId, watermark: nat)
    ensures TrimmedAt(s, x, n, watermark) <==>
      n in Together(s, x).servers && watermark <= Together(s, x).servers[n].trimmed
  {
    if n in s.servers {
      assert At(s, x, n, s.servers[n]);
    } else if n in x {
      assert At(s, x, n, x[n]);
    }
  }

  lemma HighestTogether(s: Segment, x: Extras) returns (watermark: nat)
    requires Inv(s)
    ensures HighestTrim(Together(s, x), watermark)
  {
    hide Inv, LocalTail;
    SameMembership(s);
    assert s.members != {};
    var m :| m in s.members;
    assert m in Together(s, x).servers;
    var n := HighestTrimAmong(Together(s, x), Together(s, x).servers.Keys);
    watermark := Together(s, x).servers[n].trimmed;
  }

  lemma CertifiedBelowHighest(s: Segment, x: Extras, target: set<NodeId>, certified: nat, highest: nat)
    requires Certified(s, x, target, certified) && HighestTrim(Together(s, x), highest)
    ensures certified <= highest
  {
    hide IsQuorum, TrimmedAt, LocalTail;
    if IsQuorum(s.members, TrimmedServers(s, certified)) {
      var n := QuorumInhabited(s.members, TrimmedServers(s, certified));
      assert Together(s, x).servers[n] == s.servers[n];
    } else {
      var n := QuorumInhabited(target, TargetTrimmers(s, x, target, certified));
      TrimmedTogether(s, x, n, certified);
    }
  }

  /** The promises of a segment meet the contract whatever trims are certified within the discarded mark. */
  lemma PromisesMeetContract(s: Segment, trimmed: nat, discarded: nat)
    requires Inv(s) && trimmed <= discarded
    ensures Virtual.Contract(Virtual.Loglet(Issued(s), Acknowledged(s), s.sealedTails, s.known, trimmed, discarded))
  {
    hide Inv, LocalTail;
    SameMembership(s);
    var highest := TrimExists(s);
    assert TrimmedServers(s, 0) == s.members;
    NativeMeetsContract(s, Virtual.Loglet(Issued(s), Acknowledged(s), s.sealedTails, s.known, 0, highest));
  }

  /** The segment's Loglet goes on as one that both memberships serve. */
  lemma BecomesServed(s: Segment, x: Extras, target: set<NodeId>, l: Virtual.Loglet) returns (m: Virtual.Loglet)
    requires Inv(s) && Abstracts(s, l)
    ensures ServedBy(s, x, target, m) && Virtual.Contract(m) && Virtual.Evolves(l, m)
  {
    hide Inv, LocalTail, IsQuorum, Issued, Acknowledged;
    var highest := HighestTogether(s, x);
    m := l.(discarded := highest);
    CertifiedBelowHighest(s, x, target, l.trimmed, highest);
    PromisesMeetContract(s, l.trimmed, highest);
    HighestReaches(s, x, l.discarded, highest);
    BoundedByKnown(s);
  }

  lemma HighestReaches(s: Segment, x: Extras, own: nat, highest: nat)
    requires HighestTrim(s, own) && HighestTrim(Together(s, x), highest)
    ensures own <= highest
  {
    var n :| n in s.servers && s.servers[n].trimmed == own;
    assert Together(s, x).servers[n] == s.servers[n];
  }

  /** Whatever either membership does, the Loglet they serve evolves; each such move is a Loglet's step. */
  lemma ServedEvolves(log: Virtual.State, id: string, s: Segment, x: Extras, t: Segment, y: Extras,
      target: set<NodeId>, certified: nat) returns (m: Virtual.Loglet)
    requires Virtual.Inv(log) && Inv(s) && MovesOn(s, x, t, y)
    requires ServedBy(s, x, target, Virtual.LogletOf(log, id)) && Certified(t, y, target, certified)
    ensures Virtual.Enabled(log, Virtual.LogletAction(id, m)) && ServedBy(t, y, target, m) && certified <= m.trimmed
  {
    hide Inv, Grows, LocalTail, IsQuorum, Issued, Acknowledged, MovesOn, Virtual.Inv, HighestTrim, Certified, ExtrasFit;
    var l := Virtual.LogletOf(log, id);
    MovedFits(s, x, t, y);
    var highest := HighestTogether(t, y);
    m := Virtual.Loglet(Issued(t), Acknowledged(t), t.sealedTails, t.known, Max(l.trimmed, certified), highest);
    CertifiedStays(s, x, t, y, target, l.trimmed);
    CertifiedBelowHighest(t, y, target, m.trimmed, highest);
    PromisesMeetContract(t, m.trimmed, highest);
    HighestRises(s, x, t, y, l.discarded, highest);
    PromisesKept(s, t);
    BoundedByKnown(s);
  }

  lemma CertifiedStays(s: Segment, x: Extras, t: Segment, y: Extras, target: set<NodeId>, watermark: nat)
    requires Inv(s) && MovesOn(s, x, t, y) && Certified(s, x, target, watermark)
    ensures Certified(t, y, target, watermark)
  {
    hide Inv, Grows, LocalTail, IsQuorum, MovesOn, ExtrasFit;
    MovedFits(s, x, t, y);
    if IsQuorum(s.members, TrimmedServers(s, watermark)) {
      TrimQuorumStays(s, t, watermark);
    } else {
      TrimmersStay(s, x, t, y, target, watermark);
    }
  }

  lemma HighestRises(s: Segment, x: Extras, t: Segment, y: Extras, before: nat, after: nat)
    requires MovesOn(s, x, t, y) && HighestTrim(Together(s, x), before) && HighestTrim(Together(t, y), after)
    ensures before <= after
  {
    hide MovesOn, TrimmedAt;
    var n :| n in Together(s, x).servers && Together(s, x).servers[n].trimmed == before;
    TrimmedTogether(s, x, n, before);
    ConfirmationsStay(s, x, t, y, n, before);
    TrimmedTogether(t, y, n, before);
  }

  /**
   A read through the prepared target, from `s` to `t`, is what the VirtualLog expects of a Loglet's read
   in the segment's range: it passes over an established entry only where the Loglet has discarded.
   */
  lemma TargetReadMeetsContract(s: Segment, x: Extras, t: Segment, y: Extras, target: set<NodeId>,
      a: Virtual.Loglet, b: Virtual.Loglet, length: nat, from: nat, to: nat)
    requires Covers(s, x, target, length) && ServedBy(s, x, target, a) && ServedBy(t, y, target, b) && to <= length
    requires TargetSkips(s, x, t, y, target, from, to)
    ensures VirtualLogNetwork.NoneSkipped(a, b, from, to)
    ensures forall p: nat :: p < |t.issued| ==> p in b.issued && b.issued[p] == CommandOf(t.issued[p])
  {
    hide Inv, LocalTail, IsQuorum, Acknowledged, ExtrasFit, TargetCovered, TrimmedAt, Certified;
    forall q: nat | q in a.issued && q < a.established && from <= q < to
      ensures q < b.discarded
    {
      assert TargetCovered(s, x, target, q);
      assert TargetTrimmed(t, y, target, q);
      var n := QuorumInhabited(target, TargetTrimmers(t, y, target, q + 1));
      TrimmedTogether(t, y, n, q + 1);
    }
  }

  /**
   Replacing the configuration of a closed segment whose target was prepared: the chain stays the same but
   for that configuration, the segment's Loglet goes on as one served by both memberships, and every
   append ever acknowledged in it stands, under its own command, on a quorum of the target.
   */
  lemma ModifiedStillServes(log: Virtual.State, i: nat, configuration: LogletConfiguration, s: Segment, x: Extras,
      target: set<NodeId>, length: nat) returns (m: Virtual.Loglet)
    requires Virtual.Inv(log) && Virtual.Enabled(log, Virtual.ModifyAction(i, configuration))
    requires var segment := Virtual.Current(log).segments[i];
      && segment.virtualStop == Some(segment.virtualStart + length) && Covers(s, x, target, length)
      && Abstracts(s, Virtual.LogletOf(log, segment.segmentId))
    ensures |log.windows| == |log.chains|
    ensures var segment := Virtual.Current(log).segments[i];
      var after := Virtual.After(log, Virtual.ModifyAction(i, configuration));
      && Virtual.Inv(after) && after.loglets == log.loglets && after.acks == log.acks
      && Virtual.Current(after).segments == Virtual.Current(log).segments[i := segment.(loglet := configuration)]
      && Virtual.Enabled(after, Virtual.LogletAction(segment.segmentId, m)) && ServedBy(s, x, target, m)
      && forall a :: a in after.acks && a.segmentId == segment.segmentId ==> AckServed(s, x, target, a, length)
  {
    hide Inv, LocalTail, IsQuorum, Abstracts, Virtual.Inv, ServedBy, Virtual.Contract, Virtual.Evolves, AckServed,
      Covers;
    var segment := Virtual.Current(log).segments[i];
    Virtual.SameLengths(log);
    Virtual.StepKeepsInv(log, Virtual.ModifyAction(i, configuration));
    SegmentCovered(s, x, target, length);
    m := BecomesServed(s, x, target, Virtual.LogletOf(log, segment.segmentId));
    forall a | a in log.acks && a.segmentId == segment.segmentId
      ensures AckServed(s, x, target, a, length)
    {
      SegmentEnded(log, i);
      AckIsServed(log, segment.segmentId, s, x, target, a, length);
    }
  }

  ghost predicate AckServed(s: Segment, x: Extras, target: set<NodeId>, a: Virtual.Ack, length: nat) {
    && a.local < length && TargetCovered(s, x, target, a.local)
    && a.local < |s.issued| && CommandOf(s.issued[a.local]) == a.command
  }

  lemma SegmentCovered(s: Segment, x: Extras, target: set<NodeId>, length: nat)
    requires Covers(s, x, target, length)
    ensures Inv(s) && ExtrasFit(s, x)
    ensures forall p: nat :: p < length ==> TargetCovered(s, x, target, p)
  {
    hide Inv, ExtrasFit, TargetCovered;
  }

  /** A closed segment's length is a sealed tail of its Loglet. */
  lemma SegmentEnded(log: Virtual.State, i: nat)
    requires Virtual.Inv(log) && log.chains != [] && i < |Virtual.Current(log).segments|
    requires Virtual.Current(log).segments[i].virtualStop.Some?
    ensures var segment := Virtual.Current(log).segments[i];
      && segment.virtualStart <= segment.virtualStop.value
      && segment.virtualStop.value - segment.virtualStart in Virtual.LogletOf(log, segment.segmentId).sealedTails
  {
    hide Virtual.Inv;
    Virtual.SameLengths(log);
    var k := ListedAt(log, |log.chains| - 1, i);
    EndedAt(log, k);
  }

  lemma ListedAt(log: Virtual.State, v: nat, i: nat) returns (k: nat)
    requires Virtual.Inv(log) && v < |log.chains| && i < |log.chains[v].segments|
    ensures v < |log.windows| && Virtual.ListsPlaced(log.chains[v].segments[i], log.placed, log.windows[v].high, k)
  {
    hide Virtual.AcksFit, Virtual.DroppedTrimmed, Virtual.HistorySteps, Virtual.ContractsHold, Virtual.PlacedInOrder,
      Virtual.ListsPlaced;
    VirtualLogTheorems.Lists(log, v, i);
    k := log.windows[v].low + i;
  }

  lemma EndedAt(log: Virtual.State, k: nat)
    requires Virtual.Inv(log) && k + 1 < |log.placed|
    ensures Virtual.EndedSealed(log, k)
  {
    hide Virtual.AcksFit, Virtual.DroppedTrimmed, Virtual.HistorySteps, Virtual.ContractsHold, Virtual.WindowsFit;
  }

  lemma AckIsServed(log: Virtual.State, id: string, s: Segment, x: Extras, target: set<NodeId>, a: Virtual.Ack,
      length: nat)
    requires Virtual.Inv(log) && a in log.acks && a.segmentId == id && Abstracts(s, Virtual.LogletOf(log, id))
    requires length in Virtual.LogletOf(log, id).sealedTails
    requires forall p: nat :: p < length ==> TargetCovered(s, x, target, p)
    ensures AckServed(s, x, target, a, length)
  {
    hide Virtual.Inv, TargetCovered, IsQuorum, LocalTail, HighestTrim, Acknowledged;
    VirtualLogTheorems.AckFacts(log, a);
  }
}
