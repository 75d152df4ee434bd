/** What one NativeLoglet segment guarantees over every run, and exactly when a retry's shortcut is safe. */
module LogletTheorems {
  import opened Wrappers
  import opened Membership
  import opened LogletStore
  import opened LogletProtocol

  ghost predicate Reachable(s: Segment) {
    exists run :: Run(run) && run[|run| - 1] == s
  }

  lemma {:induction false} RunInv(run: seq<Segment>, i: nat)
    requires Run(run) && i < |run|
    ensures Inv(run[i])
  {
    hide Inv, Next, Init, Grows;
    if i == 0 {
      InitInv(run[0]);
    } else {
      RunInv(run, i - 1);
      NextKeepsInv(run[i - 1], run[i]);
    }
  }

  lemma {:induction false} RunGrows(run: seq<Segment>, i: nat, j: nat)
    requires Run(run) && i <= j < |run|
    ensures Grows(run[i], run[j])
    decreases j - i
  {
    hide Inv, Next, Init, Grows;
    if i == j {
      GrowsReflexive(run[i]);
    } else {
      RunInv(run, j - 1);
      NextKeepsInv(run[j - 1], run[j]);
      RunGrows(run, i, j - 1);
      GrowsTransitive(run[i], run[j - 1], run[j]);
    }
  }

  lemma ReachableInv(s: Segment)
    requires Reachable(s)
    ensures Inv(s)
  {
    hide Inv;
    var run :| Run(run) && run[|run| - 1] == s;
    RunInv(run, |run| - 1);
  }

  // ---- The seal boundary -------------------------------------------------------------------

  lemma AckedBelowSealedTails(s: Segment, p: nat, tail: nat)
    requires Inv(s) && p in s.acked && tail in s.sealedTails
    ensures p < tail
  {
    hide LocalTail, Dense, CopiesAssigned, KnownPut, CopiesPut, KnownCovered, SequencerBacked, LateRefused;
    var n := QuorumsIntersect(s.members, Holders(s, p), SealedBelow(s, tail));
    var r :| r in s.sealedReads && r.node == n && r.tail <= tail;
    assert PutOk(n, p) in s.puts;
  }

  /**
   A position acknowledged by a commit at any moment lies below every tail a sealed check_tail returns
   at any other moment, before or after, whichever quorums answered.
   */
  lemma SealBoundary(run: seq<Segment>, i: nat, j: nat, p: nat, tail: nat)
    requires Run(run) && i < |run| && j < |run|
    requires p in run[i].acked && tail in run[j].sealedTails
    ensures p < tail
  {
    hide Inv, Run, Grows;
    var k := if i < j then j else i;
    RunInv(run, k);
    RunGrows(run, i, k);
    RunGrows(run, j, k);
    RecordsStay(run[i], run[k]);
    RecordsStay(run[j], run[k]);
    AckedBelowSealedTails(run[k], p, tail);
  }

  lemma RecordsStay(s: Segment, t: Segment)
    requires Grows(s, t)
    ensures s.acked <= t.acked && s.sealedTails <= t.sealedTails && s.known <= t.known
    ensures s.issued <= t.issued && s.members == t.members
  {
  }

  /** A sealed tail was returned only once a quorum had sealed. */
  lemma SealedTailsMeanSealed(s: Segment, tail: nat)
    requires Inv(s) && tail in s.sealedTails
    ensures IsQuorum(s.members, SealedServers(s))
  {
    hide LocalTail, Dense, CopiesAssigned, KnownPut, CopiesPut, KnownCovered, SequencerBacked, LateRefused;
    SubsetSize(SealedBelow(s, tail), SealedServers(s));
  }

  /** The position was first assigned when a quorum had already sealed. */
  ghost predicate Late(s: Segment, p: nat) {
    p < |s.sealedAt| && IsQuorum(s.members, s.sealedAt[p])
  }

  lemma LateNotAcked(s: Segment, p: nat)
    requires Inv(s) && Late(s, p)
    ensures p !in s.acked && p < |s.issued|
  {
    hide LocalTail, Dense, CopiesAssigned, KnownPut, CopiesPut, KnownCovered, SequencerBacked, ReadsFinal;
    if p in s.acked {
      var n := QuorumsIntersect(s.members, s.sealedAt[p], Holders(s, p));
    }
  }

  /** A position the sequencer first assigned after a quorum had sealed is never acknowledged by a commit. */
  lemma LatePositionsNeverCommit(run: seq<Segment>, i: nat, p: nat)
    requires Run(run) && i < |run| && Late(run[i], p)
    ensures p !in run[i].acked
  {
    hide Run, Inv, Late;
    RunInv(run, i);
    LateNotAcked(run[i], p);
  }

  /** Everything before the last assigned position has been acknowledged by a commit. */
  ghost predicate AllButLastAcked(s: Segment) {
    forall p: nat :: p + 1 < |s.issued| ==> p in s.acked
  }

  lemma NextKeepsAcked(s: Segment, t: Segment)
    requires AllButLastAcked(s) && Next(s, t)
    ensures AllButLastAcked(t)
  {
    hide Put, Repair, PrefixTrim, Seal, Observe, Reopen, LocalTail, Reached, SealedBelow, DenseUpTo, Repairable;
    var action :| Enabled(s, action) && t == After(s, action);
  }

  lemma {:induction false} RunAcked(run: seq<Segment>, i: nat)
    requires Run(run) && i < |run|
    ensures AllButLastAcked(run[i])
  {
    hide Next;
    if 0 < i {
      RunAcked(run, i - 1);
      NextKeepsAcked(run[i - 1], run[i]);
    }
  }

  /** At most one position is ever assigned late: the last one, which stays pending for good. */
  lemma AtMostOneLatePosition(run: seq<Segment>, i: nat, j: nat, p: nat, q: nat)
    requires Run(run) && i <= j < |run| && Late(run[i], p) && Late(run[j], q)
    ensures p == q == |run[j].issued| - 1
  {
    hide Run, Inv, Grows, IsQuorum;
    RunInv(run, i);
    RunInv(run, j);
    RunGrows(run, i, j);
    RunAcked(run, j);
    LateStays(run[i], run[j], p);
    LateNotAcked(run[j], p);
    LateNotAcked(run[j], q);
  }

  lemma LateStays(s: Segment, t: Segment, p: nat)
    requires Grows(s, t) && Late(s, p)
    ensures Late(t, p)
  {
    hide ServerGrows;
  }

  /** Sealed tails lie at the end of the assigned positions, or one before it. */
  lemma SealedTailsAtEnd(s: Segment, tail: nat)
    requires Inv(s) && AllButLastAcked(s) && tail in s.sealedTails
    ensures tail <= |s.issued| <= tail + 1
  {
    hide Inv;
    TailsWithinIssued(s);
    if 2 <= |s.issued| {
      AckedBelowSealedTails(s, |s.issued| - 2, tail);
    }
  }

  lemma TailsWithinIssued(s: Segment)
    requires Inv(s)
    ensures s.known <= |s.issued| && forall tail :: tail in s.sealedTails ==> tail <= s.known
  {
    hide LocalTail, Dense, CopiesAssigned, KnownPut, CopiesPut, KnownCovered, SequencerBacked, ReadsFinal, LateRefused;
  }

  /** Over any run, and whichever quorums answered, no two sealed tails differ by more than one. */
  lemma SealedTailsWithinOne(run: seq<Segment>, i: nat, j: nat, tail: nat, other: nat)
    requires Run(run) && i < |run| && j < |run| && tail in run[i].sealedTails && other in run[j].sealedTails
    ensures tail <= other + 1
  {
    hide Inv, Run, Grows, AllButLastAcked;
    var k := if i < j then j else i;
    RunInv(run, k);
    RunAcked(run, k);
    RunGrows(run, i, k);
    RunGrows(run, j, k);
    RecordsStay(run[i], run[k]);
    RecordsStay(run[j], run[k]);
    SealedTailsAtEnd(run[k], tail);
    SealedTailsAtEnd(run[k], other);
  }

  /** A step assigns a late position exactly when it assigns one while a quorum is sealed. */
  lemma LateExactly(s: Segment, action: Action)
    requires Inv(s) && Enabled(s, action)
    ensures |s.sealedAt| == |s.issued|
    ensures Late(After(s, action), |s.issued|) <==> action.AssignAction? && IsQuorum(s.members, SealedServers(s))
  {
    hide Put, Repair, PrefixTrim, Seal, Observe, Reopen, LocalTail, Reached, SealedBelow, DenseUpTo, Repairable,
      IsQuorum, Dense, CopiesAssigned, KnownPut, CopiesPut, KnownCovered, SequencerBacked, ReadsFinal, LateRefused,
      AckedHeld, SealedTailsRead, PutsHeld, TailsKnown;
  }

  // ---- Known tails -------------------------------------------------------------------------

  /** Some known tail somewhere: at a server, in a put reply, at the sequencer, or returned by a check_tail. */
  ghost predicate HeldTail(s: Segment, tail: nat) {
    || (exists n :: n in s.servers && s.servers[n].knownTail == tail)
    || (exists r :: r in s.putReplies && r.knownTail == tail)
    || tail == s.sequencerKnown || tail == s.known || tail in s.sealedTails
  }

  lemma HeldTailsBounded(s: Segment, tail: nat)
    requires Inv(s) && HeldTail(s, tail)
    ensures tail <= s.known
  {
    hide LocalTail, Dense, CopiesAssigned, KnownPut, CopiesPut, KnownCovered, SequencerBacked, ReadsFinal,
      AckedHeld, SealedTailsRead, LateRefused;
  }

  /**
   Everything below a known tail held anywhere is on a quorum, as a copy or trimmed, and every server
   that accounts for a position goes on accounting for it.
   */
  lemma KnownTailsCovered(run: seq<Segment>, i: nat, j: nat, tail: nat, q: nat)
    requires Run(run) && i <= j < |run| && HeldTail(run[i], tail) && q < tail
    ensures QuorumCovered(run[i], q) && QuorumCovered(run[j], q)
    ensures Coverers(run[i], q) <= Coverers(run[j], q)
  {
    hide Inv, Run, Grows, IsQuorum, LocalTail;
    RunInv(run, i);
    RunGrows(run, i, j);
    HeldTailsBounded(run[i], tail);
    assert QuorumCovered(run[i], q) by { CoveredBelowKnown(run[i], q); }
    EvidenceStays(run[i], run[j]);
    CoverersGrow(run[i], run[j], q);
  }

  lemma CoveredBelowKnown(s: Segment, q: nat)
    requires Inv(s) && q < s.known
    ensures QuorumCovered(s, q)
  {
    hide LocalTail, Dense, CopiesAssigned, KnownPut, CopiesPut, SequencerBacked, ReadsFinal;
  }

  lemma CoverersGrow(s: Segment, t: Segment, q: nat)
    requires Grows(s, t)
    ensures Coverers(s, q) <= Coverers(t, q)
  {
    hide LocalTail;
  }

  /** A quorum of servers has a local tail at or above everything established. */
  lemma QuorumReachesKnown(s: Segment)
    requires Inv(s)
    ensures IsQuorum(s.members, Reached(s, s.known))
  {
    hide Dense, CopiesAssigned, KnownPut, CopiesPut, SequencerBacked, ReadsFinal, LateRefused, AckedHeld,
      SealedTailsRead, PutsHeld, TailsKnown;
    if s.known == 0 {
      assert Reached(s, 0) == s.members;
    } else {
      assert QuorumCovered(s, s.known - 1);
      forall n | n in Coverers(s, s.known - 1)
        ensures n in Reached(s, s.known)
      {
        assert IsLocalTail(s.servers[n], LocalTail(s.servers[n]));
      }
      QuorumGrows(s.members, Coverers(s, s.known - 1), Reached(s, s.known));
    }
  }

  /** One command per position, one position per command, and the same entry on every server. */
  lemma OneEntryPerPosition(s: Segment, m: NodeId, n: NodeId, p: nat, q: nat)
    requires Inv(s) && m in s.servers && n in s.servers
    requires p in s.servers[m].entries && q in s.servers[n].entries
    ensures s.servers[m].entries[p].position == p < |s.issued|
    ensures p == q ==> s.servers[m].entries[p] == s.servers[n].entries[q]
    ensures s.servers[m].entries[p].commandId == s.servers[n].entries[q].commandId ==> p == q
  {
    hide LocalTail, Dense, KnownPut, CopiesPut, SequencerBacked, ReadsFinal, KnownCovered, LateRefused;
    assert CopiesAssignedAt(s, m) && CopiesAssignedAt(s, n);
  }

  // ---- Trims -------------------------------------------------------------------------------

  /** The segment after one server has trimmed, whatever position it was asked for. */
  ghost function Trimmed(s: Segment, node: NodeId, position: nat): Segment
    requires node in s.servers
  {
    s.(servers := s.servers[node := PrefixTrim(s.servers[node], position)])
  }

  /**
   A trim keeps the segment sound exactly when it stays within the established tail; beyond it the
   server reports a tail that nothing has established.
   */
  lemma TrimSafeExactly(s: Segment, node: NodeId, position: nat)
    requires Inv(s) && node in s.servers
    ensures Inv(Trimmed(s, node, position)) <==> position <= s.known
    ensures s.known < position ==> s.known < LocalTail(Trimmed(s, node, position).servers[node])
  {
    hide Inv, LocalTail;
    if position <= s.known {
      FlagStepKeepsInv(s, TrimAction(node, position));
    } else {
      TrimTooFar(s, node, position);
    }
  }

  lemma TrimTooFar(s: Segment, node: NodeId, position: nat)
    requires Inv(s) && node in s.servers && s.known < position
    ensures !Inv(Trimmed(s, node, position))
    ensures position <= LocalTail(Trimmed(s, node, position).servers[node])
  {
    hide LocalTail, Dense, CopiesAssigned, KnownPut, CopiesPut, KnownCovered, SequencerBacked, ReadsFinal, PutsHeld,
      AckedHeld, SealedTailsRead, LateRefused;
    var t := Trimmed(s, node, position);
    assert IsLocalTail(t.servers[node], LocalTail(t.servers[node]));
    assert !TailsKnown(t);
  }

  // ---- The retry shortcut ------------------------------------------------------------------

  /** Positions a retry acknowledged from the known tail lie below every sealed tail. */
  ghost predicate ShortcutBounded(s: Segment) {
    forall p, tail :: p in s.shortcutAcked && tail in s.sealedTails ==> p < tail
  }

  /** With at most one member outside a quorum, one of the two servers backing the sequencer is in it. */
  lemma SmallMembershipBounded(s: Segment)
    requires Inv(s) && |s.members| <= 4
    ensures ShortcutBounded(s)
  {
    hide LocalTail, Dense, KnownPut, CopiesPut, KnownCovered, LateRefused, CopiesAssigned, AckedHeld, Beyond;
    forall p, tail | p in s.shortcutAcked && tail in s.sealedTails
      ensures p < tail
    {
      var m, n :| m != n && Beyond(s, m, s.sequencerKnown) && Beyond(s, n, s.sequencerKnown);
      var x := InSmallQuorum(s, SealedBelow(s, tail), m, n);
      SequencerBelowRead(s, x, tail);
    }
  }

  lemma InSmallQuorum(s: Segment, quorum: set<NodeId>, m: NodeId, n: NodeId) returns (x: NodeId)
    requires Inv(s) && |s.members| <= 4 && IsQuorum(s.members, quorum)
    requires m != n && Beyond(s, m, s.sequencerKnown) && Beyond(s, n, s.sequencerKnown)
    ensures x in quorum && Beyond(s, x, s.sequencerKnown)
  {
    hide LocalTail, Dense, KnownPut, CopiesPut, KnownCovered, LateRefused, CopiesAssigned, AckedHeld, SealedTailsRead,
      ReadsFinal, SequencerBacked;
    SubsetSize(quorum + {m, n}, s.members);
    assert m !in quorum && n !in quorum ==> |quorum + {m, n}| == |quorum| + 2;
    x := if m in quorum then m else n;
  }

  lemma SequencerBelowRead(s: Segment, x: NodeId, tail: nat)
    requires Inv(s) && x in SealedBelow(s, tail) && Beyond(s, x, s.sequencerKnown)
    ensures s.sequencerKnown <= tail
  {
    hide LocalTail, Dense, KnownPut, CopiesPut, KnownCovered, LateRefused, CopiesAssigned, AckedHeld, SealedTailsRead,
      SequencerBacked;
    var r :| r in s.sealedReads && r.node == x && r.tail <= tail;
    var w :| w in s.puts && w.node == x && s.sequencerKnown <= w.position + 1;
    assert w.position < r.tail;
  }

  // A larger membership breaks the bound: a zombie copy outside the first sealed quorum is adopted by
  // a later sealed check_tail, one open server carries the new tail back to the sequencer, and the
  // retry acknowledges a position that the first sealed tail had excluded.

  lemma Step(s: Segment, action: Action)
    requires Reachable(s) && Enabled(s, action)
    ensures Reachable(After(s, action))
  {
    hide After, Enabled;
    var run :| Run(run) && run[|run| - 1] == s;
    var longer := run + [After(s, action)];
    assert Next(s, After(s, action));
    assert Run(longer);
  }

  ghost function SealMany(s: Segment, nodes: set<NodeId>): Segment {
    s.(servers := map n | n in s.servers :: if n in nodes then Seal(s.servers[n], 0) else s.servers[n])
  }

  ghost function ReadMany(s: Segment, nodes: set<NodeId>, tail: nat): Segment {
    s.(sealedReads := s.sealedReads + set n | n in nodes :: SealedRead(n, tail))
  }

  ghost function RepairMany(s: Segment, nodes: set<NodeId>, position: nat): Segment
    requires position < |s.issued|
  {
    s.(servers := map n | n in s.servers ::
         if n in nodes then Repair(s.servers[n], s.issued[position], 0).0 else s.servers[n])
  }

  lemma {:induction false} SealManyReachable(s: Segment, nodes: set<NodeId>)
    requires Reachable(s) && nodes <= s.servers.Keys
    ensures Reachable(SealMany(s, nodes))
  {
    hide Reachable;
    if nodes == {} {
      assert SealMany(s, nodes).servers == s.servers;
      assert SealMany(s, nodes) == s;
    } else {
      var n :| n in nodes;
      var before := SealMany(s, nodes - {n});
      SealManyReachable(s, nodes - {n});
      Step(before, SealAction(n, 0));
      assert SealMany(s, nodes).servers == After(before, SealAction(n, 0)).servers;
    }
  }

  lemma {:induction false} ReadManyReachable(s: Segment, nodes: set<NodeId>, tail: nat)
    requires Reachable(s) && nodes <= s.servers.Keys
    requires forall n :: n in nodes ==> s.servers[n].isSealed && LocalTail(s.servers[n]) == tail
    ensures Reachable(ReadMany(s, nodes, tail))
  {
    hide Reachable, LocalTail;
    if nodes == {} {
      assert ReadMany(s, nodes, tail).sealedReads == s.sealedReads;
    } else {
      var n :| n in nodes;
      var before := ReadMany(s, nodes - {n}, tail);
      ReadManyReachable(s, nodes - {n}, tail);
      Step(before, SealedReadAction(n));
      assert ReadMany(s, nodes, tail).sealedReads == After(before, SealedReadAction(n)).sealedReads;
    }
  }

  lemma {:induction false} RepairManyReachable(s: Segment, nodes: set<NodeId>, holder: NodeId)
    requires Reachable(s) && nodes <= s.servers.Keys && 0 < |s.issued|
    requires SealedHolder(s, holder, 0) && holder !in nodes
    ensures Reachable(RepairMany(s, nodes, 0))
  {
    hide Reachable;
    if nodes == {} {
      assert RepairMany(s, nodes, 0).servers == s.servers;
    } else {
      var n :| n in nodes;
      var before := RepairMany(s, nodes - {n}, 0);
      RepairManyReachable(s, nodes - {n}, holder);
      assert SealedHolder(before, holder, 0);
      Step(before, RepairAction(n, 0, 0));
      assert RepairMany(s, nodes, 0).servers == After(before, RepairAction(n, 0, 0)).servers;
    }
  }

  /** In every membership a position can be assigned after a quorum, indeed everybody, has sealed. */
  lemma LateAssignmentHappens(members: set<NodeId>) returns (s: Segment)
    requires 3 <= |members|
    ensures Reachable(s) && s.members == members && Late(s, 0)
  {
    hide Reachable;
    StartReachable(members);
    SealManyReachable(Start(members), members);
    var sealedAll := SealMany(Start(members), members);
    Step(sealedAll, AssignAction("command", []));
    s := After(sealedAll, AssignAction("command", []));
    assert SealedServers(sealedAll) == members;
  }

  ghost function Start(members: set<NodeId>): Segment {
    Segment("segment", members, map n | n in members :: EMPTY_SEGMENT, [], [], 0, {}, {}, {}, 0, {}, {}, {})
  }

  const ENTRY := LogEntry("segment", 0, "command", [])

  /** The state of a server before and after the quorum `r` sealed, with the zombie at `d`. */
  ghost predicate ZombieServers(s: Segment, r: set<NodeId>, d: NodeId) {
    && s.servers.Keys == s.members && d in s.members
    && s.servers[d] == SegmentState(map[0 := ENTRY], false, 0, 0)
    && (forall n :: n in r && n in s.members ==> s.servers[n] == SegmentState(map[], true, 0, 0))
    && (forall n :: n in s.members && n != d && n !in r ==> s.servers[n] == EMPTY_SEGMENT)
  }

  /** `d` alone accepted position 0. */
  lemma ZombiePut(members: set<NodeId>, d: NodeId) returns (s: Segment)
    requires 3 <= |members| && d in members
    ensures Reachable(s) && ZombieServers(s, {}, d)
    ensures s == Segment("segment", members, s.servers, [ENTRY], s.sealedAt, 0,
                         {PutOk(d, 0)}, {PutReply(d, 0, 0)}, {}, 0, {}, {}, {})
  {
    hide Reachable;
    var s0 := Start(members);
    StartReachable(members);
    Step(s0, AssignAction("command", []));
    var s1 := After(s0, AssignAction("command", []));
    assert s1.issued == [ENTRY];
    Step(s1, PutAction(d, 0, 0));
    s := After(s1, PutAction(d, 0, 0));
  }

  /** Then the quorum `r` seals and reports an empty segment. */
  lemma FirstSealedTail(members: set<NodeId>, r: set<NodeId>, d: NodeId) returns (s: Segment)
    requires 3 <= |members| && IsQuorum(members, r) && d in members && d !in r
    ensures Reachable(s) && s.members == members && ZombieServers(s, r, d)
    ensures s.sealedTails == {0} && s.issued == [ENTRY] && s.known == 0 && s.sequencerKnown == 0
    ensures s.puts == {PutOk(d, 0)} && s.shortcutAcked == {}
    ensures s.sealedReads == set n | n in r :: SealedRead(n, 0)
  {
    hide Reachable;
    var s2 := ZombiePut(members, d);
    SealManyReachable(s2, r);
    var s3 := SealMany(s2, r);
    assert forall n :: n in r ==> IsLocalTail(s3.servers[n], 0);
    ReadManyReachable(s3, r, 0);
    var s4 := ReadMany(s3, r, 0);
    FirstTailEnabled(s4, r);
    Step(s4, SealedTailAction(r, 0));
    s := After(s4, SealedTailAction(r, 0));
  }

  lemma FirstTailEnabled(s: Segment, r: set<NodeId>)
    requires IsQuorum(s.members, r) && s.servers.Keys == s.members
    requires s.sealedReads == set n | n in r :: SealedRead(n, 0)
    ensures Enabled(s, SealedTailAction(r, 0))
  {
    forall n | n in r
      ensures n in SealedBelow(s, 0)
    {
      assert SealedRead(n, 0) in s.sealedReads;
    }
    var x :| x in r;
    assert SealedRead(x, 0) in s.sealedReads;
  }

  lemma StartReachable(members: set<NodeId>)
    requires 3 <= |members|
    ensures Reachable(Start(members))
  {
    assert Init(Start(members));
    assert Run([Start(members)]);
  }

  /** The zombie's server seals too, and a check_tail over it and `r` adopts the zombie. */
  lemma SecondSealedTail(members: set<NodeId>, r: set<NodeId>, d: NodeId) returns (s: Segment)
    requires 3 <= |members| && IsQuorum(members, r) && d in members && d !in r
    ensures Reachable(s) && s.members == members && s.servers.Keys == members
    ensures s.sealedTails == {0, 1} && s.issued == [ENTRY] && s.known == 1 && s.sequencerKnown == 0
    ensures s.shortcutAcked == {}
    ensures forall n :: n in members && n != d && n !in r ==> s.servers[n] == EMPTY_SEGMENT
  {
    hide Reachable;
    var s0 := FirstSealedTail(members, r, d);
    Step(s0, SealAction(d, 0));
    var s1 := After(s0, SealAction(d, 0));
    assert IsLocalTail(s1.servers[d], 1);
    Step(s1, SealedReadAction(d));
    var s2 := After(s1, SealedReadAction(d));
    assert SealedHolder(s2, d, 0);
    RepairManyReachable(s2, r, d);
    var s3 := RepairMany(s2, r, 0);
    var both := r + {d};
    SecondTailEnabled(s3, members, r, d);
    Step(s3, SealedTailAction(both, 1));
    s := After(s3, SealedTailAction(both, 1));
  }

  lemma SecondTailEnabled(s: Segment, members: set<NodeId>, r: set<NodeId>, d: NodeId)
    requires s.members == members == s.servers.Keys && IsQuorum(members, r) && d in members && d !in r && s.known == 0
    requires (set n | n in r :: SealedRead(n, 0)) <= s.sealedReads && SealedRead(d, 1) in s.sealedReads
    requires forall n :: n in r || n == d ==> 0 in s.servers[n].entries
    ensures Enabled(s, SealedTailAction(r + {d}, 1))
  {
    var both := r + {d};
    QuorumGrows(members, r, both);
    forall n | n in both
      ensures n in SealedBelow(s, 1)
    {
      assert SealedRead(n, if n == d then 1 else 0) in s.sealedReads;
    }
  }

  /** For every membership of at least five the shortcut can acknowledge past a sealed tail. */
  lemma LargeMembershipBreaks(members: set<NodeId>) returns (s: Segment)
    requires 5 <= |members|
    ensures Reachable(s) && s.members == members && !ShortcutBounded(s)
  {
    hide Reachable;
    var d :| d in members;
    assert |members - {d}| == |members| - 1;
    var e :| e in members - {d};
    var r := members - {d} - {e};
    assert |r| == |members| - 2;
    var s0 := SecondSealedTail(members, r, d);
    Step(s0, ObserveAction(e, 1));
    var told := After(s0, ObserveAction(e, 1));
    Step(told, PutAction(e, 0, 0));
    var s1 := After(told, PutAction(e, 0, 0));
    assert PutReply(e, 0, 1) in s1.putReplies;
    Step(s1, ObserveReplyAction(PutReply(e, 0, 1)));
    var s2 := After(s1, ObserveReplyAction(PutReply(e, 0, 1)));
    Step(s2, ShortcutAction(0));
    s := After(s2, ShortcutAction(0));
    assert 0 in s.shortcutAcked && 0 in s.sealedTails;
  }

  /**
   The retry shortcut respects the seal boundary in every run exactly when the segment has at most
   four members.
   */
  lemma ShortcutBoundary(members: set<NodeId>)
    requires 3 <= |members|
    ensures |members| <= 4 <==> forall s :: Reachable(s) && s.members == members ==> ShortcutBounded(s)
  {
    hide Reachable, ShortcutBounded, Inv;
    if |members| <= 4 {
      forall s | Reachable(s) && s.members == members
        ensures ShortcutBounded(s)
      {
        ReachableInv(s);
        SmallMembershipBounded(s);
      }
    } else {
      var s := LargeMembershipBreaks(members);
    }
  }
}
