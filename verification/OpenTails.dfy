/**
 What an open check_tail vouches for once the segment is sealed (native_loglet/client.py): a tail with
 copies on a quorum of open servers is final, one that rests on the client's known tail need not be.
 */
module OpenTails {
  import opened Wrappers
  import opened Membership
  import opened LogletStore
  import opened LogletProtocol
  import opened LogletTheorems

  // ---- Copies on open servers ------------------------------------------------------------------

  /** Sealed reads come after the server's earlier growth: new ones report at least its tail at `s`. */
  ghost predicate LaterReads(s: Segment, t: Segment) {
    forall r :: r in t.sealedReads && r !in s.sealedReads && r.node in s.servers ==>
      LocalTail(s.servers[r.node]) <= r.tail
  }

  lemma StepReadsLater(s: Segment, t: Segment)
    requires Inv(s) && Next(s, t)
    ensures LaterReads(s, t)
  {
    hide Inv, Put, Repair, PrefixTrim, Seal, Observe, Reopen, LocalTail, Reached, SealedBelow, DenseUpTo, Repairable;
    var action :| Enabled(s, action) && t == After(s, action);
  }

  lemma {:induction false} RunReadsLater(run: seq<Segment>, i: nat, j: nat)
    requires Run(run) && i <= j < |run|
    ensures LaterReads(run[i], run[j])
    decreases j - i
  {
    hide Inv, Next, Init, LaterReads, Grows;
    if i == j {
      NoNewReads(run[i]);
    } else {
      RunReadsLater(run, i, j - 1);
      RunInv(run, j - 1);
      RunGrows(run, i, j - 1);
      StepReadsLater(run[j - 1], run[j]);
      ReadsLaterJoin(run[i], run[j - 1], run[j]);
    }
  }

  lemma NoNewReads(s: Segment)
    ensures LaterReads(s, s)
  {
    hide LocalTail;
  }

  lemma ReadsLaterJoin(s: Segment, t: Segment, u: Segment)
    requires LaterReads(s, t) && LaterReads(t, u) && Grows(s, t)
    ensures LaterReads(s, u)
  {
    hide LocalTail;
    forall r | r in u.sealedReads && r !in s.sealedReads && r.node in s.servers
      ensures LocalTail(s.servers[r.node]) <= r.tail
    {
      if r !in t.sealedReads {
        assert ServerGrows(s.servers[r.node], t.servers[r.node]);
      }
    }
  }

  /** At the moment `at[n]` server n was open and its tail had reached `tail`. */
  ghost predicate OpenCopies(run: seq<Segment>, at: map<NodeId, nat>, tail: nat) {
    forall n :: n in at ==> OpenCopy(run, at[n], n, tail)
  }

  ghost predicate OpenCopy(run: seq<Segment>, i: nat, n: NodeId, tail: nat) {
    && i < |run| && n in run[i].servers
    && !run[i].servers[n].isSealed && tail <= LocalTail(run[i].servers[n])
  }

  /**
   A tail that a quorum of servers had reached while still open, each at its own moment, lies at or below
   every sealed tail, whenever that is returned and whoever answered.
   */
  lemma OpenCopiesAreFinal(run: seq<Segment>, at: map<NodeId, nat>, tail: nat, j: nat, sealedTail: nat)
    requires Run(run) && j < |run| && sealedTail in run[j].sealedTails
    requires OpenCopies(run, at, tail) && IsQuorum(run[j].members, at.Keys)
    ensures tail <= sealedTail
  {
    hide Inv, Run, LocalTail, IsQuorum, LaterReads, Grows;
    RunInv(run, j);
    SealedQuorum(run[j], sealedTail);
    var n := QuorumsIntersect(run[j].members, at.Keys, SealedBelow(run[j], sealedTail));
    assert OpenCopy(run, at[n], n, tail);
    var r :| r in run[j].sealedReads && r.node == n && r.tail <= sealedTail;
    ReadAfterOpen(run, at[n], j, n, r);
  }

  lemma SealedQuorum(s: Segment, tail: nat)
    requires Inv(s) && tail in s.sealedTails
    ensures IsQuorum(s.members, SealedBelow(s, tail))
  {
    hide LocalTail, Dense, CopiesAssigned, KnownPut, CopiesPut, KnownCovered, SequencerBacked, LateRefused, ReadsFinal;
  }

  /** A server's sealed read reports at least the tail it had while open, before or after the read's state. */
  lemma ReadAfterOpen(run: seq<Segment>, i: nat, j: nat, n: NodeId, r: SealedRead)
    requires Run(run) && i < |run| && j < |run| && n in run[i].servers && !run[i].servers[n].isSealed
    requires r in run[j].sealedReads && r.node == n
    ensures LocalTail(run[i].servers[n]) <= r.tail
  {
    hide Inv, Run, LocalTail, LaterReads, Grows;
    RunInv(run, i);
    OpenNotRead(run[i], n, r);
    if i <= j {
      RunReadsLater(run, i, j);
      LaterReadBounds(run[i], run[j], n, r);
    } else {
      RunGrows(run, j, i);
      ReadsKept(run[j], run[i]);
    }
  }

  lemma OpenNotRead(s: Segment, n: NodeId, r: SealedRead)
    requires Inv(s) && n in s.servers && !s.servers[n].isSealed && r.node == n
    ensures r !in s.sealedReads
  {
    hide LocalTail, Dense, CopiesAssigned, KnownPut, CopiesPut, KnownCovered, SequencerBacked, LateRefused;
  }

  lemma LaterReadBounds(s: Segment, t: Segment, n: NodeId, r: SealedRead)
    requires LaterReads(s, t) && r in t.sealedReads && r !in s.sealedReads && r.node == n && n in s.servers
    ensures LocalTail(s.servers[n]) <= r.tail
  {
    hide LocalTail;
  }

  lemma ReadsKept(s: Segment, t: Segment)
    requires Grows(s, t)
    ensures s.sealedReads <= t.sealedReads
  {
    hide ServerGrows;
  }

  // ---- The open check --------------------------------------------------------------------------

  /**
   A majority of servers, each open when read at its own moment `at[n]`, lets check_tail return `tail`: it
   is their highest local tail, and it is 0, or a reply's known tail has reached it, or a quorum has.
   */
  ghost predicate OpenCheckReturns(run: seq<Segment>, at: map<NodeId, nat>, tail: nat)
    requires run != []
  {
    && IsQuorum(run[0].members, at.Keys)
    && (forall n :: n in at ==> OpenCopy(run, at[n], n, 0) && LocalTail(run[at[n]].servers[n]) <= tail)
    && (exists n :: n in at && OpenCopy(run, at[n], n, tail))
    && (tail == 0 || KnownTo(run, at, tail) || IsQuorum(run[0].members, CopiesAt(run, at, tail)))
  }

  ghost predicate KnownTo(run: seq<Segment>, at: map<NodeId, nat>, tail: nat) {
    exists n :: n in at && at[n] < |run| && n in run[at[n]].servers && tail <= run[at[n]].servers[n].knownTail
  }

  ghost function CopiesAt(run: seq<Segment>, at: map<NodeId, nat>, tail: nat): set<NodeId> {
    set n | n in at && OpenCopy(run, at[n], n, tail)
  }

  /** Unless it rests on a known tail alone, an open check's tail lies at or below every sealed tail. */
  lemma OpenCheckFinal(run: seq<Segment>, at: map<NodeId, nat>, tail: nat, j: nat, sealedTail: nat)
    requires Run(run) && OpenCheckReturns(run, at, tail)
    requires tail == 0 || IsQuorum(run[0].members, CopiesAt(run, at, tail))
    requires j < |run| && sealedTail in run[j].sealedTails
    ensures tail <= sealedTail
  {
    hide Inv, LocalTail, IsQuorum, Grows, Next;
    if tail != 0 {
      var copies := map n | n in CopiesAt(run, at, tail) :: at[n];
      assert copies.Keys == CopiesAt(run, at, tail);
      RunGrows(run, 0, j);
      assert run[j].members == run[0].members by { SameMembers(run[0], run[j]); }
      OpenCopiesAreFinal(run, copies, tail, j, sealedTail);
    }
  }

  lemma SameMembers(s: Segment, t: Segment)
    requires Grows(s, t)
    ensures s.members == t.members && s.sealedTails <= t.sealedTails
  {
    hide ServerGrows;
  }

  // ---- A known tail overtaken ------------------------------------------------------------------

  // One server holds a zombie and answers an open check. Everybody but the last server seals; a sealed
  // check that missed the zombie's server has read them empty, another adopts the zombie, establishes 1
  // and tells the last server, which, still open, passes it on to the open check. That check has the tail 1
  // and a known tail of 1, and returns it; then the last server seals too, and the first sealed check
  // finishes with 0.

  ghost function Last(run: seq<Segment>): Segment
    requires run != []
  {
    run[|run| - 1]
  }

  lemma Go(run: seq<Segment>, action: Action) returns (longer: seq<Segment>)
    requires Run(run) && run != [] && Enabled(Last(run), action)
    ensures longer != [] && Run(longer) && run <= longer && |longer| == |run| + 1
    ensures Last(longer) == After(Last(run), action)
  {
    hide After, Enabled;
    longer := run + [After(Last(run), action)];
    assert Next(Last(run), After(Last(run), action));
  }

  lemma {:induction false} GoSeal(run: seq<Segment>, nodes: set<NodeId>) returns (longer: seq<Segment>)
    requires Run(run) && run != [] && nodes <= Last(run).servers.Keys
    ensures longer != [] && Run(longer) && run <= longer && Last(longer) == SealMany(Last(run), nodes)
  {
    hide Run;
    if nodes == {} {
      longer := run;
      assert SealMany(Last(run), nodes).servers == Last(run).servers;
    } else {
      var n :| n in nodes;
      var before := GoSeal(run, nodes - {n});
      longer := Go(before, SealAction(n, 0));
      assert SealMany(Last(run), nodes).servers == Last(longer).servers;
    }
  }

  lemma {:induction false} GoRead(run: seq<Segment>, nodes: set<NodeId>, tail: nat) returns (longer: seq<Segment>)
    requires Run(run) && run != [] && nodes <= Last(run).servers.Keys
    requires forall n :: n in nodes ==> Last(run).servers[n].isSealed && LocalTail(Last(run).servers[n]) == tail
    ensures longer != [] && Run(longer) && run <= longer && Last(longer) == ReadMany(Last(run), nodes, tail)
  {
    hide Run, LocalTail;
    if nodes == {} {
      longer := run;
      assert ReadMany(Last(run), nodes, tail).sealedReads == Last(run).sealedReads;
    } else {
      var n :| n in nodes;
      var before := GoRead(run, nodes - {n}, tail);
      longer := Go(before, SealedReadAction(n));
      assert ReadMany(Last(run), nodes, tail).sealedReads == Last(longer).sealedReads;
    }
  }

  lemma {:induction false} GoRepair(run: seq<Segment>, nodes: set<NodeId>, holder: NodeId)
    returns (longer: seq<Segment>)
    requires Run(run) && run != [] && nodes <= Last(run).servers.Keys && 0 < |Last(run).issued|
    requires SealedHolder(Last(run), holder, 0) && holder !in nodes
    ensures longer != [] && Run(longer) && run <= longer && Last(longer) == RepairMany(Last(run), nodes, 0)
  {
    hide Run;
    if nodes == {} {
      longer := run;
      assert RepairMany(Last(run), nodes, 0).servers == Last(run).servers;
    } else {
      var n :| n in nodes;
      var before := GoRepair(run, nodes - {n}, holder);
      assert SealedHolder(Last(before), holder, 0);
      longer := Go(before, RepairAction(n, 0, 0));
      assert RepairMany(Last(run), nodes, 0).servers == Last(longer).servers;
    }
  }

  /** Only `d` holds position 0, and everybody is open. */
  lemma OneCopy(members: set<NodeId>, d: NodeId) returns (run: seq<Segment>)
    requires 3 <= |members| && d in members
    ensures run != [] && Run(run) && Last(run).members == members == Last(run).servers.Keys
    ensures ZombieServers(Last(run), {}, d)
    ensures Last(run) == Segment("segment", members, Last(run).servers, [ENTRY], Last(run).sealedAt, 0,
                                 {PutOk(d, 0)}, {PutReply(d, 0, 0)}, {}, 0, {}, {}, {})
  {
    hide Run;
    var r0 := [Start(members)];
    assert Run(r0) by { StartRuns(members); }
    var r1 := Go(r0, AssignAction("command", []));
    assert Last(r1).issued == [ENTRY];
    run := Go(r1, PutAction(d, 0, 0));
  }

  lemma StartRuns(members: set<NodeId>)
    requires 3 <= |members|
    ensures Run([Start(members)])
  {
    assert Init(Start(members));
  }

  /** `d` holds the zombie, everybody but `e` has sealed, and all of those have been read. */
  ghost predicate ZombieRead(s: Segment, d: NodeId, e: NodeId) {
    && 3 <= |s.members| && s.servers.Keys == s.members && d in s.members && e in s.members && d != e
    && s.issued == [ENTRY] && s.puts == {PutOk(d, 0)} && s.known == 0 && s.sealedTails == {}
    && s.servers[e] == EMPTY_SEGMENT && s.servers[d] == SegmentState(map[0 := ENTRY], true, 0, 0)
    && (forall n :: n in s.members && n != d && n != e ==> s.servers[n] == SegmentState(map[], true, 0, 0))
    && SealedRead(d, 1) in s.sealedReads
    && (forall n :: n in s.members && n != d && n != e ==> SealedRead(n, 0) in s.sealedReads)
  }

  lemma ReadAllButOne(run: seq<Segment>, d: NodeId, e: NodeId) returns (longer: seq<Segment>)
    requires run != [] && Run(run) && d != e && d in Last(run).members && e in Last(run).members
    requires 3 <= |Last(run).members| && ZombieServers(Last(run), {}, d)
    requires Last(run).issued == [ENTRY] && Last(run).puts == {PutOk(d, 0)}
    requires Last(run).known == 0 && Last(run).sealedReads == {} && Last(run).sealedTails == {}
    ensures longer != [] && Run(longer) && run <= longer && Last(longer).members == Last(run).members
    ensures ZombieRead(Last(longer), d, e)
  {
    hide Run, LocalTail;
    var s := Last(run);
    var rest := s.members - {e} - {d};
    var r1 := GoSeal(run, s.members - {e});
    assert forall n :: n in rest ==> IsLocalTail(Last(r1).servers[n], 0);
    var r2 := GoRead(r1, rest, 0);
    assert IsLocalTail(Last(r2).servers[d], 1);
    longer := Go(r2, SealedReadAction(d));
  }

  /** After the sealed check over everybody but `e`: tail 1 is established, and `e` alone is still open. */
  ghost predicate ZombieAdopted(s: Segment, d: NodeId, e: NodeId) {
    && 3 <= |s.members| && s.servers.Keys == s.members && d in s.members && e in s.members && d != e
    && s.known == 1 && s.sealedTails == {1} && s.servers[e] == EMPTY_SEGMENT
    && (forall n :: n in s.members && n != d && n != e ==> SealedRead(n, 0) in s.sealedReads)
  }

  lemma Adopt(run: seq<Segment>, d: NodeId, e: NodeId) returns (longer: seq<Segment>)
    requires run != [] && Run(run) && ZombieRead(Last(run), d, e)
    ensures longer != [] && Run(longer) && run <= longer && Last(longer).members == Last(run).members
    ensures ZombieAdopted(Last(longer), d, e)
  {
    hide Run, LocalTail;
    var s := Last(run);
    assert SealedHolder(s, d, 0);
    var r1 := GoRepair(run, s.members - {e} - {d}, d);
    assert forall n :: n in s.members && n != e && n != d ==> 0 in Last(r1).servers[n].entries;
    AdoptionEnabled(Last(r1), d, e);
    longer := Go(r1, SealedTailAction(s.members - {e}, 1));
  }

  lemma AdoptionEnabled(s: Segment, d: NodeId, e: NodeId)
    requires 3 <= |s.members| && s.members == s.servers.Keys && d in s.members && e in s.members && d != e
    requires s.known == 0 && SealedRead(d, 1) in s.sealedReads
    requires forall n :: n in s.members && n != d && n != e ==> SealedRead(n, 0) in s.sealedReads
    requires forall n :: n in s.members && n != e ==> 0 in s.servers[n].entries
    ensures Enabled(s, SealedTailAction(s.members - {e}, 1))
  {
    var most := s.members - {e};
    assert |most| == |s.members| - 1;
    forall n | n in most
      ensures n in SealedBelow(s, 1)
    {
      assert SealedRead(n, if n == d then 1 else 0) in s.sealedReads;
    }
  }

  lemma SlowEnabled(s: Segment, d: NodeId)
    requires 3 <= |s.members| && s.members == s.servers.Keys && d in s.members && s.known == 1
    requires forall n :: n in s.members && n != d ==> SealedRead(n, 0) in s.sealedReads
    ensures Enabled(s, SealedTailAction(s.members - {d}, 0))
  {
    var most := s.members - {d};
    assert |most| == |s.members| - 1;
    forall n | n in most
      ensures n in SealedBelow(s, 0)
    {
      assert SealedRead(n, 0) in s.sealedReads;
    }
    var x :| x in most;
    assert SealedRead(x, 0) in s.sealedReads;
  }

  /** `e` learns the new tail while open, then seals; the slow check reads it and finishes with tail 0. */
  lemma SlowFinish(run: seq<Segment>, d: NodeId, e: NodeId) returns (longer: seq<Segment>)
    requires run != [] && Run(run) && ZombieAdopted(Last(run), d, e)
    ensures longer != [] && Run(longer) && run <= longer && |run| + 2 < |longer|
    ensures longer[|run|].sealedTails == {1} && e in longer[|run|].servers
    ensures longer[|run|].servers[e] == SegmentState(map[], false, 0, 1)
    ensures 0 in Last(longer).sealedTails
  {
    hide Run, LocalTail;
    var r1 := Tell(run, d, e);
    var r2 := Go(r1, SealAction(e, 0));
    assert IsLocalTail(Last(r2).servers[e], 0);
    var r3 := Go(r2, SealedReadAction(e));
    SlowEnabled(Last(r3), d);
    longer := Go(r3, SealedTailAction(Last(r3).members - {d}, 0));
    assert longer[|run|] == r1[|run|];
  }

  lemma Tell(run: seq<Segment>, d: NodeId, e: NodeId) returns (longer: seq<Segment>)
    requires run != [] && Run(run) && ZombieAdopted(Last(run), d, e)
    ensures longer != [] && Run(longer) && run <= longer && |longer| == |run| + 1
    ensures Last(longer) == Last(run).(servers := Last(run).servers[e := SegmentState(map[], false, 0, 1)])
  {
    hide Run, LocalTail;
    longer := Go(run, ObserveAction(e, 1));
  }

  /**
   In every membership an open check_tail can return 1, all its replies read by moment `c`, and a sealed
   check_tail return 0 afterwards.
   */
  lemma OpenTailOvertaken(members: set<NodeId>, d: NodeId, e: NodeId)
    returns (run: seq<Segment>, at: map<NodeId, nat>, c: nat)
    requires 3 <= |members| && d in members && e in members && d != e
    ensures Run(run) && run[0].members == members && c < |run|
    ensures at.Keys == members && OpenCheckReturns(run, at, 1) && forall n :: n in at ==> at[n] <= c
    ensures 0 !in run[c].sealedTails && 0 in run[|run| - 1].sealedTails
  {
    hide Run, LocalTail, OpenCheckReturns;
    var r0 := OneCopy(members, d);
    var a := |r0| - 1;
    var r1 := ReadAllButOne(r0, d, e);
    var r2 := Adopt(r1, d, e);
    run := SlowFinish(r2, d, e);
    c := |r2|;
    assert run[a] == r0[a];
    at := map n | n in members :: if n == e then c else a;
    OpenReplies(run, at, members, d, e, a, c);
  }

  lemma OpenReplies(run: seq<Segment>, at: map<NodeId, nat>, members: set<NodeId>, d: NodeId, e: NodeId, a: nat, c: nat)
    requires Run(run) && a < c < |run| && d in members && e in members && d != e && 3 <= |members|
    requires run[a].members == members && ZombieServers(run[a], {}, d)
    requires e in run[c].servers && run[c].servers[e] == SegmentState(map[], false, 0, 1)
    requires at == map n | n in members :: if n == e then c else a
    ensures run[0].members == members && OpenCheckReturns(run, at, 1)
  {
    hide Run, LocalTail, Grows, ZombieServers, OpenCopy;
    RunGrows(run, 0, a);
    SameMembers(run[0], run[a]);
    forall n | n in members
      ensures at[n] < |run| && n in run[at[n]].servers
      ensures OpenCopy(run, at[n], n, 0) && LocalTail(run[at[n]].servers[n]) <= 1
    {
      if n == e {
        OpenEmpty(run, c, e);
      } else {
        ZombieOpen(run, a, d, n);
      }
    }
    assert at.Keys == members;
    ZombieOpen(run, a, d, d);
    assert OpenCopy(run, at[d], d, 1);
    assert KnownTo(run, at, 1) by { assert e in at && at[e] == c; }
  }

  lemma OpenEmpty(run: seq<Segment>, i: nat, n: NodeId)
    requires i < |run| && n in run[i].servers && run[i].servers[n].entries == map[]
    requires !run[i].servers[n].isSealed && run[i].servers[n].trimmed == 0
    ensures OpenCopy(run, i, n, 0) && LocalTail(run[i].servers[n]) <= 1
  {
    hide LocalTail;
    assert IsLocalTail(run[i].servers[n], 0);
  }

  lemma ZombieOpen(run: seq<Segment>, i: nat, d: NodeId, n: NodeId)
    requires i < |run| && ZombieServers(run[i], {}, d) && n in run[i].members
    ensures n in run[i].servers && OpenCopy(run, i, n, 0) && LocalTail(run[i].servers[n]) <= 1
    ensures n == d ==> OpenCopy(run, i, n, 1)
  {
    hide LocalTail;
    assert IsLocalTail(run[i].servers[n], if n == d then 1 else 0);
  }
}
