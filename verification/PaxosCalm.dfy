/**
 What a calm network answers to the rounds of a proposer: nobody else acts, the members that are up lose no
 request, reply or save, and the others cannot be reached (metastore/paxos/proposer.py, acceptor.py).
 */
module PaxosCalm {
  import opened Wrappers
  import opened Membership
  import opened PaxosTypes
  import opened PaxosAcceptor
  import opened PaxosProtocol

  /** Only this slot's states have changed, at whatever nodes. */
  ghost predicate OnlySlotTouched(s: System, t: System, slot: nat) {
    && t.nodes.Keys == s.nodes.Keys
    && forall n, k: nat :: n in s.nodes && k != slot ==> t.nodes[n].Slot(k) == s.nodes[n].Slot(k)
  }

  /** Nobody has accepted or decided anything in the slot. */
  ghost predicate Untouched(s: System, slot: nat) {
    forall n :: n in s.nodes ==> s.nodes[n].Slot(slot).acceptedBallot.None? && s.nodes[n].Decided(slot).None?
  }

  /** No promise of these nodes for the slot exceeds the round. */
  ghost predicate PromisesWithin(s: System, down: set<NodeId>, slot: nat, round: nat) {
    forall n :: n in s.nodes && n !in down && s.nodes[n].Slot(slot).promised.Some? ==>
      s.nodes[n].Slot(slot).promised.value.round <= round
  }

  /** Exactly these nodes have served the Prepare request, each once, and these are their answers. */
  ghost predicate PreparedBy(s: System, t: System, request: PrepareRequest, nodes: seq<NodeId>,
      responses: seq<PrepareReply>)
  {
    && t.nodes.Keys == s.nodes.Keys && |responses| == |nodes|
    && (forall i :: 0 <= i < |nodes| ==> PreparedAt(s, t, request, nodes[i], responses[i]))
    && (forall n :: n in s.nodes && n !in nodes ==> t.nodes[n] == s.nodes[n])
  }

  ghost predicate PreparedAt(s: System, t: System, request: PrepareRequest, n: NodeId, r: PrepareReply) {
    && n in s.nodes && n in t.nodes
    && r == PrepareReply(n, request.ballot, Prepare(s.nodes[n], request).1)
    && t.nodes[n] == Prepare(s.nodes[n], request).0
  }

  lemma NobodyPrepared(s: System, request: PrepareRequest)
    ensures PreparedBy(s, s, request, [], [])
  {
  }

  /** One more node has served it. */
  lemma PreparedNext(s: System, t: System, u: System, request: PrepareRequest, nodes: seq<NodeId>,
      responses: seq<PrepareReply>, n: NodeId, r: PrepareReply)
    requires PreparedBy(s, t, request, nodes, responses) && n in s.nodes && n !in nodes && n in t.nodes
    requires r == PrepareReply(n, request.ballot, Prepare(t.nodes[n], request).1)
    requires u.nodes == t.nodes[n := Prepare(t.nodes[n], request).0]
    ensures PreparedBy(s, u, request, nodes + [n], responses + [r])
  {
    hide Prepare;
    var more, all := nodes + [n], responses + [r];
    forall i | 0 <= i < |more|
      ensures PreparedAt(s, u, request, more[i], all[i])
    {
      if i < |nodes| {
        assert more[i] == nodes[i] && nodes[i] in nodes;
        assert PreparedAt(s, t, request, nodes[i], responses[i]);
      }
    }
  }

  /** What the answers of all members say about the slot afterwards. */
  lemma PreparedMeans(s: System, t: System, request: PrepareRequest, nodes: seq<NodeId>, responses: seq<PrepareReply>,
      i: nat)
    requires NodesSound(s) && PreparedBy(s, t, request, nodes, responses) && i < |nodes| && 1 <= request.slot
    ensures nodes[i] in t.nodes && responses[i].node == nodes[i]
    ensures var before, after, r := s.nodes[nodes[i]], t.nodes[nodes[i]], responses[i].response;
      && after.Slot(request.slot) == before.Slot(request.slot).(promised := Some(r.promisedBallot))
      && r.decidedValue == before.Decided(request.slot)
      && r.acceptedBallot == before.Slot(request.slot).acceptedBallot
      && (r.promised <==> NonePromisedAbove(before.Slot(request.slot), request.ballot))
      && (r.promised ==> r.promisedBallot == request.ballot)
      && forall k: nat :: k != request.slot ==> after.Slot(k) == before.Slot(k)
  {
    hide FindSlot, Fold, Prepare, Sound;
    assert PreparedAt(s, t, request, nodes[i], responses[i]);
    PrepareKeepsSound(s.nodes[nodes[i]], request);
  }

  lemma PreparedTouches(s: System, t: System, request: PrepareRequest, nodes: seq<NodeId>,
      responses: seq<PrepareReply>)
    requires NodesSound(s) && PreparedBy(s, t, request, nodes, responses) && 1 <= request.slot
    ensures OnlySlotTouched(s, t, request.slot)
    ensures Untouched(s, request.slot) ==> Untouched(t, request.slot)
  {
    hide FindSlot, Fold, Prepare, Sound;
    forall n | n in s.nodes
      ensures forall k: nat :: k != request.slot ==> t.nodes[n].Slot(k) == s.nodes[n].Slot(k)
      ensures t.nodes[n].Slot(request.slot)
           == s.nodes[n].Slot(request.slot).(promised := t.nodes[n].Slot(request.slot).promised)
    {
      if n in nodes {
        var i :| 0 <= i < |nodes| && nodes[i] == n;
        PreparedMeans(s, t, request, nodes, responses, i);
      }
    }
  }

  // ---- The second phase --------------------------------------------------------------------------

  datatype AcceptReply = AcceptReply(node: NodeId, response: AcceptResponse)

  /** Exactly these nodes have served the Accept request, each once, and these are their answers. */
  ghost predicate AcceptedBy(s: System, t: System, request: AcceptRequest, nodes: seq<NodeId>,
      replies: seq<AcceptReply>)
  {
    && t.nodes.Keys == s.nodes.Keys && |replies| == |nodes|
    && (forall i :: 0 <= i < |nodes| ==> AcceptedAt(s, t, request, nodes[i], replies[i]))
    && (forall n :: n in s.nodes && n !in nodes ==> t.nodes[n] == s.nodes[n])
  }

  ghost predicate AcceptedAt(s: System, t: System, request: AcceptRequest, n: NodeId, r: AcceptReply) {
    && n in s.nodes && n in t.nodes && r.node == n
    && Accept(s.nodes[n], request).1 == Reply(r.response)
    && t.nodes[n] == Accept(s.nodes[n], request).0
  }

  lemma NobodyAccepted(s: System, request: AcceptRequest)
    ensures AcceptedBy(s, s, request, [], [])
  {
  }

  lemma AcceptedNext(s: System, t: System, u: System, request: AcceptRequest, nodes: seq<NodeId>,
      replies: seq<AcceptReply>, n: NodeId, r: AcceptReply)
    requires AcceptedBy(s, t, request, nodes, replies) && n in s.nodes && n !in nodes && n in t.nodes
    requires r.node == n && Accept(t.nodes[n], request).1 == Reply(r.response)
    requires u.nodes == t.nodes[n := Accept(t.nodes[n], request).0]
    ensures AcceptedBy(s, u, request, nodes + [n], replies + [r])
  {
    hide Accept;
    var more, all := nodes + [n], replies + [r];
    forall i | 0 <= i < |more|
      ensures AcceptedAt(s, u, request, more[i], all[i])
    {
      if i < |nodes| {
        assert more[i] == nodes[i] && nodes[i] in nodes;
        assert AcceptedAt(s, t, request, nodes[i], replies[i]);
      }
    }
  }

  lemma AcceptedTouches(s: System, t: System, request: AcceptRequest, nodes: seq<NodeId>, replies: seq<AcceptReply>)
    requires NodesSound(s) && AcceptedBy(s, t, request, nodes, replies) && 1 <= request.slot
    ensures OnlySlotTouched(s, t, request.slot)
  {
    hide FindSlot, Fold, Accept, Sound;
    forall n | n in s.nodes
      ensures forall k: nat :: k != request.slot ==> t.nodes[n].Slot(k) == s.nodes[n].Slot(k)
    {
      if n in nodes {
        var i :| 0 <= i < |nodes| && nodes[i] == n;
        assert AcceptedAt(s, t, request, nodes[i], replies[i]);
        AcceptKeepsSound(s.nodes[n], request);
      }
    }
  }

  /** The members that promised the ballot are up and still ready to accept it. */
  ghost predicate Ready(s: System, down: set<NodeId>, slot: nat, ballot: Ballot, responses: seq<PrepareReply>) {
    forall r :: r in Promised(responses) ==>
      && r.node !in down && r.node in s.nodes && s.nodes[r.node].Decided(slot).None?
      && NonePromisedAbove(s.nodes[r.node].Slot(slot), ballot)
      && s.nodes[r.node].Slot(slot).acceptedBallot != Some(ballot)
  }

  /** Who is ready accepts. */
  lemma ReadyAccepts(s: System, t: System, request: AcceptRequest, nodes: seq<NodeId>, replies: seq<AcceptReply>,
      down: set<NodeId>, responses: seq<PrepareReply>, r: PrepareReply)
    requires NodesSound(s) && AcceptedBy(s, t, request, nodes, replies) && 1 <= request.slot
    requires Ready(s, down, request.slot, request.ballot, responses) && r in Promised(responses) && r.node in nodes
    ensures exists q :: q in replies && q.node == r.node && q.response.accepted
  {
    hide FindSlot, Fold, Accept, Sound, Promised;
    var i :| 0 <= i < |nodes| && nodes[i] == r.node;
    assert AcceptedAt(s, t, request, nodes[i], replies[i]);
    AcceptKeepsSound(s.nodes[r.node], request);
    assert replies[i] in replies;
  }

  /** A ballot that has sent nothing has been accepted by nobody. */
  lemma UnsentNotAccepted(s: System, n: NodeId, slot: nat, ballot: Ballot)
    requires Inv(s) && n in s.nodes && 1 <= slot && !s.Sent(ballot)
    ensures s.nodes[n].Slot(slot).acceptedBallot != Some(ballot)
  {
    hide FindSlot, NodesSound, BallotsReserved, VotesKept, RepliesTrue, SentFromQuorum, DecisionsChosen;
    assert s.nodes[n].Slot(slot).acceptedBallot == Some(ballot) ==>
      Carries(s, ballot, slot, s.nodes[n].Slot(slot).acceptedValue);
  }

  lemma TouchedReflexive(s: System, slot: nat)
    ensures OnlySlotTouched(s, s, slot)
  {
    hide FindSlot;
  }

  lemma TouchedJoin(s: System, t: System, u: System, slot: nat)
    requires OnlySlotTouched(s, t, slot) && OnlySlotTouched(t, u, slot)
    ensures OnlySlotTouched(s, u, slot)
  {
    hide FindSlot;
  }

  ghost predicate SlotsKept(s: System, t: System) {
    t.nodes.Keys == s.nodes.Keys && forall n, k: nat :: n in s.nodes ==> t.nodes[n].Slot(k) == s.nodes[n].Slot(k)
  }

  lemma ReserveKeepsSlots(a: AcceptorState, nodeId: NodeId, minimumRound: nat)
    ensures forall k: nat :: ReserveBallot(a, nodeId, minimumRound).0.Slot(k) == a.Slot(k)
  {
  }

  lemma AcceptSaves(a: AcceptorState, request: AcceptRequest)
    ensures Accept(a, request).1 != StorageFailed
  {
    hide FindSlot;
  }

  lemma DecideTouches(s: System, t: System, node: NodeId, request: DecideRequest)
    requires Inv(s) && node in s.nodes && request in s.decisions
    requires t.nodes == s.nodes[node := Decide(s.nodes[node], request).0]
    ensures OnlySlotTouched(s, t, request.slot)
  {
    hide FindSlot, Fold, Decide, Sound, IsChosen, BallotsReserved, AcceptedWasSent, VotesKept, RepliesTrue,
      SentFromQuorum;
    DecideKeepsSound(s.nodes[node], request);
  }

  // ---- What follows for a ballot -----------------------------------------------------------------

  /** With no decision among the answers, none of those nodes has decided the slot. */
  lemma NobodyDecided(s: System, t: System, request: PrepareRequest, nodes: seq<NodeId>, responses: seq<PrepareReply>)
    requires Inv(s) && PreparedBy(s, t, request, nodes, responses) && 1 <= request.slot
    requires SingleDecision(responses) == NoDecision
    ensures forall n :: n in nodes ==> n in t.nodes && t.nodes[n].Decided(request.slot).None?
  {
    hide FindSlot, Fold, Prepare, Sound, PreparedBy, Inv;
    SoundNodes(s);
    forall n | n in nodes
      ensures n in t.nodes && t.nodes[n].Decided(request.slot).None?
    {
      var i :| 0 <= i < |nodes| && nodes[i] == n;
      SameKeys(s, t, request, nodes, responses);
      PreparedMeans(s, t, request, nodes, responses, i);
      assert responses[i] in responses;
    }
  }

  lemma SameKeys(s: System, t: System, request: PrepareRequest, nodes: seq<NodeId>, responses: seq<PrepareReply>)
    requires PreparedBy(s, t, request, nodes, responses)
    ensures t.nodes.Keys == s.nodes.Keys && |responses| == |nodes|
  {
    hide Prepare, PreparedAt;
  }

  lemma SoundNodes(s: System)
    requires Inv(s)
    ensures NodesSound(s)
  {
    hide NodesSound, BallotsReserved, AcceptedWasSent, VotesKept, RepliesTrue, SentFromQuorum, DecisionsChosen;
  }

  /** Who promised an unsent ballot is ready for its value. */
  lemma PromisersReady(s: System, t: System, request: PrepareRequest, nodes: seq<NodeId>, responses: seq<PrepareReply>,
      down: set<NodeId>)
    requires Inv(s) && Inv(t) && PreparedBy(s, t, request, nodes, responses) && 1 <= request.slot
    requires (forall n :: n in nodes ==> n !in down)
    requires SingleDecision(responses) == NoDecision && !t.Sent(request.ballot)
    ensures Ready(t, down, request.slot, request.ballot, responses)
  {
    hide FindSlot, Fold, Prepare, Sound, PreparedBy, Inv, SingleDecision;
    SoundNodes(s);
    SameKeys(s, t, request, nodes, responses);
    NobodyDecided(s, t, request, nodes, responses);
    forall r | r in Promised(responses)
      ensures r.node in nodes && r.node in t.nodes
      ensures NonePromisedAbove(t.nodes[r.node].Slot(request.slot), request.ballot)
      ensures t.nodes[r.node].Slot(request.slot).acceptedBallot != Some(request.ballot)
    {
      var i :| 0 <= i < |responses| && responses[i] == r;
      PreparedMeans(s, t, request, nodes, responses, i);
      UnsentNotAccepted(t, r.node, request.slot, request.ballot);
    }
  }

  /** If no promise exceeded the round, every member promises a ballot of a higher round. */
  lemma AllPromise(s: System, t: System, request: PrepareRequest, nodes: seq<NodeId>, responses: seq<PrepareReply>,
      down: set<NodeId>, round: nat)
    requires Inv(s) && PreparedBy(s, t, request, nodes, responses) && 1 <= request.slot
    requires forall n :: n in nodes ==> n !in down
    requires PromisesWithin(s, down, request.slot, round) && round < request.ballot.round
    ensures Promised(responses) == responses
  {
    hide FindSlot, Fold, Prepare, Sound, PreparedBy, Inv;
    SoundNodes(s);
    SameKeys(s, t, request, nodes, responses);
    forall i | 0 <= i < |responses|
      ensures responses[i].response.promised
    {
      PreparedMeans(s, t, request, nodes, responses, i);
    }
    PromisedAll(responses);
  }

  lemma {:induction false} PromisedAll(responses: seq<PrepareReply>)
    requires forall i :: 0 <= i < |responses| ==> responses[i].response.promised
    ensures Promised(responses) == responses
  {
    if responses != [] {
      PromisedAll(responses[1..]);
    }
  }

  /** Afterwards no member's promise exceeds the highest round reported. */
  lemma RoundsReported(s: System, t: System, request: PrepareRequest, nodes: seq<NodeId>, responses: seq<PrepareReply>,
      down: set<NodeId>, round: nat)
    requires Inv(s) && PreparedBy(s, t, request, nodes, responses) && 1 <= request.slot
    requires forall n :: n in s.nodes && n !in down ==> n in nodes
    requires forall r :: r in responses ==> r.response.promisedBallot.round <= round
    ensures PromisesWithin(t, down, request.slot, round)
  {
    hide FindSlot, Fold, Prepare, Sound, PreparedBy, Inv;
    SoundNodes(s);
    SameKeys(s, t, request, nodes, responses);
    forall n | n in t.nodes && n !in down && t.nodes[n].Slot(request.slot).promised.Some?
      ensures t.nodes[n].Slot(request.slot).promised.value.round <= round
    {
      var i :| 0 <= i < |nodes| && nodes[i] == n;
      PreparedMeans(s, t, request, nodes, responses, i);
      assert responses[i] in responses;
    }
  }

  /** Where nobody has accepted anything, the proposer's own value is adopted. */
  lemma OwnValueAdopted(s: System, t: System, request: PrepareRequest, nodes: seq<NodeId>,
      responses: seq<PrepareReply>, proposed: PaxosValue)
    requires Inv(s) && PreparedBy(s, t, request, nodes, responses) && 1 <= request.slot && Untouched(s, request.slot)
    ensures AdoptedValue(Promised(responses), proposed) == proposed
    ensures SingleDecision(responses) == NoDecision
  {
    hide FindSlot, Fold, Prepare, Sound, PreparedBy, Inv;
    SoundNodes(s);
    SameKeys(s, t, request, nodes, responses);
    forall r | r in responses
      ensures !Accepted(r) && r.response.decidedValue.None?
    {
      var i :| 0 <= i < |responses| && responses[i] == r;
      PreparedMeans(s, t, request, nodes, responses, i);
      assert PreparedAt(s, t, request, nodes[i], responses[i]) by { AtIndex(s, t, request, nodes, responses, i); }
      assert nodes[i] in s.nodes;
    }
    assert HighestAccepted(Promised(responses)).None?;
  }

  lemma AtIndex(s: System, t: System, request: PrepareRequest, nodes: seq<NodeId>, responses: seq<PrepareReply>, i: nat)
    requires PreparedBy(s, t, request, nodes, responses) && i < |nodes|
    ensures PreparedAt(s, t, request, nodes[i], responses[i])
  {
    hide PreparedAt;
  }

  lemma TouchedFrom(s: System, t: System, u: System, slot: nat)
    requires s.nodes == t.nodes && OnlySlotTouched(t, u, slot)
    ensures OnlySlotTouched(s, u, slot)
  {
    hide FindSlot;
  }

  /** What a calm first phase establishes, from before the ballot was reserved. */
  lemma CalmPrepares(s0: System, s1: System, s2: System, request: PrepareRequest, members: seq<NodeId>,
      down: set<NodeId>, responses: seq<PrepareReply>, observed: nat, proposed: PaxosValue)
    requires Inv(s1) && Inv(s2) && SlotsKept(s0, s1)
    requires PreparedBy(s1, s2, request, UpAmong(members, down), responses)
    requires 1 <= request.slot && observed < request.ballot.round
    ensures OnlySlotTouched(s0, s2, request.slot) && |responses| == |UpAmong(members, down)|
    ensures PromisesWithin(s0, down, request.slot, observed) ==> Promised(responses) == responses
    ensures Untouched(s0, request.slot) ==>
      && SingleDecision(responses) == NoDecision && Untouched(s2, request.slot)
      && AdoptedValue(Promised(responses), proposed) == proposed
    ensures SingleDecision(responses) == NoDecision && !s2.Sent(request.ballot) ==>
      Ready(s2, down, request.slot, request.ballot, responses)
  {
    hide Inv, FindSlot, PreparedBy, Ready, SingleDecision, AdoptedValue, Promised, NodesSound;
    var reached := UpAmong(members, down);
    SoundNodes(s1);
    SameKeys(s1, s2, request, reached, responses);
    PreparedTouches(s1, s2, request, reached, responses);
    if PromisesWithin(s0, down, request.slot, observed) {
      AllPromise(s1, s2, request, reached, responses, down, observed);
    }
    if Untouched(s0, request.slot) {
      OwnValueAdopted(s1, s2, request, reached, responses, proposed);
    }
    if SingleDecision(responses) == NoDecision && !s2.Sent(request.ballot) {
      PromisersReady(s1, s2, request, reached, responses, down);
    }
  }

  // ---- Slots nobody has used -----------------------------------------------------------------------

  /** Nobody has touched this slot or any later one. */
  ghost predicate FreeFrom(s: System, free: nat) {
    forall k: nat :: free <= k ==> Untouched(s, k)
  }

  /** Every state has such slots. */
  lemma SomeSlotFree(s: System) returns (free: nat)
    ensures FreeFrom(s, free)
  {
    hide FindSlot;
    free := FreeAmong(s, s.nodes.Keys);
    forall k: nat | free <= k
      ensures Untouched(s, k)
    {
      assert forall n :: n in s.nodes ==> s.nodes[n].Slot(k) == EmptySlot(k);
    }
  }

  lemma {:induction false} FreeAmong(s: System, nodes: set<NodeId>) returns (free: nat)
    requires nodes <= s.nodes.Keys
    ensures forall n, k: nat :: n in nodes && free <= k ==> s.nodes[n].Slot(k) == EmptySlot(k)
  {
    hide FindSlot;
    if nodes == {} {
      free := 0;
    } else {
      var n :| n in nodes;
      var others := FreeAmong(s, nodes - {n});
      var own := HighestSlot(s.nodes[n].durable.slots) + 1;
      free := if others < own then own else others;
      forall k: nat | free <= k
        ensures s.nodes[n].Slot(k) == EmptySlot(k)
      {
        assert s.nodes[n].Slot(k) in s.nodes[n].durable.slots || s.nodes[n].Slot(k) == EmptySlot(k);
      }
    }
  }

  lemma FreeStays(s: System, t: System, slot: nat, free: nat)
    requires OnlySlotTouched(s, t, slot) && FreeFrom(s, free) && slot < free
    ensures FreeFrom(t, free)
  {
    hide FindSlot;
    forall k: nat | free <= k
      ensures Untouched(t, k)
    {
      assert Untouched(s, k);
      forall n | n in t.nodes
        ensures t.nodes[n].Slot(k) == s.nodes[n].Slot(k)
      {
      }
    }
  }
}
