/**
 The proposer's ballot loop and the MetaStore built on it (metastore/paxos/proposer.py, client.py),
 run against a network in which everyone else may take any number of protocol steps between two
 of its own.
 */
module PaxosProposer {
  import opened Wrappers
  import opened Membership
  import opened LogChains
  import opened Register
  import opened PaxosTypes
  import opened PaxosAcceptor
  import opened PaxosProtocol
  import opened PaxosTheorems
  import opened PaxosCalm

  // ---- Interference ------------------------------------------------------------------------

  /**
   What the rest of the system may do while process `self` waits: anything the protocol allows except
   restarting `self` or selecting a value for a ballot in `mine`, which only its own attempt does.
   */
  ghost predicate Interference(s: System, t: System, self: NodeId, mine: set<Ballot>) {
    && Inv(t) && Grows(s, t)
    && (self in s.nodes && self in t.nodes ==> AppliedGrows(s.nodes[self], t.nodes[self]))
    && (forall b :: b in mine && b in s.attempts ==> b in t.attempts && t.attempts[b] == s.attempts[b])
  }

  predicate ByOthers(action: Action, self: NodeId, mine: set<Ballot>) {
    && action != RestartAction(self)
    && (action.SendAcceptAction? ==> action.ballot !in mine)
  }

  lemma InterferenceReflexive(s: System, self: NodeId, mine: set<Ballot>)
    requires Inv(s)
    ensures Interference(s, s, self, mine)
  {
    hide Inv, Grows;
    GrowsReflexive(s);
  }

  lemma InterferenceTransitive(s: System, t: System, u: System, self: NodeId, mine: set<Ballot>)
    requires Interference(s, t, self, mine) && Interference(t, u, self, mine)
    ensures Interference(s, u, self, mine)
  {
    hide Inv, NodeGrows;
    GrowsTransitive(s, t, u);
    if self in s.nodes {
      AppliedGrowsTransitive(s.nodes[self], t.nodes[self], u.nodes[self]);
    }
  }

  lemma AppliedGrowsTransitive(a: AcceptorState, b: AcceptorState, c: AcceptorState)
    requires AppliedGrows(a, b) && AppliedGrows(b, c)
    ensures AppliedGrows(a, c)
  {
  }

  /** Every protocol step of anyone else is interference, so runs of such steps are too. */
  lemma OthersInterfere(s: System, action: Action, self: NodeId, mine: set<Ballot>)
    requires Inv(s) && Enabled(s, action) && ByOthers(action, self, mine)
    ensures Interference(s, After(s, action), self, mine)
  {
    hide Inv, Grows, FindSlot, Decide, Prepare, Accept, AppliedGrows;
    var t := After(s, action);
    NextKeepsInv(s, t);
    NodesAreMembers(s);
    if self in s.nodes {
      StepAppliedGrows(s, action, self);
    }
    if action.ReserveAction? {
      ReserveGrows(s, action);
    }
  }

  lemma StepAppliedGrows(s: System, action: Action, self: NodeId)
    requires Inv(s) && Enabled(s, action) && action != RestartAction(self) && self in s.nodes
    ensures self in After(s, action).nodes && AppliedGrows(s.nodes[self], After(s, action).nodes[self])
  {
    hide Inv, FindSlot;
    if action.DecideAction? && action.node == self {
      DecideGrows(s, action);
    }
  }

  /** A reservation by `self`: a ballot nobody has used, and nothing the others would notice. */
  lemma ReserveStep(s: System, self: NodeId, minimumRound: nat, slot: nat, proposed: PaxosValue)
    requires Inv(s) && self in s.nodes && 1 <= slot
    ensures var (a, ballot) := ReserveBallot(s.nodes[self], self, minimumRound);
      && ballot !in s.attempts && minimumRound < ballot.round
      && var t := s.(nodes := s.nodes[self := a],
                     attempts := s.attempts[ballot := Attempt(slot, proposed, None, [])]);
         Interference(s, t, self, {})
  {
    hide Inv, Grows, FindSlot, Interference, ReserveBallot, Prepare, Accept, Decide;
    NodesAreMembers(s);
    ghost var action := ReserveAction(self, minimumRound, slot, proposed);
    ReserveGrows(s, action);
    OthersInterfere(s, action, self, {});
  }

  // ---- The network -------------------------------------------------------------------------

  /** The whole system as process `self` meets it: each call is one step at one acceptor, and may be lost. */
  class Network {
    var sys: System
    const self: NodeId
    /** Nobody else acts, the nodes that are up lose no request, reply or save, and the others are out of reach. */
    const calm: bool
    const down: set<NodeId>

    /** The other processes run. */
    method Interfere(mine: set<Ballot>)
      requires Inv(sys)
      modifies this
      ensures Interference(old(sys), sys, self, mine)
      ensures calm ==> sys == old(sys)
    {
      InterferenceReflexive(sys, self, mine);
    }

    /** A message to or from the node is lost. */
    method Lost(node: NodeId) returns (lost: bool)
      ensures calm ==> (lost <==> node in down)
    {
      lost := *;
      if calm {
        lost := node in down;
      }
    }

    method Reserve(minimumRound: nat, slot: nat, proposed: PaxosValue) returns (ballot: Ballot)
      requires Inv(sys) && self in sys.nodes && 1 <= slot <= sys.nodes[self].durable.lastApplied + 1
      modifies this
      ensures Interference(old(sys), sys, self, {})
      ensures ballot !in old(sys).attempts && minimumRound < ballot.round
      ensures ballot in sys.attempts && sys.attempts[ballot] == Attempt(slot, proposed, None, [])
      ensures calm ==> SlotsKept(old(sys), sys)
    {
      hide Inv, Grows, FindSlot, Interference, ReserveBallot;
      Interfere({});
      ghost var s := sys;
      InterferenceGives(old(sys), s, self, {});
      ReserveStep(s, self, minimumRound, slot, proposed);
      var reserved := ReserveBallot(sys.nodes[self], self, minimumRound);
      ballot := reserved.1;
      sys := sys.(nodes := sys.nodes[self := reserved.0],
                  attempts := sys.attempts[ballot := Attempt(slot, proposed, None, [])]);
      InterferenceTransitive(old(sys), s, sys, self, {});
      ReserveKeepsSlots(s.nodes[self], self, minimumRound);
    }

    method SendPrepare(node: NodeId, ballot: Ballot) returns (reply: Option<PrepareResponse>)
      requires Inv(sys) && node in sys.nodes && ballot in sys.attempts
      modifies this
      ensures Interference(old(sys), sys, self, {ballot})
      ensures reply.Some? ==> PrepareReply(node, ballot, reply.value) in sys.replies
      ensures calm && node in down ==> reply.None? && sys == old(sys)
      ensures calm && node !in down ==>
        var request := PrepareRequest(old(sys).attempts[ballot].slot, ballot);
        && reply == Some(Prepare(old(sys).nodes[node], request).1)
        && sys.nodes == old(sys).nodes[node := Prepare(old(sys).nodes[node], request).0]
    {
      hide Inv, Grows, FindSlot, Interference, Prepare;
      Interfere({ballot});
      ghost var s := sys;
      InterferenceGives(old(sys), s, self, {ballot});
      var unsent := Lost(node);
      if unsent {
        return None;
      }
      OthersInterfere(s, PrepareAction(node, ballot), self, {ballot});
      var stepped := Prepare(sys.nodes[node], PrepareRequest(sys.attempts[ballot].slot, ballot));
      sys := sys.(nodes := sys.nodes[node := stepped.0],
                  replies := sys.replies + {PrepareReply(node, ballot, stepped.1)});
      InterferenceTransitive(old(sys), s, sys, self, {ballot});
      var lost := Lost(node);
      if lost {
        return None;
      }
      reply := Some(stepped.1);
    }

    /** The proposer fixes the value of its Accept request. */
    method Select(ballot: Ballot, responses: seq<PrepareReply>) returns (value: PaxosValue)
      requires Inv(sys) && Enabled(sys, SendAcceptAction(ballot, responses))
      modifies this
      ensures Interference(old(sys), sys, self, {})
      ensures sys.Sent(ballot)
      ensures sys.AcceptRequestOf(ballot) == AcceptRequest(old(sys).attempts[ballot].slot, ballot, value)
      ensures value == AdoptedValue(Promised(responses), old(sys).attempts[ballot].proposed)
      ensures sys.nodes == old(sys).nodes
    {
      hide Inv, Grows, FindSlot, Interference;
      OthersInterfere(sys, SendAcceptAction(ballot, responses), self, {});
      var attempt := sys.attempts[ballot];
      var promised := Promised(responses);
      value := AdoptedValue(promised, attempt.proposed);
      sys := sys.(attempts := sys.attempts[ballot := attempt.(sent := Some(value), basis := promised)]);
    }

    method SendAccept(node: NodeId, request: AcceptRequest) returns (reply: Option<AcceptResponse>)
      requires Inv(sys) && node in sys.nodes && sys.Sent(request.ballot)
      requires sys.AcceptRequestOf(request.ballot) == request
      modifies this
      ensures Interference(old(sys), sys, self, {request.ballot})
      ensures reply.Some? && reply.value.accepted ==> Vote(node, request.ballot) in sys.votes
      ensures calm && node in down ==> reply.None? && sys == old(sys)
      ensures calm && node !in down ==>
        && reply.Some? && Accept(old(sys).nodes[node], request).1 == Reply(reply.value)
        && sys.nodes == old(sys).nodes[node := Accept(old(sys).nodes[node], request).0]
    {
      hide Inv, Grows, FindSlot, Interference, Accept;
      var ballot := request.ballot;
      Interfere({ballot});
      ghost var s := sys;
      InterferenceGives(old(sys), s, self, {ballot});
      var unsent := Lost(node);
      if unsent {
        return None;
      }
      OthersInterfere(s, AcceptAction(node, ballot), self, {ballot});
      AcceptEffect(s, AcceptAction(node, ballot));
      AcceptSaves(s.nodes[node], request);
      var stepped := Accept(sys.nodes[node], request);
      var accepted := stepped.1.Reply? && stepped.1.reply.accepted;
      sys := sys.(nodes := sys.nodes[node := stepped.0],
                  votes := if accepted then sys.votes + {Vote(node, ballot)} else sys.votes);
      InterferenceTransitive(old(sys), s, sys, self, {ballot});
      var lost := Lost(node);
      if lost {
        return None;
      }
      reply := if stepped.1.Reply? then Some(stepped.1.reply) else None;
    }

    /** The decision is known: it may be announced from now on. */
    method Announce(request: DecideRequest, ghost action: Action)
      requires Inv(sys) && (action.LearnFromVotes? || action.LearnFromReport?) && Enabled(sys, action)
      requires After(sys, action) == sys.(decisions := sys.decisions + {request})
      modifies this
      ensures Interference(old(sys), sys, self, {}) && request in sys.decisions
      ensures sys.nodes == old(sys).nodes
    {
      hide Inv, Grows, Interference;
      OthersInterfere(sys, action, self, {});
      sys := sys.(decisions := sys.decisions + {request});
    }

    method SendDecide(node: NodeId, request: DecideRequest) returns (outcome: Outcome<()>)
      requires Inv(sys) && node in sys.nodes && request in sys.decisions
      modifies this
      ensures Interference(old(sys), sys, self, {})
      ensures outcome == Reply(()) && sys.nodes.Keys == old(sys).nodes.Keys
      ensures sys.nodes[node].Decided(request.slot) == Some(request.value)
      ensures calm ==> OnlySlotTouched(old(sys), sys, request.slot)
    {
      hide Inv, Grows, FindSlot, Interference, Decide, OnlySlotTouched;
      Interfere({});
      ghost var s := sys;
      InterferenceGives(old(sys), s, self, {});
      OthersInterfere(s, DecideAction(node, request), self, {});
      DecideGrows(s, DecideAction(node, request));
      DecideNeverConflicts(s, node, request);
      var stepped := Decide(sys.nodes[node], request);
      sys := sys.(nodes := sys.nodes[node := stepped.0]);
      outcome := stepped.1;
      InterferenceTransitive(old(sys), s, sys, self, {});
      assert sys.nodes[node].Slot(request.slot).decided == Some(request.value);
      DecideTouches(s, sys, node, request);
    }
  }

  lemma InterferenceGives(s: System, t: System, self: NodeId, mine: set<Ballot>)
    requires Interference(s, t, self, mine)
    ensures Inv(t) && Grows(s, t)
    ensures t.members == s.members && t.nodes.Keys == s.nodes.Keys
    ensures s.decisions <= t.decisions && s.votes <= t.votes && s.replies <= t.replies
    ensures forall b :: b in s.attempts ==> b in t.attempts && t.attempts[b].slot == s.attempts[b].slot
    ensures forall b :: b in s.attempts && (b in mine || s.Sent(b)) ==> t.attempts[b] == s.attempts[b]
    ensures self in s.nodes ==> AppliedGrows(s.nodes[self], t.nodes[self])
  {
    hide Inv, NodeGrows, AppliedGrows;
  }

  // ---- The proposer ------------------------------------------------------------------------

  datatype SlotOutcome = Decided(value: PaxosValue) | NoQuorum | Unsafe

  function HighestRound(rounds: seq<nat>, start: nat): (highest: nat)
    ensures start <= highest && forall r :: r in rounds ==> r <= highest
  {
    if rounds == [] then start
    else
      assert forall r :: r in rounds ==> r == rounds[0] || r in rounds[1..];
      HighestRound(rounds[1..], if start < rounds[0] then rounds[0] else start)
  }

  ghost predicate AcceptsGathered(s: System, ballot: Ballot, responses: seq<AcceptReply>) {
    && (forall i, j :: 0 <= i < j < |responses| ==> responses[i].node != responses[j].node)
    && (forall r :: r in responses && r.response.accepted ==> Vote(r.node, ballot) in s.votes && r.node in s.members)
  }

  function AcceptedNodes(responses: seq<AcceptReply>): (names: seq<NodeId>)
    ensures forall n :: n in names <==> exists r :: r in responses && r.response.accepted && r.node == n
  {
    if responses == [] then []
    else if responses[0].response.accepted then [responses[0].node] + AcceptedNodes(responses[1..])
    else AcceptedNodes(responses[1..])
  }

  lemma {:induction false} AcceptedNodesDistinct(responses: seq<AcceptReply>)
    requires forall i, j :: 0 <= i < j < |responses| ==> responses[i].node != responses[j].node
    ensures forall i, j :: 0 <= i < j < |AcceptedNodes(responses)| ==>
      AcceptedNodes(responses)[i] != AcceptedNodes(responses)[j]
  {
    if responses != [] {
      AcceptedNodesDistinct(responses[1..]);
      var rest := AcceptedNodes(responses[1..]);
      forall i | 0 <= i < |rest|
        ensures rest[i] != responses[0].node
      {
        assert rest[i] in rest;
      }
    }
  }

  /** A quorum of accepting replies to one Accept request means its value is chosen. */
  lemma AcceptingQuorumChooses(s: System, ballot: Ballot, responses: seq<AcceptReply>)
    requires s.Sent(ballot) && AcceptsGathered(s, ballot, responses)
    requires Majority(|s.members|) <= |AcceptedNodes(responses)|
    ensures Chosen(s, ballot)
  {
    var names := AcceptedNodes(responses);
    AcceptedNodesDistinct(responses);
    DistinctSize(names);
    forall n | n in names
      ensures n in Voters(s, ballot)
    {
    }
    SubsetSize(Elements(names), Voters(s, ballot));
  }

  lemma NothingGathered(s: System, ballot: Ballot)
    ensures Gathered(s, ballot, []) && AcceptsGathered(s, ballot, [])
  {
  }

  lemma GatheredLonger(s: System, ballot: Ballot, responses: seq<PrepareReply>, r: PrepareReply)
    requires Gathered(s, ballot, responses) && r in s.replies && r.ballot == ballot
    requires forall q :: q in responses ==> q.node != r.node
    ensures Gathered(s, ballot, responses + [r])
  {
  }

  lemma AcceptsLonger(s: System, ballot: Ballot, responses: seq<AcceptReply>, r: AcceptReply)
    requires AcceptsGathered(s, ballot, responses) && forall q :: q in responses ==> q.node != r.node
    requires r.response.accepted ==> Vote(r.node, ballot) in s.votes && r.node in s.members
    ensures AcceptsGathered(s, ballot, responses + [r])
  {
  }

  /** Replies gathered before still count after interference. */
  lemma GatheredStays(s: System, t: System, self: NodeId, ballot: Ballot, responses: seq<PrepareReply>)
    requires Interference(s, t, self, {ballot}) && Gathered(s, ballot, responses)
    ensures Gathered(t, ballot, responses)
  {
    hide Inv, NodeGrows, AppliedGrows;
  }

  lemma AcceptsStay(s: System, t: System, self: NodeId, ballot: Ballot, responses: seq<AcceptReply>)
    requires Interference(s, t, self, {ballot}) && AcceptsGathered(s, ballot, responses)
    ensures AcceptsGathered(t, ballot, responses)
  {
    hide Inv, NodeGrows, AppliedGrows;
  }

  lemma ChosenLearns(s: System, ballot: Ballot)
    requires Chosen(s, ballot)
    ensures IsChosen(s, s.attempts[ballot].slot, s.attempts[ballot].sent.value)
  {
  }

  lemma MajorityAtMost(s: System)
    requires Inv(s)
    ensures s.nodes.Keys == s.members && 3 <= |s.members|
    ensures forall d :: d in s.decisions ==> 1 <= d.slot
  {
  }

  class PaxosProposer {
    const nodeId: NodeId
    const members: seq<NodeId>
    const quorum: nat
    const network: Network
    const maxBallotAttempts: nat

    ghost predicate Valid()
      reads this, network
    {
      && ValidateFixedMembers(members)
      && nodeId in members && network.self == nodeId
      && Inv(network.sys)
      && Elements(members) == network.sys.members
      && quorum == Majority(|members|)
    }

    constructor (nodeId: NodeId, members: seq<NodeId>, network: Network, maxBallotAttempts: nat)
      requires ValidateFixedMembers(members) && nodeId in members && network.self == nodeId
      requires Inv(network.sys) && Elements(members) == network.sys.members && 1 <= maxBallotAttempts
      ensures Valid() && this.network == network && this.nodeId == nodeId
    {
      this.nodeId := nodeId;
      this.members := members;
      this.quorum := Majority(|members|);
      this.network := network;
      this.maxBallotAttempts := maxBallotAttempts;
    }

    /** The members that are up are a quorum. */
    ghost predicate QuorumUp() {
      quorum <= |UpAmong(members, network.down)|
    }

    /** Sends the Prepare request to every member and collects whatever answers arrive. */
    method GatherPrepares(ballot: Ballot) returns (responses: seq<PrepareReply>)
      requires Valid() && ballot in network.sys.attempts
      modifies network
      ensures Valid() && Interference(old(network.sys), network.sys, nodeId, {ballot})
      ensures Gathered(network.sys, ballot, responses)
      ensures network.calm ==>
        PreparedBy(old(network.sys), network.sys, PrepareRequest(old(network.sys).attempts[ballot].slot, ballot),
                   UpAmong(members, network.down), responses)
    {
      hide Inv, Interference, FindSlot, Prepare, PreparedBy, Gathered, UpAmong;
      responses := [];
      InterferenceReflexive(network.sys, nodeId, {ballot});
      SizeDistinct(members);
      ghost var s0, down := network.sys, network.down;
      ghost var request := PrepareRequest(s0.attempts[ballot].slot, ballot);
      NothingGathered(s0, ballot);
      NobodyPrepared(s0, request);
      UpAmongNone(down);
      for i := 0 to |members|
        invariant Valid() && Interference(s0, network.sys, nodeId, {ballot})
        invariant ballot in network.sys.attempts && network.sys.attempts[ballot].slot == request.slot
        invariant Gathered(network.sys, ballot, responses)
        invariant forall r :: r in responses ==> r.node in members[..i]
        invariant network.calm ==> PreparedBy(s0, network.sys, request, UpAmong(members[..i], down), responses)
      {
        ghost var s, before := network.sys, responses;
        assert members[i] in members && members[i] !in members[..i];
        assert members[..i + 1] == members[..i] + [members[i]];
        var reply := AskPrepare(members[i], ballot, s0);
        GatheredStays(s, network.sys, nodeId, ballot, responses);
        if reply.Some? {
          GatheredLonger(network.sys, ballot, responses, PrepareReply(members[i], ballot, reply.value));
          responses := responses + [PrepareReply(members[i], ballot, reply.value)];
        }
        UpAmongLonger(members[..i], members[i], down);
        if network.calm && members[i] !in down {
          PreparedNext(s0, s, network.sys, request, UpAmong(members[..i], down), before, members[i],
            PrepareReply(members[i], ballot, reply.value));
        }
      }
      assert members[..|members|] == members;
    }

    method AskPrepare(node: NodeId, ballot: Ballot, ghost s0: System) returns (reply: Option<PrepareResponse>)
      requires Valid() && node in members && ballot in network.sys.attempts
      requires Inv(s0) && Interference(s0, network.sys, nodeId, {ballot})
      modifies network
      ensures Valid() && Interference(s0, network.sys, nodeId, {ballot})
      ensures Interference(old(network.sys), network.sys, nodeId, {ballot})
      ensures ballot in network.sys.attempts
      ensures network.sys.attempts[ballot].slot == old(network.sys).attempts[ballot].slot
      ensures reply.Some? ==> PrepareReply(node, ballot, reply.value) in network.sys.replies
      ensures node in s0.nodes && node in old(network.sys).nodes
      ensures network.calm && node in network.down ==> reply.None? && network.sys == old(network.sys)
      ensures network.calm && node !in network.down ==>
        var request := PrepareRequest(old(network.sys).attempts[ballot].slot, ballot);
        && reply == Some(Prepare(old(network.sys).nodes[node], request).1)
        && network.sys.nodes
           == old(network.sys).nodes[node := Prepare(old(network.sys).nodes[node], request).0]
    {
      hide Inv, Interference, FindSlot, Prepare;
      ghost var s := network.sys;
      MajorityAtMost(s);
      MajorityAtMost(s0);
      InterferenceGives(s0, s, nodeId, {ballot});
      reply := network.SendPrepare(node, ballot);
      InterferenceGives(s, network.sys, nodeId, {ballot});
      InterferenceTransitive(s0, s, network.sys, nodeId, {ballot});
    }

    /** Sends the Accept request to every member and collects whatever answers arrive. */
    method GatherAccepts(request: AcceptRequest) returns (responses: seq<AcceptReply>)
      requires Valid() && network.sys.Sent(request.ballot)
      requires network.sys.AcceptRequestOf(request.ballot) == request
      modifies network
      ensures Valid() && Interference(old(network.sys), network.sys, nodeId, {request.ballot})
      ensures AcceptsGathered(network.sys, request.ballot, responses)
      ensures network.calm ==>
        AcceptedBy(old(network.sys), network.sys, request, UpAmong(members, network.down), responses)
    {
      hide Inv, Interference, FindSlot, Accept, AcceptedBy, AcceptsGathered, UpAmong;
      var ballot := request.ballot;
      responses := [];
      InterferenceReflexive(network.sys, nodeId, {ballot});
      SizeDistinct(members);
      ghost var s0, down := network.sys, network.down;
      NobodyAccepted(s0, request);
      NothingGathered(s0, ballot);
      UpAmongNone(down);
      for i := 0 to |members|
        invariant Valid() && Interference(s0, network.sys, nodeId, {ballot})
        invariant network.sys.Sent(ballot) && network.sys.AcceptRequestOf(ballot) == request
        invariant AcceptsGathered(network.sys, ballot, responses)
        invariant forall r :: r in responses ==> r.node in members[..i]
        invariant network.calm ==> AcceptedBy(s0, network.sys, request, UpAmong(members[..i], down), responses)
      {
        ghost var s, before := network.sys, responses;
        assert members[i] in members && members[i] !in members[..i];
        assert members[..i + 1] == members[..i] + [members[i]];
        var reply := AskAccept(members[i], request, s0);
        AcceptsStay(s, network.sys, nodeId, ballot, responses);
        if reply.Some? {
          AcceptsLonger(network.sys, ballot, responses, AcceptReply(members[i], reply.value));
          responses := responses + [AcceptReply(members[i], reply.value)];
        }
        UpAmongLonger(members[..i], members[i], down);
        if network.calm && members[i] !in down {
          AcceptedNext(s0, s, network.sys, request, UpAmong(members[..i], down), before, members[i],
            AcceptReply(members[i], reply.value));
        }
      }
      assert members[..|members|] == members;
    }

    method AskAccept(node: NodeId, request: AcceptRequest, ghost s0: System) returns (reply: Option<AcceptResponse>)
      requires Valid() && node in members && network.sys.Sent(request.ballot)
      requires network.sys.AcceptRequestOf(request.ballot) == request
      requires Inv(s0) && Interference(s0, network.sys, nodeId, {request.ballot})
      modifies network
      ensures Valid() && Interference(s0, network.sys, nodeId, {request.ballot})
      ensures Interference(old(network.sys), network.sys, nodeId, {request.ballot})
      ensures network.sys.Sent(request.ballot) && network.sys.AcceptRequestOf(request.ballot) == request
      ensures reply.Some? && reply.value.accepted ==>
        Vote(node, request.ballot) in network.sys.votes && node in network.sys.members
      ensures node in s0.nodes && node in old(network.sys).nodes
      ensures network.calm && node in network.down ==> reply.None? && network.sys == old(network.sys)
      ensures network.calm && node !in network.down ==>
        && reply.Some? && Accept(old(network.sys).nodes[node], request).1 == Reply(reply.value)
        && network.sys.nodes
           == old(network.sys).nodes[node := Accept(old(network.sys).nodes[node], request).0]
    {
      hide Inv, Interference, FindSlot, Accept;
      ghost var s := network.sys;
      MajorityAtMost(s);
      MajorityAtMost(s0);
      InterferenceGives(s0, s, nodeId, {request.ballot});
      reply := network.SendAccept(node, request);
      InterferenceGives(s, network.sys, nodeId, {request.ballot});
      InterferenceTransitive(s0, s, network.sys, nodeId, {request.ballot});
    }

    /** Learns locally first, then tells every peer; lost announcements do not matter. */
    method Learn(request: DecideRequest)
      requires Valid() && request in network.sys.decisions
      modifies network
      ensures Valid() && Interference(old(network.sys), network.sys, nodeId, {})
      ensures nodeId in network.sys.nodes && network.sys.nodes[nodeId].Decided(request.slot) == Some(request.value)
      ensures network.calm ==> OnlySlotTouched(old(network.sys), network.sys, request.slot)
      ensures network.calm ==> Told(network.sys, members, network.down, request)
    {
      hide Inv, Interference, FindSlot, OnlySlotTouched, Told;
      NobodyTold(network.sys, network.down, request);
      MajorityAtMost(network.sys);
      var learned := network.SendDecide(nodeId, request);
      InterferenceGives(old(network.sys), network.sys, nodeId, {});
      NobodyTold(network.sys, network.down, request);
      for i := 0 to |members|
        invariant Valid() && Interference(old(network.sys), network.sys, nodeId, {})
        invariant request in network.sys.decisions && nodeId in network.sys.nodes
        invariant network.calm ==> Told(network.sys, members[..i], network.down, request)
        invariant network.sys.nodes[nodeId].Decided(request.slot) == Some(request.value)
        invariant network.calm ==> OnlySlotTouched(old(network.sys), network.sys, request.slot)
      {
        assert members[..i + 1] == members[..i] + [members[i]];
        if members[i] != nodeId {
          ghost var s := network.sys;
          Tell(members[i], request, members[..i]);
          InterferenceTransitive(old(network.sys), s, network.sys, nodeId, {});
          if network.calm {
            TouchedJoin(old(network.sys), s, network.sys, request.slot);
          }
        } else if network.calm {
          ToldOne(network.sys, members[..i], nodeId, network.down, request);
        }
      }
      assert members[..|members|] == members;
    }

    /** Announces the decision to one peer. */
    method Tell(node: NodeId, request: DecideRequest, ghost told: seq<NodeId>)
      requires Valid() && request in network.sys.decisions && node in members && nodeId in network.sys.nodes
      requires network.sys.nodes[nodeId].Decided(request.slot) == Some(request.value)
      modifies network
      ensures Valid() && Interference(old(network.sys), network.sys, nodeId, {})
      ensures request in network.sys.decisions && nodeId in network.sys.nodes
      ensures network.sys.nodes[nodeId].Decided(request.slot) == Some(request.value)
      ensures network.calm ==> OnlySlotTouched(old(network.sys), network.sys, request.slot)
      ensures network.calm && Told(old(network.sys), told, network.down, request) ==>
        Told(network.sys, told + [node], network.down, request)
    {
      hide Inv, Interference, FindSlot, OnlySlotTouched, Told;
      ghost var s := network.sys;
      MajorityAtMost(s);
      InterferenceReflexive(s, nodeId, {});
      TouchedReflexive(s, request.slot);
      var lost := network.Lost(node);
      if !lost {
        var outcome := network.SendDecide(node, request);
        InterferenceGives(s, network.sys, nodeId, {});
        DecidedSurvives(s, network.sys, nodeId, request.slot);
        ToldStays(s, network.sys, nodeId, told, network.down, request);
      }
      if network.calm {
        ToldOne(network.sys, told, node, network.down, request);
      }
    }

    /**
     One pass per ballot: prepare everywhere, short-cut on a reported decision, adopt the highest
     accepted value, accept everywhere, learn. In a calm network two passes decide the slot exactly if a
     quorum is up, and then every member that is up has learned the value.
     */
    method DecideSlot(slot: nat, proposed: PaxosValue) returns (outcome: SlotOutcome)
      requires Valid() && nodeId in network.sys.nodes
      requires 1 <= slot <= network.sys.nodes[nodeId].durable.lastApplied + 1
      modifies network
      ensures Valid() && Interference(old(network.sys), network.sys, nodeId, {})
      ensures outcome != Unsafe
      ensures outcome.Decided? ==>
        && IsChosen(network.sys, slot, outcome.value)
        && nodeId in network.sys.nodes
        && network.sys.nodes[nodeId].Decided(slot) == Some(outcome.value)
      ensures network.calm ==> OnlySlotTouched(old(network.sys), network.sys, slot)
      ensures network.calm && 2 <= maxBallotAttempts ==> (outcome.Decided? <==> QuorumUp())
      ensures network.calm && outcome.Decided? ==>
        Told(network.sys, members, network.down, DecideRequest(slot, outcome.value))
      ensures network.calm && Untouched(old(network.sys), slot) && outcome.Decided? ==> outcome.value == proposed
    {
      hide Inv, Interference, FindSlot, IsChosen, Chosen, SingleDecision, AdoptedValue, Promised, Gathered,
        OnlySlotTouched, Untouched, PromisesWithin, Told;
      InterferenceReflexive(network.sys, nodeId, {});
      TouchedReflexive(network.sys, slot);
      var observedRound := 0;
      for attempt := 0 to maxBallotAttempts
        invariant Valid() && Interference(old(network.sys), network.sys, nodeId, {})
        invariant nodeId in network.sys.nodes && slot <= network.sys.nodes[nodeId].durable.lastApplied + 1
        invariant network.calm ==> OnlySlotTouched(old(network.sys), network.sys, slot)
        invariant network.calm && 0 < attempt ==>
          PromisesWithin(network.sys, network.down, slot, observedRound) && attempt == 1 && QuorumUp()
        invariant network.calm && Untouched(old(network.sys), slot) ==> Untouched(network.sys, slot)
      {
        ghost var s := network.sys;
        var finished, result, round := TryBallot(slot, proposed, observedRound);
        InterferenceTransitive(old(network.sys), s, network.sys, nodeId, {});
        InterferenceGives(s, network.sys, nodeId, {});
        if network.calm {
          TouchedJoin(old(network.sys), s, network.sys, slot);
        }
        if finished {
          return result;
        }
        observedRound := round;
      }
      outcome := NoQuorum;
    }

    /**
     The body of the ballot loop; `finished` when the pass returns or raises. In a calm network without a
     quorum it fails. With one it decides if no promise of the members that are up exceeds the observed round,
     and otherwise brings in a round that none exceeds; a slot nobody has touched gets the proposer's value.
     */
    method TryBallot(slot: nat, proposed: PaxosValue, observedRound: nat)
      returns (finished: bool, outcome: SlotOutcome, round: nat)
      requires Valid() && nodeId in network.sys.nodes
      requires 1 <= slot <= network.sys.nodes[nodeId].durable.lastApplied + 1
      modifies network
      ensures Valid() && Interference(old(network.sys), network.sys, nodeId, {})
      ensures finished ==> outcome != Unsafe
      ensures observedRound <= round
      ensures finished && outcome.Decided? ==>
        && IsChosen(network.sys, slot, outcome.value)
        && nodeId in network.sys.nodes
        && network.sys.nodes[nodeId].Decided(slot) == Some(outcome.value)
      ensures network.calm ==> OnlySlotTouched(old(network.sys), network.sys, slot)
      ensures network.calm && finished && outcome.Decided? ==>
        Told(network.sys, members, network.down, DecideRequest(slot, outcome.value))
      ensures network.calm && !QuorumUp() ==> finished && !outcome.Decided?
      ensures network.calm && PromisesWithin(old(network.sys), network.down, slot, observedRound) ==> finished
      ensures network.calm && finished && QuorumUp() ==> outcome.Decided?
      ensures network.calm && !finished ==> PromisesWithin(network.sys, network.down, slot, round)
      ensures network.calm && Untouched(old(network.sys), slot) && QuorumUp() ==>
        if finished then outcome == Decided(proposed) else Untouched(network.sys, slot)
    {
      hide Inv, Interference, FindSlot, IsChosen, Chosen, SingleDecision, AdoptedValue, Promised, Gathered,
        OnlySlotTouched, PreparedBy, Untouched, PromisesWithin, SlotsKept, Ready, Told;
      round := observedRound;
      ghost var s0 := network.sys;
      MajorityAtMost(s0);
      var ballot := network.Reserve(observedRound, slot, proposed);
      ghost var s1 := network.sys;
      InterferenceGives(s0, s1, nodeId, {});
      var responses := GatherPrepares(ballot);
      ghost var s2 := network.sys;
      InterferenceGives(s1, s2, nodeId, {ballot});
      ForgetBallot(s1, s2, nodeId, ballot);
      InterferenceTransitive(s0, s1, s2, nodeId, {});
      ghost var request := PrepareRequest(slot, ballot);
      if network.calm {
        MajorityAtMost(s1);
        CalmPrepares(s0, s1, s2, request, members, network.down, responses, observedRound, proposed);
      }
      if |responses| < quorum {
        return true, NoQuorum, round;
      }
      round := HighestRound(PromisedRounds(responses), round);
      if network.calm {
        RoundsBelow(responses, round);
        RoundsReported(s1, s2, request, UpAmong(members, network.down), responses, network.down, round);
      }

      var reported := SingleDecision(responses);
      ReportsAgree(s2, ballot, responses);
      if reported.Conflict? {
        return true, Unsafe, round;
      }
      if reported.Single? {
        ReportLearn(s2, ballot, responses, reported.value);
        LearnReported(ballot, slot, responses, reported.value);
        InterferenceTransitive(s0, s2, network.sys, nodeId, {});
        if network.calm {
          TouchedJoin(s0, s2, network.sys, slot);
        }
        return true, Decided(reported.value), round;
      }
      if |Promised(responses)| < quorum {
        return false, NoQuorum, round;
      }
      var done;
      done, outcome, round := AcceptRound(ballot, slot, responses, round);
      InterferenceTransitive(s0, s2, network.sys, nodeId, {});
      if network.calm {
        TouchedJoin(s0, s2, network.sys, slot);
      }
      finished := done;
    }

    method LearnReported(ballot: Ballot, slot: nat, responses: seq<PrepareReply>, value: PaxosValue)
      requires Valid() && 1 <= slot && ballot in network.sys.attempts && network.sys.attempts[ballot].slot == slot
      requires exists r :: r in responses && r in network.sys.replies && r.ballot == ballot
                 && r.response.decidedValue == Some(value)
      modifies network
      ensures Valid() && Interference(old(network.sys), network.sys, nodeId, {})
      ensures IsChosen(network.sys, slot, value) && nodeId in network.sys.nodes
      ensures network.sys.nodes[nodeId].Decided(slot) == Some(value)
      ensures network.calm ==> OnlySlotTouched(old(network.sys), network.sys, slot)
      ensures network.calm ==> Told(network.sys, members, network.down, DecideRequest(slot, value))
    {
      hide Inv, Interference, FindSlot, IsChosen, Chosen, OnlySlotTouched, Told;
      ghost var s := network.sys;
      ghost var r :| r in responses && r in s.replies && r.ballot == ballot && r.response.decidedValue == Some(value);
      ReportIsChosen(s, r);
      var request := DecideRequest(slot, value);
      network.Announce(request, LearnFromReport(r));
      ghost var t := network.sys;
      InterferenceGives(s, t, nodeId, {});
      AnnounceAndLearn(s, request);
      if network.calm {
        TouchedFrom(s, t, network.sys, slot);
      }
    }

    method AnnounceAndLearn(ghost s: System, request: DecideRequest)
      requires Valid() && Interference(s, network.sys, nodeId, {}) && IsChosen(s, request.slot, request.value)
      requires request in network.sys.decisions
      modifies network
      ensures Valid() && Interference(s, network.sys, nodeId, {})
      ensures IsChosen(network.sys, request.slot, request.value) && nodeId in network.sys.nodes
      ensures network.sys.nodes[nodeId].Decided(request.slot) == Some(request.value)
      ensures network.calm ==> OnlySlotTouched(old(network.sys), network.sys, request.slot)
      ensures network.calm ==> Told(network.sys, members, network.down, request)
    {
      hide Inv, Interference, FindSlot, IsChosen, OnlySlotTouched, Told;
      ghost var t := network.sys;
      Learn(request);
      InterferenceTransitive(s, t, network.sys, nodeId, {});
      InterferenceGives(s, network.sys, nodeId, {});
      ChosenValueStays(s, network.sys, request.slot, request.value);
    }

    /**
     The second phase. The value decided is the adopted one; in a calm network it is decided whenever the
     members that promised are still ready.
     */
    method AcceptRound(ballot: Ballot, slot: nat, responses: seq<PrepareReply>, observedRound: nat)
      returns (finished: bool, outcome: SlotOutcome, round: nat)
      requires Valid() && 1 <= slot && ballot in network.sys.attempts
      requires network.sys.attempts[ballot].slot == slot && network.sys.attempts[ballot].sent.None?
      requires Gathered(network.sys, ballot, responses) && SingleDecision(responses) == NoDecision
      requires quorum <= |Promised(responses)|
      modifies network
      ensures Valid() && Interference(old(network.sys), network.sys, nodeId, {})
      ensures outcome != Unsafe && observedRound <= round
      ensures finished && outcome.Decided? ==>
        && IsChosen(network.sys, slot, outcome.value)
        && nodeId in network.sys.nodes
        && network.sys.nodes[nodeId].Decided(slot) == Some(outcome.value)
        && outcome.value == AdoptedValue(Promised(responses), old(network.sys).attempts[ballot].proposed)
      ensures network.calm ==> OnlySlotTouched(old(network.sys), network.sys, slot)
      ensures network.calm && finished && outcome.Decided? ==>
        Told(network.sys, members, network.down, DecideRequest(slot, outcome.value))
      ensures network.calm && Ready(old(network.sys), network.down, slot, ballot, responses) ==>
        finished && outcome.Decided?
    {
      hide Inv, Interference, FindSlot, IsChosen, Chosen, SingleDecision, AdoptedValue, Promised, Gathered,
        OnlySlotTouched, Ready, AcceptedBy, Told;
      ghost var s0 := network.sys;
      round := observedRound;
      var selected := network.Select(ballot, responses);
      ghost var s1 := network.sys;
      InterferenceGives(s0, s1, nodeId, {});
      var replies := GatherAccepts(AcceptRequest(slot, ballot, selected));
      ghost var s2 := network.sys;
      InterferenceGives(s1, s2, nodeId, {ballot});
      ForgetBallot(s1, s2, nodeId, ballot);
      InterferenceTransitive(s0, s1, s2, nodeId, {});
      if network.calm {
        AcceptsCounted(s0, s1, s2, members, network.down, AcceptRequest(slot, ballot, selected), replies, responses);
      }
      if |replies| < quorum {
        return true, NoQuorum, round;
      }
      round := HighestRound(AcceptRounds(replies), round);
      if |AcceptedNodes(replies)| < quorum {
        return false, NoQuorum, round;
      }
      AcceptingQuorumChooses(s2, ballot, replies);
      ChosenLearns(s2, ballot);
      var request := DecideRequest(slot, selected);
      network.Announce(request, LearnFromVotes(ballot));
      ghost var s3 := network.sys;
      InterferenceGives(s2, s3, nodeId, {});
      InterferenceTransitive(s0, s2, s3, nodeId, {});
      AnnounceAndLearn(s2, request);
      InterferenceTransitive(s0, s2, network.sys, nodeId, {});
      if network.calm {
        TouchedFrom(s2, s3, network.sys, slot);
        TouchedJoin(s0, s2, network.sys, slot);
      }
      return true, Decided(selected), round;
    }

    /**
     Tries one slot after another until its own value is decided; `fuel` bounds how many. `tried` are
     the slots attempted. In a calm network with a quorum up it succeeds as soon as `fuel` reaches a slot from
     which on nobody has touched any.
     */
    method Propose(value: PaxosValue, fuel: nat) returns (outcome: ProposeOutcome, ghost tried: seq<nat>)
      requires Valid()
      modifies network
      ensures Valid() && Interference(old(network.sys), network.sys, nodeId, {})
      ensures outcome != UnsafeProposal
      ensures forall i, j :: 0 <= i < j < |tried| ==> tried[i] < tried[j]
      ensures outcome.Proposed? ==>
        && tried != [] && outcome.slot == tried[|tried| - 1]
        && IsChosen(network.sys, outcome.slot, value)
        && AppliedHere(network.sys, nodeId, outcome.slot, value)
      ensures nodeId in old(network.sys).nodes
      ensures network.calm && QuorumUp() && 2 <= maxBallotAttempts && 0 < fuel ==>
        forall free: nat :: FreeFrom(old(network.sys), free) ==>
          free <= old(network.sys).nodes[nodeId].durable.lastApplied + fuel ==> outcome.Proposed?
    {
      hide Inv, Interference, FindSlot, IsChosen, AppliedHere, OnlySlotTouched, Untouched, FreeFrom;
      tried := [];
      ghost var s0 := network.sys;
      InterferenceReflexive(s0, nodeId, {});
      MajorityAtMost(s0);
      ghost var applied := s0.nodes[nodeId].durable.lastApplied;
      for attempt := 0 to fuel
        invariant Valid() && Interference(s0, network.sys, nodeId, {})
        invariant nodeId in network.sys.nodes
        invariant applied + attempt <= network.sys.nodes[nodeId].durable.lastApplied
        invariant forall i, j :: 0 <= i < j < |tried| ==> tried[i] < tried[j]
        invariant forall i :: 0 <= i < |tried| ==> tried[i] <= network.sys.nodes[nodeId].durable.lastApplied
        invariant network.calm && QuorumUp() && 2 <= maxBallotAttempts ==>
          forall free: nat :: FreeFrom(s0, free) ==>
            FreeFrom(network.sys, free) && (0 < attempt ==> applied + attempt < free)
      {
        ghost var s := network.sys;
        var slot := network.sys.nodes[nodeId].durable.lastApplied + 1;
        var decided := DecideSlot(slot, value);
        InterferenceGives(s, network.sys, nodeId, {});
        InterferenceTransitive(s0, s, network.sys, nodeId, {});
        if !decided.Decided? {
          return SlotFailed, tried;
        }
        tried := tried + [slot];
        DecidedNextSlotApplies(s, network.sys, nodeId, slot, decided.value);
        if decided.value == value {
          return Proposed(slot), tried;
        }
        if network.calm && QuorumUp() && 2 <= maxBallotAttempts {
          NotYetFree(s0, s, network.sys, slot);
        }
      }
      outcome := StillTrying;
    }
  }

  /** Slots beyond one that was in use stay free while that one is worked on. */
  lemma NotYetFree(s0: System, s: System, t: System, slot: nat)
    requires OnlySlotTouched(s, t, slot) && !Untouched(s, slot)
    requires forall free: nat :: FreeFrom(s0, free) ==> FreeFrom(s, free)
    ensures forall free: nat :: FreeFrom(s0, free) ==> FreeFrom(t, free) && slot < free
  {
    hide FindSlot, OnlySlotTouched, Untouched;
    forall free: nat | FreeFrom(s0, free)
      ensures FreeFrom(t, free) && slot < free
    {
      assert FreeFrom(s, free);
      FreeStays(s, t, slot, free);
    }
  }

  /** The listed nodes that are not down have learned the decision. */
  ghost predicate Told(s: System, nodes: seq<NodeId>, down: set<NodeId>, request: DecideRequest) {
    forall n :: n in nodes && n !in down ==> n in s.nodes && s.nodes[n].Decided(request.slot) == Some(request.value)
  }

  lemma NobodyTold(s: System, down: set<NodeId>, request: DecideRequest)
    ensures Told(s, [], down, request)
  {
  }

  lemma ToldOne(s: System, nodes: seq<NodeId>, node: NodeId, down: set<NodeId>, request: DecideRequest)
    requires node !in down ==> node in s.nodes && s.nodes[node].Decided(request.slot) == Some(request.value)
    ensures Told(s, nodes, down, request) ==> Told(s, nodes + [node], down, request)
  {
    hide FindSlot;
  }

  lemma ToldStays(s: System, t: System, self: NodeId, nodes: seq<NodeId>, down: set<NodeId>, request: DecideRequest)
    requires Interference(s, t, self, {}) && 1 <= request.slot
    ensures Told(s, nodes, down, request) ==> Told(t, nodes, down, request)
  {
    hide FindSlot, Inv, Interference;
    InterferenceGives(s, t, self, {});
    if Told(s, nodes, down, request) {
      forall n | n in nodes && n !in down
        ensures t.nodes[n].Decided(request.slot) == Some(request.value)
      {
        DecidedSurvives(s, t, n, request.slot);
      }
    }
  }

  /** A calm second phase: the members that are up answer, and those that were ready accept. */
  lemma AcceptsCounted(s0: System, s1: System, s2: System, members: seq<NodeId>, down: set<NodeId>,
      request: AcceptRequest, replies: seq<AcceptReply>, responses: seq<PrepareReply>)
    requires Inv(s0) && s0.nodes == s1.nodes && s0.members == Elements(members)
    requires 1 <= request.slot && Gathered(s0, request.ballot, responses)
    requires AcceptedBy(s1, s2, request, UpAmong(members, down), replies)
    ensures OnlySlotTouched(s0, s2, request.slot)
    ensures Ready(s0, down, request.slot, request.ballot, responses) ==>
      |Promised(responses)| <= |AcceptedNodes(replies)| <= |replies|
  {
    hide Inv, FindSlot, OnlySlotTouched, NodesSound, Accept, AcceptedNodes, Promised, UpAmong;
    var reached := UpAmong(members, down);
    SoundNodes(s0);
    MajorityAtMost(s0);
    assert AcceptedBy(s0, s2, request, reached, replies) by { SameAccepted(s0, s1, s2, request, reached, replies); }
    AcceptedTouches(s0, s2, request, reached, replies);
    AcceptedFewer(replies);
    if Ready(s0, down, request.slot, request.ballot, responses) {
      PromisedDistinct(responses);
      var names := Names(Promised(responses));
      DistinctSize(names);
      forall n | n in names
        ensures n in AcceptedNodes(replies)
      {
        var i :| 0 <= i < |names| && names[i] == n;
        assert Promised(responses)[i] in Promised(responses);
        assert n in Elements(members);
        ReadyAccepts(s0, s2, request, reached, replies, down, responses, Promised(responses)[i]);
      }
      SubsetSize(Elements(names), Elements(AcceptedNodes(replies)));
      ElementsSize(AcceptedNodes(replies));
    }
  }

  lemma {:induction false} AcceptedFewer(replies: seq<AcceptReply>)
    ensures |AcceptedNodes(replies)| <= |replies|
  {
    if replies != [] {
      AcceptedFewer(replies[1..]);
    }
  }

  lemma SameAccepted(s0: System, s1: System, s2: System, request: AcceptRequest, nodes: seq<NodeId>,
      replies: seq<AcceptReply>)
    requires s0.nodes == s1.nodes && AcceptedBy(s1, s2, request, nodes, replies)
    ensures AcceptedBy(s0, s2, request, nodes, replies)
  {
    hide Accept;
    forall i | 0 <= i < |nodes|
      ensures AcceptedAt(s0, s2, request, nodes[i], replies[i])
    {
      assert AcceptedAt(s1, s2, request, nodes[i], replies[i]);
    }
  }

  datatype ProposeOutcome = Proposed(slot: nat) | SlotFailed | StillTrying | UnsafeProposal

  /** `value` is applied in `slot` at node `self`, and its result there is the atomic register's answer. */
  ghost predicate AppliedHere(s: System, self: NodeId, slot: nat, value: PaxosValue) {
    && self in s.nodes && Sound(s.nodes[self])
    && 1 <= slot <= |AppliedLog(s.nodes[self])|
    && AppliedLog(s.nodes[self])[slot - 1] == value
    && slot in s.nodes[self].results
    && s.nodes[self].results[slot]
       == ApplyCommand(Replay(AppliedLog(s.nodes[self])[..slot - 1]), value.command).result
  }

  /** Once the slot after the applied prefix is decided locally, it is applied and its result is at hand. */
  lemma DecidedNextSlotApplies(s: System, t: System, self: NodeId, slot: nat, value: PaxosValue)
    requires Inv(s) && Interference(s, t, self, {}) && self in s.nodes && self in t.nodes
    requires slot == s.nodes[self].durable.lastApplied + 1
    requires t.nodes[self].Decided(slot) == Some(value)
    ensures slot <= t.nodes[self].durable.lastApplied
    ensures AppliedHere(t, self, slot, value)
  {
    hide FindSlot, Fold, Replay, ApplyCommand, Interference, Inv, Sound;
    InterferenceGives(s, t, self, {});
    NodesSoundly(s, self);
    NodesSoundly(t, self);
    var a, b := s.nodes[self], t.nodes[self];
    forall j | 1 <= j <= slot
      ensures b.Decided(j).Some?
    {
      if j < slot {
        SoundDecides(a, j);
        DecidedSurvives(s, t, self, j);
      }
    }
    LastAppliedIsMaximal(b, slot);
    RefinesAtomicRegister(b);
  }

  lemma NodesSoundly(s: System, n: NodeId)
    requires Inv(s) && n in s.nodes
    ensures Sound(s.nodes[n])
  {
  }

  lemma DecidedSurvives(s: System, t: System, self: NodeId, slot: nat)
    requires Grows(s, t) && self in s.nodes && s.nodes[self].Decided(slot).Some? && 1 <= slot
    ensures self in t.nodes && t.nodes[self].Decided(slot) == s.nodes[self].Decided(slot)
  {
    hide FindSlot;
    assert NodeGrows(s.nodes[self], t.nodes[self]);
    assert SlotGrows(s.nodes[self].Slot(slot), t.nodes[self].Slot(slot));
  }

  // ---- The MetaStore port ------------------------------------------------------------------

  datatype ReadOutcome = ReadValue(current: VersionedLogChain) | ReadFailed | ReadTypeError

  datatype CasOutcome = CasAnswer(result: CompareAndSetResult) | CasFailed | CasTypeError

  class PaxosMetaStore {
    const proposer: PaxosProposer

    constructor (proposer: PaxosProposer)
      ensures this.proposer == proposer
    {
      this.proposer := proposer;
    }

    /** The network is calm, a quorum is up, and `fuel` reaches a slot from which on nobody has touched any. */
    ghost predicate Succeeds(s: System, fuel: nat)
      reads proposer, proposer.network
    {
      && proposer.network.calm && proposer.QuorumUp() && 2 <= proposer.maxBallotAttempts && 0 < fuel
      && proposer.nodeId in s.nodes
      && exists free: nat :: FreeFrom(s, free) && free <= s.nodes[proposer.nodeId].durable.lastApplied + fuel
    }

    /** A read returns the register exactly after some slot of the one history that holds its barrier. */
    method Read(fuel: nat) returns (outcome: ReadOutcome, ghost slot: nat)
      requires proposer.Valid()
      modifies proposer.network
      ensures proposer.Valid() && outcome != ReadTypeError
      ensures outcome.ReadValue? ==>
        var s := proposer.network.sys;
        && AppliedHere(s, proposer.nodeId, slot, PaxosValue(ReadBarrier))
        && IsChosen(s, slot, PaxosValue(ReadBarrier))
        && outcome.current == Replay(AppliedLog(s.nodes[proposer.nodeId])[..slot - 1])
      ensures Succeeds(old(proposer.network.sys), fuel) ==> outcome.ReadValue?
    {
      hide Inv, FindSlot, IsChosen, Replay, AppliedLog, Interference, FreeFrom;
      var proposed, tried := proposer.Propose(PaxosValue(ReadBarrier), fuel);
      if !proposed.Proposed? {
        return ReadFailed, 0;
      }
      slot := proposed.slot;
      var result := proposer.network.sys.nodes[proposer.nodeId].results[proposed.slot];
      outcome := if result.Snapshot? then ReadValue(result.snapshot) else ReadTypeError;
    }

    /** A conditional write answers as the atomic register does at its place in the one history. */
    method CompareAndSet(expectedVersion: nat, newChain: LogChain, fuel: nat)
      returns (outcome: CasOutcome, ghost slot: nat)
      requires proposer.Valid()
      modifies proposer.network
      ensures proposer.Valid() && outcome != CasTypeError
      ensures outcome.CasAnswer? ==>
        var s := proposer.network.sys;
        var value := PaxosValue(Command.CompareAndSet(expectedVersion, newChain));
        && AppliedHere(s, proposer.nodeId, slot, value)
        && IsChosen(s, slot, value)
        && Cas(outcome.result) == ConditionalWrite(
             Replay(AppliedLog(s.nodes[proposer.nodeId])[..slot - 1]), expectedVersion, newChain).result
      ensures Succeeds(old(proposer.network.sys), fuel) ==> outcome.CasAnswer?
    {
      hide Inv, FindSlot, IsChosen, Replay, AppliedLog, Interference, FreeFrom;
      var proposed, tried := proposer.Propose(PaxosValue(Command.CompareAndSet(expectedVersion, newChain)), fuel);
      if !proposed.Proposed? {
        return CasFailed, 0;
      }
      slot := proposed.slot;
      var result := proposer.network.sys.nodes[proposer.nodeId].results[proposed.slot];
      outcome := if result.Cas? then CasAnswer(result.result) else CasTypeError;
    }
  }

  function PromisedRounds(responses: seq<PrepareReply>): seq<nat> {
    seq(|responses|, i requires 0 <= i < |responses| => responses[i].response.promisedBallot.round)
  }

  lemma RoundsBelow(responses: seq<PrepareReply>, round: nat)
    requires forall r :: r in PromisedRounds(responses) ==> r <= round
    ensures forall r :: r in responses ==> r.response.promisedBallot.round <= round
  {
    forall r | r in responses
      ensures r.response.promisedBallot.round <= round
    {
      var i :| 0 <= i < |responses| && responses[i] == r;
      assert PromisedRounds(responses)[i] in PromisedRounds(responses);
    }
  }

  function AcceptRounds(responses: seq<AcceptReply>): seq<nat> {
    seq(|responses|, i requires 0 <= i < |responses| => responses[i].response.promisedBallot.round)
  }

  /** Keeping one's ballot untouched is more than keeping nothing untouched. */
  lemma ForgetBallot(s: System, t: System, self: NodeId, ballot: Ballot)
    requires Interference(s, t, self, {ballot})
    ensures Interference(s, t, self, {})
  {
    hide Inv, Grows, AppliedGrows;
  }

  lemma ReportLearn(s: System, ballot: Ballot, responses: seq<PrepareReply>, value: PaxosValue)
    requires Gathered(s, ballot, responses) && SingleDecision(responses) == Single(value)
    ensures exists r :: r in responses && r in s.replies && r.ballot == ballot
              && r.response.decidedValue == Some(value)
  {
    hide SingleDecision;
  }

  lemma ReportIsChosen(s: System, r: PrepareReply)
    requires Inv(s) && r in s.replies && r.ballot in s.attempts && r.response.decidedValue.Some?
    ensures IsChosen(s, s.attempts[r.ballot].slot, r.response.decidedValue.value)
    ensures Enabled(s, LearnFromReport(r))
  {
    hide FindSlot, Sound, BasisOf, ReplyTrue, IsChosen;
  }
}
