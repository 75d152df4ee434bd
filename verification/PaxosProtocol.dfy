/**
 The MetaStore as a distributed system: durable acceptors, any number of ballot attempts, and a
 grow-only set of requests and replies, so that messages may be lost, delayed, repeated and reordered
 (metastore/paxos/proposer.py:72-145 over acceptor.py). Every step runs the acceptor's own functions.
 */
module PaxosProtocol {
  import opened Wrappers
  import opened Membership
  import opened Register
  import opened PaxosTypes
  import opened PaxosAcceptor

  /**
   One pass of the ballot loop. `sent` is the value of its only Accept request and `basis` the
   promises that value was selected from.
   */
  datatype Attempt = Attempt(
    slot: nat,
    proposed: PaxosValue,
    sent: Option<PaxosValue>,
    basis: seq<PrepareReply>)

  datatype PrepareReply = PrepareReply(node: NodeId, ballot: Ballot, response: PrepareResponse)

  /** Acceptor `node` answered the Accept request of `ballot` with accepted = true. */
  datatype Vote = Vote(node: NodeId, ballot: Ballot)

  datatype System = System(
    members: set<NodeId>,
    nodes: map<NodeId, AcceptorState>,
    attempts: map<Ballot, Attempt>,
    replies: set<PrepareReply>,
    votes: set<Vote>,
    decisions: set<DecideRequest>)
  {
    /** `b` is the ballot of an attempt that has sent its Accept request. */
    predicate Sent(b: Ballot) {
      b in attempts && attempts[b].sent.Some?
    }

    function AcceptRequestOf(b: Ballot): AcceptRequest
      requires Sent(b)
    {
      AcceptRequest(attempts[b].slot, b, attempts[b].sent.value)
    }
  }

  // ---- The proposer's pure choices ---------------------------------------------------------

  datatype Reported = NoDecision | Single(value: PaxosValue) | Conflict

  function SingleDecision(responses: seq<PrepareReply>): (reported: Reported)
    ensures reported.NoDecision? ==> forall r :: r in responses ==> r.response.decidedValue.None?
    ensures reported.Single? ==> exists r :: r in responses && r.response.decidedValue == Some(reported.value)
    ensures reported.Conflict? ==> exists r, q ::
      && r in responses && q in responses
      && r.response.decidedValue.Some? && q.response.decidedValue.Some?
      && r.response.decidedValue != q.response.decidedValue
  {
    if responses == [] then NoDecision
    else
      var rest := SingleDecision(responses[1..]);
      var mine := responses[0].response.decidedValue;
      assert responses[0] in responses;
      assert forall r :: r in responses[1..] ==> r in responses;
      assert forall r :: r in responses ==> r == responses[0] || r in responses[1..];
      if mine.None? || rest.Conflict? then rest
      else if rest.NoDecision? || rest.value == mine.value then Single(mine.value)
      else Conflict
  }

  function Promised(responses: seq<PrepareReply>): (promised: seq<PrepareReply>)
    ensures forall r :: r in promised <==> r in responses && r.response.promised
  {
    if responses == [] then []
    else if responses[0].response.promised then [responses[0]] + Promised(responses[1..])
    else Promised(responses[1..])
  }

  predicate Accepted(r: PrepareReply) {
    r.response.acceptedBallot.Some? && r.response.acceptedValue.Some?
  }

  /** The first reply whose accepted ballot no other exceeds, as Python's max finds it. */
  function HighestAccepted(promised: seq<PrepareReply>): (highest: Option<PrepareReply>)
    ensures highest.Some? ==> highest.value in promised && Accepted(highest.value)
    ensures highest.None? ==> forall r :: r in promised ==> !Accepted(r)
    ensures highest.Some? ==> forall r :: r in promised && Accepted(r) ==>
      r.response.acceptedBallot.value.AtMost(highest.value.response.acceptedBallot.value)
  {
    if promised == [] then None
    else
      var first, rest := promised[0], HighestAccepted(promised[1..]);
      assert forall r :: r in promised ==> r == first || r in promised[1..];
      if !Accepted(first) then rest
      else if rest.None? then Some(first)
      else
        var f, g := first.response.acceptedBallot.value, rest.value.response.acceptedBallot.value;
        assert (forall r :: r in promised && Accepted(r) ==>
            r.response.acceptedBallot.value.AtMost(if f.Less(g) then g else f)) by {
          BallotsTotal(f, g);
          forall r | r in promised[1..] && Accepted(r)
            ensures r.response.acceptedBallot.value.AtMost(if f.Less(g) then g else f)
          {
            BallotsTransitive(r.response.acceptedBallot.value, g, f);
          }
        }
        if f.Less(g) then rest else Some(first)
  }

  function AdoptedValue(promised: seq<PrepareReply>, proposed: PaxosValue): PaxosValue {
    match HighestAccepted(promised)
    case None => proposed
    case Some(reply) => reply.response.acceptedValue.value
  }

  // ---- Steps -------------------------------------------------------------------------------

  datatype Action =
    | ReserveAction(node: NodeId, minimumRound: nat, slot: nat, proposed: PaxosValue)
    | PrepareAction(node: NodeId, ballot: Ballot)
    | SendAcceptAction(ballot: Ballot, responses: seq<PrepareReply>)
    | AcceptAction(node: NodeId, ballot: Ballot)
    | LearnFromVotes(ballot: Ballot)
    | LearnFromReport(reply: PrepareReply)
    | DecideAction(node: NodeId, request: DecideRequest)
    | RestartAction(node: NodeId)

  predicate DistinctNodes(responses: seq<PrepareReply>) {
    forall i, j :: 0 <= i < j < |responses| ==> responses[i].node != responses[j].node
  }

  /** Replies gathered for one Prepare request: one per member that answered. */
  predicate Gathered(s: System, ballot: Ballot, responses: seq<PrepareReply>) {
    && DistinctNodes(responses)
    && forall r :: r in responses ==> r in s.replies && r.ballot == ballot
  }

  ghost predicate Enabled(s: System, action: Action) {
    match action
    case ReserveAction(node, minimumRound, slot, proposed) =>
      node in s.members && node in s.nodes && 1 <= slot
    case PrepareAction(node, ballot) =>
      node in s.nodes && ballot in s.attempts
    case SendAcceptAction(ballot, responses) =>
      && ballot in s.attempts && s.attempts[ballot].sent.None?
      && Gathered(s, ballot, responses)
      && SingleDecision(responses) == NoDecision
      && Majority(|s.members|) <= |Promised(responses)|
    case AcceptAction(node, ballot) =>
      node in s.nodes && s.Sent(ballot)
    case LearnFromVotes(ballot) =>
      Chosen(s, ballot)
    case LearnFromReport(reply) =>
      reply in s.replies && reply.ballot in s.attempts && reply.response.decidedValue.Some?
    case DecideAction(node, request) =>
      node in s.nodes && request in s.decisions
    case RestartAction(node) =>
      node in s.nodes
  }

  ghost function After(s: System, action: Action): System
    requires Enabled(s, action)
  {
    match action
    case ReserveAction(node, minimumRound, slot, proposed) =>
      var (a, ballot) := ReserveBallot(s.nodes[node], node, minimumRound);
      s.(nodes := s.nodes[node := a],
         attempts := s.attempts[ballot := Attempt(slot, proposed, None, [])])
    case PrepareAction(node, ballot) =>
      var (a, response) := Prepare(s.nodes[node], PrepareRequest(s.attempts[ballot].slot, ballot));
      s.(nodes := s.nodes[node := a],
         replies := s.replies + {PrepareReply(node, ballot, response)})
    case SendAcceptAction(ballot, responses) =>
      var promised := Promised(responses);
      var attempt := s.attempts[ballot];
      s.(attempts := s.attempts[ballot := attempt.(
           sent := Some(AdoptedValue(promised, attempt.proposed)), basis := promised)])
    case AcceptAction(node, ballot) =>
      var (a, outcome) := Accept(s.nodes[node], s.AcceptRequestOf(ballot));
      s.(nodes := s.nodes[node := a],
         votes := if outcome.Reply? && outcome.reply.accepted then s.votes + {Vote(node, ballot)} else s.votes)
    case LearnFromVotes(ballot) =>
      s.(decisions := s.decisions + {DecideRequest(s.attempts[ballot].slot, s.attempts[ballot].sent.value)})
    case LearnFromReport(reply) =>
      s.(decisions := s.decisions
           + {DecideRequest(s.attempts[reply.ballot].slot, reply.response.decidedValue.value)})
    case DecideAction(node, request) =>
      s.(nodes := s.nodes[node := Decide(s.nodes[node], request).0])
    case RestartAction(node) =>
      s.(nodes := s.nodes[node := Restart(s.nodes[node])])
  }

  ghost predicate Init(s: System) {
    && 3 <= |s.members|
    && s.nodes.Keys == s.members
    && (forall n :: n in s.nodes ==> s.nodes[n] == FRESH)
    && s.attempts == map[] && s.replies == {} && s.votes == {} && s.decisions == {}
  }

  /** A finite run of the system. */
  ghost predicate Run(run: seq<System>) {
    && run != [] && Init(run[0])
    && forall i :: 0 < i < |run| ==> Next(run[i - 1], run[i])
  }

  ghost predicate Next(s: System, t: System) {
    exists action :: Enabled(s, action) && t == After(s, action)
  }

  // ---- What is chosen ----------------------------------------------------------------------

  ghost function Voters(s: System, b: Ballot): set<NodeId> {
    set n | n in s.members && Vote(n, b) in s.votes
  }

  /** A quorum accepted the value of ballot `b`. */
  ghost predicate Chosen(s: System, b: Ballot) {
    s.Sent(b) && Majority(|s.members|) <= |Voters(s, b)|
  }

  ghost predicate IsChosen(s: System, slot: nat, value: PaxosValue) {
    exists b :: Chosen(s, b) && s.attempts[b].slot == slot && s.attempts[b].sent == Some(value)
  }

  // ---- The inductive invariant -------------------------------------------------------------

  ghost predicate NodesSound(s: System) {
    && 3 <= |s.members| && s.nodes.Keys == s.members
    && forall n :: n in s.nodes ==> Sound(s.nodes[n])
  }

  /** Ballots come from durable reservations, so none is handed out twice. */
  ghost predicate BallotsReserved(s: System) {
    forall b :: b in s.attempts ==>
      && 1 <= s.attempts[b].slot
      && b.nodeId in s.nodes && b.round <= s.nodes[b.nodeId].durable.localRound
  }

  /** What an acceptor accepted in slot k was sent by the attempt with that ballot. */
  ghost predicate AcceptedWasSent(s: System) {
    forall n, k: nat :: n in s.nodes && 1 <= k && s.nodes[n].Slot(k).acceptedBallot.Some? ==>
      Carries(s, s.nodes[n].Slot(k).acceptedBallot.value, k, s.nodes[n].Slot(k).acceptedValue)
  }

  ghost predicate Carries(s: System, b: Ballot, slot: nat, value: Option<PaxosValue>) {
    s.Sent(b) && s.attempts[b].slot == slot && s.attempts[b].sent == value
  }

  /** A vote is never forgotten: the acceptor's accepted ballot only rises from it. */
  ghost predicate VotesKept(s: System) {
    forall w :: w in s.votes ==>
      && w.node in s.nodes && s.Sent(w.ballot)
      && HasAccepted(s.nodes[w.node].Slot(s.attempts[w.ballot].slot), w.ballot)
  }

  ghost predicate HasAccepted(slot: AcceptorSlotState, b: Ballot) {
    slot.acceptedBallot.Some? && b.AtMost(slot.acceptedBallot.value)
  }

  ghost predicate HasPromised(slot: AcceptorSlotState, b: Ballot) {
    slot.promised.Some? && b.AtMost(slot.promised.value)
  }

  ghost predicate RepliesTrue(s: System) {
    forall r :: r in s.replies ==> ReplyTrue(s, r)
  }

  ghost predicate ReplyTrue(s: System, r: PrepareReply) {
    && r.node in s.nodes && r.ballot in s.attempts
    && (r.response.acceptedBallot.Some? ==>
          Carries(s, r.response.acceptedBallot.value, s.attempts[r.ballot].slot, r.response.acceptedValue))
    && (r.response.promised ==> PromiseKept(s, r))
  }

  /** A promise for `b` reports every lower vote of its node in the slot, now and for ever. */
  ghost predicate PromiseKept(s: System, r: PrepareReply)
    requires r.node in s.nodes && r.ballot in s.attempts
  {
    && HasPromised(s.nodes[r.node].Slot(s.attempts[r.ballot].slot), r.ballot)
    && (r.response.acceptedBallot.Some? ==> r.response.acceptedBallot.value.AtMost(r.ballot))
    && (forall w :: w in s.votes && w.node == r.node && w.ballot in s.attempts
                    && s.attempts[w.ballot].slot == s.attempts[r.ballot].slot && w.ballot.Less(r.ballot) ==>
          r.response.acceptedBallot.Some? && w.ballot.AtMost(r.response.acceptedBallot.value))
  }

  /** Every Accept request carries the value its quorum of promises dictates. */
  ghost predicate SentFromQuorum(s: System) {
    forall b :: s.Sent(b) ==> BasisOf(s, b)
  }

  ghost predicate BasisOf(s: System, b: Ballot)
    requires s.Sent(b)
  {
    var attempt := s.attempts[b];
    && Gathered(s, b, attempt.basis)
    && Majority(|s.members|) <= |attempt.basis|
    && attempt.sent == Some(AdoptedValue(attempt.basis, attempt.proposed))
    && (forall r :: r in attempt.basis ==>
          && r.response.promised
          && (r.response.acceptedBallot.Some? ==> r.response.acceptedBallot.value.Less(b)))
  }

  /** Every decision stored, reported or sent is a chosen value of its slot. */
  ghost predicate DecisionsChosen(s: System) {
    && (forall d :: d in s.decisions ==> 1 <= d.slot && IsChosen(s, d.slot, d.value))
    && (forall n, k: nat :: n in s.nodes && 1 <= k && s.nodes[n].Decided(k).Some? ==>
          IsChosen(s, k, s.nodes[n].Decided(k).value))
    && (forall r :: r in s.replies && r.ballot in s.attempts && r.response.decidedValue.Some? ==>
          IsChosen(s, s.attempts[r.ballot].slot, r.response.decidedValue.value))
  }

  ghost predicate Inv(s: System) {
    && NodesSound(s)
    && BallotsReserved(s)
    && AcceptedWasSent(s)
    && VotesKept(s)
    && RepliesTrue(s)
    && SentFromQuorum(s)
    && DecisionsChosen(s)
  }

  // ---- Agreement follows from the invariant ------------------------------------------------

  ghost function Below(s: System, b: Ballot): set<Ballot> {
    set c | c in s.attempts && c.Less(b)
  }

  lemma BelowShrinks(s: System, c: Ballot, b: Ballot)
    requires c in s.attempts && c.Less(b)
    ensures |Below(s, c)| < |Below(s, b)|
  {
    forall x | x in Below(s, c)
      ensures x in Below(s, b)
    {
      BallotsTransitive(x, c, b);
    }
    BallotsTotal(c, c);
    assert c in Below(s, b) && c !in Below(s, c);
    assert Below(s, c) + {c} <= Below(s, b);
    SubsetSize(Below(s, c) + {c}, Below(s, b));
  }

  function Names(replies: seq<PrepareReply>): seq<NodeId> {
    seq(|replies|, i requires 0 <= i < |replies| => replies[i].node)
  }

  lemma BasisIsQuorum(s: System, b: Ballot)
    requires RepliesTrue(s) && NodesSound(s) && s.Sent(b) && BasisOf(s, b)
    ensures IsQuorum(s.members, Elements(Names(s.attempts[b].basis)))
  {
    hide HighestAccepted, Sound, AdoptedValue;
    var basis := s.attempts[b].basis;
    DistinctSize(Names(basis));
    forall n | n in Names(basis)
      ensures n in s.members
    {
      var i :| 0 <= i < |basis| && n == Names(basis)[i];
      assert basis[i] in basis;
      assert ReplyTrue(s, basis[i]);
    }
  }

  /** Some promise in the basis of `b` comes from a voter of the chosen ballot `c`. */
  lemma BasisMeetsVoters(s: System, b: Ballot, c: Ballot) returns (r: PrepareReply)
    requires NodesSound(s) && RepliesTrue(s) && s.Sent(b) && BasisOf(s, b) && Chosen(s, c)
    ensures r in s.attempts[b].basis && Vote(r.node, c) in s.votes
  {
    hide HighestAccepted, Sound, AdoptedValue, ReplyTrue;
    var basis := s.attempts[b].basis;
    BasisIsQuorum(s, b);
    var n := QuorumsIntersect(s.members, Elements(Names(basis)), Voters(s, c));
    var i :| 0 <= i < |basis| && Names(basis)[i] == n;
    r := basis[i];
  }

  /** Once a ballot is chosen, every higher ballot of the slot sends the same value. */
  lemma {:induction false} HigherBallotsAgree(s: System, b: Ballot, c: Ballot)
    requires Inv(s) && s.Sent(b) && Chosen(s, c)
    requires s.attempts[b].slot == s.attempts[c].slot && c.Less(b)
    ensures s.attempts[b].sent == s.attempts[c].sent
    decreases |Below(s, b)|
  {
    hide HighestAccepted, Sound;
    var attempt := s.attempts[b];
    assert BasisOf(s, b);
    var r := BasisMeetsVoters(s, b, c);
    assert ReplyTrue(s, r);
    assert PromiseKept(s, r);
    assert Vote(r.node, c) in s.votes;
    assert Accepted(r);
    var highest := HighestAccepted(attempt.basis).value;
    var m := highest.response.acceptedBallot.value;
    assert ReplyTrue(s, highest);
    BallotsTransitive(c, r.response.acceptedBallot.value, m);
    if m != c {
      BelowShrinks(s, m, b);
      HigherBallotsAgree(s, m, c);
    }
  }

  /** Agreement: a slot has at most one chosen value. */
  lemma Agreement(s: System, slot: nat, v: PaxosValue, w: PaxosValue)
    requires Inv(s) && IsChosen(s, slot, v) && IsChosen(s, slot, w)
    ensures v == w
  {
    var b :| Chosen(s, b) && s.attempts[b].slot == slot && s.attempts[b].sent == Some(v);
    var c :| Chosen(s, c) && s.attempts[c].slot == slot && s.attempts[c].sent == Some(w);
    BallotsTotal(b, c);
    if b.Less(c) {
      HigherBallotsAgree(s, c, b);
    } else if c.Less(b) {
      HigherBallotsAgree(s, b, c);
    }
  }

  // ---- What a step never takes back --------------------------------------------------------

  ghost predicate SlotGrows(a: AcceptorSlotState, b: AcceptorSlotState) {
    && (a.promised.Some? ==> HasPromised(b, a.promised.value))
    && (a.acceptedBallot.Some? ==> HasAccepted(b, a.acceptedBallot.value))
    && (a.decided.Some? ==> b.decided == a.decided)
  }

  ghost predicate NodeGrows(a: AcceptorState, b: AcceptorState) {
    && a.durable.localRound <= b.durable.localRound
    && a.durable.lastApplied <= b.durable.lastApplied
    && forall k: nat :: 1 <= k ==> SlotGrows(a.Slot(k), b.Slot(k))
  }

  ghost predicate AttemptGrows(a: Attempt, b: Attempt) {
    && b.slot == a.slot && b.proposed == a.proposed
    && (a.sent.Some? ==> b == a)
  }

  ghost predicate Grows(s: System, t: System) {
    && t.members == s.members && t.nodes.Keys == s.nodes.Keys
    && (forall n :: n in s.nodes ==> NodeGrows(s.nodes[n], t.nodes[n]))
    && (forall b :: b in s.attempts ==> b in t.attempts && AttemptGrows(s.attempts[b], t.attempts[b]))
    && s.votes <= t.votes && s.replies <= t.replies && s.decisions <= t.decisions
  }

  lemma SlotGrowsTransitive(a: AcceptorSlotState, b: AcceptorSlotState, c: AcceptorSlotState)
    requires SlotGrows(a, b) && SlotGrows(b, c)
    ensures SlotGrows(a, c)
  {
    if a.promised.Some? {
      BallotsTransitive(a.promised.value, b.promised.value, c.promised.value);
    }
    if a.acceptedBallot.Some? {
      BallotsTransitive(a.acceptedBallot.value, b.acceptedBallot.value, c.acceptedBallot.value);
    }
  }

  lemma GrowsTransitive(s: System, t: System, u: System)
    requires Grows(s, t) && Grows(t, u)
    ensures Grows(s, u)
  {
    hide FindSlot, HasPromised, HasAccepted, SlotGrows;
    forall n | n in s.nodes
      ensures NodeGrows(s.nodes[n], u.nodes[n])
    {
      assert NodeGrows(s.nodes[n], t.nodes[n]) && NodeGrows(t.nodes[n], u.nodes[n]);
      forall k: nat | 1 <= k
        ensures SlotGrows(s.nodes[n].Slot(k), u.nodes[n].Slot(k))
      {
        SlotGrowsTransitive(s.nodes[n].Slot(k), t.nodes[n].Slot(k), u.nodes[n].Slot(k));
      }
    }
  }

  lemma ChosenStays(s: System, t: System, b: Ballot)
    requires Grows(s, t) && Chosen(s, b)
    ensures Chosen(t, b) && t.attempts[b] == s.attempts[b]
  {
    hide NodeGrows;
    assert Voters(s, b) <= Voters(t, b);
    SubsetSize(Voters(s, b), Voters(t, b));
  }

  lemma ChosenValueStays(s: System, t: System, slot: nat, value: PaxosValue)
    requires Grows(s, t) && IsChosen(s, slot, value)
    ensures IsChosen(t, slot, value)
  {
    hide NodeGrows, Voters;
    var b :| Chosen(s, b) && s.attempts[b].slot == slot && s.attempts[b].sent == Some(value);
    ChosenStays(s, t, b);
  }

  // ---- Growth keeps what the invariant says of old votes, replies, promises and decisions --

  lemma OldVotesKept(s: System, t: System)
    requires Inv(s) && Grows(s, t)
    ensures forall w :: w in s.votes ==>
      && w.node in t.nodes && t.Sent(w.ballot)
      && HasAccepted(t.nodes[w.node].Slot(t.attempts[w.ballot].slot), w.ballot)
  {
    hide FindSlot, Sound, BasisOf, ReplyTrue, Chosen;
    forall w | w in s.votes
      ensures t.Sent(w.ballot)
      ensures HasAccepted(t.nodes[w.node].Slot(t.attempts[w.ballot].slot), w.ballot)
    {
      var k := s.attempts[w.ballot].slot;
      var a, b := s.nodes[w.node].Slot(k), t.nodes[w.node].Slot(k);
      assert NodeGrows(s.nodes[w.node], t.nodes[w.node]) && SlotGrows(a, b);
      BallotsTransitive(w.ballot, a.acceptedBallot.value, b.acceptedBallot.value);
    }
  }

  /** Votes added by the step lie at or above what their node had promised in the slot. */
  ghost predicate NewVotesRespectPromises(s: System, t: System) {
    forall w, r ::
      && w in t.votes && w !in s.votes && r in s.replies && r.response.promised && r.node == w.node
      && w.ballot in t.attempts && r.ballot in t.attempts
      && t.attempts[w.ballot].slot == t.attempts[r.ballot].slot ==>
        !w.ballot.Less(r.ballot)
  }

  lemma OldReplyTrue(s: System, t: System, r: PrepareReply)
    requires Inv(s) && Grows(s, t) && NewVotesRespectPromises(s, t) && r in s.replies
    requires forall w :: w in t.votes && w !in s.votes ==> w.ballot in s.attempts
    ensures ReplyTrue(t, r)
  {
    hide FindSlot, Sound, BasisOf, Chosen;
    assert ReplyTrue(s, r);
    var k := s.attempts[r.ballot].slot;
    assert NodeGrows(s.nodes[r.node], t.nodes[r.node]);
    if r.response.promised {
      var a, b := s.nodes[r.node].Slot(k), t.nodes[r.node].Slot(k);
      assert SlotGrows(a, b);
      BallotsTransitive(r.ballot, a.promised.value, b.promised.value);
      forall w | w in t.votes && w.node == r.node && w.ballot in t.attempts
          && t.attempts[w.ballot].slot == k && w.ballot.Less(r.ballot)
        ensures r.response.acceptedBallot.Some? && w.ballot.AtMost(r.response.acceptedBallot.value)
      {
        assert w in s.votes;
      }
    }
  }

  lemma OldSentFromQuorum(s: System, t: System, b: Ballot)
    requires Inv(s) && Grows(s, t) && s.Sent(b)
    ensures t.Sent(b) && BasisOf(t, b)
  {
    hide NodeGrows, ReplyTrue, HighestAccepted, Sound, Chosen;
    assert BasisOf(s, b);
  }

  lemma OldDecisionsChosen(s: System, t: System)
    requires Inv(s) && Grows(s, t)
    ensures forall d :: d in s.decisions ==> 1 <= d.slot && IsChosen(t, d.slot, d.value)
    ensures forall n, k: nat :: n in s.nodes && 1 <= k && s.nodes[n].Decided(k).Some? ==>
      IsChosen(t, k, s.nodes[n].Decided(k).value)
    ensures forall r :: r in s.replies && r.response.decidedValue.Some? ==>
      r.ballot in s.attempts && IsChosen(t, s.attempts[r.ballot].slot, r.response.decidedValue.value)
  {
    hide FindSlot, Sound, BasisOf, IsChosen, NodeGrows, PromiseKept, Carries;
    forall slot: nat, value | IsChosen(s, slot, value)
      ensures IsChosen(t, slot, value)
    {
      ChosenValueStays(s, t, slot, value);
    }
    forall r | r in s.replies
      ensures r.ballot in s.attempts
    {
      assert ReplyTrue(s, r);
    }
  }

  lemma OldAcceptedWasSent(s: System, t: System, n: NodeId, k: nat)
    requires Inv(s) && Grows(s, t) && n in s.nodes && 1 <= k
    requires t.nodes[n].Slot(k).acceptedBallot == s.nodes[n].Slot(k).acceptedBallot
    requires t.nodes[n].Slot(k).acceptedValue == s.nodes[n].Slot(k).acceptedValue
    requires t.nodes[n].Slot(k).acceptedBallot.Some?
    ensures Carries(t, t.nodes[n].Slot(k).acceptedBallot.value, k, t.nodes[n].Slot(k).acceptedValue)
  {
    hide FindSlot, Sound, BasisOf, ReplyTrue, NodeGrows, Chosen;
    assert Carries(s, s.nodes[n].Slot(k).acceptedBallot.value, k, s.nodes[n].Slot(k).acceptedValue);
  }

  // ---- One step of one acceptor ------------------------------------------------------------

  lemma NodeStepGrows(a: AcceptorState, b: AcceptorState, changed: AcceptorSlotState)
    requires OnlySlotChanged(a, b, changed) && SlotGrows(a.Slot(changed.slot), changed)
    requires a.durable.lastApplied <= b.durable.lastApplied
    ensures NodeGrows(a, b)
  {
    hide FindSlot;
    forall k: nat | 1 <= k
      ensures SlotGrows(a.Slot(k), b.Slot(k))
    {
    }
  }

  lemma AttemptsKept(s: System, t: System)
    requires Inv(s) && Grows(s, t) && NewVotesRespectPromises(s, t)
    requires forall w :: w in t.votes && w !in s.votes ==> w.ballot in s.attempts
    requires forall b :: t.Sent(b) ==> s.Sent(b)
    ensures SentFromQuorum(t)
    ensures forall r :: r in s.replies ==> ReplyTrue(t, r)
  {
    hide NodeGrows, ReplyTrue, Sound, BasisOf, Chosen, NewVotesRespectPromises, Grows;
    forall b | t.Sent(b)
      ensures BasisOf(t, b)
    {
      OldSentFromQuorum(s, t, b);
    }
    forall r | r in s.replies
      ensures ReplyTrue(t, r)
    {
      OldReplyTrue(s, t, r);
    }
  }

  lemma ReserveGrows(s: System, action: Action)
    requires Inv(s) && action.ReserveAction? && Enabled(s, action)
    ensures var ballot := ReserveBallot(s.nodes[action.node], action.node, action.minimumRound).1;
      && ballot !in s.attempts
      && action.minimumRound < ballot.round
      && Grows(s, After(s, action))
      && NodesSound(After(s, action)) && BallotsReserved(After(s, action))
  {
    hide FindSlot, ReplyTrue, BasisOf, IsChosen, Sound;
    var t := After(s, action);
    var n := action.node;
    ReserveKeepsSound(s.nodes[n], n, action.minimumRound);
    assert NodeGrows(s.nodes[n], t.nodes[n]);
  }

  lemma ReserveKeepsInv(s: System, action: Action)
    requires Inv(s) && action.ReserveAction? && Enabled(s, action)
    ensures Inv(After(s, action)) && Grows(s, After(s, action))
  {
    hide FindSlot, ReplyTrue, BasisOf, IsChosen, Sound, Carries, HasAccepted, NodeGrows;
    var t := After(s, action);
    ReserveGrows(s, action);
    ReserveKeepsSound(s.nodes[action.node], action.node, action.minimumRound);
    AttemptsKept(s, t);
    OldVotesKept(s, t);
    OldDecisionsChosen(s, t);
    forall n, k: nat | n in t.nodes
      ensures t.nodes[n].Slot(k) == s.nodes[n].Slot(k) && t.nodes[n].Decided(k) == s.nodes[n].Decided(k)
    {
    }
    forall n, k: nat | n in t.nodes && 1 <= k && t.nodes[n].Slot(k).acceptedBallot.Some?
      ensures Carries(t, t.nodes[n].Slot(k).acceptedBallot.value, k, t.nodes[n].Slot(k).acceptedValue)
    {
      OldAcceptedWasSent(s, t, n, k);
    }
  }

  lemma PrepareGrows(s: System, action: Action)
    requires Inv(s) && action.PrepareAction? && Enabled(s, action)
    ensures var t := After(s, action);
      && Grows(s, t) && NodesSound(t) && BallotsReserved(t)
      && (forall n, k: nat :: n in t.nodes ==>
            && t.nodes[n].Slot(k).acceptedBallot == s.nodes[n].Slot(k).acceptedBallot
            && t.nodes[n].Slot(k).acceptedValue == s.nodes[n].Slot(k).acceptedValue
            && t.nodes[n].Decided(k) == s.nodes[n].Decided(k))
  {
    hide FindSlot, ReplyTrue, BasisOf, IsChosen, Sound, Carries, AcceptedWasSent, VotesKept, RepliesTrue,
      SentFromQuorum, DecisionsChosen;
    var t := After(s, action);
    var n := action.node;
    var k := s.attempts[action.ballot].slot;
    PrepareKeepsSound(s.nodes[n], PrepareRequest(k, action.ballot));
    var slot := t.nodes[n].Slot(k);
    NodeStepGrows(s.nodes[n], t.nodes[n], slot);
  }

  lemma PrepareReplyTrue(s: System, action: Action)
    requires Inv(s) && action.PrepareAction? && Enabled(s, action)
    requires Grows(s, After(s, action))
    ensures var t := After(s, action);
      var response := Prepare(s.nodes[action.node], PrepareRequest(s.attempts[action.ballot].slot, action.ballot)).1;
      ReplyTrue(t, PrepareReply(action.node, action.ballot, response))
  {
    hide FindSlot, BasisOf, IsChosen, Sound;
    var t := After(s, action);
    var n, b := action.node, action.ballot;
    var k := s.attempts[b].slot;
    var response := Prepare(s.nodes[n], PrepareRequest(k, b)).1;
    var r := PrepareReply(n, b, response);
    PrepareKeepsSound(s.nodes[n], PrepareRequest(k, b));
    SlotSound(s.nodes[n], k);
    var before := s.nodes[n].Slot(k);
    if before.acceptedBallot.Some? {
      assert Carries(s, before.acceptedBallot.value, k, before.acceptedValue);
      BallotsTransitive(before.acceptedBallot.value, before.promised.value, response.promisedBallot);
    }
    if response.promised {
      forall w | w in t.votes && w.node == n && w.ballot in t.attempts
          && t.attempts[w.ballot].slot == k && w.ballot.Less(b)
        ensures response.acceptedBallot.Some? && w.ballot.AtMost(response.acceptedBallot.value)
      {
        assert w in s.votes;
        assert HasAccepted(before, w.ballot);
      }
      assert PromiseKept(t, r);
    }
    assert ReplyTrue(t, r);
  }

  lemma PrepareKeepsInv(s: System, action: Action)
    requires Inv(s) && action.PrepareAction? && Enabled(s, action)
    ensures Inv(After(s, action)) && Grows(s, After(s, action))
  {
    hide FindSlot, ReplyTrue, BasisOf, IsChosen, Sound, Carries, HasAccepted, NodeGrows;
    var t := After(s, action);
    PrepareGrows(s, action);
    PrepareReplyTrue(s, action);
    AttemptsKept(s, t);
    OldVotesKept(s, t);
    OldDecisionsChosen(s, t);
    forall n, k: nat | n in t.nodes && 1 <= k && t.nodes[n].Slot(k).acceptedBallot.Some?
      ensures Carries(t, t.nodes[n].Slot(k).acceptedBallot.value, k, t.nodes[n].Slot(k).acceptedValue)
    {
      OldAcceptedWasSent(s, t, n, k);
    }
    PrepareKeepsSound(s.nodes[action.node], PrepareRequest(s.attempts[action.ballot].slot, action.ballot));
  }

  lemma {:induction false} PromisedDistinct(responses: seq<PrepareReply>)
    requires DistinctNodes(responses)
    ensures DistinctNodes(Promised(responses))
  {
    if responses != [] {
      PromisedDistinct(responses[1..]);
      var rest := Promised(responses[1..]);
      forall i | 0 <= i < |rest|
        ensures rest[i].node != responses[0].node
      {
        assert rest[i] in responses[1..];
      }
    }
  }

  lemma SendAcceptBasis(s: System, action: Action)
    requires Inv(s) && action.SendAcceptAction? && Enabled(s, action)
    ensures BasisOf(After(s, action), action.ballot)
  {
    hide FindSlot, Sound, Chosen, HighestAccepted, Promised, SingleDecision;
    var b, responses := action.ballot, action.responses;
    var basis := Promised(responses);
    PromisedDistinct(responses);
    forall r | r in basis
      ensures r in s.replies && r.ballot == b && r.response.promised
      ensures r.response.acceptedBallot.Some? ==> r.response.acceptedBallot.value.Less(b)
    {
      assert r in responses && ReplyTrue(s, r) && PromiseKept(s, r);
    }
  }

  /** What happens to acceptors, votes and replies when a step only changes attempts and decisions. */
  lemma SameNodesKeepInv(s: System, t: System)
    requires Inv(s) && Grows(s, t) && t.nodes == s.nodes && t.votes == s.votes && t.replies == s.replies
    requires t.attempts.Keys == s.attempts.Keys && SentFromQuorum(t)
    requires forall d :: d in t.decisions && d !in s.decisions ==> 1 <= d.slot && IsChosen(t, d.slot, d.value)
    ensures Inv(t)
  {
    hide FindSlot, ReplyTrue, BasisOf, IsChosen, Sound, Carries, HasAccepted, NodeGrows;
    OldVotesKept(s, t);
    OldDecisionsChosen(s, t);
    forall r | r in s.replies
      ensures ReplyTrue(t, r)
    {
      OldReplyTrue(s, t, r);
    }
    forall n, k: nat | n in t.nodes && 1 <= k && t.nodes[n].Slot(k).acceptedBallot.Some?
      ensures Carries(t, t.nodes[n].Slot(k).acceptedBallot.value, k, t.nodes[n].Slot(k).acceptedValue)
    {
      OldAcceptedWasSent(s, t, n, k);
    }
  }

  lemma SameNodesGrow(s: System, t: System)
    requires t.nodes == s.nodes
    ensures forall n :: n in s.nodes ==> NodeGrows(s.nodes[n], t.nodes[n])
  {
    hide FindSlot;
  }

  lemma SendAcceptKeepsInv(s: System, action: Action)
    requires Inv(s) && action.SendAcceptAction? && Enabled(s, action)
    ensures Inv(After(s, action)) && Grows(s, After(s, action))
  {
    hide FindSlot, ReplyTrue, BasisOf, IsChosen, Sound, Chosen, NodeGrows, AdoptedValue, SingleDecision;
    var t := After(s, action);
    SameNodesGrow(s, t);
    SendAcceptBasis(s, action);
    forall b | t.Sent(b)
      ensures BasisOf(t, b)
    {
      if b != action.ballot {
        OldSentFromQuorum(s, t, b);
      }
    }
    SameNodesKeepInv(s, t);
  }

  lemma LearnKeepsInv(s: System, action: Action)
    requires Inv(s) && (action.LearnFromVotes? || action.LearnFromReport?) && Enabled(s, action)
    ensures Inv(After(s, action)) && Grows(s, After(s, action))
  {
    hide FindSlot, BasisOf, Sound, NodeGrows, PromiseKept, Carries;
    var t := After(s, action);
    SameNodesGrow(s, t);
    assert Grows(s, t);
    forall b | t.Sent(b)
      ensures BasisOf(t, b)
    {
      OldSentFromQuorum(s, t, b);
    }
    if action.LearnFromVotes? {
      ChosenStays(s, t, action.ballot);
      assert IsChosen(t, s.attempts[action.ballot].slot, s.attempts[action.ballot].sent.value);
    } else {
      var slot, value := s.attempts[action.reply.ballot].slot, action.reply.response.decidedValue.value;
      ChosenValueStays(s, t, slot, value);
    }
    SameNodesKeepInv(s, t);
  }

  /** The effect of an Accept request on the slot it addresses. */
  lemma AcceptEffect(s: System, action: Action)
    requires Inv(s) && action.AcceptAction? && Enabled(s, action)
    ensures var (a, outcome) := Accept(s.nodes[action.node], s.AcceptRequestOf(action.ballot));
      var k := s.attempts[action.ballot].slot;
      && !outcome.SafetyError?
      && Sound(a)
      && NodeGrows(s.nodes[action.node], a)
      && OnlySlotChanged(s.nodes[action.node], a, a.Slot(k))
      && a.Decided(k) == s.nodes[action.node].Decided(k)
      && (!(outcome.Reply? && outcome.reply.accepted) ==> a == s.nodes[action.node])
      && (outcome.Reply? && outcome.reply.accepted ==>
            && a.Slot(k).acceptedBallot == Some(action.ballot)
            && a.Slot(k).acceptedValue == s.attempts[action.ballot].sent
            && (forall c :: HasPromised(s.nodes[action.node].Slot(k), c) ==> c.AtMost(action.ballot)))
  {
    hide FindSlot, BasisOf, Sound, RepliesTrue, IsChosen;
    var n, b := action.node, action.ballot;
    var k := s.attempts[b].slot;
    var before := s.nodes[n].Slot(k);
    var (a, outcome) := Accept(s.nodes[n], s.AcceptRequestOf(b));
    AcceptKeepsSound(s.nodes[n], s.AcceptRequestOf(b));
    SlotSound(s.nodes[n], k);
    if before.acceptedBallot.Some? {
      assert Carries(s, before.acceptedBallot.value, k, before.acceptedValue);
      BallotsTransitive(before.acceptedBallot.value, before.promised.value, b);
    }
    NodeStepGrows(s.nodes[n], a, a.Slot(k));
    if outcome.Reply? && outcome.reply.accepted {
      forall c | HasPromised(before, c)
        ensures c.AtMost(b)
      {
        BallotsTransitive(c, before.promised.value, b);
      }
    }
  }

  lemma AcceptGrows(s: System, action: Action)
    requires Inv(s) && action.AcceptAction? && Enabled(s, action)
    ensures var t := After(s, action);
      && Grows(s, t) && NodesSound(t) && BallotsReserved(t) && NewVotesRespectPromises(s, t)
      && (forall n, k: nat :: n in t.nodes ==> t.nodes[n].Decided(k) == s.nodes[n].Decided(k))
  {
    hide FindSlot, BasisOf, Sound, IsChosen, Accept;
    var t := After(s, action);
    AcceptEffect(s, action);
    SameNodesGrow(s, s);
    assert NodeGrows(s.nodes[action.node], t.nodes[action.node]);
    forall w, r | w in t.votes && w !in s.votes && r in s.replies && r.response.promised && r.node == w.node
        && w.ballot in t.attempts && r.ballot in t.attempts
        && t.attempts[w.ballot].slot == t.attempts[r.ballot].slot
      ensures !w.ballot.Less(r.ballot)
    {
      assert ReplyTrue(s, r) && PromiseKept(s, r);
      BallotsTotal(w.ballot, r.ballot);
    }
  }

  lemma AcceptKeepsInv(s: System, action: Action)
    requires Inv(s) && action.AcceptAction? && Enabled(s, action)
    ensures Inv(After(s, action)) && Grows(s, After(s, action))
  {
    hide FindSlot, ReplyTrue, BasisOf, IsChosen, Sound, NodeGrows, Accept;
    var t := After(s, action);
    var k := s.attempts[action.ballot].slot;
    AcceptGrows(s, action);
    AcceptEffect(s, action);
    AttemptsKept(s, t);
    OldVotesKept(s, t);
    OldDecisionsChosen(s, t);
    forall n, j: nat | n in t.nodes && 1 <= j && t.nodes[n].Slot(j).acceptedBallot.Some?
      ensures Carries(t, t.nodes[n].Slot(j).acceptedBallot.value, j, t.nodes[n].Slot(j).acceptedValue)
    {
      if n != action.node || j != k || t.nodes[n] == s.nodes[n] {
        OldAcceptedWasSent(s, t, n, j);
      }
    }
  }

  /** No decision a node can receive contradicts one it has learned. */
  lemma DecideNeverConflicts(s: System, node: NodeId, request: DecideRequest)
    requires Inv(s) && node in s.nodes && request in s.decisions
    ensures Decide(s.nodes[node], request).1 == Reply(())
  {
    hide FindSlot, BasisOf, Sound, RepliesTrue, IsChosen;
    var a := s.nodes[node];
    DecideKeepsSound(a, request);
    if a.Decided(request.slot).Some? {
      Agreement(s, request.slot, a.Decided(request.slot).value, request.value);
    }
  }

  /** The node has learned the decision and applied what it could; the rest of the system is as it was. */
  ghost predicate DecidedAt(s: System, t: System, node: NodeId, request: DecideRequest) {
    && Grows(s, t) && NodesSound(t) && BallotsReserved(t)
    && node in s.nodes && node in t.nodes
    && OnlySlotChanged(s.nodes[node], t.nodes[node],
                       s.nodes[node].Slot(request.slot).(decided := Some(request.value)))
    && AppliedGrows(s.nodes[node], t.nodes[node])
  }

  lemma DecideGrows(s: System, action: Action)
    requires Inv(s) && action.DecideAction? && Enabled(s, action)
    ensures DecidedAt(s, After(s, action), action.node, action.request)
  {
    hide FindSlot, Sound, IsChosen, Decide, AcceptedWasSent, VotesKept, RepliesTrue, SentFromQuorum,
      AppliedGrows, ReplyTrue, BasisOf;
    var t := After(s, action);
    DecideNeverConflicts(s, action.node, action.request);
    DecideKeepsSound(s.nodes[action.node], action.request);
    NodeStepGrows(s.nodes[action.node], t.nodes[action.node],
      s.nodes[action.node].Slot(action.request.slot).(decided := Some(action.request.value)));
  }

  lemma DecideKeepsInv(s: System, action: Action)
    requires Inv(s) && action.DecideAction? && Enabled(s, action)
    ensures Inv(After(s, action)) && Grows(s, After(s, action))
  {
    hide FindSlot, ReplyTrue, BasisOf, IsChosen, Sound, NodeGrows, Decide;
    var t := After(s, action);
    DecideGrows(s, action);
    AttemptsKept(s, t);
    OldVotesKept(s, t);
    OldDecisionsChosen(s, t);
    forall n, k: nat | n in t.nodes && 1 <= k && t.nodes[n].Slot(k).acceptedBallot.Some?
      ensures Carries(t, t.nodes[n].Slot(k).acceptedBallot.value, k, t.nodes[n].Slot(k).acceptedValue)
    {
      OldAcceptedWasSent(s, t, n, k);
    }
    forall n, k: nat | n in t.nodes && 1 <= k && t.nodes[n].Decided(k).Some?
      ensures IsChosen(t, k, t.nodes[n].Decided(k).value)
    {
      assert t.nodes[n].Slot(k).decided == t.nodes[n].Decided(k);
      if n == action.node && k == action.request.slot {
        assert action.request in s.decisions;
      } else {
        assert t.nodes[n].Slot(k) == s.nodes[n].Slot(k);
        assert t.nodes[n].Decided(k) == s.nodes[n].Decided(k);
      }
    }
  }

  lemma RestartKeepsInv(s: System, action: Action)
    requires Inv(s) && action.RestartAction? && Enabled(s, action)
    ensures Inv(After(s, action)) && Grows(s, After(s, action))
  {
    hide FindSlot, ReplyTrue, BasisOf, IsChosen, Sound, NodeGrows;
    var t := After(s, action);
    RestartKeepsSound(s.nodes[action.node]);
    RestartGrows(s, action.node);
    AttemptsKept(s, t);
    OldVotesKept(s, t);
    OldDecisionsChosen(s, t);
    forall n, k: nat | n in t.nodes && 1 <= k
      ensures t.nodes[n].Slot(k) == s.nodes[n].Slot(k) && t.nodes[n].Decided(k) == s.nodes[n].Decided(k)
    {
    }
    forall n, k: nat | n in t.nodes && 1 <= k && t.nodes[n].Slot(k).acceptedBallot.Some?
      ensures Carries(t, t.nodes[n].Slot(k).acceptedBallot.value, k, t.nodes[n].Slot(k).acceptedValue)
    {
      OldAcceptedWasSent(s, t, n, k);
    }
  }

  lemma RestartGrows(s: System, node: NodeId)
    requires node in s.nodes
    ensures var t := s.(nodes := s.nodes[node := Restart(s.nodes[node])]);
      forall n :: n in s.nodes ==> NodeGrows(s.nodes[n], t.nodes[n])
  {
    hide FindSlot;
  }

  // ---- Theorems ----------------------------------------------------------------------------

  lemma InitInv(s: System)
    requires Init(s)
    ensures Inv(s)
  {
  }

  /** Every step of the protocol keeps the invariant and takes nothing back. */
  lemma NextKeepsInv(s: System, t: System)
    requires Inv(s) && Next(s, t)
    ensures Inv(t) && Grows(s, t)
  {
    hide Inv, Grows, Enabled, After;
    var action :| Enabled(s, action) && t == After(s, action);
    match action
    case ReserveAction(_, _, _, _) => ReserveKeepsInv(s, action);
    case PrepareAction(_, _) => PrepareKeepsInv(s, action);
    case SendAcceptAction(_, _) => SendAcceptKeepsInv(s, action);
    case AcceptAction(_, _) => AcceptKeepsInv(s, action);
    case LearnFromVotes(_) => LearnKeepsInv(s, action);
    case LearnFromReport(_) => LearnKeepsInv(s, action);
    case DecideAction(_, _) => DecideKeepsInv(s, action);
    case RestartAction(_) => RestartKeepsInv(s, action);
  }
}
