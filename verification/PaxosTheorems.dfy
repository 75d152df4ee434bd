/** What the Paxos MetaStore guarantees over every run: one value per slot, one history, no safety error. */
module PaxosTheorems {
  import opened Wrappers
  import opened Membership
  import opened LogChains
  import opened Register
  import opened PaxosTypes
  import opened PaxosAcceptor
  import opened PaxosProtocol

  // ---- Runs --------------------------------------------------------------------------------

  lemma {:induction false} ReachableInv(run: seq<System>, i: nat)
    requires Run(run) && i < |run|
    ensures Inv(run[i])
  {
    hide Inv, Grows, Next, Init;
    if i == 0 {
      InitInv(run[0]);
    } else {
      ReachableInv(run, i - 1);
      NextKeepsInv(run[i - 1], run[i]);
    }
  }

  lemma {:induction false} ReachableGrows(run: seq<System>, i: nat, j: nat)
    requires Run(run) && i <= j < |run|
    ensures Grows(run[i], run[j])
    decreases j - i
  {
    hide Inv, Grows, Next, Init;
    ReachableInv(run, i);
    if i == j {
      GrowsReflexive(run[i]);
    } else {
      ReachableInv(run, j - 1);
      NextKeepsInv(run[j - 1], run[j]);
      ReachableGrows(run, i, j - 1);
      GrowsTransitive(run[i], run[j - 1], run[j]);
    }
  }

  lemma GrowsReflexive(s: System)
    requires Inv(s)
    ensures Grows(s, s)
  {
    hide Sound, AcceptedWasSent, VotesKept, RepliesTrue, SentFromQuorum, DecisionsChosen;
    SameNodesGrow(s, s);
  }

  // ---- Agreement ---------------------------------------------------------------------------

  /** `value` is stored at a node, reported by a Prepare reply, or being announced, as decided in `slot`. */
  ghost predicate DecidedSomewhere(s: System, slot: nat, value: PaxosValue) {
    || (exists n :: n in s.nodes && s.nodes[n].Decided(slot) == Some(value))
    || DecideRequest(slot, value) in s.decisions
    || (exists r :: r in s.replies && r.ballot in s.attempts && s.attempts[r.ballot].slot == slot
          && r.response.decidedValue == Some(value))
  }

  lemma DecidedIsChosen(s: System, slot: nat, value: PaxosValue)
    requires Inv(s) && 1 <= slot && DecidedSomewhere(s, slot, value)
    ensures IsChosen(s, slot, value)
  {
    hide FindSlot, Sound, BasisOf, ReplyTrue, Chosen;
    if n :| n in s.nodes && s.nodes[n].Decided(slot) == Some(value) {
      assert IsChosen(s, slot, s.nodes[n].Decided(slot).value);
    } else if DecideRequest(slot, value) in s.decisions {
    } else {
      var r :| r in s.replies && r.ballot in s.attempts && s.attempts[r.ballot].slot == slot
        && r.response.decidedValue == Some(value);
      assert IsChosen(s, s.attempts[r.ballot].slot, r.response.decidedValue.value);
    }
  }

  /**
   Whatever anyone ever reports, stores or announces as decided in a slot, at any two moments of any
   run, is one value, and a quorum has accepted it.
   */
  lemma OneDecisionPerSlot(run: seq<System>, i: nat, j: nat, slot: nat, v: PaxosValue, w: PaxosValue)
    requires Run(run) && i <= j < |run| && 1 <= slot
    requires DecidedSomewhere(run[i], slot, v) || IsChosen(run[i], slot, v)
    requires DecidedSomewhere(run[j], slot, w) || IsChosen(run[j], slot, w)
    ensures v == w && IsChosen(run[i], slot, v) && IsChosen(run[j], slot, v)
  {
    hide Inv, Grows, DecidedSomewhere, IsChosen;
    ReachableInv(run, i);
    ReachableInv(run, j);
    ReachableGrows(run, i, j);
    if !IsChosen(run[i], slot, v) { DecidedIsChosen(run[i], slot, v); }
    if !IsChosen(run[j], slot, w) { DecidedIsChosen(run[j], slot, w); }
    ChosenValueStays(run[i], run[j], slot, v);
    Agreement(run[j], slot, v, w);
  }

  // ---- The three safety errors -------------------------------------------------------------

  /** accept, decide and the decision scan of a proposer never raise the safety error. */
  lemma NoSafetyError(run: seq<System>, i: nat)
    requires Run(run) && i < |run|
    ensures var s := run[i];
      && (forall n, b :: n in s.nodes && s.Sent(b) ==> !Accept(s.nodes[n], s.AcceptRequestOf(b)).1.SafetyError?)
      && (forall n, d :: n in s.nodes && d in s.decisions ==> Decide(s.nodes[n], d).1 == Reply(()))
      && (forall b, responses :: b in s.attempts && Gathered(s, b, responses) ==>
            !SingleDecision(responses).Conflict?)
  {
    hide Inv, Accept, Decide, SingleDecision;
    var s := run[i];
    ReachableInv(run, i);
    forall n, b | n in s.nodes && s.Sent(b)
      ensures !Accept(s.nodes[n], s.AcceptRequestOf(b)).1.SafetyError?
    {
      AcceptEffect(s, AcceptAction(n, b));
    }
    forall n, d | n in s.nodes && d in s.decisions
      ensures Decide(s.nodes[n], d).1 == Reply(())
    {
      DecideNeverConflicts(s, n, d);
    }
    forall b, responses | b in s.attempts && Gathered(s, b, responses)
      ensures !SingleDecision(responses).Conflict?
    {
      ReportsAgree(s, b, responses);
    }
  }

  lemma ReportsAgree(s: System, b: Ballot, responses: seq<PrepareReply>)
    requires Inv(s) && b in s.attempts && Gathered(s, b, responses)
    ensures !SingleDecision(responses).Conflict?
  {
    hide SingleDecision, Sound, FindSlot, BasisOf, ReplyTrue, IsChosen;
    if SingleDecision(responses).Conflict? {
      var r, q :| r in responses && q in responses
        && r.response.decidedValue.Some? && q.response.decidedValue.Some?
        && r.response.decidedValue != q.response.decidedValue;
      Agreement(s, s.attempts[b].slot, r.response.decidedValue.value, q.response.decidedValue.value);
    }
  }

  /** No reservation, at any node and after any crash, repeats a ballot an attempt has used. */
  lemma BallotsNeverRepeat(run: seq<System>, i: nat, j: nat, n: NodeId, minimumRound: nat, b: Ballot)
    requires Run(run) && i <= j < |run| && n in run[j].nodes && b in run[i].attempts
    ensures ReserveBallot(run[j].nodes[n], n, minimumRound).1 != b
  {
    hide Inv, Grows;
    ReachableInv(run, j);
    ReachableGrows(run, i, j);
    UsedBallotsStay(run[i], run[j], b);
    NodesAreMembers(run[j]);
    ReserveGrows(run[j], ReserveAction(n, minimumRound, 1, PaxosValue(ReadBarrier)));
  }

  lemma UsedBallotsStay(s: System, t: System, b: Ballot)
    requires Grows(s, t) && b in s.attempts
    ensures b in t.attempts
  {
  }

  lemma NodesAreMembers(s: System)
    requires Inv(s)
    ensures s.nodes.Keys == s.members
  {
  }

  // ---- One history -------------------------------------------------------------------------

  /** The commands a node has applied, in order. */
  ghost function AppliedLog(a: AcceptorState): seq<PaxosValue>
    requires Sound(a)
  {
    seq(a.durable.lastApplied, i requires 0 <= i < a.durable.lastApplied => a.Decided(i + 1).value)
  }

  /** What the atomic register holds after the commands of `log`. */
  ghost function Replay(log: seq<PaxosValue>): VersionedLogChain {
    if log == [] then INITIAL
    else ApplyCommand(Replay(log[..|log| - 1]), log[|log| - 1].command).register
  }

  lemma {:induction false} FoldIsReplay(a: AcceptorState, k: nat)
    requires Sound(a) && k <= a.durable.lastApplied
    ensures Fold(a.durable.slots, k) == Replay(AppliedLog(a)[..k])
  {
    hide FindSlot, Sound;
    if 0 < k {
      FoldIsReplay(a, k - 1);
      var log := AppliedLog(a)[..k];
      assert log[..k - 1] == AppliedLog(a)[..k - 1];
      SoundDecides(a, k);
      assert log[k - 1] == a.Decided(k).value;
    }
  }

  lemma SoundDecides(a: AcceptorState, k: nat)
    requires Sound(a) && 1 <= k <= a.durable.lastApplied
    ensures a.Decided(k).Some?
  {
    hide FindSlot;
  }

  /** A node's register and recorded results are those of the atomic register fed its applied log. */
  lemma RefinesAtomicRegister(a: AcceptorState)
    requires Sound(a)
    ensures a.register == Replay(AppliedLog(a))
    ensures forall k :: k in a.results ==>
      && 1 <= k <= |AppliedLog(a)|
      && a.results[k] == ApplyCommand(Replay(AppliedLog(a)[..k - 1]), AppliedLog(a)[k - 1].command).result
  {
    hide FindSlot, Fold, Replay;
    var log := AppliedLog(a);
    FoldIsReplay(a, |log|);
    assert log[..|log|] == log;
    forall k | k in a.results
      ensures 1 <= k <= |log|
      ensures a.results[k] == ApplyCommand(Replay(log[..k - 1]), log[k - 1].command).result
    {
      FoldIsReplay(a, k - 1);
    }
  }

  lemma NodeIsSound(run: seq<System>, i: nat, n: NodeId)
    requires Run(run) && i < |run| && n in run[i].nodes
    ensures Sound(run[i].nodes[n])
  {
    hide Sound, Run;
    ReachableInv(run, i);
  }

  /** Of the logs two nodes have applied, at any two moments, one is a prefix of the other. */
  lemma LogsAgree(run: seq<System>, i: nat, n: NodeId, j: nat, m: NodeId)
    requires Run(run) && i < |run| && j < |run| && n in run[i].nodes && m in run[j].nodes
    ensures Sound(run[i].nodes[n]) && Sound(run[j].nodes[m])
    ensures var a, b := AppliedLog(run[i].nodes[n]), AppliedLog(run[j].nodes[m]);
      if |a| <= |b| then a <= b else b <= a
  {
    hide FindSlot, IsChosen, DecidedSomewhere, Sound, Run;
    NodeIsSound(run, i, n);
    NodeIsSound(run, j, m);
    var a, b := AppliedLog(run[i].nodes[n]), AppliedLog(run[j].nodes[m]);
    forall k: nat | k < |a| && k < |b|
      ensures a[k] == b[k]
    {
      SoundDecides(run[i].nodes[n], k + 1);
      SoundDecides(run[j].nodes[m], k + 1);
      NodeDecided(run[i], n, k + 1);
      NodeDecided(run[j], m, k + 1);
      if i <= j {
        OneDecisionPerSlot(run, i, j, k + 1, a[k], b[k]);
      } else {
        OneDecisionPerSlot(run, j, i, k + 1, b[k], a[k]);
      }
    }
  }

  lemma NodeDecided(s: System, n: NodeId, k: nat)
    requires n in s.nodes && s.nodes[n].Decided(k).Some?
    ensures DecidedSomewhere(s, k, s.nodes[n].Decided(k).value)
  {
  }

  lemma {:induction false} VersionsRise(log: seq<PaxosValue>, k: nat)
    requires k <= |log|
    ensures Replay(log[..k]).version <= Replay(log).version
    ensures Replay(log[..k]).version == Replay(log).version ==> Replay(log[..k]) == Replay(log)
    decreases |log| - k
  {
    if k == |log| {
      assert log[..k] == log;
    } else {
      VersionsRise(log[..|log| - 1], k);
      assert log[..|log| - 1][..k] == log[..k];
      ApplyAdvancesByOne(Replay(log[..|log| - 1]), log[|log| - 1].command);
    }
  }

  /** At most one chain is ever installed for a version, over all nodes and all moments. */
  lemma OneChainPerVersion(run: seq<System>, i: nat, n: NodeId, j: nat, m: NodeId)
    requires Run(run) && i < |run| && j < |run| && n in run[i].nodes && m in run[j].nodes
    requires run[i].nodes[n].register.version == run[j].nodes[m].register.version
    ensures run[i].nodes[n].register == run[j].nodes[m].register
  {
    hide Replay, Sound, AppliedLog, Run;
    LogsAgree(run, i, n, j, m);
    var x, y := run[i].nodes[n], run[j].nodes[m];
    RefinesAtomicRegister(x);
    RefinesAtomicRegister(y);
    var a, b := AppliedLog(x), AppliedLog(y);
    if |a| <= |b| {
      assert a == b[..|a|];
      VersionsRise(b, |a|);
    } else {
      assert b == a[..|b|];
      VersionsRise(a, |b|);
    }
  }

  /** What a command's caller is told is the same wherever it was applied. */
  lemma ResultsAgree(run: seq<System>, i: nat, n: NodeId, j: nat, m: NodeId, k: nat)
    requires Run(run) && i < |run| && j < |run| && n in run[i].nodes && m in run[j].nodes
    requires k in run[i].nodes[n].results && k in run[j].nodes[m].results
    ensures run[i].nodes[n].results[k] == run[j].nodes[m].results[k]
  {
    hide Replay, Sound, AppliedLog, Run, ApplyCommand;
    LogsAgree(run, i, n, j, m);
    var x, y := run[i].nodes[n], run[j].nodes[m];
    RefinesAtomicRegister(x);
    RefinesAtomicRegister(y);
    var a, b := AppliedLog(x), AppliedLog(y);
    assert a[..k - 1] == b[..k - 1] && a[k - 1] == b[k - 1];
  }
}
