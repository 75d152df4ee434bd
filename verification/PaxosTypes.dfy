/** Ballots, slot states and messages of the Paxos MetaStore (metastore/paxos/types.py). */
module PaxosTypes {
  import opened Wrappers
  import opened Membership
  import opened Register

  /** Lexicographic order of strings, as Python compares node ids. */
  predicate StringLess(a: string, b: string) {
    b != [] && (a == [] || a[0] < b[0] || (a[0] == b[0] && StringLess(a[1..], b[1..])))
  }

  lemma {:induction false} StringLessTotal(a: string, b: string)
    ensures StringLess(a, b) || StringLess(b, a) || a == b
    ensures !(StringLess(a, b) && StringLess(b, a))
    ensures !StringLess(a, a)
  {
    if a != [] {
      StringLessTotal(a[1..], a[1..]);
    }
    if a != [] && b != [] {
      StringLessTotal(a[1..], b[1..]);
      if a[0] == b[0] && a[1..] == b[1..] {
        assert a == [a[0]] + a[1..] == b;
      }
    }
  }

  lemma {:induction false} StringLessTransitive(a: string, b: string, c: string)
    requires StringLess(a, b) && StringLess(b, c)
    ensures StringLess(a, c)
  {
    if a != [] && a[0] == b[0] && b[0] == c[0] {
      StringLessTransitive(a[1..], b[1..], c[1..]);
    }
  }

  /** The first place where two names differ. */
  ghost predicate DifferAt(a: string, b: string, k: nat) {
    && k <= |a| && k <= |b| && a[..k] == b[..k]
    && (k == |a| || k == |b| || a[k] != b[k])
  }

  /** The order is the dictionary's: a proper prefix is smaller, and else the first different character decides. */
  lemma {:induction false} StringLessByFirstDifference(a: string, b: string, k: nat)
    requires DifferAt(a, b, k)
    ensures StringLess(a, b) <==> k < |b| && (k == |a| || a[k] < b[k])
  {
    if 0 < k {
      assert a[0] == a[..k][0] == b[..k][0] == b[0];
      assert a[1..][..k - 1] == a[..k][1..] == b[..k][1..] == b[1..][..k - 1];
      StringLessByFirstDifference(a[1..], b[1..], k - 1);
    }
  }

  datatype Ballot = Ballot(round: nat, nodeId: NodeId)
  {
    predicate Less(other: Ballot) {
      round < other.round || (round == other.round && StringLess(nodeId, other.nodeId))
    }

    predicate AtMost(other: Ballot) {
      this == other || Less(other)
    }
  }

  /** Ballots are totally ordered: of two distinct ballots exactly one is smaller. */
  lemma BallotsTotal(a: Ballot, b: Ballot)
    ensures a.Less(b) || b.Less(a) || a == b
    ensures !(a.Less(b) && b.Less(a))
    ensures !a.Less(a)
    ensures !a.Less(b) <==> b.AtMost(a)
    ensures a.round < b.round ==> a.Less(b)
    ensures a.round == b.round ==> (a.Less(b) <==> StringLess(a.nodeId, b.nodeId))
  {
    StringLessTotal(a.nodeId, b.nodeId);
  }

  lemma BallotsTransitive(a: Ballot, b: Ballot, c: Ballot)
    ensures a.Less(b) && b.Less(c) ==> a.Less(c)
    ensures a.AtMost(b) && b.AtMost(c) ==> a.AtMost(c)
    ensures a.AtMost(b) && b.Less(c) ==> a.Less(c)
    ensures a.Less(b) && b.AtMost(c) ==> a.Less(c)
  {
    if StringLess(a.nodeId, b.nodeId) && StringLess(b.nodeId, c.nodeId) {
      StringLessTransitive(a.nodeId, b.nodeId, c.nodeId);
    }
  }

  datatype PaxosValue = PaxosValue(command: Command)

  datatype AcceptorSlotState = AcceptorSlotState(
    slot: nat,
    promised: Option<Ballot>,
    acceptedBallot: Option<Ballot>,
    acceptedValue: Option<PaxosValue>,
    decided: Option<PaxosValue>)
  {
    /** The validator that runs whenever a slot state is built or loaded. */
    predicate Valid() {
      && 1 <= slot
      && (acceptedBallot.None? <==> acceptedValue.None?)
      && (acceptedBallot.Some? && promised.Some? ==> acceptedBallot.value.AtMost(promised.value))
    }
  }

  function EmptySlot(slot: nat): AcceptorSlotState {
    AcceptorSlotState(slot, None, None, None, None)
  }

  datatype PersistentPaxosState = PersistentPaxosState(
    localRound: nat,
    slots: seq<AcceptorSlotState>,
    lastApplied: nat,
    stateMachine: VersionedLogChain)
  {
    /** The validators that run when a saved state is loaded again. */
    ghost predicate Valid() {
      && (forall i :: 0 <= i < |slots| ==> slots[i].Valid())
      && SortedBySlot(slots)
      && (forall k :: 1 <= k <= lastApplied ==> FindSlot(slots, k).decided.Some?)
      && stateMachine.Valid()
    }
  }

  const FRESH_STATE := PersistentPaxosState(0, [], 0, INITIAL)

  predicate SortedBySlot(slots: seq<AcceptorSlotState>) {
    forall i, j :: 0 <= i < j < |slots| ==> slots[i].slot < slots[j].slot
  }

  /** The state stored for slot `k`, or an empty one. */
  function FindSlot(slots: seq<AcceptorSlotState>, k: nat): (found: AcceptorSlotState)
    ensures found.slot == k
    ensures found in slots || found == EmptySlot(k)
  {
    if slots == [] then EmptySlot(k)
    else if slots[0].slot == k then slots[0]
    else FindSlot(slots[1..], k)
  }

  datatype PrepareRequest = PrepareRequest(slot: nat, ballot: Ballot)

  datatype PrepareResponse = PrepareResponse(
    promised: bool,
    promisedBallot: Ballot,
    acceptedBallot: Option<Ballot>,
    acceptedValue: Option<PaxosValue>,
    decidedValue: Option<PaxosValue>)

  datatype AcceptRequest = AcceptRequest(slot: nat, ballot: Ballot, value: PaxosValue)

  datatype AcceptResponse = AcceptResponse(accepted: bool, promisedBallot: Ballot)

  datatype DecideRequest = DecideRequest(slot: nat, value: PaxosValue)

  /** A reply, the storage failing before anything changed, or a broken safety rule. */
  datatype Outcome<T> = Reply(reply: T) | StorageFailed | SafetyError
}
