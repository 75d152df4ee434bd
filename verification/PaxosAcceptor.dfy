/**
 One durable acceptor (metastore/paxos/acceptor.py): what each request does to the saved state, the
 in-order application of decided slots, and the class that does it in place.
 */
module PaxosAcceptor {
  import opened Wrappers
  import opened Membership
  import opened Register
  import opened PaxosTypes

  /** Saved state, the in-memory register and the results of slots applied since start-up. */
  datatype AcceptorState = AcceptorState(
    durable: PersistentPaxosState,
    register: VersionedLogChain,
    results: map<nat, StateMachineResult>)
  {
    function Slot(k: nat): AcceptorSlotState {
      FindSlot(durable.slots, k)
    }

    function Decided(k: nat): Option<PaxosValue> {
      Slot(k).decided
    }
  }

  // ---- replace_slot ------------------------------------------------------------------------

  function WithoutSlot(slots: seq<AcceptorSlotState>, k: nat): (kept: seq<AcceptorSlotState>)
    ensures forall s :: s in kept <==> s in slots && s.slot != k
    ensures SortedBySlot(slots) ==> SortedBySlot(kept)
  {
    if slots == [] then []
    else if slots[0].slot == k then WithoutSlot(slots[1..], k)
    else [slots[0]] + WithoutSlot(slots[1..], k)
  }

  /** Sorting a sorted list with one more state appended. */
  function SortIn(slots: seq<AcceptorSlotState>, changed: AcceptorSlotState): (sorted: seq<AcceptorSlotState>)
    ensures forall s :: s in sorted <==> s in slots || s == changed
  {
    if slots == [] then [changed]
    else if changed.slot < slots[0].slot then [changed] + slots
    else [slots[0]] + SortIn(slots[1..], changed)
  }

  lemma {:induction false} SortInSorted(slots: seq<AcceptorSlotState>, changed: AcceptorSlotState)
    requires SortedBySlot(slots) && forall s :: s in slots ==> s.slot != changed.slot
    ensures SortedBySlot(SortIn(slots, changed))
  {
    if slots != [] && slots[0].slot < changed.slot {
      var rest := SortIn(slots[1..], changed);
      SortInSorted(slots[1..], changed);
      forall i | 0 <= i < |rest|
        ensures slots[0].slot < rest[i].slot
      {
        assert rest[i] in rest;
      }
    }
  }

  function ReplaceSlot(slots: seq<AcceptorSlotState>, changed: AcceptorSlotState): (replaced: seq<AcceptorSlotState>)
    ensures SortedBySlot(slots) ==> SortedBySlot(replaced)
    ensures forall s :: s in replaced ==> s in slots || s == changed
  {
    var kept := WithoutSlot(slots, changed.slot);
    assert SortedBySlot(slots) ==> SortedBySlot(SortIn(kept, changed)) by {
      if SortedBySlot(slots) {
        SortInSorted(kept, changed);
      }
    }
    SortIn(kept, changed)
  }

  lemma {:induction false} FindWithout(slots: seq<AcceptorSlotState>, k: nat, j: nat)
    ensures FindSlot(WithoutSlot(slots, k), j) == if j == k then EmptySlot(k) else FindSlot(slots, j)
  {
    if slots != [] {
      FindWithout(slots[1..], k, j);
      if slots[0].slot != k {
        assert ([slots[0]] + WithoutSlot(slots[1..], k))[1..] == WithoutSlot(slots[1..], k);
      }
    }
  }

  lemma {:induction false} FindSortIn(slots: seq<AcceptorSlotState>, changed: AcceptorSlotState, j: nat)
    requires FindSlot(slots, changed.slot) == EmptySlot(changed.slot) 
    requires forall s :: s in slots ==> s.slot != changed.slot
    ensures FindSlot(SortIn(slots, changed), j) == if j == changed.slot then changed else FindSlot(slots, j)
  {
    if slots != [] {
      if changed.slot < slots[0].slot {
        assert ([changed] + slots)[1..] == slots;
      } else {
        FindSortIn(slots[1..], changed, j);
        assert ([slots[0]] + SortIn(slots[1..], changed))[1..] == SortIn(slots[1..], changed);
      }
    }
  }

  /** Replacing one slot state changes the lookup of that slot and of no other. */
  lemma FindReplaced(slots: seq<AcceptorSlotState>, changed: AcceptorSlotState, j: nat)
    ensures FindSlot(ReplaceSlot(slots, changed), j) == if j == changed.slot then changed else FindSlot(slots, j)
  {
    var kept := WithoutSlot(slots, changed.slot);
    FindWithout(slots, changed.slot, changed.slot);
    FindWithout(slots, changed.slot, j);
    FindSortIn(kept, changed, j);
  }

  function Save(a: AcceptorState, changed: AcceptorSlotState): AcceptorState {
    a.(durable := a.durable.(slots := ReplaceSlot(a.durable.slots, changed)))
  }

  // ---- What each request does --------------------------------------------------------------

  function ReserveBallot(a: AcceptorState, nodeId: NodeId, minimumRound: nat): (AcceptorState, Ballot) {
    var nextRound := if a.durable.localRound < minimumRound then minimumRound + 1 else a.durable.localRound + 1;
    (a.(durable := a.durable.(localRound := nextRound)), Ballot(nextRound, nodeId))
  }

  function Prepare(a: AcceptorState, request: PrepareRequest): (AcceptorState, PrepareResponse) {
    var slot := a.Slot(request.slot);
    if slot.promised.Some? && request.ballot.Less(slot.promised.value) then
      (a, PrepareResponse(false, slot.promised.value, slot.acceptedBallot, slot.acceptedValue, slot.decided))
    else
      (Save(a, slot.(promised := Some(request.ballot))),
       PrepareResponse(true, request.ballot, slot.acceptedBallot, slot.acceptedValue, slot.decided))
  }

  function Accept(a: AcceptorState, request: AcceptRequest): (AcceptorState, Outcome<AcceptResponse>) {
    var slot := a.Slot(request.slot);
    if slot.acceptedBallot == Some(request.ballot) && slot.acceptedValue.Some?
       && slot.acceptedValue.value != request.value then
      (a, SafetyError)
    else if slot.decided.Some? && slot.decided.value != request.value then
      (a, Reply(AcceptResponse(false, if slot.promised.Some? then slot.promised.value else request.ballot)))
    else if slot.promised.Some? && request.ballot.Less(slot.promised.value) then
      (a, Reply(AcceptResponse(false, slot.promised.value)))
    else
      (Save(a, slot.(promised := Some(request.ballot),
                     acceptedBallot := Some(request.ballot),
                     acceptedValue := Some(request.value))),
       Reply(AcceptResponse(true, request.ballot)))
  }

  datatype Progress = Progress(
    lastApplied: nat,
    register: VersionedLogChain,
    results: map<nat, StateMachineResult>)

  function HighestSlot(slots: seq<AcceptorSlotState>): (highest: nat)
    ensures forall s :: s in slots ==> s.slot <= highest
  {
    if slots == [] then 0
    else
      var rest := HighestSlot(slots[1..]);
      if rest < slots[0].slot then slots[0].slot else rest
  }

  function NextProgress(p: Progress, value: PaxosValue): Progress {
    var step := ApplyCommand(p.register, value.command);
    Progress(p.lastApplied + 1, step.register, p.results[p.lastApplied + 1 := step.result])
  }

  /** Applies decided slots in order until the first gap. */
  function ApplyDecided(slots: seq<AcceptorSlotState>, p: Progress): Progress
    decreases HighestSlot(slots) - p.lastApplied
  {
    var next := FindSlot(slots, p.lastApplied + 1).decided;
    if next.None? then p else ApplyDecided(slots, NextProgress(p, next.value))
  }

  function Decide(a: AcceptorState, request: DecideRequest): (AcceptorState, Outcome<()>) {
    var slot := a.Slot(request.slot);
    if slot.decided.Some? then
      (a, if slot.decided.value != request.value then SafetyError else Reply(()))
    else
      var slots := ReplaceSlot(a.durable.slots, slot.(decided := Some(request.value)));
      var p := ApplyDecided(slots, Progress(a.durable.lastApplied, a.register, a.results));
      (AcceptorState(
         PersistentPaxosState(a.durable.localRound, slots, p.lastApplied, p.register),
         p.register,
         p.results),
       Reply(()))
  }

  /** A restart keeps the saved state only. */
  function Restart(a: AcceptorState): AcceptorState {
    AcceptorState(a.durable, a.durable.stateMachine, map[])
  }

  // ---- The invariant of one acceptor -------------------------------------------------------

  /** The register after slots 1..k, folded from the decided values. */
  function Fold(slots: seq<AcceptorSlotState>, k: nat): VersionedLogChain {
    if k == 0 then INITIAL
    else
      var before := Fold(slots, k - 1);
      match FindSlot(slots, k).decided
      case None => before
      case Some(value) => ApplyCommand(before, value.command).register
  }

  /** `p` is the outcome of applying slots 1..p.lastApplied in order, and of nothing else. */
  ghost predicate Consistent(slots: seq<AcceptorSlotState>, p: Progress) {
    && (forall k :: 1 <= k <= p.lastApplied ==> FindSlot(slots, k).decided.Some?)
    && p.register == Fold(slots, p.lastApplied)
    && (forall k :: k in p.results ==>
          && 1 <= k <= p.lastApplied
          && p.results[k] == ApplyCommand(Fold(slots, k - 1), FindSlot(slots, k).decided.value.command).result)
  }

  /** What holds of an acceptor after every request and every restart. */
  ghost predicate Sound(a: AcceptorState) {
    && a.durable.Valid()
    && (forall s :: s in a.durable.slots && s.acceptedBallot.Some? ==> s.promised.Some?)
    && Consistent(a.durable.slots, Progress(a.durable.lastApplied, a.register, a.results))
    && a.durable.stateMachine == a.register
    && a.Decided(a.durable.lastApplied + 1).None?
  }

  const FRESH := AcceptorState(FRESH_STATE, INITIAL, map[])

  lemma {:induction false} FoldDependsOnDecisions(
      slots: seq<AcceptorSlotState>, others: seq<AcceptorSlotState>, k: nat)
    requires forall j :: 1 <= j <= k ==> FindSlot(slots, j).decided == FindSlot(others, j).decided
    ensures Fold(slots, k) == Fold(others, k)
  {
    if 0 < k {
      FoldDependsOnDecisions(slots, others, k - 1);
    }
  }

  lemma {:induction false} FoldValid(slots: seq<AcceptorSlotState>, k: nat)
    ensures Fold(slots, k).Valid()
  {
    if 0 < k {
      FoldValid(slots, k - 1);
    }
  }

  /** Deciding further slots keeps everything applied so far. */
  lemma ConsistentAfterLaterDecisions(slots: seq<AcceptorSlotState>, others: seq<AcceptorSlotState>, p: Progress)
    requires Consistent(slots, p)
    requires forall j :: 1 <= j <= p.lastApplied ==> FindSlot(slots, j).decided == FindSlot(others, j).decided
    ensures Consistent(others, p)
  {
    hide FindSlot, Fold, ApplyCommand;
    FoldDependsOnDecisions(slots, others, p.lastApplied);
    forall k | k in p.results
      ensures Fold(slots, k - 1) == Fold(others, k - 1)
    {
      FoldDependsOnDecisions(slots, others, k - 1);
    }
  }

  lemma NextKeepsConsistent(slots: seq<AcceptorSlotState>, p: Progress)
    requires Consistent(slots, p)
    requires FindSlot(slots, p.lastApplied + 1).decided.Some?
    ensures Consistent(slots, NextProgress(p, FindSlot(slots, p.lastApplied + 1).decided.value))
  {
    var q := NextProgress(p, FindSlot(slots, p.lastApplied + 1).decided.value);
    assert q.register == Fold(slots, q.lastApplied);
    forall k | k in q.results
      ensures 1 <= k <= q.lastApplied
      ensures q.results[k] == ApplyCommand(Fold(slots, k - 1), FindSlot(slots, k).decided.value.command).result
    {
      if k != q.lastApplied {
        assert k in p.results;
      }
    }
  }

  /** The apply loop stops exactly at the first gap, having applied and recorded each slot once. */
  lemma {:induction false} ApplyDecidedReachesTheGap(slots: seq<AcceptorSlotState>, p: Progress)
    requires Consistent(slots, p)
    ensures var q := ApplyDecided(slots, p);
      && Consistent(slots, q)
      && p.lastApplied <= q.lastApplied
      && FindSlot(slots, q.lastApplied + 1).decided.None?
      && (forall k :: k in p.results ==> k in q.results)
      && (forall k :: p.lastApplied < k <= q.lastApplied ==> k in q.results)
    decreases HighestSlot(slots) - p.lastApplied
  {
    hide FindSlot, Fold, HighestSlot, ApplyCommand;
    var next := FindSlot(slots, p.lastApplied + 1).decided;
    if next.Some? {
      NextKeepsConsistent(slots, p);
      ApplyDecidedReachesTheGap(slots, NextProgress(p, next.value));
      assert forall k :: k in p.results ==> k in NextProgress(p, next.value).results;
    }
  }

  // ---- Each request keeps the invariant ----------------------------------------------------

  /** `b` differs from `a` only in the state of slot `changed.slot`. */
  ghost predicate OnlySlotChanged(a: AcceptorState, b: AcceptorState, changed: AcceptorSlotState) {
    && (forall k: nat :: b.Slot(k) == if k == changed.slot then changed else a.Slot(k))
    && b.durable.localRound == a.durable.localRound
  }

  lemma SaveChangesOneSlot(a: AcceptorState, changed: AcceptorSlotState)
    ensures OnlySlotChanged(a, Save(a, changed), changed)
  {
    var b := Save(a, changed);
    forall k: nat
      ensures b.Slot(k) == if k == changed.slot then changed else a.Slot(k)
    {
      FindReplaced(a.durable.slots, changed, k);
    }
  }

  lemma SaveKeepsSound(a: AcceptorState, changed: AcceptorSlotState)
    requires Sound(a) && changed.Valid() && changed.decided == a.Decided(changed.slot)
    requires changed.acceptedBallot.Some? ==> changed.promised.Some?
    ensures Sound(Save(a, changed)) && OnlySlotChanged(a, Save(a, changed), changed)
  {
    hide FindSlot, Fold;
    var b := Save(a, changed);
    SaveChangesOneSlot(a, changed);
    SavedSlotsValid(a, changed);
    assert b.Slot(changed.slot) == changed;
    forall k: nat
      ensures FindSlot(b.durable.slots, k).decided == FindSlot(a.durable.slots, k).decided
    {
      assert b.Slot(k) == if k == changed.slot then changed else a.Slot(k);
    }
    ConsistentAfterLaterDecisions(a.durable.slots, b.durable.slots,
      Progress(a.durable.lastApplied, a.register, a.results));
  }

  lemma SlotSound(a: AcceptorState, k: nat)
    requires Sound(a) && 1 <= k
    ensures a.Slot(k).Valid() && (a.Slot(k).acceptedBallot.Some? ==> a.Slot(k).promised.Some?)
  {
    if a.Slot(k) != EmptySlot(k) {
      var i :| 0 <= i < |a.durable.slots| && a.durable.slots[i] == a.Slot(k);
    }
  }

  /** A reservation raises the durable round, so no later ballot of this node repeats it. */
  lemma ReserveKeepsSound(a: AcceptorState, nodeId: NodeId, minimumRound: nat)
    requires Sound(a)
    ensures var (b, ballot) := ReserveBallot(a, nodeId, minimumRound);
      && Sound(b)
      && (forall k: nat :: b.Slot(k) == a.Slot(k))
      && a.durable.localRound < b.durable.localRound == ballot.round
      && minimumRound < ballot.round
      && (ballot.round == a.durable.localRound + 1 || ballot.round == minimumRound + 1)
      && ballot.nodeId == nodeId
  {
  }

  ghost predicate NonePromisedAbove(slot: AcceptorSlotState, ballot: Ballot) {
    slot.promised.Some? ==> slot.promised.value.AtMost(ballot)
  }

  /** The request neither contradicts what the slot holds or has decided, nor falls below its promise. */
  ghost predicate Acceptable(slot: AcceptorSlotState, request: AcceptRequest) {
    && (slot.acceptedBallot == Some(request.ballot) ==> slot.acceptedValue == Some(request.value))
    && (slot.decided.Some? ==> slot.decided == Some(request.value))
    && NonePromisedAbove(slot, request.ballot)
  }

  lemma PrepareKeepsSound(a: AcceptorState, request: PrepareRequest)
    requires Sound(a) && 1 <= request.slot
    ensures var (b, response) := Prepare(a, request);
      && Sound(b)
      && OnlySlotChanged(a, b, b.Slot(request.slot))
      && b.Slot(request.slot) == a.Slot(request.slot).(promised := b.Slot(request.slot).promised)
      && b.Slot(request.slot).promised == Some(response.promisedBallot)
      && request.ballot.AtMost(response.promisedBallot)
      && (response.promised <==> response.promisedBallot == request.ballot)
      && (response.promised <==> NonePromisedAbove(a.Slot(request.slot), request.ballot))
      && (!response.promised ==> b == a)
      && (a.Slot(request.slot).promised.Some? ==>
            a.Slot(request.slot).promised.value.AtMost(response.promisedBallot))
      && response.acceptedBallot == a.Slot(request.slot).acceptedBallot
      && response.acceptedValue == a.Slot(request.slot).acceptedValue
      && response.decidedValue == a.Decided(request.slot)
  {
    var slot := a.Slot(request.slot);
    SlotSound(a, request.slot);
    if slot.promised.Some? {
      BallotsTotal(request.ballot, slot.promised.value);
      if slot.acceptedBallot.Some? {
        BallotsTransitive(slot.acceptedBallot.value, slot.promised.value, request.ballot);
      }
    }
    if slot.promised.None? || !request.ballot.Less(slot.promised.value) {
      SaveKeepsSound(a, slot.(promised := Some(request.ballot)));
    }
  }

  lemma AcceptKeepsSound(a: AcceptorState, request: AcceptRequest)
    requires Sound(a) && 1 <= request.slot
    ensures var (b, outcome) := Accept(a, request);
      && Sound(b)
      && OnlySlotChanged(a, b, b.Slot(request.slot))
      && b.Decided(request.slot) == a.Decided(request.slot)
      && (outcome.SafetyError? <==>
            && a.Slot(request.slot).acceptedBallot == Some(request.ballot)
            && a.Slot(request.slot).acceptedValue != Some(request.value))
      && (outcome.Reply? && outcome.reply.accepted ==>
            && b.Slot(request.slot).promised == Some(request.ballot)
            && b.Slot(request.slot).acceptedBallot == Some(request.ballot)
            && b.Slot(request.slot).acceptedValue == Some(request.value)
            && (a.Slot(request.slot).promised.Some? ==>
                  a.Slot(request.slot).promised.value.AtMost(request.ballot)))
      && (!(outcome.Reply? && outcome.reply.accepted) ==> b == a)
      && outcome != StorageFailed
      && (outcome.Reply? && outcome.reply.accepted <==> Acceptable(a.Slot(request.slot), request))
      && (outcome.Reply? && a.Slot(request.slot).promised.Some? && !outcome.reply.accepted ==>
            outcome.reply.promisedBallot == a.Slot(request.slot).promised.value)
  {
    var slot := a.Slot(request.slot);
    SlotSound(a, request.slot);
    if slot.promised.Some? {
      BallotsTotal(request.ballot, slot.promised.value);
    }
    if Accept(a, request).1 == Reply(AcceptResponse(true, request.ballot)) {
      SaveKeepsSound(a, slot.(promised := Some(request.ballot),
                              acceptedBallot := Some(request.ballot),
                              acceptedValue := Some(request.value)));
    }
  }

  /** Learning a decision applies it, and everything it was blocking, exactly up to the next gap. */
  lemma DecideKeepsSound(a: AcceptorState, request: DecideRequest)
    requires Sound(a) && 1 <= request.slot
    ensures var (b, outcome) := Decide(a, request);
      && Sound(b)
      && OnlySlotChanged(a, b, b.Slot(request.slot))
      && (outcome == SafetyError || outcome == Reply(()))
      && (outcome.SafetyError? <==> a.Decided(request.slot).Some? && a.Decided(request.slot) != Some(request.value))
      && (outcome.SafetyError? ==> b == a)
      && (outcome.Reply? ==> b.Slot(request.slot) == a.Slot(request.slot).(decided := Some(request.value)))
      && AppliedGrows(a, b)
  {
    if a.Decided(request.slot).None? {
      DecideNewSlot(a, request);
    }
  }

  /** Nothing applied is taken back, and every slot applied by the step has its result recorded. */
  ghost predicate AppliedGrows(a: AcceptorState, b: AcceptorState) {
    && a.durable.lastApplied <= b.durable.lastApplied
    && (forall k :: k in a.results ==> k in b.results)
    && (forall k :: a.durable.lastApplied < k <= b.durable.lastApplied ==> k in b.results)
  }

  lemma DecideNewSlot(a: AcceptorState, request: DecideRequest)
    requires Sound(a) && 1 <= request.slot && a.Decided(request.slot).None?
    ensures var b := Decide(a, request).0;
      && Sound(b)
      && OnlySlotChanged(a, b, a.Slot(request.slot).(decided := Some(request.value)))
      && AppliedGrows(a, b)
  {
    hide FindSlot, Fold, ApplyDecided;
    var changed := a.Slot(request.slot).(decided := Some(request.value));
    var slots := ReplaceSlot(a.durable.slots, changed);
    var p := Progress(a.durable.lastApplied, a.register, a.results);
    SlotSound(a, request.slot);
    SavedSlotsValid(a, changed);
    DecisionConsistent(a, changed);
    ApplyDecidedReachesTheGap(slots, p);
    var b := Decide(a, request).0;
    FoldValid(slots, b.durable.lastApplied);
    SaveChangesOneSlot(a, changed);
    assert OnlySlotChanged(a, b, changed) by {
      assert forall k: nat :: b.Slot(k) == Save(a, changed).Slot(k);
    }
  }

  lemma DecisionConsistent(a: AcceptorState, changed: AcceptorSlotState)
    requires Sound(a) && a.Decided(changed.slot).None?
    ensures Consistent(ReplaceSlot(a.durable.slots, changed), Progress(a.durable.lastApplied, a.register, a.results))
  {
    hide FindSlot, Fold;
    var slots := ReplaceSlot(a.durable.slots, changed);
    forall k: nat | k != changed.slot
      ensures FindSlot(slots, k) == FindSlot(a.durable.slots, k)
    {
      FindReplaced(a.durable.slots, changed, k);
    }
    assert changed.slot == 0 || a.durable.lastApplied < changed.slot;
    ConsistentAfterLaterDecisions(a.durable.slots, slots, Progress(a.durable.lastApplied, a.register, a.results));
  }

  lemma SavedSlotsValid(a: AcceptorState, changed: AcceptorSlotState)
    requires Sound(a) && changed.Valid()
    ensures var slots := ReplaceSlot(a.durable.slots, changed);
      && (forall i :: 0 <= i < |slots| ==> slots[i].Valid())
  {
    var slots := ReplaceSlot(a.durable.slots, changed);
    forall i | 0 <= i < |slots|
      ensures slots[i].Valid()
    {
      assert slots[i] in slots;
    }
  }

  /** A crash loses nothing the protocol relies on. */
  lemma RestartKeepsSound(a: AcceptorState)
    requires Sound(a)
    ensures Sound(Restart(a)) && forall k: nat :: Restart(a).Slot(k) == a.Slot(k)
  {
    hide FindSlot, Fold;
  }

  /** last_applied is the longest contiguous decided prefix: it is determined by the decisions alone. */
  lemma LastAppliedIsMaximal(a: AcceptorState, k: nat)
    requires Sound(a)
    ensures k <= a.durable.lastApplied <==> forall j :: 1 <= j <= k ==> a.Decided(j).Some?
  {
    if a.durable.lastApplied < k {
      assert a.Decided(a.durable.lastApplied + 1).None?;
    }
  }

  // ---- The second phase follows the first ------------------------------------------------------

  datatype Request =
    | PrepareFor(prepare: PrepareRequest)
    | AcceptFor(accept: AcceptRequest)
    | DecideFor(decide: DecideRequest)
    | ReserveFor(minimumRound: nat)
    | CrashAndRestart

  function Served(a: AcceptorState, nodeId: NodeId, request: Request): AcceptorState {
    match request
    case PrepareFor(prepare) => Prepare(a, prepare).0
    case AcceptFor(accept) => Accept(a, accept).0
    case DecideFor(decide) => Decide(a, decide).0
    case ReserveFor(minimumRound) => ReserveBallot(a, nodeId, minimumRound).0
    case CrashAndRestart => Restart(a)
  }

  function ServedAll(a: AcceptorState, nodeId: NodeId, requests: seq<Request>): AcceptorState {
    if requests == [] then a
    else Served(ServedAll(a, nodeId, requests[..|requests| - 1]), nodeId, requests[|requests| - 1])
  }

  /** For the slot of `mine` it names a higher ballot, another value at the same ballot, or another decision. */
  predicate Rivals(request: Request, mine: AcceptRequest) {
    match request
    case PrepareFor(prepare) => prepare.slot == mine.slot && mine.ballot.Less(prepare.ballot)
    case AcceptFor(accept) =>
      && accept.slot == mine.slot
      && (mine.ballot.Less(accept.ballot) || (accept.ballot == mine.ballot && accept.value != mine.value))
    case DecideFor(decide) => decide.slot == mine.slot && decide.value != mine.value
    case ReserveFor(_) => false
    case CrashAndRestart => false
  }

  predicate WellAddressed(request: Request) {
    match request
    case PrepareFor(prepare) => 1 <= prepare.slot
    case AcceptFor(accept) => 1 <= accept.slot
    case DecideFor(decide) => 1 <= decide.slot
    case ReserveFor(_) => true
    case CrashAndRestart => true
  }

  lemma ServedKeepsAcceptable(a: AcceptorState, nodeId: NodeId, request: Request, mine: AcceptRequest)
    requires Sound(a) && WellAddressed(request) && !Rivals(request, mine) && 1 <= mine.slot
    requires Acceptable(a.Slot(mine.slot), mine)
    ensures Sound(Served(a, nodeId, request)) && Acceptable(Served(a, nodeId, request).Slot(mine.slot), mine)
  {
    hide FindSlot, Fold, Sound, Prepare, Accept, Decide, Restart, ReserveBallot;
    match request
    case PrepareFor(prepare) =>
      PrepareKeepsSound(a, prepare);
      BallotsTotal(mine.ballot, prepare.ballot);
    case AcceptFor(accept) =>
      AcceptKeepsSound(a, accept);
      BallotsTotal(mine.ballot, accept.ballot);
    case DecideFor(decide) =>
      DecideKeepsSound(a, decide);
    case ReserveFor(minimumRound) =>
      ReserveKeepsSound(a, nodeId, minimumRound);
    case CrashAndRestart =>
      RestartKeepsSound(a);
  }

  /**
   The second phase follows the first: once a Prepare at a ballot new to the slot got its promise and no
   decision, the Accept at that ballot is accepted after any requests and crashes that bring in no higher
   ballot, no other value at this one and no other decision.
   */
  lemma {:induction false} AcceptedAfterPromise(a: AcceptorState, nodeId: NodeId, requests: seq<Request>,
      mine: AcceptRequest)
    requires Sound(a) && 1 <= mine.slot
    requires var response := Prepare(a, PrepareRequest(mine.slot, mine.ballot)).1;
      response.promised && response.decidedValue.None? && response.acceptedBallot != Some(mine.ballot)
    requires forall i :: 0 <= i < |requests| ==> WellAddressed(requests[i]) && !Rivals(requests[i], mine)
    ensures var before := ServedAll(Prepare(a, PrepareRequest(mine.slot, mine.ballot)).0, nodeId, requests);
      && Sound(before) && Acceptable(before.Slot(mine.slot), mine)
      && Accept(before, mine).1 == Reply(AcceptResponse(true, mine.ballot))
  {
    hide FindSlot, Fold, Sound, Prepare, Decide, Served;
    if requests == [] {
      PrepareKeepsSound(a, PrepareRequest(mine.slot, mine.ballot));
    } else {
      var shorter := requests[..|requests| - 1];
      AcceptedAfterPromise(a, nodeId, shorter, mine);
      ServedKeepsAcceptable(ServedAll(Prepare(a, PrepareRequest(mine.slot, mine.ballot)).0, nodeId, shorter), nodeId,
        requests[|requests| - 1], mine);
    }
    AcceptKeepsSound(ServedAll(Prepare(a, PrepareRequest(mine.slot, mine.ballot)).0, nodeId, requests), mine);
  }

  // ---- The class ---------------------------------------------------------------------------

  /**
   The acceptor object. `diskOk` stands for the storage completing the save; when it fails the
   exception leaves the method before anything changed.
   */
  class PaxosAcceptor {
    const nodeId: NodeId
    var state: PersistentPaxosState
    const machine: VersionRegisterStateMachine
    var appliedResults: map<nat, StateMachineResult>

    ghost function View(): AcceptorState
      reads this, machine
    {
      AcceptorState(state, machine.snapshot, appliedResults)
    }

    /** Starts from the saved state, as after a crash. */
    constructor (nodeId: NodeId, saved: PersistentPaxosState)
      ensures this.nodeId == nodeId && fresh(machine)
      ensures forall a: AcceptorState :: a.durable == saved ==> View() == Restart(a)
    {
      this.nodeId := nodeId;
      state := saved;
      machine := new VersionRegisterStateMachine();
      appliedResults := map[];
      new;
      machine.Restore(saved.stateMachine);
    }

    method Reserve(minimumRound: nat, diskOk: bool) returns (outcome: Outcome<Ballot>)
      modifies this`state
      ensures diskOk ==>
        && outcome.Reply?
        && (View(), outcome.reply) == ReserveBallot(old(View()), nodeId, minimumRound)
      ensures !diskOk ==> outcome == StorageFailed && View() == old(View())
    {
      if !diskOk { return StorageFailed; }
      var nextRound := state.localRound + 1;
      if nextRound < minimumRound + 1 {
        nextRound := minimumRound + 1;
      }
      state := state.(localRound := nextRound);
      outcome := Reply(Ballot(nextRound, nodeId));
    }

    method OnPrepare(request: PrepareRequest, diskOk: bool) returns (outcome: Outcome<PrepareResponse>)
      modifies this`state
      ensures outcome.Reply? ==> (View(), outcome.reply) == Prepare(old(View()), request)
      ensures diskOk ==> outcome.Reply?
      ensures !outcome.Reply? ==> outcome == StorageFailed && View() == old(View())
    {
      var slot := FindSlot(state.slots, request.slot);
      if slot.promised.Some? && request.ballot.Less(slot.promised.value) {
        return Reply(PrepareResponse(
          false, slot.promised.value, slot.acceptedBallot, slot.acceptedValue, slot.decided));
      }
      if !diskOk { return StorageFailed; }
      var changed := slot.(promised := Some(request.ballot));
      state := state.(slots := ReplaceSlot(state.slots, changed));
      outcome := Reply(PrepareResponse(
        true, request.ballot, changed.acceptedBallot, changed.acceptedValue, changed.decided));
    }

    method OnAccept(request: AcceptRequest, diskOk: bool) returns (outcome: Outcome<AcceptResponse>)
      modifies this`state
      ensures outcome != StorageFailed ==> (View(), outcome) == Accept(old(View()), request)
      ensures diskOk ==> outcome != StorageFailed
      ensures outcome == StorageFailed ==> View() == old(View())
    {
      var slot := FindSlot(state.slots, request.slot);
      if slot.acceptedBallot == Some(request.ballot) && slot.acceptedValue.Some?
         && slot.acceptedValue.value != request.value {
        return SafetyError;
      }
      if slot.decided.Some? && slot.decided.value != request.value {
        var promised := request.ballot;
        if slot.promised.Some? {
          promised := slot.promised.value;
        }
        return Reply(AcceptResponse(false, promised));
      }
      if slot.promised.Some? && request.ballot.Less(slot.promised.value) {
        return Reply(AcceptResponse(false, slot.promised.value));
      }
      if !diskOk { return StorageFailed; }
      var changed := slot.(promised := Some(request.ballot),
                           acceptedBallot := Some(request.ballot),
                           acceptedValue := Some(request.value));
      state := state.(slots := ReplaceSlot(state.slots, changed));
      outcome := Reply(AcceptResponse(true, request.ballot));
    }

    /** The gap-aware apply loop. */
    method ApplyContiguous(slots: seq<AcceptorSlotState>)
      returns (lastApplied: nat, results: map<nat, StateMachineResult>)
      modifies machine
      ensures Progress(lastApplied, machine.snapshot, results)
           == ApplyDecided(slots, Progress(state.lastApplied, old(machine.snapshot), appliedResults))
    {
      lastApplied, results := state.lastApplied, appliedResults;
      ghost var goal := ApplyDecided(slots, Progress(lastApplied, machine.snapshot, results));
      var next := FindSlot(slots, lastApplied + 1).decided;
      while next.Some?
        invariant next == FindSlot(slots, lastApplied + 1).decided
        invariant ApplyDecided(slots, Progress(lastApplied, machine.snapshot, results)) == goal
        decreases HighestSlot(slots) - lastApplied
      {
        lastApplied := lastApplied + 1;
        var result := machine.Apply(next.value.command);
        results := results[lastApplied := result];
        next := FindSlot(slots, lastApplied + 1).decided;
      }
    }

    /** A failed save puts the state machine back. */
    method OnDecide(request: DecideRequest, diskOk: bool) returns (outcome: Outcome<()>)
      modifies this, machine
      ensures outcome != StorageFailed ==> (View(), outcome) == Decide(old(View()), request)
      ensures diskOk ==> outcome != StorageFailed
      ensures outcome == StorageFailed ==> View() == old(View())
    {
      var slot := FindSlot(state.slots, request.slot);
      if slot.decided.Some? {
        if slot.decided.value != request.value {
          return SafetyError;
        }
        return Reply(());
      }
      var slots := ReplaceSlot(state.slots, slot.(decided := Some(request.value)));
      var previousSnapshot := machine.snapshot;
      var lastApplied, results := ApplyContiguous(slots);
      if !diskOk {
        machine.Restore(previousSnapshot);
        return StorageFailed;
      }
      state := PersistentPaxosState(state.localRound, slots, lastApplied, machine.snapshot);
      appliedResults := results;
      outcome := Reply(());
    }

    method Result(slot: nat) returns (result: Option<StateMachineResult>)
      ensures result == if slot in appliedResults then Some(appliedResults[slot]) else None
    {
      result := if slot in appliedResults then Some(appliedResults[slot]) else None;
    }
  }
}
