/**
 The replicated MetaStore as the register the VirtualLog relies on (virtual_log/metastore.py): the chains
 its slots install are the versions, and its answers are what the VirtualLog expects of a register.
 */
module PaxosBridge {
  import opened Wrappers
  import opened Membership
  import opened LogChains
  import opened Register
  import opened PaxosTypes
  import opened PaxosAcceptor
  import opened PaxosProtocol
  import opened PaxosTheorems
  import Virtual = VirtualLogProtocol

  // ---- The chains a log of commands installs ---------------------------------------------------

  predicate Installs(register: VersionedLogChain, command: Command) {
    command.CompareAndSet? && register.version == command.expectedVersion
  }

  /** The chains installed by the commands, in order: version v is the v-th of them. */
  ghost function ChainsOf(log: seq<PaxosValue>): seq<LogChain> {
    if log == [] then []
    else
      var before, last := log[..|log| - 1], log[|log| - 1];
      ChainsOf(before) + if Installs(Replay(before), last.command) then [last.command.newChain] else []
  }

  lemma {:induction false} ReplayIsLastChain(log: seq<PaxosValue>)
    ensures var chains := ChainsOf(log);
      Replay(log) == VersionedLogChain(|chains|, if chains == [] then None else Some(chains[|chains| - 1]))
  {
    if log != [] {
      ReplayIsLastChain(log[..|log| - 1]);
    }
  }

  lemma {:induction false} ChainsGrow(log: seq<PaxosValue>, k: nat)
    requires k <= |log|
    ensures ChainsOf(log[..k]) <= ChainsOf(log)
    decreases |log| - k
  {
    if k == |log| {
      assert log[..k] == log;
    } else {
      var shorter := log[..|log| - 1];
      ChainsGrow(shorter, k);
      assert shorter[..k] == log[..k];
    }
  }

  /** The register after any number of the commands is initial, or one of the versions. */
  lemma PrefixInstalled(log: seq<PaxosValue>, k: nat, state: Virtual.State)
    requires k <= |log| && state.chains == ChainsOf(log)
    ensures Replay(log[..k]) == INITIAL || Virtual.Installed(state, Replay(log[..k]))
  {
    ReplayIsLastChain(log[..k]);
    ChainsGrow(log, k);
  }

  // ---- The history of a system -------------------------------------------------------------------

  /** The longest log any node has applied. */
  ghost predicate IsHistory(s: System, log: seq<PaxosValue>) {
    exists n :: n in s.nodes && Sound(s.nodes[n]) && log == AppliedLog(s.nodes[n])
      && forall m :: m in s.nodes ==> s.nodes[m].durable.lastApplied <= |log|
  }

  /** The versions the VirtualLog sees are the chains the history installs. */
  ghost predicate Represents(s: System, state: Virtual.State) {
    exists log :: IsHistory(s, log) && state.chains == ChainsOf(log)
  }

  /** What a node has applied is a prefix of the history. */
  lemma AppliedIsPrefix(run: seq<System>, i: nat, n: NodeId, log: seq<PaxosValue>)
    requires Run(run) && i < |run| && n in run[i].nodes && IsHistory(run[i], log)
    ensures Sound(run[i].nodes[n]) && AppliedLog(run[i].nodes[n]) <= log
  {
    hide Run, Sound;
    var m :| m in run[i].nodes && Sound(run[i].nodes[m]) && log == AppliedLog(run[i].nodes[m])
      && forall o :: o in run[i].nodes ==> run[i].nodes[o].durable.lastApplied <= |log|;
    LogsAgree(run, i, n, i, m);
  }

  lemma HistoryExists(run: seq<System>, i: nat) returns (log: seq<PaxosValue>)
    requires Run(run) && i < |run|
    ensures IsHistory(run[i], log)
  {
    hide Run, Sound;
    ReachableInv(run, i);
    NodesAreMembers(run[i]);
    SomeMember(run[i]);
    var n := HighestApplied(run[i], run[i].nodes.Keys);
    NodeIsSound(run, i, n);
    log := AppliedLog(run[i].nodes[n]);
  }

  lemma SomeMember(s: System)
    requires Inv(s)
    ensures s.nodes.Keys != {}
  {
  }

  lemma {:induction false} HighestApplied(s: System, among: set<NodeId>) returns (n: NodeId)
    requires among <= s.nodes.Keys && among != {}
    ensures n in among
    ensures forall m :: m in among ==> s.nodes[m].durable.lastApplied <= s.nodes[n].durable.lastApplied
    decreases |among|
  {
    n :| n in among;
    if among != {n} {
      var rest := among - {n};
      assert among == rest + {n};
      var top := HighestApplied(s, rest);
      if s.nodes[n].durable.lastApplied < s.nodes[top].durable.lastApplied {
        n := top;
      }
    }
  }

  /** As the MetaStore moves on, the versions only grow. */
  lemma VersionsGrow(run: seq<System>, i: nat, j: nat, log: seq<PaxosValue>, later: seq<PaxosValue>)
    requires Run(run) && i <= j < |run| && IsHistory(run[i], log) && IsHistory(run[j], later)
    ensures log <= later && ChainsOf(log) <= ChainsOf(later)
  {
    hide Run, Sound, Grows, NodeGrows;
    var n :| n in run[i].nodes && Sound(run[i].nodes[n]) && log == AppliedLog(run[i].nodes[n])
      && forall m :: m in run[i].nodes ==> run[i].nodes[m].durable.lastApplied <= |log|;
    var m :| m in run[j].nodes && Sound(run[j].nodes[m]) && later == AppliedLog(run[j].nodes[m])
      && forall o :: o in run[j].nodes ==> run[j].nodes[o].durable.lastApplied <= |later|;
    ReachableGrows(run, i, j);
    NodeStays(run[i], run[j], n);
    NodeIsSound(run, j, n);
    AppliedStays(run[i], run[j], n);
    LogsAgree(run, i, n, j, m);
    assert log == later[..|log|];
    ChainsGrow(later, |log|);
  }

  lemma NodeStays(s: System, t: System, n: NodeId)
    requires Grows(s, t) && n in s.nodes
    ensures n in t.nodes
  {
    hide NodeGrows;
  }

  lemma AppliedStays(s: System, t: System, n: NodeId)
    requires Grows(s, t) && n in s.nodes && n in t.nodes && Sound(t.nodes[n]) && Sound(s.nodes[n])
    ensures s.nodes[n].durable.lastApplied <= t.nodes[n].durable.lastApplied
  {
    hide FindSlot, Fold;
    var a, b := s.nodes[n], t.nodes[n];
    assert NodeGrows(a, b);
    forall j | 1 <= j <= a.durable.lastApplied
      ensures b.Decided(j).Some?
    {
      SoundDecides(a, j);
      assert SlotGrows(a.Slot(j), b.Slot(j));
    }
    LastAppliedIsMaximal(b, a.durable.lastApplied);
  }

  // ---- Reads ---------------------------------------------------------------------------------------

  /** What `PaxosMetaStore.Read` answers at a node, `World.ReadRegister` may answer. */
  lemma ReadMeetsRegister(run: seq<System>, i: nat, n: NodeId, slot: nat, state: Virtual.State,
      current: VersionedLogChain)
    requires Run(run) && i < |run| && n in run[i].nodes && Represents(run[i], state)
    requires Sound(run[i].nodes[n]) && 1 <= slot <= |AppliedLog(run[i].nodes[n])|
    requires current == Replay(AppliedLog(run[i].nodes[n])[..slot - 1])
    ensures current == INITIAL || Virtual.Installed(state, current)
  {
    hide Run, Sound;
    var log :| IsHistory(run[i], log) && state.chains == ChainsOf(log);
    AppliedIsPrefix(run, i, n, log);
    assert AppliedLog(run[i].nodes[n])[..slot - 1] == log[..slot - 1];
    PrefixInstalled(log, slot - 1, state);
  }

  // ---- Timely proposals ----------------------------------------------------------------------------

  /** Some node's register has reached the version. */
  ghost predicate Observed(s: System, version: nat) {
    exists n :: n in s.nodes && version <= s.nodes[n].register.version
  }

  /**
   A proposer tries the slot after its applied prefix, or an earlier one it started before, and a
   conditional write expects a version somebody has seen installed.
   */
  ghost predicate Disciplined(s: System, action: Action) {
    action.ReserveAction? && action.node in s.nodes ==>
      && action.slot <= s.nodes[action.node].durable.lastApplied + 1
      && (action.proposed.command.CompareAndSet? ==> Observed(s, action.proposed.command.expectedVersion))
  }

  ghost predicate DisciplinedRun(run: seq<System>) {
    && run != [] && Init(run[0])
    && forall i :: 0 < i < |run| ==> DisciplinedNext(run[i - 1], run[i])
  }

  ghost predicate DisciplinedNext(s: System, t: System) {
    exists action :: Enabled(s, action) && Disciplined(s, action) && t == After(s, action)
  }

  lemma DisciplinedIsRun(run: seq<System>)
    requires DisciplinedRun(run)
    ensures Run(run)
  {
    hide Init, Enabled, After, Disciplined;
    forall i | 0 < i < |run|
      ensures Next(run[i - 1], run[i])
    {
      assert DisciplinedNext(run[i - 1], run[i]);
    }
  }

  /** The commands are chosen in the slots from 1 on. */
  ghost predicate ChosenLog(s: System, log: seq<PaxosValue>) {
    forall k: nat :: k < |log| ==> IsChosen(s, k + 1, log[k])
  }

  /** By the slot, the version a conditional write expects has been reached. */
  ghost predicate Timely(s: System, slot: nat, value: PaxosValue) {
    value.command.CompareAndSet? ==>
      exists log :: 1 <= slot && |log| == slot - 1 && ChosenLog(s, log)
        && value.command.expectedVersion <= Replay(log).version
  }

  /** The slot already belongs to another value. */
  ghost predicate Taken(s: System, slot: nat, value: PaxosValue) {
    exists other :: other != value && IsChosen(s, slot, other)
  }

  ghost predicate ProposalsTimely(s: System) {
    forall b :: b in s.attempts ==>
      Timely(s, s.attempts[b].slot, s.attempts[b].proposed) || Taken(s, s.attempts[b].slot, s.attempts[b].proposed)
  }

  lemma ChosenLogStays(s: System, t: System, log: seq<PaxosValue>)
    requires Grows(s, t) && ChosenLog(s, log)
    ensures ChosenLog(t, log)
  {
    hide Grows, IsChosen;
    forall k: nat | k < |log|
      ensures IsChosen(t, k + 1, log[k])
    {
      ChosenValueStays(s, t, k + 1, log[k]);
    }
  }

  lemma TimelinessStays(s: System, t: System, slot: nat, value: PaxosValue)
    requires Grows(s, t) && (Timely(s, slot, value) || Taken(s, slot, value))
    ensures Timely(t, slot, value) || Taken(t, slot, value)
  {
    hide Grows, IsChosen, ChosenLog, Replay;
    if other :| other != value && IsChosen(s, slot, other) {
      ChosenValueStays(s, t, slot, other);
    } else if value.command.CompareAndSet? {
      var log :| 1 <= slot && |log| == slot - 1 && ChosenLog(s, log)
        && value.command.expectedVersion <= Replay(log).version;
      ChosenLogStays(s, t, log);
    }
  }

  /** Whatever an attempt sent, some attempt of the same slot proposed. */
  lemma {:induction false} SentWasProposed(s: System, b: Ballot) returns (c: Ballot)
    requires Inv(s) && s.Sent(b)
    ensures c in s.attempts && s.attempts[c].slot == s.attempts[b].slot
    ensures Some(s.attempts[c].proposed) == s.attempts[b].sent
    decreases |Below(s, b)|
  {
    hide HighestAccepted, Sound;
    var attempt := s.attempts[b];
    assert BasisOf(s, b);
    var highest := HighestAccepted(attempt.basis);
    if highest.None? {
      c := b;
    } else {
      assert ReplyTrue(s, highest.value);
      var m := highest.value.response.acceptedBallot.value;
      BelowShrinks(s, m, b);
      c := SentWasProposed(s, m);
    }
  }

  /** A chosen value is timely: had its slot belonged to another, that would be the chosen one. */
  lemma ChosenIsTimely(s: System, slot: nat, value: PaxosValue)
    requires Inv(s) && ProposalsTimely(s) && IsChosen(s, slot, value)
    ensures Timely(s, slot, value)
  {
    hide Inv, Replay, ChosenLog;
    var b :| Chosen(s, b) && s.attempts[b].slot == slot && s.attempts[b].sent == Some(value);
    var c := SentWasProposed(s, b);
    if other :| other != value && IsChosen(s, slot, other) {
      Agreement(s, slot, value, other);
    }
  }

  lemma AppliedChosen(s: System, n: NodeId)
    requires Inv(s) && n in s.nodes
    ensures Sound(s.nodes[n]) && ChosenLog(s, AppliedLog(s.nodes[n]))
  {
    hide FindSlot, IsChosen, BasisOf, ReplyTrue;
    var log := AppliedLog(s.nodes[n]);
    forall k: nat | k < |log|
      ensures IsChosen(s, k + 1, log[k])
    {
      SoundDecides(s.nodes[n], k + 1);
    }
  }

  lemma RegisterOfLog(s: System, n: NodeId)
    requires Inv(s) && n in s.nodes
    ensures Sound(s.nodes[n]) && s.nodes[n].register == Replay(AppliedLog(s.nodes[n]))
  {
    hide FindSlot, Replay, BasisOf, ReplyTrue, IsChosen;
    RefinesAtomicRegister(s.nodes[n]);
  }

  /** Two chosen logs agree where both reach. */
  lemma ChosenLogsAgree(s: System, a: seq<PaxosValue>, b: seq<PaxosValue>)
    requires Inv(s) && ChosenLog(s, a) && ChosenLog(s, b) && |a| <= |b|
    ensures a == b[..|a|]
  {
    hide Inv, IsChosen;
    forall k: nat | k < |a|
      ensures a[k] == b[k]
    {
      Agreement(s, k + 1, a[k], b[k]);
    }
  }

  /** A disciplined reservation proposes a value in time, or for a slot that is taken. */
  lemma NewProposalTimely(s: System, action: Action)
    requires Inv(s) && ProposalsTimely(s) && action.ReserveAction? && Enabled(s, action) && Disciplined(s, action)
    ensures Timely(s, action.slot, action.proposed) || Taken(s, action.slot, action.proposed)
  {
    hide Inv, IsChosen, Replay, AppliedLog, Sound, ProposalsTimely;
    var v := action.proposed;
    if v.command.CompareAndSet? {
      var e := v.command.expectedVersion;
      var m :| m in s.nodes && e <= s.nodes[m].register.version;
      AppliedChosen(s, m);
      RegisterOfLog(s, m);
      var seen := AppliedLog(s.nodes[m]);
      if action.slot <= |seen| {
        assert IsChosen(s, action.slot - 1 + 1, seen[action.slot - 1]);
        if seen[action.slot - 1] == v {
          ChosenIsTimely(s, action.slot, v);
        }
      } else {
        AppliedChosen(s, action.node);
        NodeLogLength(s, action.node);
        var log := AppliedLog(s.nodes[action.node])[..action.slot - 1];
        ChosenLogsAgree(s, seen, log);
        VersionsRise(log, |seen|);
      }
    }
  }

  lemma NodeLogLength(s: System, n: NodeId)
    requires n in s.nodes && Sound(s.nodes[n])
    ensures |AppliedLog(s.nodes[n])| == s.nodes[n].durable.lastApplied
  {
    hide Sound;
  }

  lemma StepKeepsTimely(s: System, action: Action)
    requires Inv(s) && ProposalsTimely(s) && Enabled(s, action) && Disciplined(s, action)
    ensures ProposalsTimely(After(s, action))
  {
    hide Inv, IsChosen, Timely, Taken, Disciplined, Grows, Prepare, Accept, Decide, ReserveBallot;
    var t := After(s, action);
    assert Next(s, t);
    NextKeepsInv(s, t);
    forall b | b in t.attempts
      ensures var a := t.attempts[b]; Timely(t, a.slot, a.proposed) || Taken(t, a.slot, a.proposed)
    {
      var a := t.attempts[b];
      if b in s.attempts && a.slot == s.attempts[b].slot && a.proposed == s.attempts[b].proposed {
        TimelinessStays(s, t, s.attempts[b].slot, s.attempts[b].proposed);
      } else {
        NewProposalTimely(s, action);
        TimelinessStays(s, t, action.slot, action.proposed);
      }
    }
  }

  lemma {:induction false} DisciplinedRunTimely(run: seq<System>, i: nat)
    requires DisciplinedRun(run) && i < |run|
    ensures Inv(run[i]) && ProposalsTimely(run[i])
  {
    hide Inv, ProposalsTimely, Enabled, After, Disciplined, Init;
    DisciplinedIsRun(run);
    ReachableInv(run, i);
    if i == 0 {
      StartTimely(run[0]);
    } else {
      DisciplinedRunTimely(run, i - 1);
      assert DisciplinedNext(run[i - 1], run[i]);
      var s := run[i - 1];
      var action :| Enabled(s, action) && Disciplined(s, action) && run[i] == After(s, action);
      StepKeepsTimely(run[i - 1], action);
    }
  }

  lemma StartTimely(s: System)
    requires Init(s)
    ensures ProposalsTimely(s)
  {
  }

  // ---- Conditional writes --------------------------------------------------------------------------

  /**
   What `PaxosMetaStore.CompareAndSet` answers at a node, `World.CompareAndSwap` may answer: an applied
   write is an installed version, and a mismatch reports an installed version later than the expected one.
   */
  lemma CompareAndSetMeetsRegister(run: seq<System>, i: nat, n: NodeId, slot: nat, expectedVersion: nat,
      newChain: LogChain,
      state: Virtual.State, result: CompareAndSetResult)
    requires DisciplinedRun(run) && i < |run| && n in run[i].nodes && Represents(run[i], state)
    requires Sound(run[i].nodes[n]) && 1 <= slot <= |AppliedLog(run[i].nodes[n])|
    requires AppliedLog(run[i].nodes[n])[slot - 1] == PaxosValue(Command.CompareAndSet(expectedVersion, newChain))
    requires Cas(result) ==
      ConditionalWrite(Replay(AppliedLog(run[i].nodes[n])[..slot - 1]), expectedVersion, newChain).result
    ensures result.Applied? ==>
      && result.snapshot == VersionedLogChain(expectedVersion + 1, Some(newChain))
      && Virtual.Installed(state, result.snapshot)
    ensures result.VersionMismatch? ==>
      expectedVersion < result.current.version && Virtual.Installed(state, result.current)
  {
    hide DisciplinedRun, Sound, Replay, ConditionalWrite, Timely;
    DisciplinedIsRun(run);
    var log :| IsHistory(run[i], log) && state.chains == ChainsOf(log);
    AppliedIsPrefix(run, i, n, log);
    var applied := AppliedLog(run[i].nodes[n]);
    assert applied[..slot - 1] == log[..slot - 1] && applied[..slot] == log[..slot];
    WriteInstalls(log, slot, expectedVersion, newChain, state, result);
    DisciplinedRunTimely(run, i);
    WriteInTime(run[i], n, slot, expectedVersion, newChain);
  }

  lemma WriteInTime(s: System, n: NodeId, slot: nat, expectedVersion: nat, newChain: LogChain)
    requires Inv(s) && ProposalsTimely(s) && n in s.nodes
    requires Sound(s.nodes[n]) && 1 <= slot <= |AppliedLog(s.nodes[n])|
    requires AppliedLog(s.nodes[n])[slot - 1] == PaxosValue(Command.CompareAndSet(expectedVersion, newChain))
    ensures expectedVersion <= Replay(AppliedLog(s.nodes[n])[..slot - 1]).version
  {
    hide Inv, IsChosen, Replay, AppliedLog, Sound, ProposalsTimely;
    AppliedChosen(s, n);
    var applied := AppliedLog(s.nodes[n]);
    assert IsChosen(s, slot - 1 + 1, applied[slot - 1]);
    ChosenIsTimely(s, slot, applied[slot - 1]);
    var before :| |before| == slot - 1 && ChosenLog(s, before) && expectedVersion <= Replay(before).version;
    ChosenLogsAgree(s, before, applied);
  }

  lemma WriteInstalls(log: seq<PaxosValue>, slot: nat, expectedVersion: nat, newChain: LogChain, state: Virtual.State,
      result: CompareAndSetResult)
    requires 1 <= slot <= |log| && state.chains == ChainsOf(log)
    requires log[slot - 1] == PaxosValue(Command.CompareAndSet(expectedVersion, newChain))
    requires Cas(result) == ConditionalWrite(Replay(log[..slot - 1]), expectedVersion, newChain).result
    ensures result.Applied? ==>
      && result.snapshot == VersionedLogChain(expectedVersion + 1, Some(newChain))
      && Virtual.Installed(state, result.snapshot)
    ensures result.VersionMismatch? ==>
      && result.current == Replay(log[..slot - 1]) && result.current.version != expectedVersion
      && (0 < result.current.version ==> Virtual.Installed(state, result.current))
  {
    hide Replay, ChainsOf;
    assert log[..slot][..slot - 1] == log[..slot - 1];
    PrefixInstalled(log, slot - 1, state);
    PrefixInstalled(log, slot, state);
    ReplayStep(log, slot);
  }

  lemma ReplayStep(log: seq<PaxosValue>, slot: nat)
    requires 1 <= slot <= |log|
    ensures Replay(log[..slot]) == ApplyCommand(Replay(log[..slot - 1]), log[slot - 1].command).register
  {
    assert log[..slot][..slot - 1] == log[..slot - 1];
  }
}
