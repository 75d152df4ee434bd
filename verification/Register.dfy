/**
 The versioned register of the MetaStore: the port (virtual_log/metastore.py), the atomic
 in-memory register (metastore/memory.py) and the Paxos state machine (metastore/paxos/state_machine.py).
 */
module Register {
  import opened Wrappers
  import opened LogChains

  datatype VersionedLogChain = VersionedLogChain(version: nat, chain: Option<LogChain>)
  {
    /** Only version zero has no chain. */
    predicate Valid() {
      version == 0 <==> chain.None?
    }
  }

  const INITIAL := VersionedLogChain(0, None)

  datatype CompareAndSetResult = Applied(snapshot: VersionedLogChain) | VersionMismatch(current: VersionedLogChain)

  datatype Command = CompareAndSet(expectedVersion: nat, newChain: LogChain) | ReadBarrier

  datatype StateMachineResult = Cas(result: CompareAndSetResult) | Snapshot(snapshot: VersionedLogChain)

  datatype Step = Step(register: VersionedLogChain, result: StateMachineResult)

  /** What the atomic register does with a conditional write. */
  function ConditionalWrite(register: VersionedLogChain, expectedVersion: nat, newChain: LogChain): (step: Step)
    ensures register.Valid() ==> step.register.Valid()
    ensures step.result.Cas?
    ensures step.result.result.Applied? <==> register.version == expectedVersion
  {
    if register.version != expectedVersion then
      Step(register, Cas(VersionMismatch(register)))
    else
      var installed := VersionedLogChain(expectedVersion + 1, Some(newChain));
      Step(installed, Cas(Applied(installed)))
  }

  function ApplyCommand(register: VersionedLogChain, command: Command): Step {
    match command
    case ReadBarrier => Step(register, Snapshot(register))
    case CompareAndSet(expectedVersion, newChain) => ConditionalWrite(register, expectedVersion, newChain)
  }

  /**
   One command leaves the register alone, reporting what it holds, or installs one chain one version later;
   the latter exactly for a write that expects the version in place.
   */
  lemma ApplyAdvancesByOne(register: VersionedLogChain, command: Command)
    ensures var step := ApplyCommand(register, command);
      || (step.register == register && step.result ==
            if command.ReadBarrier? then Snapshot(register) else Cas(VersionMismatch(register)))
      || (&& step.register.version == register.version + 1
          && command.CompareAndSet?
          && step.register.chain == Some(command.newChain)
          && step.result == Cas(Applied(step.register)))
    ensures ApplyCommand(register, command).register != register <==>
      command.CompareAndSet? && command.expectedVersion == register.version
  {
  }

  /** The state machine replicated by Paxos. */
  class VersionRegisterStateMachine {
    var snapshot: VersionedLogChain

    constructor ()
      ensures snapshot == INITIAL
    {
      snapshot := INITIAL;
    }

    method Restore(saved: VersionedLogChain)
      modifies this
      ensures snapshot == saved
    {
      snapshot := saved;
    }

    method Apply(command: Command) returns (result: StateMachineResult)
      modifies this
      ensures Step(snapshot, result) == ApplyCommand(old(snapshot), command)
    {
      match command
      case ReadBarrier =>
        result := Snapshot(snapshot);
      case CompareAndSet(expectedVersion, newChain) =>
        if snapshot.version != expectedVersion {
          result := Cas(VersionMismatch(snapshot));
        } else {
          snapshot := VersionedLogChain(expectedVersion + 1, Some(newChain));
          result := Cas(Applied(snapshot));
        }
    }
  }

  /** The atomic register the Paxos stack stands in for. */
  class MemoryMetaStore {
    var snapshot: VersionedLogChain

    constructor ()
      ensures snapshot == INITIAL
    {
      snapshot := INITIAL;
    }

    method Read() returns (current: VersionedLogChain)
      ensures current == snapshot
    {
      current := snapshot;
    }

    method CompareAndSwap(expectedVersion: nat, newChain: LogChain) returns (result: CompareAndSetResult)
      modifies this
      ensures Step(snapshot, Cas(result)) == ConditionalWrite(old(snapshot), expectedVersion, newChain)
    {
      if snapshot.version != expectedVersion {
        result := VersionMismatch(snapshot);
      } else {
        snapshot := VersionedLogChain(expectedVersion + 1, Some(newChain));
        result := Applied(snapshot);
      }
    }
  }
}
