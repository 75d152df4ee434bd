# Delos lab: a verified model

The repository stacks four protocols: a Classic Paxos MetaStore that replicates one versioned
register, the NativeLoglet (one sequencer, quorum appends, sealing and repair), the VirtualLog that
strings Loglets into one address space, and a key-value store that replays that log. This project
models the four cores and proves what they promise, over every run.

## How the model is built

- **Protocols are state machines.** `PaxosProtocol`, `LogletProtocol` and `VirtualLogProtocol` each give
  a state, atomic steps and an inductive invariant. A request is one step at one server; requests and
  replies may be lost, delayed, repeated and reordered; servers crash and keep only what they saved.
  Memberships, numbers of clients and lengths of runs are unbounded. The `...Theorems` modules draw the
  results over whole runs.
- **Objects are classes.** Acceptors, proposers, log servers, sequencers, clients, the VirtualLog, the
  key-value store and the materializer are classes that update their fields as the code does. A class
  that talks to others runs against a `Network` (or `World`): before each of its requests anybody else
  may take any number of protocol steps (`Interference`), and `OthersInterfere` proves that this covers
  every step there is. `Interfere` and `Await` do nothing themselves; callers know only their contract.
- **What a method must do is stated where nobody disturbs it.** In a `calm` network nobody else acts and
  exactly the requests to the members in `down` are lost (`whole`: none are); in an `undisturbed` world nobody
  else acts and each Loglet answers by a given `Script`. There the contracts say what the answer is, and
  when a quorum is missing. A `trail` of attempts and ghost counters of writes, register reads and trims that
  fell short say the same of loops that others may disturb.
- **History is kept in the state** where a property speaks of the past: put replies, sealed reads,
  acknowledged positions, returned sealed tails, placed segments.
- **The layers meet.** `NativeContract` shows that a native segment is a Loglet in the VirtualLog's
  sense and that its check_tail and reads meet what the VirtualLog expects; `PaxosBridge` that the
  replicated MetaStore's reads and conditional writes are those of the register it expects, for clients
  that expect versions somebody has seen; `ReplacementContract` that a closed segment stays that Loglet
  under a prepared replacement; `VirtualLogFlat` that the VirtualLog is one flat log, final below its
  settled boundary. `KvMaterializer` reads that VirtualLog itself, and `KvService` runs the whole way from
  an append to the answer in the store, and from an open tail to a store that reflects it.

Reading order: `Membership`, `LogChains`, `Register`; `PaxosTypes`, `PaxosAcceptor`, `PaxosProtocol`,
`PaxosTheorems`, `PaxosCalm`, `PaxosProposer`, `PaxosBridge`; `LogletStore`, `LogServers`, `LogletProtocol`,
`LogletTheorems`, `OpenTails`, `LogletNetwork`, `NativeSequencer`, `NativeClient`, `LogletReader`,
`TargetNetwork`, `TargetClient`, `Replacement`; `VirtualLogProtocol`, `VirtualLogTheorems`,
`VirtualLogNetwork`, `VirtualLogClient`, `VirtualLogWitnesses`, `NativeContract`, `ReplacementContract`,
`SequencerFence`, `SequencerRegistry`; `KvMachine`, `KvReplay`, `KvCounters`, `KvSnapshots`, `KvStore`, `KvLog`,
`VirtualLogFlat`, `KvMaterializer`, `KvService`.

## Where the code falls short of its promise

- The sequencer's retry shortcut (`src/delos_lab/native_loglet/sequencer.py:51-52`) acknowledges from a
  known tail that a sealed repair may have raised. `LogletTheorems.ShortcutBoundary` proves that it
  respects the seal boundary exactly for memberships of three or four. `NativeContract` therefore counts
  answers of the shortcut as acknowledged for those memberships only; for larger ones the VirtualLog's
  results hold for appends acknowledged by a commit.
- `VirtualLog.check_tail` may return a sealed tail of an old segment on its last attempt
  (`src/delos_lab/virtual_log/core.py:132-136`). `VirtualLogTheorems.SealedTailsCoverExactly` proves that
  such tails are above everything acknowledged exactly when nothing was acknowledged in a later segment,
  and `VirtualLogWitnesses.StaleSealedTailFallsShort` runs into the other case. The caller is safe when
  the version checked knows every segment there was when the call began; open tails are always safe.
- A read through an old chain (`src/delos_lab/virtual_log/core.py:194-228`) finds the right segment
  exactly below the start of the first segment the chain does not know (`VirtualLogTheorems.RoutesAgree`).
  Above it, `VirtualLogWitnesses.StaleReadFindsZombie` reads a command nobody acknowledged.
- `prefix_trim` (`src/delos_lab/virtual_log/core.py:245-263`) reads the cached chain again after its
  check_tail, and may then ask a Loglet to discard what it has not established:
  `VirtualLogClient.TrimPassesExactly` says exactly when. It cannot happen while the re-read chain has the
  checked active segment, or the limit does not reach into the re-read one. A cache that fell back
  (`FallenBackTrimPasses`), and also one that moved forward (`RunAheadTrimPasses`), brings it about.
  For the Loglet that matters: `LogletTheorems.TrimSafeExactly`.
- `prepare` (`src/delos_lab/native_loglet/replacement.py:64-69`) publishes the source's tail to the target
  although only the segment's own range was copied. On a fresh target that tail is covered exactly when
  it does not exceed the segment (`Replacement.FreshTargetSoundExactly`); with shared members, exactly
  when they cover the one position at the segment's end besides (`OnlyTheEndInDoubt`).
  `PublishedUnsound` reaches the other case for every membership. Reads, trims and the Loglet contract do
  not depend on it (`ReplacementContract`).
- An open check_tail (`src/delos_lab/native_loglet/client.py:93-96`) that counts a quorum of copies returns
  a final tail (`OpenTails.OpenCheckFinal`). One that trusts its known tail instead may return a tail that
  a sealed check_tail still in flight undercuts, even with three members (`OpenTails.OpenTailOvertaken`);
  it is above everything acknowledged all the same.
- `materialize_through` (`src/delos_lab/kv/materializer.py:34-44`) cannot tell a gap from a trim. A store
  that held the fold of the log holds it up to the target exactly when no command on the way was passed
  over (`KvLog.FoldExactly`), and `KvLog.GapIsNotNoticed` is a log where one is.
- The finite TLA+ model claims that nothing is assigned after a quorum sealed
  (`formal/NativeLoglet.tla:129`). That is false (`LogletTheorems.LateAssignmentHappens`). One late
  position is assigned exactly when a new command arrives with nothing pending
  (`NativeSequencer.NativeSequencer.Append`), there is at most one (`AtMostOneLatePosition`), and it is
  never acknowledged by a commit (`LatePositionsNeverCommit`).

## Model

| member | source | states |
|---|---|---|
| Membership.QuorumSize | src/delos_lab/common/membership.py:1-4 | A quorum exists only from three members on, and is the strict majority: twice it exceeds the membership, and one member can be missing. |
| Membership.ValidMembership | src/delos_lab/common/membership.py:7-15 | The test by set size accepts a tuple exactly when it names at least three members, no two of them the same and none empty. |
| Membership.QuorumsIntersect | src/delos_lab/common/membership.py:1-4 | Any two quorums of one membership share a member, for every membership size. |
| Membership.UpAmongQuorum | src/delos_lab/common/membership.py:1-4 | As many members as a quorum asks for are in reach exactly when the members in reach are a quorum. |
| LogChains.LogChain.SegmentAt | src/delos_lab/virtual_log/types.py:84-92 | The segment returned holds the position; none is returned only if no segment does. |
| LogChains.LogChain.RoutesUniquely | src/delos_lab/virtual_log/types.py:65-92 | In a validated chain the first match is the only match: a position lies in exactly one segment. |
| LogChains.LogChain.RoutesEverything | src/delos_lab/virtual_log/types.py:65-92 | A validated chain has no gap: every position from its first start on is routed. |
| Register.ApplyAdvancesByOne | src/delos_lab/metastore/paxos/state_machine.py:20-31 | A command leaves the register alone and reports what it holds, or installs exactly its own chain one version later; it installs if and only if it is a write that expects the version in place. |
| Register.VersionRegisterStateMachine.Apply | src/delos_lab/metastore/paxos/state_machine.py:20-31 | The mutable machine takes the register and the answer of the atomic register. |
| Register.MemoryMetaStore.CompareAndSwap | src/delos_lab/metastore/memory.py:16-27 | The in-memory store installs the chain one version later exactly when the expected version is the current one. |
| PaxosTypes.BallotsTotal | src/delos_lab/metastore/paxos/types.py:12-22 | Of two ballots one is lower or they are the same ballot; the round decides, and between equal rounds the name. |
| PaxosTypes.BallotsTransitive | src/delos_lab/metastore/paxos/types.py:12-22 | The ballot order is transitive. |
| PaxosTypes.StringLessByFirstDifference | src/delos_lab/metastore/paxos/types.py:12-22 | Names compare as strings do: a proper prefix is smaller, and otherwise the first character that differs decides. |
| PaxosAcceptor.FindReplaced | src/delos_lab/metastore/paxos/acceptor.py:20-27 | After replacing one slot, a lookup finds the new state in that slot and the old one everywhere else. |
| PaxosAcceptor.ReserveKeepsSound | src/delos_lab/metastore/paxos/acceptor.py:69-73 | Reserving a ballot keeps the saved state loadable, touches no slot, and raises the durable round to the ballot's: the least one above both the old round and the minimum. |
| PaxosAcceptor.PrepareKeepsSound | src/delos_lab/metastore/paxos/acceptor.py:75-95 | Only the slot's promise moves, and never down; the answer is positive if and only if no higher ballot was promised, carries the promise then held, and reports the accepted pair and decision of the slot; what is saved passes its validators. |
| PaxosAcceptor.AcceptKeepsSound | src/delos_lab/metastore/paxos/acceptor.py:97-123 | A request is accepted if and only if the slot holds no other value at this ballot, has not decided another value and has no promise above it; it is then stored as promise, ballot and value together. Any other answer changes nothing and names the promise; the safety error arises exactly when the slot holds another value at this ballot. |
| PaxosAcceptor.DecideKeepsSound | src/delos_lab/metastore/paxos/acceptor.py:125-166 | A decision fills its slot and nothing else, the safety error arises exactly when another value was decided, and register, results and progress stay those of the decided prefix, now up to the next gap. |
| PaxosAcceptor.ApplyDecidedReachesTheGap | src/delos_lab/metastore/paxos/acceptor.py:138-152 | The apply loop stops exactly at the first undecided slot, with the register folded over all slots before it. |
| PaxosAcceptor.LastAppliedIsMaximal | src/delos_lab/metastore/paxos/acceptor.py:134-160 | last_applied is the longest contiguous decided prefix, and is determined by the decisions alone. |
| PaxosAcceptor.RestartKeepsSound | src/delos_lab/metastore/paxos/acceptor.py:31-44 | Reloading the saved state after a crash loses no promise, acceptance, decision or applied prefix. |
| PaxosAcceptor.AcceptedAfterPromise | src/delos_lab/metastore/paxos/acceptor.py:97-123 | After a positive answer to Prepare that reports no decision and no acceptance at its own ballot, the Accept of that ballot is accepted, whatever requests and crashes came in between, unless they brought a higher ballot of the slot, another value at this ballot or another decision. |
| PaxosAcceptor.PaxosAcceptor.Reserve | src/delos_lab/metastore/paxos/acceptor.py:69-73 | The object hands out the ballot of the specification, or changes nothing when the save fails. |
| PaxosAcceptor.PaxosAcceptor.OnPrepare | src/delos_lab/metastore/paxos/acceptor.py:75-95 | The object answers and saves as the specification of prepare, or changes nothing when the save fails. |
| PaxosAcceptor.PaxosAcceptor.OnAccept | src/delos_lab/metastore/paxos/acceptor.py:97-123 | The object answers and saves as the specification of accept, or changes nothing when the save fails. |
| PaxosAcceptor.PaxosAcceptor.OnDecide | src/delos_lab/metastore/paxos/acceptor.py:125-166 | The object applies and saves as the specification of decide; a failed save restores the state machine. |
| PaxosProtocol.SingleDecision | src/delos_lab/metastore/paxos/proposer.py:46-56 | The decision reported by a set of replies: none, one that every deciding reply carries, or a conflict between two of them. |
| PaxosProtocol.HighestAccepted | src/delos_lab/metastore/paxos/proposer.py:58-70 | The reply adopted from is an accepting one with the highest accepted ballot, and none only if nobody accepted. |
| PaxosProtocol.HigherBallotsAgree | src/delos_lab/metastore/paxos/proposer.py:81-145 | Once a ballot is chosen, every higher ballot of that slot that sent a value sent the same value. |
| PaxosProtocol.Agreement | src/delos_lab/metastore/paxos/proposer.py:81-145 | At most one value per slot is ever accepted by a quorum at one ballot. |
| PaxosProtocol.NextKeepsInv | src/delos_lab/metastore/paxos/proposer.py:81-145 | Reserve, prepare, select, accept, learn, decide, loss, duplication, delay and crash-restart all keep the inductive invariant, and take back no evidence. |
| PaxosProtocol.DecideNeverConflicts | src/delos_lab/metastore/paxos/acceptor.py:125-131 | No decision a node can receive contradicts one it stored. |
| PaxosTheorems.OneDecisionPerSlot | src/delos_lab/metastore/paxos/proposer.py:81-145 | Whatever is stored, reported or announced as decided in a slot, at any two moments of any run, is one value, and a quorum accepted it. |
| PaxosTheorems.NoSafetyError | src/delos_lab/metastore/paxos/acceptor.py:97-131 | None of the three PaxosSafetyError sites (accept, decide, the proposer's decision scan) is reachable in any run. |
| PaxosTheorems.BallotsNeverRepeat | src/delos_lab/metastore/paxos/acceptor.py:69-73 | No reservation, at any node, for any slot and after any crash, hands out a ballot already used. |
| PaxosTheorems.RefinesAtomicRegister | src/delos_lab/metastore/paxos/acceptor.py:125-166 | A node's register and every recorded result are those of the atomic register fed the node's applied log. |
| PaxosTheorems.LogsAgree | src/delos_lab/metastore/paxos/acceptor.py:125-166 | Of the logs two nodes have applied, at any two moments, one is a prefix of the other. |
| PaxosTheorems.OneChainPerVersion | src/delos_lab/metastore/paxos/state_machine.py:20-31 | At most one chain is ever installed for a version, over all nodes and moments. |
| PaxosTheorems.ResultsAgree | src/delos_lab/metastore/paxos/acceptor.py:168-169 | A slot's result is the same at every node that recorded it. |
| PaxosProposer.OthersInterfere | src/delos_lab/metastore/paxos/transport.py:1-76 | Every protocol step of anybody else is covered by the interference the proposer is verified against. |
| PaxosProposer.AcceptingQuorumChooses | src/delos_lab/metastore/paxos/proposer.py:130-143 | Enough accepting replies of distinct members mean the ballot is chosen. |
| PaxosCalm.CalmPrepares | src/delos_lab/metastore/paxos/proposer.py:81-112 | When nobody else acts, the first phase reaches exactly the members in reach; if their promises lie within the round observed all of them promise, and without a reported decision all of them are then ready to accept. |
| PaxosProposer.AcceptsCounted | src/delos_lab/metastore/paxos/proposer.py:113-141 | When nobody else acts, the members in reach answer the second phase and every one that is ready accepts: a quorum of promises becomes a quorum of acceptances. |
| PaxosCalm.SomeSlotFree | src/delos_lab/metastore/paxos/proposer.py:147-152 | From some slot on nobody has touched any, so the bound that a proposal needs exists. |
| PaxosProposer.PaxosProposer.DecideSlot | src/delos_lab/metastore/paxos/proposer.py:81-145 | With others acting between all requests, it never raises the safety error, and the value it returns is chosen for the slot and stored at this node. When nobody else acts and every request to some members is lost, two ballots decide the slot if and only if the others are a quorum; a slot nobody touched gets the caller's value, and every member in reach has learned the decision. |
| PaxosProposer.PaxosProposer.Propose | src/delos_lab/metastore/paxos/proposer.py:147-152 | The slots tried strictly increase; the returned slot is chosen for the caller's value and applied here, with the atomic register's answer at hand. When nobody else acts and a quorum is in reach, it succeeds as soon as the bound on slots reaches one from which on nobody has touched any. |
| PaxosProposer.DecidedNextSlotApplies | src/delos_lab/metastore/paxos/proposer.py:147-152 | When the slot after the applied prefix is decided locally, it is applied and its result exists. |
| PaxosProposer.PaxosMetaStore.Read | src/delos_lab/metastore/paxos/client.py:43-48 | The register returned is the one after exactly the commands before some slot of the one history that holds a barrier; the type error is unreachable. It succeeds whenever its proposal must. |
| PaxosProposer.PaxosMetaStore.CompareAndSet | src/delos_lab/metastore/paxos/client.py:50-66 | The answer is the atomic register's for this command at its slot of the one history; the type error is unreachable. It succeeds whenever its proposal must. |
| PaxosBridge.VersionsGrow | src/delos_lab/metastore/paxos/acceptor.py:125-166 | The chains installed by the longest applied log only grow over a run. |
| PaxosBridge.ChosenIsTimely | src/delos_lab/metastore/paxos/proposer.py:147-152 | When proposers try the next slot and expect versions somebody has seen, every conditional write is chosen in a slot by which the version it expects was reached. |
| PaxosBridge.ReadMeetsRegister | src/delos_lab/virtual_log/metastore.py:23-30 | What a replicated read answers is the initial register or one of the installed versions. |
| PaxosBridge.CompareAndSetMeetsRegister | src/delos_lab/virtual_log/metastore.py:23-30 | What a replicated conditional write answers is what the VirtualLog expects: the installed next version, or an installed version later than the expected one. |
| LogletStore.LocalTail | src/delos_lab/native_loglet/memory_store.py:77-91 | The local tail is one past the highest position held or trimmed. |
| LogletStore.PutAnswers | src/delos_lab/native_loglet/memory_store.py:13-42 | A put is stored exactly when the server is not sealed, holds no other entry there, and the position is not trimmed and follows one held or known; every refusal names its own case, and nothing but the entry and the known tail changes. |
| LogletStore.RepairAnswers | src/delos_lab/native_loglet/memory_store.py:31-42 | A repair is stored exactly when the position is not trimmed and holds no other entry; seals and gaps do not stop it. |
| LogletStore.InOrderAllStored | src/delos_lab/native_loglet/memory_store.py:13-42 | A fresh server sent the entries of a segment in order holds exactly these and reports their number as its tail. |
| LogletStore.DurableAnswers | src/delos_lab/native_loglet/sqlite_store.py:66-120 | The durable write stores exactly when no seal, trim, other entry, missing predecessor or row of the command elsewhere stands against it, and never holds a command at two positions. |
| LogletStore.RequestsGrow | src/delos_lab/native_loglet/memory_store.py:13-75 | No put, repair, trim, seal or restart moves a server's tail, seal or trim back, changes a stored entry, or stops covering a position. |
| LogletStore.StoresAgree | src/delos_lab/native_loglet/sqlite_store.py:66-120 | The durable server's order of checks ends in the memory server's state and accepts the same requests, unless one command is sent for two positions. |
| LogServers.MemoryLogletStore.Put | src/delos_lab/native_loglet/memory_store.py:13-29 | The dictionaries change as the specification of put says, for this segment only. |
| LogServers.MemoryLogletStore.PrefixTrim | src/delos_lab/native_loglet/memory_store.py:61-71 | The watermark is the highest ever asked for and nothing below it remains; other segments are untouched. |
| LogServers.SQLiteLogletStore.Write | src/delos_lab/native_loglet/sqlite_store.py:66-120 | The tables change as the specification of the durable write says, checks in the same order, for this segment only. |
| LogServers.SQLiteLogletStore.CrashAndReopen | src/delos_lab/native_loglet/sqlite_store.py:40-51 | A crash keeps entries, seal and trim of every segment and forgets the known tails. |
| LogletProtocol.NextKeepsInv | src/delos_lab/native_loglet/client.py:68-98 | Assign, put, commit, shortcut, repair, seal, trim, observe, both kinds of check_tail and restart, in any interleaving, keep the inductive invariant and take back no evidence. |
| LogletTheorems.SealBoundary | src/delos_lab/native_loglet/client.py:81-91 | A position acknowledged by a commit at any moment lies below every tail a sealed check_tail returns at any other moment, whichever quorums answered. |
| LogletTheorems.KnownTailsCovered | src/delos_lab/native_loglet/client.py:68-98 | Everything below a known tail held by a server, a reply, the sequencer or a client is on a quorum as copy or trim, and no server ever stops covering a position. |
| LogletTheorems.LatePositionsNeverCommit | src/delos_lab/native_loglet/sequencer.py:72-91 | A position first assigned after a quorum sealed is never acknowledged by a commit. |
| LogletTheorems.LateAssignmentHappens | formal/NativeLoglet.tla:129-130 | For every membership a reachable segment has a position assigned after all its servers sealed. |
| LogletTheorems.LateExactly | src/delos_lab/native_loglet/sequencer.py:58-67 | A step assigns a late position exactly when it assigns one while a quorum is sealed. |
| LogletTheorems.AtMostOneLatePosition | src/delos_lab/native_loglet/sequencer.py:54-68 | Over any run at most one position is ever assigned late: the last one. |
| LogletTheorems.TrimSafeExactly | src/delos_lab/native_loglet/client.py:51-66 | A trim keeps a segment sound if and only if it stays within the established tail; beyond it the server reports a tail nothing has established. |
| LogletTheorems.SealedTailsWithinOne | src/delos_lab/native_loglet/client.py:87-91 | Over any run, no two tails returned by sealed check_tails differ by more than one. |
| OpenTails.OpenCopiesAreFinal | src/delos_lab/native_loglet/client.py:93-96 | A tail reached by a quorum of servers while each was open, at moments of its own, lies at or below every tail a sealed check_tail returns at any moment of the run. |
| OpenTails.OpenCheckFinal | src/delos_lab/native_loglet/client.py:87-96 | An open check_tail that returns 0 or counts a quorum of copies returns a final tail: none of the run's sealed tails is below it. |
| OpenTails.OpenTailOvertaken | src/delos_lab/native_loglet/client.py:93-96 | For every membership of three or more: a run in which an open check_tail returns 1 on the strength of its known tail, and a sealed check_tail returns 0 afterwards. |
| LogletTheorems.OneEntryPerPosition | src/delos_lab/native_loglet/sequencer.py:58-67 | All copies of a position anywhere are one entry, and no command has two positions. |
| LogletTheorems.QuorumReachesKnown | src/delos_lab/native_loglet/client.py:87-98 | A quorum of servers has a local tail at or above everything established. |
| LogletTheorems.SealedTailsMeanSealed | src/delos_lab/native_loglet/client.py:81-91 | A sealed tail was returned only once a quorum had sealed. |
| LogletTheorems.LargeMembershipBreaks | src/delos_lab/native_loglet/sequencer.py:51-52 | For every membership of five or more a concrete run lets the retry shortcut acknowledge a position at or above an earlier sealed tail. |
| LogletTheorems.ShortcutBoundary | src/delos_lab/native_loglet/sequencer.py:51-52 | The retry shortcut respects the seal boundary in every run if and only if the segment has at most four members. |
| LogletNetwork.OthersInterfere | src/delos_lab/native_loglet/transport.py:1-86 | Every step of anybody else is covered by the interference the clients are verified against. |
| NativeSequencer.PutOnTime | src/delos_lab/native_loglet/sequencer.py:72-91 | A put of the next position, with everything before it known, is stored by an open server and refused by a sealed one. |
| NativeSequencer.NativeSequencer.Append | src/delos_lab/native_loglet/sequencer.py:46-70 | Positions are dense, one command each; a retry keeps its position, and a reused command is refused exactly when its payload differs. A position is assigned exactly when the command is new and nothing is pending or the pending entry commits first; once a quorum is sealed, only if nothing was pending, and then the append fails. It reports the seal only when a quorum is sealed. When nobody else acts and nothing is lost, an append on time succeeds if a quorum is open, and reports the seal if a quorum is sealed unless it is a known retry. |
| NativeSequencer.NativeSequencer.Commit | src/delos_lab/native_loglet/sequencer.py:72-91 | It acknowledges only with a quorum of accepted puts of one round, and then the known tail is exactly the next position; it reports the seal only when a quorum of members is sealed; otherwise nothing is acknowledged. When nobody else acts and nothing is lost, an entry on time is committed if and only if a quorum is open, and the seal reported if and only if a quorum is sealed. |
| NativeSequencer.NativeSequencer.Assign | src/delos_lab/native_loglet/sequencer.py:58-67 | A new command gets exactly the next position and becomes the pending one. |
| NativeClient.NativeLogletClient.Seal | src/delos_lab/native_loglet/client.py:37-49 | It succeeds only when a quorum of distinct members is sealed; when nobody else acts, if and only if the members in reach are a quorum, and then every one of them is sealed if all are in reach. |
| NativeClient.NativeLogletClient.PrefixTrim | src/delos_lab/native_loglet/client.py:51-66 | The watermark returned is at least the one asked for and has been reached by a quorum. When nobody else acts it fails if and only if the members in reach are no quorum; with all in reach every member has trimmed exactly to the position, and the watermark is the lowest of theirs. |
| NativeClient.TailCoversKnown | src/delos_lab/native_loglet/client.py:68-91 | The maximal tail over a quorum of replies, read at different moments, is at or above everything established before the first was read. |
| NativeClient.CopiesEstablish | src/delos_lab/native_loglet/client.py:93-96 | Copies of the maximal tail on a quorum of replies establish it. |
| NativeClient.SealedRepliesBound | src/delos_lab/native_loglet/client.py:87-91 | All-sealed replies are final evidence: their maximal tail bounds whatever those servers ever accepted. |
| NativeClient.OpenRepliesMeanOpen | src/delos_lab/native_loglet/client.py:82-98 | A quorum of open replies means that no quorum was sealed when they were asked for. |
| NativeClient.NativeLogletClient.CheckTail | src/delos_lab/native_loglet/client.py:68-98 | A returned tail is at or above all that was established, and above all that was acknowledged, before the call; all below it is quorum covered; an open one means no quorum was sealed at the start; a sealed one is recorded, and without concurrent trims a quorum holds every entry below it. When nobody else acts it fails for want of a quorum if and only if the members in reach are no quorum; with all in reach and two rounds it returns the highest local tail, as sealed if and only if somebody was sealed, and goes on waiting only for an open tail that nobody knows and no quorum has reached. |
| NativeClient.NativeLogletClient.RepairThrough | src/delos_lab/native_loglet/client.py:169-186 | Repair never finds conflicting copies; without concurrent trims it never misses one either, and leaves the assigned entry in every position of the range on every responder; it succeeds when nobody else acts and all responders are in reach. |
| NativeClient.NoCopyMeansTrim | src/delos_lab/native_loglet/client.py:169-180 | If no responder has a copy of a position below the maximal tail, somebody trimmed meanwhile. |
| NativeClient.ReadShows | src/delos_lab/native_loglet/client.py:68-98 | When nobody else acts and all members answer, the maximal tail is the highest local tail, and the seals counted are none, or all, exactly when those of the servers are. |
| NativeClient.TooFewReach | src/delos_lab/native_loglet/client.py:93-96 | When all members answer and fewer than a quorum reach a tail, no quorum of servers has reached it. |
| LogletReader.NoneEverywhereMeansTrimmed | src/delos_lab/native_loglet/virtual_log_adapter.py:212-249 | If every member answered that it has nothing, a position that was on a quorum has been trimmed on a quorum. |
| LogletReader.MemberReader.ReadNext | src/delos_lab/native_loglet/virtual_log_adapter.py:212-249 | The entry found is the assigned one and in range; a skipped position was not on a quorum when the read began, or has been trimmed on one. When nobody else acts and all members are in reach, it finds the first position that some member holds, and none only if none is held. |
| LogletReader.RuntimeReadNext | src/delos_lab/native_loglet/virtual_log_adapter.py:107-118 | From the client's trim point on, no position that was on a quorum when the read began is skipped unless a quorum has trimmed it; when nobody else acts and all members are in reach, the first position held from there on is found. |
| SequencerFence.OneActiveConfiguration | src/delos_lab/virtual_log/core.py:278-350 | In all installed chains in which a segment is the active one it has one configuration. |
| SequencerFence.OneSequencerPerSegment | src/delos_lab/native_loglet/sequencer_registry.py:72-92 | Over any run of any number of processes, with appends carrying the active segment of any installed chain however old, only one process ever makes a sequencer for a segment. |
| SequencerFence.ConfigurationNeverChanged | src/delos_lab/native_loglet/sequencer_registry.py:78-81 | For such appends a process serves if and only if it is the configured node and incarnation; the refusal for a changed configuration never strikes. |
| SequencerRegistry.LogServerSequencerRegistry.SequencerFor | src/delos_lab/native_loglet/sequencer_registry.py:72-92 | The object answers as the fence over all sequencers ever made, never replaces one, and makes one only for a segment that no process has sequenced, so of which nothing has been assigned. |
| SequencerRegistry.LogServerSequencerRegistry.Admit | src/delos_lab/native_loglet/sequencer_registry.py:44-70 | At most one append runs on a segment: the same command joins it, another waits, another payload conflicts. |
| NativeContract.NativeMeetsContract | src/delos_lab/virtual_log/loglet.py:39-57 | Every segment that keeps the native invariant meets the contract the VirtualLog relies on: one command per position, acknowledged positions below every sealed tail. |
| NativeContract.NativeStepIsLogletStep | src/delos_lab/virtual_log/loglet.py:39-57 | Each step of a native segment is a step of the VirtualLog's Loglet that stands for it. |
| NativeContract.OpenOnlyBeforeSealed | src/delos_lab/native_loglet/client.py:87-98 | A check_tail that may still come back open began before any sealed tail was returned. |
| NativeContract.CheckTailMeetsContract | src/delos_lab/virtual_log/loglet.py:50 | What a native check_tail returns is what the VirtualLog expects: established, above all acknowledged before, sealed tails recorded, open only if none was sealed. |
| NativeContract.ReadMeetsContract | src/delos_lab/virtual_log/loglet.py:52-54 | A native read passes over an established entry only where the Loglet has discarded. |
| Replacement.KthHighest | src/delos_lab/native_loglet/replacement.py:84-98 | The watermark chosen from the sorted replies is the highest one that a quorum of them has reached. |
| Replacement.ExactlyCertified | src/delos_lab/native_loglet/replacement.py:84-98 | When every member reported its watermark, the one chosen is the highest that a quorum of them has reached. |
| Replacement.NativeLogletReplacementPreparer.QuorumTrimmedPrefix | src/delos_lab/native_loglet/replacement.py:84-98 | The watermark returned has been reached by a quorum of the source members. When nobody else acts there is one if and only if the members in reach are a quorum, and with all in reach it is the highest that a quorum has reached. |
| Replacement.NativeLogletReplacementPreparer.RepairQuorum | src/delos_lab/native_loglet/replacement.py:116-127 | It succeeds only when a quorum of the target covers the position; when nobody else acts and the target holds the range so far, if and only if the target members in reach are a quorum. |
| Replacement.NativeLogletReplacementPreparer.CopyRange | src/delos_lab/native_loglet/replacement.py:55-62 | Every position of the range is covered on a target quorum when it returns; when nobody else acts, all are in reach and the source holds the range, it does return and a target apart from the source holds exactly the range. |
| TargetNetwork.OthersMoveOn | src/delos_lab/native_loglet/replacement.py:26-27 | Every source step and every repair, trim, seal, observation or restart of a target-only server by anybody leaves that server with source entries only, each fit for further repairs. |
| TargetNetwork.TargetHoldsOnlySource | src/delos_lab/native_loglet/replacement.py:55-62 | No target member, new or shared with the source, holds anything but the source's entry at any position. |
| TargetClient.TargetClient.CheckTail | src/delos_lab/native_loglet/client.py:68-98 | The target's own check: a sealed tail means a sealed target quorum that covers everything from the trim point up to it, and that no target quorum covered anything at or above it when the last round began; copies never conflict. When nobody else acts, it fails for want of a quorum if the members in reach are no quorum, and sealed members that all hold exactly one range give the end of that range. |
| TargetClient.TargetClient.RepairThrough | src/delos_lab/native_loglet/client.py:169-186 | Repairs on the target follow the source's entries and leave every responder covering the range. |
| TargetClient.TargetClient.PrefixTrim | src/delos_lab/native_loglet/client.py:51-66 | A quorum of the target has trimmed up to the watermark returned, so everything below it is covered there; when nobody else acts there is one if and only if the members in reach are a quorum. |
| ReplacementContract.ModifiedStillServes | src/delos_lab/virtual_log/core.py:322-350 | Replacing the configuration of a closed segment whose target was prepared changes that configuration alone; the segment's Loglet goes on, by one Loglet step, as one that both memberships serve, and every append acknowledged in it stands under its own command on a quorum of the target. |
| ReplacementContract.ServedEvolves | src/delos_lab/virtual_log/core.py:322-328 | From then on whatever anybody does at either membership, trims certified by a target quorum included, is a step of that Loglet: the contract holds and nothing is taken back. |
| ReplacementContract.TargetReadMeetsContract | src/delos_lab/virtual_log/loglet.py:52-54 | A read through the prepared target passes over an established entry of the segment only where its Loglet has discarded. |
| TargetClient.ReadThroughTarget | src/delos_lab/native_loglet/virtual_log_adapter.py:212-249 | A read through the target finds source entries only and passes over what a target quorum covered only if a target quorum has trimmed it. |
| TargetClient.AcknowledgedServed | src/delos_lab/native_loglet/replacement.py:29-82 | After a preparation every position ever acknowledged by a commit is on a target quorum. |
| Replacement.NativeLogletReplacementPreparer.SettleTarget | src/delos_lab/native_loglet/replacement.py:64-77 | Trim, seal and the target's own check_tail keep the copied range covered; if the target's own tail reached the published one, that is covered if and only if the positions between the segment's end and the highest trim heard of are; if not, it was not covered when the last round began. |
| Replacement.NativeLogletReplacementPreparer.Prepare | src/delos_lab/native_loglet/replacement.py:29-82 | On success every position of the segment is covered on a target quorum, only source entries can be found there, a target quorum is sealed, and the watermark was certified by a source quorum. If the target's own tail reached the published one, that is covered if and only if the positions between the segment's end and the highest trim heard of are; if not, it was not covered when the target's last check began. When nobody else acts, all are in reach, the target is fresh and the checks have two rounds, a sealed source is prepared, with its highest tail published, if and only if that tail reaches the segment's length. |
| Replacement.PublishedSoundExactly | src/delos_lab/native_loglet/replacement.py:64-69 | When only the segment was copied, the published tail is covered on the target if and only if, at every position from the segment's end up to it, the members shared with the source are a covering quorum of the target. |
| Replacement.FreshTargetSoundExactly | src/delos_lab/native_loglet/replacement.py:64-69 | On a target that shares no member with the source the published tail is covered if and only if it does not exceed the segment's length. |
| Replacement.OnlyTheEndInDoubt | src/delos_lab/native_loglet/replacement.py:64-69 | Whatever the target, the published tail is covered if and only if it does not exceed the segment's length or the shared members are a covering quorum at that one position. |
| Replacement.PublishedUnsound | src/delos_lab/native_loglet/replacement.py:64-69 | For every membership and every disjoint target: a reachable segment with the sealed tails 0 and 1, whose empty range was copied and whose published tail 1 is not covered on the target. |
| VirtualLogProtocol.StepKeepsInv | src/delos_lab/virtual_log/core.py:278-358 | Loglet moves, acknowledgements through any installed version, bootstrap, extend, truncate and modify all keep the inductive invariant and take nothing back. |
| VirtualLogTheorems.ChainsValid | src/delos_lab/virtual_log/types.py:65-78 | Every chain ever installed is contiguous, has distinct segments, and is open exactly at its end. |
| VirtualLogTheorems.BoundariesFixed | src/delos_lab/virtual_log/core.py:278-350 | No reconfiguration moves a start, and once a stop is set every later chain that lists the segment keeps it. |
| VirtualLogTheorems.DroppedWereTrimmed | src/delos_lab/virtual_log/core.py:305-320 | A segment that a later chain no longer lists had ended, and its Loglet had certified the trim of all of it. |
| VirtualLogTheorems.AddressSafety | src/delos_lab/virtual_log/core.py:78-98 | Two acknowledged appends with one virtual position are one command at one local position of one segment. |
| VirtualLogTheorems.NoTwoCommandsShareAPosition | src/delos_lab/virtual_log/core.py:78-98 | The same across any two moments of any run, whichever installed versions the appenders had cached. |
| VirtualLogTheorems.RoutedForever | src/delos_lab/virtual_log/types.py:84-92 | In every chain from the appender's version on, an acknowledged position leads to its segment and local position, or lies below the first start, and then it was trimmed. |
| VirtualLogTheorems.RoutesAgree | src/delos_lab/virtual_log/core.py:194-228 | An old and a newer chain lead a position to the same segment if and only if the newer one has no later segment or the position lies below the start of the first later segment. |
| VirtualLogWitnesses.StaleReadFindsZombie | src/delos_lab/virtual_log/core.py:185-192 | A reachable state in which a read through the old chain returns a command that was never acknowledged, at a position acknowledged in the next segment. |
| VirtualLogTheorems.OpenTailCoversAll | src/delos_lab/virtual_log/core.py:112-137 | An open tail read through however old a chain is above every position acknowledged by anybody before. |
| VirtualLogTheorems.SealedTailsCoverExactly | src/delos_lab/virtual_log/core.py:125-136 | The sealed tails of a version's active segment are above everything acknowledged if and only if nothing was acknowledged in a later segment. |
| VirtualLogWitnesses.StaleSealedTailFallsShort | src/delos_lab/virtual_log/core.py:112-137 | A check_tail with one attempt, from a reachable state, returns a sealed tail at an acknowledged position of the next segment. |
| VirtualLogTheorems.ExtendSafeExactly | src/delos_lab/virtual_log/core.py:297-303 | An extension keeps the address space sound if and only if its identifier was never used, not even by a dropped segment. |
| VirtualLogTheorems.ReuseAcknowledgesTwice | src/delos_lab/virtual_log/core.py:297-303 | If it was used by a segment with an acknowledged append, that one command can be acknowledged again at a higher virtual position, inside the new segment. |
| VirtualLogNetwork.OthersInterfere | src/delos_lab/virtual_log/core.py:78-358 | Every step of any other client is covered by the interference the client is verified against. |
| VirtualLogNetwork.World.CompareAndSwap | src/delos_lab/virtual_log/metastore.py:8-30 | An applied write has installed this chain at the next version; a refused one reports an installed chain of a later version. |
| VirtualLogClient.VirtualLog.Bootstrap | src/delos_lab/virtual_log/core.py:59-69 | Only an open segment at position zero is accepted; one write is tried, of the chain of this segment alone as version 1, and the cache then holds what is installed. When nobody else acts that is this chain if the register was empty and the register otherwise. |
| VirtualLogClient.VirtualLog.Append | src/delos_lab/virtual_log/core.py:78-98 | A returned position is that of an acknowledged append of the caller's command, also after rolling forward or replacing segments. Between two attempts a chain was proposed or the cache moved to another active segment, and it gives up over a sealed segment only after the last attempt. When nobody else acts the answer is the one the segments' Loglets determine, through an old cache as through a current one. |
| VirtualLogClient.VirtualLog.CheckTail | src/delos_lab/virtual_log/core.py:112-137 | An open tail is above everything acknowledged before the call; a sealed one is above all that went to segments up to the checked version's, and above everything if that version knows every segment there was when the call began; the tail is established in the checked version's active segment. A sealed tail means that all attempts were made, and between two of them a chain was proposed or the cache moved to another active segment. When nobody else acts, two attempts through a cache that lags behind an open segment return that segment's tail. |
| VirtualLogClient.VirtualLog.RefreshIfActive | src/delos_lab/virtual_log/core.py:172-183 | A segment is returned only if it is the active one of the chain just refreshed, which is then the cached one. |
| VirtualLogClient.ExtendedValid | src/delos_lab/virtual_log/core.py:297-303 | The extended chain passes its validators if and only if the old chain does not list the new identifier. |
| VirtualLogClient.VirtualLog.ReconfigExtend | src/delos_lab/virtual_log/core.py:278-303 | Success means the active segment was sealed and the next version is exactly the cached chain, closed at a tail a sealed check_tail returned, with the new segment opening there; failure to install means a later version was there. When nobody else acts and the Loglet answers sealed, it succeeds. |
| VirtualLogClient.VirtualLog.ReconfigTruncate | src/delos_lab/virtual_log/core.py:305-320 | Success means the next version is exactly the cached chain without its first segment; what is dropped was certified as trimmed to its end. It declines only a single segment, a trim that fell short or a later version; when nobody else acts it succeeds if and only if there are two segments. |
| VirtualLogClient.VirtualLog.ReconfigModify | src/delos_lab/virtual_log/core.py:322-350 | Success means the cached, installed chain lists the segment with the new configuration: the old version if it did so already, and otherwise the next one, which differs in this configuration alone. It is an argument error exactly when no closed segment has the name, and when nobody else acts it otherwise succeeds. |
| VirtualLogClient.VirtualLog.TrimSegments | src/delos_lab/virtual_log/core.py:252-263 | The requests sent are those of the chain's trim plan, all of them on success, and then every segment is trimmed up to the limit; it stops early if and only if a Loglet fell short. |
| VirtualLogClient.TrimPassesExactly | src/delos_lab/virtual_log/core.py:252-263 | A trim plan asks a Loglet to discard what it has not established if and only if the limit reaches into the chain's active segment beyond what that has established. |
| VirtualLogWitnesses.FallenBackTrimPasses | src/delos_lab/virtual_log/core.py:245-263 | A reachable state in which the cache falls back after the check and the trim passes an established tail. |
| VirtualLogWitnesses.RunAheadTrimPasses | src/delos_lab/virtual_log/core.py:245-263 | A reachable state in which the cache moves forward after the check and the trim passes an established tail all the same. |
| VirtualLogClient.VirtualLog.PrefixTrim | src/delos_lab/virtual_log/core.py:230-276 | It never discards at or above the position given, drops only segments that end at or before it and are trimmed to their end, and what it returns bounds positions that are all trimmed; unless a Loglet fell short it is at least the position given. While the checked and the re-read chain have the same active segment, or the limit does not reach into the latter's, no trim passes an established tail. When nobody else acts and the active Loglet answers open, it fails if and only if the position lies above the tail, and otherwise every leading segment that ends at or before it is dropped, up to the number of attempts. |
| VirtualLogClient.VirtualLog.ReadNext | src/delos_lab/virtual_log/core.py:194-228 | The entry returned lies in range where the chain puts it; no entry established before the call, acknowledged or not, in a segment the chain lists or has dropped, is passed over below its stop, unless discarded. When nobody else acts it is the first entry in range of the cached chain's segments, and none only if there is none. |
| VirtualLogClient.VirtualLog.Read | src/delos_lab/virtual_log/core.py:185-192 | The entry returned for a position acknowledged in a segment the chain knows is that very command; below every later segment it is whatever was acknowledged there by anybody. When nobody else acts it fails only if the segments hold nothing there. |
| VirtualLogFlat.SettledFinal | src/delos_lab/virtual_log/core.py:194-228 | Below an acknowledged position or the last segment's start the flat log is final: no entry there changes, disappears or appears. |
| VirtualLogFlat.ReadMeetsLog | src/delos_lab/virtual_log/core.py:194-228 | A VirtualLog read through a version that knows every segment of the settled part of the range finds the flat log's entry and passes over settled entries only where they are discarded. |
| VirtualLogFlat.ViewGrows | src/delos_lab/virtual_log/core.py:194-228 | As the VirtualLog moves on, its flat view keeps every settled entry, gains none below the old boundary, and forgets no discard. |
| VirtualLogFlat.ReplicasThroughVirtualLogAgree | src/delos_lab/kv/materializer.py:23-56 | Two stores that each hold the fold of the flat log up to one settled position, as it stood at two moments of a run, hold the same tables. |
| KvMachine.ApplyOperation | src/delos_lab/kv/state_machine.py:21-42 | An operation touches its own key only, changes nothing unless it reports APPLIED, and reports each failure exactly in its case with what the key holds. After an applied write the key holds what is reported: the value asked for, or the old number and the delta together; after a delete it is absent and its old value is reported. |
| KvMachine.KvStateMachine.Apply | src/delos_lab/kv/state_machine.py:21-42 | The dictionary and the result become those of the specification. |
| KvCounters.ReplicatedCounter | src/delos_lab/kv/sqlite_store.py:248-293 | In a log with gaps and repetitions, a key touched by increments alone ends at the sum of their deltas, each request counted once, and every increment answers with the sum up to its request's first occurrence. |
| KvReplay.ApplyMaterializes | src/delos_lab/kv/sqlite_store.py:248-293 | Applying the next entry brings the tables to exactly the longer log's, or, when and only when the request was used for another command, changes nothing. |
| KvReplay.ExactlyOnce | src/delos_lab/kv/sqlite_store.py:248-293 | A log with gaps and repetitions goes through if and only if no request identifier is reused for another command, and then the tables hold the fold over first occurrences. |
| KvReplay.RepetitionAnswers | src/delos_lab/kv/sqlite_store.py:258-262 | A repetition answers as the first occurrence did and changes no value. |
| KvReplay.OldPositionAnswers | src/delos_lab/kv/sqlite_store.py:295-303 | Applying an already applied entry again returns its stored answer and changes nothing. |
| KvReplay.OldPositionConflicts | src/delos_lab/kv/sqlite_store.py:295-303 | Any other command at or below the progress is a conflict and changes nothing. |
| KvReplay.MaterializedUnique | src/delos_lab/kv/sqlite_store.py:248-293 | The log determines values, request table, position table and progress. |
| KvReplay.ReplayAppend | src/delos_lab/kv/sqlite_store.py:248-293 | Replaying a log in two parts is replaying it whole. |
| KvSnapshots.ValidExactlyWhenCoherent | src/delos_lab/kv/snapshot.py:39-52 | A snapshot of the tables passes validation if and only if the tables keep the store's invariant. |
| KvSnapshots.ApplyKeepsCoherent | src/delos_lab/kv/sqlite_store.py:248-293 | Every applied or refused entry keeps that invariant. |
| KvSnapshots.RestoredCoherent | src/delos_lab/kv/sqlite_store.py:156-215 | Any valid snapshot without a repeated request installs as tables that keep the invariant. |
| KvSnapshots.SnapshotTransfer | src/delos_lab/kv/sqlite_store.py:96-215 | Installing a snapshot of a prefix and replaying the suffix gives the same tables as replaying the whole log, and fails on the same logs. |
| KvStore.SQLiteKvStore.Apply | src/delos_lab/kv/sqlite_store.py:248-303 | One transaction: the tables and the answer become those of the specification, or stay as they were on a conflict. |
| KvStore.SQLiteKvStore.ExportSnapshot | src/delos_lab/kv/sqlite_store.py:96-146 | Every reachable store exports a snapshot that captures all rows and passes validation. |
| KvStore.SQLiteKvStore.InstallSnapshot | src/delos_lab/kv/sqlite_store.py:148-150 | It installs exactly valid snapshots without repeated requests on a store that has applied nothing, and otherwise changes nothing. |
| KvStore.SQLiteKvStore.ReplaceBootstrapSnapshot | src/delos_lab/kv/sqlite_store.py:152-154 | It installs exactly valid snapshots without repeated requests, whatever the store held, and otherwise changes nothing. |
| KvLog.FoldExactly | src/delos_lab/kv/materializer.py:34-54 | Replaying commands of a part of the log on a store that held the fold so far gives the fold of the longer log if and only if no command of that part was passed over. |
| KvLog.MissedDiverges | src/delos_lab/kv/materializer.py:34-44 | Whatever the store, the log and the items: once a command was passed over, the tables are no fold of the log. |
| KvLog.GapIsNotNoticed | src/delos_lab/kv/materializer.py:34-44 | A concrete log whose first entry is discarded: a fresh replica is shown the second only, applies it, moves its progress there, and holds tables that are no fold of the log. |
| KvLog.ItemsLeaveRows | src/delos_lab/kv/materializer.py:34-54 | After a replay the row of every item applied is there, with its command. |
| KvLog.ReplicasAgree | src/delos_lab/kv/materializer.py:23-56 | Two stores holding the fold up to one settled position of a growing log hold the same tables. |
| KvLog.MaterializingExtendsFold | src/delos_lab/kv/materializer.py:23-56 | A store holding the fold up to its progress then holds the fold up to the target, and the target's row answers as the first occurrence of its request. |
| KvMaterializer.KvMaterializer.MaterializeThrough | src/delos_lab/kv/materializer.py:23-56 | Reading through a VirtualLog that grows, is trimmed and is reconfigured: the store has replayed exactly the items applied; success means the progress is the target and the result the one stored there; each failure names its cause. If the versions read through know the segments of the settled range, the items are its commands but for discarded ones, all of them if nothing needed was discarded, and a store that held the fold holds it up to a settled target if and only if no command was passed over. When nobody else acts no read is lost, and it misses an entry only if the cached chain's segments hold none. |
| KvService.NeverOlderSees | src/delos_lab/kv/service.py:68-81 | Versions from the one an append was acknowledged at on know every segment that starts at or below its position, at any later time. |
| KvService.CatchesUp | src/delos_lab/kv/service.py:68-81 | Materializing a store that held the fold through an acknowledged position, by versions no older than the append's, gives the fold through that position if and only if every command was shown, as it is when nothing needed was discarded, and its row answers as the first occurrence. |
| KvService.KvService.Submit | src/delos_lab/kv/service.py:68-81 | An already answered request gets its stored answer or the conflict, and nothing changes. Otherwise an answer is the store's row at a position where this command was acknowledged, the store has caught up with that position in the sense of CatchesUp, and the answer is then the one of the request's first occurrence in the log. When nobody else acts it is answered wherever the append succeeds and the entries are there. |
| KvService.SyncReflects | src/delos_lab/kv/service.py:83-94 | A store materialized through an open tail has passed every position acknowledged before, and holds the row of each command it still lacked, unless discarded. |
| KvService.KvService.Sync | src/delos_lab/kv/service.py:83-94 | After a sync the store has passed any append acknowledged before the call, and, read by versions no older than that append's, holds its command's row unless it had that position already or the entry was discarded. |

## Left out

- Liveness against others who go on acting, timeouts, back-off delays and condition-variable wakeups: what a method must answer is proved where nobody else acts, and otherwise safety. Loops without a bound in the code (`rounds`, `fuel` here) stop with an outcome of their own when the bound is reached, and hold for every bound.
- Concurrent gathering: the requests of one round go out in member order with interference before each; since each is one atomic step at one server, every arrival order of one round is an interleaving of the same steps with the others' steps.
- Freshness of reads: equal barriers are equal commands, so a lagging node may answer from an older slot; `PaxosProposer.PaxosMetaStore.Read` states only which slot the answer belongs to.
- NativeSequencer.NativeSequencer.Commit: that a committed prefix is not contiguous (`src/delos_lab/native_loglet/sequencer.py:89`) is an outcome, `NotContiguous`, not an impossibility; a reply can already carry a known tail past the pending entry.
- NativeClient.NativeLogletClient.PrefixTrim: requires a position that is already established, while the code checks only that it is not negative; `LogletTheorems.TrimSafeExactly` shows that the segment stays sound exactly then.
- NativeClient.NativeLogletClient.CheckTail: that all responders hold identical entries after a sealed repair is stated for a client during whose call nobody trims; with trims, the positions are still quorum covered.
- NativeClient.NativeLogletClient.WaitForProgress: a tail notification is modelled as a state read of one server.
- SequencerRegistry.LogServerSequencerRegistry.SequencerFor: the segment must be the active one of some installed chain, as every append sends it; an append for an invented segment is not covered.
- TargetNetwork.OthersMoveOn: nobody puts new entries through the target membership, since the segment is closed and appends go to the active one.
- VirtualLogClient.VirtualLog.ReconfigExtend: the new segment's identifier must be unused or listed in the cached chain, as a uuid4 is, while the code checks only the cached chain; `VirtualLogTheorems.ExtendSafeExactly` shows that the extension is sound exactly then. The reconfiguration lock is not modelled, any interleaving is allowed.
- VirtualLogClient.VirtualLog.ReadNext: says nothing of segments later than the cached chain; `VirtualLogTheorems.RoutesAgree` says where that matters. An entry that is not yet established may be returned or not.
- VirtualLogClient.VirtualLog.ReconfigModify: Loglets are identified by segment here; that a prepared new configuration serves the same entries is `ReplacementContract.ModifiedStillServes`.
- KvMaterializer.KvMaterializer.MaterializeThrough: its exact account is for the settled part of the log and for reads through versions that know its segments; positions above the last acknowledged one are not final (`OpenTails.OpenTailOvertaken`), and an older cached chain may read another command (`VirtualLogWitnesses.StaleReadFindsZombie`). A failed read is one outcome, `ReadFailed`, whether the code passes it on or turns a lost connection into SyncRequired.
- KvService.KvService.Sync: speaks of one append acknowledged before the call at a time, chosen freely; the codec from commands to payloads is a given decoder.
- PaxosBridge.CompareAndSetMeetsRegister: holds when every client expects a version some node has installed, as the VirtualLog does; a write that guesses a later version may be answered with an earlier one.
- The snapshot's SHA-256 digest, JSON and SQL text, and the order of request rows in a snapshot: a snapshot's rows are compared as tables.
- Storage: a save succeeds or fails as a whole (`diskOk`), a transaction is atomic, and file formats are not modelled.
- PaxosMetaStoreClient's failover between peers, HTTP APIs and transports, endpoint directories, processes, controller, runtime, frontend and demos.
- Choice of successors and members (`reconfiguration.py`, `membership.py` of the NativeLoglet); configurations stay opaque, and a policy may return any.
