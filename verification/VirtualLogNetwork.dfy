/**
 The Loglets and the MetaStore as one VirtualLog client meets them (virtual_log/loglet.py,
 virtual_log/metastore.py): other clients act before each request, and a request or its reply may fail.
 */
module VirtualLogNetwork {
  import opened Wrappers
  import opened LogChains
  import opened Register
  import opened VirtualLogProtocol

  datatype LogletTail = LogletTail(tail: nat, isSealed: bool)

  datatype AppendReply = AppendedAt(local: nat) | AppendSealed | AppendUnavailable

  datatype ReadReply = EntryAt(local: nat, command: LogCommand) | NoEntry | ReadUnavailable

  /** A request to discard the local positions below `local`. */
  datatype TrimRequest = TrimRequest(segmentId: string, local: nat)

  /** What others may do: any steps, but without the identifiers drawn by this process. */
  ghost predicate Interference(s: State, t: State, reserved: seq<string>) {
    Inv(t) && Grows(s, t) && NamedElsewhere(s, t, reserved)
  }

  ghost predicate NamedElsewhere(s: State, t: State, reserved: seq<string>) {
    forall k :: |s.placed| <= k < |t.placed| ==> t.placed[k].segmentId !in reserved
  }

  lemma InterferenceReflexive(s: State, reserved: seq<string>)
    requires Inv(s)
    ensures Interference(s, s, reserved)
  {
    hide Inv;
  }

  lemma InterferenceTransitive(s: State, t: State, u: State, reserved: seq<string>)
    requires Interference(s, t, reserved) && Interference(t, u, reserved)
    ensures Interference(s, u, reserved)
  {
    hide Inv;
    GrowsTransitive(s, t, u);
  }

  predicate Names(action: Action, segmentId: string) {
    match action
    case BootstrapAction(segment) => segment.segmentId == segmentId
    case ExtendAction(next, _) => next.segmentId == segmentId
    case _ => false
  }

  /** Every step of anyone else is interference. */
  lemma OthersInterfere(s: State, action: Action, reserved: seq<string>)
    requires Inv(s) && Enabled(s, action) && forall id :: id in reserved ==> !Names(action, id)
    ensures |s.windows| == |s.chains| && Interference(s, After(s, action), reserved)
  {
    hide Inv, Grows;
    SameLengths(s);
    StepKeepsInv(s, action);
  }

  lemma InterferenceGives(s: State, t: State, reserved: seq<string>)
    requires Interference(s, t, reserved)
    ensures Inv(t) && Grows(s, t)
    ensures s.chains <= t.chains && s.acks <= t.acks && s.placed <= t.placed && s.windows <= t.windows
    ensures forall snapshot :: Installed(s, snapshot) ==> Installed(t, snapshot)
    ensures forall id :: id in reserved && Unused(s, id) ==> Unused(t, id)
  {
    hide Inv;
  }

  /** A step towards the next chain stays open until somebody installs another one. */
  lemma StillEnabled(s: State, t: State, action: Action, reserved: seq<string>)
    requires Interference(s, t, reserved) && Inv(s) && |t.chains| == |s.chains|
    requires Enabled(s, action) && !action.LogletAction? && !action.AcknowledgeAction?
    requires action.ExtendAction? ==> action.next.segmentId in reserved
    ensures Enabled(t, action)
  {
    hide ContractsHold, AcksFit, DroppedTrimmed, HistorySteps, PlacedInOrder, IsWindow;
    assert t.chains == s.chains;
    if s.chains != [] && Current(s).segments != [] {
      assert Evolves(LogletOf(s, Current(s).Active().segmentId), LogletOf(t, Current(s).Active().segmentId));
      assert Evolves(LogletOf(s, Current(s).First().segmentId), LogletOf(t, Current(s).First().segmentId));
    }
  }

  lemma LogletContract(s: State, segmentId: string)
    requires Inv(s)
    ensures Contract(LogletOf(s, segmentId))
  {
    hide AcksFit, DroppedTrimmed, HistorySteps, PlacedInOrder, WindowsFit;
  }

  // ---- Fresh identifiers -----------------------------------------------------------------------

  function Joined(ids: seq<string>): string {
    if ids == [] then "" else ids[0] + Joined(ids[1..])
  }

  lemma {:induction false} JoinedLonger(ids: seq<string>, id: string)
    requires id in ids
    ensures |id| <= |Joined(ids)|
  {
    if id != ids[0] {
      JoinedLonger(ids[1..], id);
    }
  }

  function PlacedIds(placed: seq<Placed>): seq<string> {
    seq(|placed|, k requires 0 <= k < |placed| => placed[k].segmentId)
  }

  // ---- Requests ----------------------------------------------------------------------------------

  /** No entry of [from, to) that was established at `before` is passed over, unless discarded by `after`. */
  ghost predicate NoneSkipped(before: Loglet, after: Loglet, from: int, to: int) {
    forall q :: q in before.issued && q < before.established && from <= q < to ==> q < after.discarded
  }

  /** What a check_tail of the Loglet may answer: above what is acknowledged, and open only before a sealed one. */
  ghost predicate MayAnswer(l: Loglet, answer: LogletTail) {
    AckedBelow(l, answer.tail) && (!answer.isSealed ==> l.sealedTails == {})
  }

  /** How the Loglets answer while nobody else acts; one that is not named is fresh and open. */
  type Script = map<string, LogletTail>

  function ScriptOf(script: Script, segmentId: string): LogletTail {
    if segmentId in script then script[segmentId] else LogletTail(0, false)
  }

  /** The Loglet can place the command at its scripted tail. */
  ghost predicate MayAppend(l: Loglet, local: nat) {
    local !in l.issued && l.established <= local && forall tail :: tail in l.sealedTails ==> local < tail
  }

  /** At most this Loglet has moved on. */
  ghost predicate OnlyLoglet(s: State, t: State, segmentId: string) {
    && t.chains == s.chains && t.placed == s.placed && t.windows == s.windows && t.acks == s.acks
    && forall id :: id != segmentId ==> LogletOf(t, id) == LogletOf(s, id)
  }

  /** Identifiers no segment has had name Loglets nobody has touched, and the script speaks of none of them. */
  ghost predicate Tidy(s: State, script: Script) {
    forall id :: Unused(s, id) ==> LogletOf(s, id) == UNTOUCHED && id !in script
  }

  /** The first entry of the range that the Loglet has not discarded. */
  ghost predicate FirstEntry(l: Loglet, from: int, to: int, q: nat) {
    && from <= q < to && q in l.issued && l.discarded <= q
    && forall p :: p in l.issued && from <= p < q ==> p < l.discarded
  }

  ghost predicate NothingIn(l: Loglet, from: int, to: int) {
    forall p :: p in l.issued && from <= p < to ==> p < l.discarded
  }

  class World {
    var state: State
    /** Nobody else acts, nothing is lost, and the Loglets answer as scripted where their contract allows. */
    const undisturbed: bool
    const script: Script
    /** Identifiers this process has drawn. */
    var reserved: seq<string>
    /** The trims this process has asked for, and the segments it has dropped. */
    ghost var requests: set<TrimRequest>
    ghost var drops: set<LogSegment>
    /** How often this process has read the register. */
    ghost var registerReads: nat
    /** The versions this process has asked the MetaStore to install. */
    ghost var writes: seq<VersionedLogChain>
    /** The segments whose Loglet confirmed a seal to this process, and how many of its trims fell short. */
    ghost var seals: set<string>
    ghost var shortfalls: nat

    method Interfere()
      requires Inv(state)
      modifies this`state
      ensures Interference(old(state), state, reserved)
      ensures undisturbed ==> state == old(state)
    {
      InterferenceReflexive(state, reserved);
    }

    /** A reply gets lost. */
    method Lost() returns (lost: bool)
      ensures undisturbed ==> !lost
    {
      lost := *;
      lost := lost && !undisturbed;
    }

    /** The answer a check_tail is about to give. */
    method AnyTail(segmentId: string) returns (answer: LogletTail)
      ensures undisturbed ==> answer == ScriptOf(script, segmentId)
    {
      var tail: nat, isSealed: bool := *, *;
      answer := if undisturbed then ScriptOf(script, segmentId) else LogletTail(tail, isSealed);
    }

    constructor (state: State, undisturbed: bool, script: Script)
      requires Inv(state)
      ensures this.state == state && this.undisturbed == undisturbed && this.script == script
      ensures reserved == [] && requests == {} && drops == {}
    {
      this.state, this.undisturbed, this.script := state, undisturbed, script;
      reserved, requests, drops, registerReads, writes, seals, shortfalls := [], {}, {}, 0, [], {}, 0;
    }

    method Uuid4() returns (id: string)
      requires Inv(state)
      modifies this`reserved
      ensures reserved == old(reserved) + [id] && id !in old(reserved)
      ensures id != "" && Unused(state, id)
    {
      id := "u" + Joined(reserved) + Joined(PlacedIds(state.placed));
      forall k | 0 <= k < |state.placed|
        ensures state.placed[k].segmentId != id
      {
        assert PlacedIds(state.placed)[k] in PlacedIds(state.placed);
        JoinedLonger(PlacedIds(state.placed), state.placed[k].segmentId);
      }
      if id in reserved {
        JoinedLonger(reserved, id);
      }
      reserved := reserved + [id];
    }

    /** The Loglet `segmentId` moves on to `loglet`. */
    method Move(segmentId: string, loglet: Loglet)
      requires Inv(state) && Enabled(state, LogletAction(segmentId, loglet))
      modifies this`state
      ensures Interference(old(state), state, reserved)
      ensures LogletOf(state, segmentId) == loglet && OnlyLoglet(old(state), state, segmentId)
    {
      OthersInterfere(state, LogletAction(segmentId, loglet), reserved);
      state := state.(loglets := state.loglets[segmentId := loglet]);
    }

    method LogletAppend(segmentId: string, command: LogCommand) returns (reply: AppendReply)
      requires Inv(state)
      modifies this`state
      ensures Interference(old(state), state, reserved)
      ensures reply.AppendedAt? ==>
        && reply.local in LogletOf(state, segmentId).acked && reply.local in LogletOf(state, segmentId).issued
        && LogletOf(state, segmentId).issued[reply.local] == command
      ensures undisturbed && ScriptOf(script, segmentId).isSealed ==> reply == AppendSealed && state == old(state)
      ensures undisturbed && !ScriptOf(script, segmentId).isSealed ==>
        MayAppend(LogletOf(old(state), segmentId), ScriptOf(script, segmentId).tail) ==>
          reply == AppendedAt(ScriptOf(script, segmentId).tail) && OnlyLoglet(old(state), state, segmentId)
    {
      hide Inv, Grows;
      Interfere();
      ghost var s := state;
      LogletContract(s, segmentId);
      var answer := AnyTail(segmentId);
      var local, l := answer.tail, LogletOf(state, segmentId);
      if undisturbed && answer.isSealed {
        return AppendSealed;
      }
      if local in l.issued && l.issued[local] != command {
        return AppendUnavailable;
      }
      if local !in l.issued && local < l.established {
        return AppendUnavailable;
      }
      if exists tail | tail in l.sealedTails :: tail <= local {
        if * {
          return AppendSealed;
        }
        return AppendUnavailable;
      }
      Move(segmentId, l.(issued := l.issued[local := command], acked := l.acked + {local},
                         established := if l.established <= local then local + 1 else l.established));
      InterferenceTransitive(old(state), s, state, reserved);
      var lost := Lost();
      if lost {
        return AppendUnavailable;
      }
      reply := AppendedAt(local);
    }

    /** The append's caller gets its virtual position. */
    method Acknowledge(version: nat, local: nat)
      requires Inv(state) && 0 < version <= |state.chains| && state.chains[version - 1].segments != []
      requires local in LogletOf(state, state.chains[version - 1].Active().segmentId).acked
      requires local in LogletOf(state, state.chains[version - 1].Active().segmentId).issued
      modifies this`state
      ensures Interference(old(state), state, reserved)
      ensures state == old(state).(acks := old(state).acks + {AckOf(old(state), version, local)})
    {
      hide Inv, Grows;
      LogletContract(state, state.chains[version - 1].Active().segmentId);
      OthersInterfere(state, AcknowledgeAction(version, local), reserved);
      state := state.(acks := state.acks + {AckOf(state, version, local)});
    }

    method LogletSeal(segmentId: string) returns (done: bool)
      requires Inv(state)
      modifies this`state, this`seals
      ensures Interference(old(state), state, reserved)
      ensures seals == if done then old(seals) + {segmentId} else old(seals)
      ensures undisturbed ==> done && state == old(state)
    {
      Interfere();
      var lost := Lost();
      done := !lost;
      if done {
        seals := seals + {segmentId};
      }
    }

    /**
     A check_tail establishes its tail, above everything acknowledged before it began; it comes back
     open only if none had come back sealed by then.
     */
    method LogletCheckTail(segmentId: string) returns (reply: Option<LogletTail>)
      requires Inv(state)
      modifies this`state
      ensures Interference(old(state), state, reserved)
      ensures reply.Some? ==>
        && AckedBelow(LogletOf(old(state), segmentId), reply.value.tail)
        && reply.value.tail <= LogletOf(state, segmentId).established
        && (reply.value.isSealed ==> reply.value.tail in LogletOf(state, segmentId).sealedTails)
        && (!reply.value.isSealed ==> LogletOf(old(state), segmentId).sealedTails == {})
      ensures undisturbed && MayAnswer(LogletOf(old(state), segmentId), ScriptOf(script, segmentId)) ==>
        && reply == Some(ScriptOf(script, segmentId)) && OnlyLoglet(old(state), state, segmentId)
        && LogletOf(state, segmentId).acked == LogletOf(old(state), segmentId).acked
    {
      hide Inv, Grows;
      var before := LogletOf(state, segmentId);
      Interfere();
      ghost var s := state;
      LogletContract(s, segmentId);
      var l := LogletOf(state, segmentId);
      assert Evolves(before, l) by { GrowsGives(old(state), s, segmentId); }
      var answer := AnyTail(segmentId);
      var tail, isSealed := answer.tail, answer.isSealed;
      if exists p | p in l.acked :: tail <= p {
        return None;
      }
      if !isSealed && before.sealedTails != {} {
        return None;
      }
      var raised := l.(established := if l.established < tail then tail else l.established,
                       sealedTails := if isSealed then l.sealedTails + {tail} else l.sealedTails);
      Move(segmentId, raised);
      InterferenceTransitive(old(state), s, state, reserved);
      var lost := Lost();
      if lost {
        return None;
      }
      reply := Some(LogletTail(tail, isSealed));
    }

    /** A trim answers with a watermark it has certified, which may fall short of the one asked for. */
    method LogletPrefixTrim(segmentId: string, local: nat) returns (watermark: Option<nat>)
      requires Inv(state)
      modifies this`state, this`requests, this`shortfalls
      ensures Interference(old(state), state, reserved)
      ensures requests == old(requests) + {TrimRequest(segmentId, local)}
      ensures shortfalls == old(shortfalls) + if watermark.Some? && watermark.value < local then 1 else 0
      ensures watermark.Some? ==> watermark.value <= LogletOf(state, segmentId).trimmed
      ensures undisturbed ==> watermark == Some(local) && OnlyLoglet(old(state), state, segmentId)
    {
      hide Inv, Grows;
      requests := requests + {TrimRequest(segmentId, local)};
      Interfere();
      ghost var s := state;
      LogletContract(s, segmentId);
      var l := LogletOf(state, segmentId);
      var certified: nat := *;
      if undisturbed {
        certified := local;
      }
      Move(segmentId, l.(trimmed := if l.trimmed < certified then certified else l.trimmed,
                         discarded := if l.discarded < certified then certified else l.discarded));
      InterferenceTransitive(old(state), s, state, reserved);
      var lost := Lost();
      if lost {
        return None;
      }
      if certified < local {
        shortfalls := shortfalls + 1;
      }
      watermark := Some(certified);
    }

    /**
     The first entry a Loglet finds in [from, to). It skips no established entry unless it was
     discarded; whether the answer is in range is for the caller to check.
     */
    method LogletReadNext(segmentId: string, from: nat, to: nat) returns (reply: ReadReply)
      requires Inv(state)
      modifies this`state
      ensures Interference(old(state), state, reserved)
      ensures reply.EntryAt? ==>
        && reply.local in LogletOf(state, segmentId).issued
        && LogletOf(state, segmentId).issued[reply.local] == reply.command
        && NoneSkipped(LogletOf(old(state), segmentId), LogletOf(state, segmentId), from,
                       if reply.local < to then reply.local else to)
      ensures reply.NoEntry? ==> NoneSkipped(LogletOf(old(state), segmentId), LogletOf(state, segmentId), from, to)
      ensures undisturbed ==> state == old(state) && !reply.ReadUnavailable?
      ensures undisturbed && reply.EntryAt? ==> FirstEntry(LogletOf(state, segmentId), from, to, reply.local)
      ensures undisturbed && reply.NoEntry? ==> NothingIn(LogletOf(state, segmentId), from, to)
    {
      hide Inv, Grows;
      var before := LogletOf(state, segmentId);
      Interfere();
      var l := LogletOf(state, segmentId);
      if undisturbed {
        reply := FindFirst(l, from, to);
        return;
      }
      var local: nat, found: bool := *, *;
      var end := if found && local < to then local else to;
      if exists q | q in before.issued :: q < before.established && from <= q < end && l.discarded <= q {
        return ReadUnavailable;
      }
      if !found {
        return NoEntry;
      }
      if local !in l.issued {
        return ReadUnavailable;
      }
      reply := EntryAt(local, l.issued[local]);
    }

    method FindFirst(l: Loglet, from: nat, to: nat) returns (reply: ReadReply)
      ensures !reply.ReadUnavailable?
      ensures reply.EntryAt? ==> FirstEntry(l, from, to, reply.local) && reply.command == l.issued[reply.local]
      ensures reply.NoEntry? ==> NothingIn(l, from, to)
    {
      var q := from;
      while q < to
        invariant from <= q && (q <= to || q == from)
        invariant NothingIn(l, from, q)
      {
        if q in l.issued && l.discarded <= q {
          return EntryAt(q, l.issued[q]);
        }
        q := q + 1;
      }
      reply := NoEntry;
    }

    /** A read of the register; a lagging replica may answer with an older version. */
    method ReadRegister() returns (snapshot: Option<VersionedLogChain>)
      requires Inv(state)
      modifies this`state, this`registerReads
      ensures Interference(old(state), state, reserved) && registerReads == old(registerReads) + 1
      ensures snapshot.Some? ==> snapshot.value == INITIAL || Installed(state, snapshot.value)
      ensures undisturbed ==> snapshot == Some(RegisterOf(state)) && state == old(state)
    {
      registerReads := registerReads + 1;
      Interfere();
      var version: nat := *;
      var lost := Lost();
      if lost {
        return None;
      }
      if undisturbed {
        return Some(RegisterOf(state));
      }
      if version < 1 || |state.chains| < version {
        return Some(INITIAL);
      }
      snapshot := Some(VersionedLogChain(version, Some(state.chains[version - 1])));
    }

    /**
     The conditional write. `action` is the reconfiguration it stands for. A write that finds its own
     chain already installed at its version, as a retry may, also counts as applied.
     */
    method CompareAndSwap(expectedVersion: nat, candidate: LogChain, action: Action)
      returns (result: Option<CompareAndSetResult>)
      requires Inv(state) && expectedVersion <= |state.chains| == |state.windows|
      requires expectedVersion == |state.chains| ==>
        Enabled(state, action) && After(state, action).chains == state.chains + [candidate]
      requires !action.LogletAction? && !action.AcknowledgeAction?
      requires action.ExtendAction? ==> action.next.segmentId in reserved
      modifies this`state, this`drops, this`writes
      ensures Inv(state) && Grows(old(state), state)
      ensures writes == old(writes) + [VersionedLogChain(expectedVersion + 1, Some(candidate))]
      ensures result.Some? && result.value.Applied? ==>
        && result.value.snapshot == VersionedLogChain(expectedVersion + 1, Some(candidate))
        && Installed(state, result.value.snapshot)
      ensures result.Some? && result.value.VersionMismatch? ==>
        expectedVersion < result.value.current.version && Installed(state, result.value.current)
      ensures undisturbed && expectedVersion == |old(state).chains| ==>
        && result == Some(Applied(VersionedLogChain(expectedVersion + 1, Some(candidate))))
        && |old(state).windows| == |old(state).chains| && state == After(old(state), action)
      ensures undisturbed && expectedVersion != |old(state).chains| ==>
        result == Some(VersionMismatch(RegisterOf(state))) && state == old(state)
      ensures old(drops) <= drops
      ensures drops == old(drops) ||
        (&& action.TruncateAction? && expectedVersion == |old(state).chains|
         && candidate == Truncated(Current(old(state)))
         && drops == old(drops) + {Current(old(state)).First()})
    {
      hide Inv, Grows;
      writes := writes + [VersionedLogChain(expectedVersion + 1, Some(candidate))];
      Interfere();
      ghost var s := state;
      InterferenceGives(old(state), s, reserved);
      if expectedVersion != |state.chains| {
        var retried: bool := *;
        retried := retried && !undisturbed;
        if retried && state.chains[expectedVersion] == candidate {
          return Some(Applied(VersionedLogChain(expectedVersion + 1, Some(candidate))));
        }
        var version: nat := *;
        var lost := Lost();
        if lost {
          return None;
        }
        if undisturbed || version <= expectedVersion || |state.chains| < version {
          return Some(VersionMismatch(RegisterOf(state)));
        }
        return Some(VersionMismatch(VersionedLogChain(version, Some(state.chains[version - 1]))));
      }
      assert state.chains == old(state).chains;
      StillEnabled(old(state), s, action, reserved);
      SameLengths(s);
      StepKeepsInv(s, action);
      GrowsTransitive(old(state), s, After(s, action));
      ChainsAfter(old(state), s, action);
      state := After(state, action);
      if action.TruncateAction? {
        assert candidate == After(old(state), action).chains[|old(state).chains|];
        drops := drops + {Current(old(state)).First()};
      }
      var lost := Lost();
      if lost {
        return None;
      }
      result := Some(Applied(VersionedLogChain(expectedVersion + 1, Some(candidate))));
    }
  }

  lemma GrowsGives(s: State, t: State, segmentId: string)
    requires Grows(s, t)
    ensures Evolves(LogletOf(s, segmentId), LogletOf(t, segmentId))
  {
  }

  /** The chain a reconfiguration installs depends on the chains alone. */
  lemma ChainsAfter(s: State, t: State, action: Action)
    requires Enabled(s, action) && Enabled(t, action) && t.chains == s.chains
    requires |s.windows| == |s.chains| && |t.windows| == |t.chains|
    requires !action.LogletAction? && !action.AcknowledgeAction?
    ensures After(t, action).chains == After(s, action).chains
  {
  }
}
