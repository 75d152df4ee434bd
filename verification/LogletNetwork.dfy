/**
 A segment as one process meets it: every request is one atomic step at one server, others act freely
 between two requests, and requests or replies may be lost (native_loglet/transport.py, server.py).
 */
module LogletNetwork {
  import opened Wrappers
  import opened Membership
  import opened LogletStore
  import opened LogletProtocol

  /**
   What others may do: any protocol steps, except the sequencer's own steps when `sequencer` says
   they belong to the waiting process, and except trims when `quiet`.
   */
  ghost predicate Interference(s: Segment, t: Segment, sequencer: bool, quiet: bool) {
    && Inv(t) && Grows(s, t)
    && (sequencer ==> SameSequencer(s, t))
    && (quiet ==> SameTrims(s, t))
  }

  ghost predicate SameSequencer(s: Segment, t: Segment) {
    && t.issued == s.issued && t.sequencerKnown == s.sequencerKnown
    && t.acked == s.acked && t.shortcutAcked == s.shortcutAcked
  }

  ghost predicate SameTrims(s: Segment, t: Segment) {
    forall n :: n in s.servers && n in t.servers ==> t.servers[n].trimmed == s.servers[n].trimmed
  }

  predicate ByOthers(action: Action, sequencer: bool, quiet: bool) {
    && (sequencer ==>
          !action.AssignAction? && !action.ObserveReplyAction? && !action.CommitAction? && !action.ShortcutAction?)
    && (quiet ==> !action.TrimAction?)
  }

  lemma InterferenceReflexive(s: Segment, sequencer: bool, quiet: bool)
    requires Inv(s)
    ensures Interference(s, s, sequencer, quiet)
  {
    hide Inv, Grows;
    GrowsReflexive(s);
  }

  lemma InterferenceTransitive(s: Segment, t: Segment, u: Segment, sequencer: bool, quiet: bool)
    requires Interference(s, t, sequencer, quiet) && Interference(t, u, sequencer, quiet)
    ensures Interference(s, u, sequencer, quiet)
  {
    hide Inv, ServerGrows;
    GrowsTransitive(s, t, u);
  }

  /** Every protocol step of anyone else is interference. */
  lemma OthersInterfere(s: Segment, action: Action, sequencer: bool, quiet: bool)
    requires Inv(s) && Enabled(s, action) && ByOthers(action, sequencer, quiet)
    ensures Interference(s, After(s, action), sequencer, quiet)
  {
    hide Inv, Grows, LocalTail;
    assert Next(s, After(s, action));
    NextKeepsInv(s, After(s, action));
  }

  lemma InterferenceGives(s: Segment, t: Segment, sequencer: bool, quiet: bool)
    requires Interference(s, t, sequencer, quiet)
    ensures Inv(t) && Grows(s, t)
    ensures t.members == s.members && t.servers.Keys == s.servers.Keys
    ensures s.known <= t.known && s.issued <= t.issued && s.sealedReads <= t.sealedReads
    ensures s.puts <= t.puts && s.putReplies <= t.putReplies
    ensures forall n :: n in s.servers ==> ServerGrows(s.servers[n], t.servers[n])
    ensures sequencer ==> SameSequencer(s, t)
    ensures quiet ==> SameTrims(s, t)
  {
    hide Inv, ServerGrows;
  }

  lemma InterferenceWithTrims(s: Segment, t: Segment, sequencer: bool, quiet: bool)
    requires Interference(s, t, sequencer, quiet)
    ensures Interference(s, t, sequencer, false)
  {
    hide Inv, Grows;
  }

  /** What the invariant says of the tails a server reports. */
  lemma ServerBounds(s: Segment, node: NodeId)
    requires Inv(s) && node in s.servers
    ensures s.servers[node].trimmed <= s.known && s.servers[node].knownTail <= s.known
    ensures s.servers.Keys == s.members && s.known <= |s.issued| && s.sequencerKnown <= s.known
  {
    hide LocalTail, Dense, CopiesAssigned, KnownPut, CopiesPut, KnownCovered, SequencerBacked, ReadsFinal;
  }

  lemma CopyFacts(s: Segment, node: NodeId, position: nat)
    requires Inv(s) && node in s.servers && position in s.servers[node].entries
    ensures position < |s.issued| && s.servers[node].entries[position] == s.issued[position]
    ensures s.issued[position].position == position
    ensures PutOk(node, position) in s.puts || Repairable(s, position)
  {
    hide LocalTail, Dense, KnownPut, KnownCovered, SequencerBacked, ReadsFinal;
    assert CopiesAssignedAt(s, node);
  }

  datatype GetOutcome = Answer(entry: Option<LogEntry>) | Unreachable

  datatype PutOutcome = Accepted(state: LogServerState) | RefusedSealed | Failed

  class Network {
    var seg: Segment
    /** Nobody else trims while the current operation runs. */
    ghost const quiet: bool
    /** Nobody else acts; requests to the servers in `down` are lost, and no other request or reply is. */
    const calm: bool
    const down: set<NodeId>
    /** A calm network in which every server answers. */
    const whole := calm && down == {}

    method Interfere(ghost sequencer: bool)
      requires Inv(seg)
      modifies this
      ensures Interference(old(seg), seg, sequencer, quiet)
      ensures calm ==> seg == old(seg)
    {
      InterferenceReflexive(seg, sequencer, quiet);
    }

    /** A message to or from the server is lost. */
    method Lost(node: NodeId) returns (lost: bool)
      ensures calm ==> (lost <==> node in down)
    {
      lost := *;
      if calm {
        lost := node in down;
      }
    }

    /** The state request: the server's tails as they stand at one moment of the call. */
    method ReadState(node: NodeId, knownTail: nat) returns (reply: Option<LogServerState>)
      requires Inv(seg) && node in seg.servers && knownTail <= seg.known
      modifies this
      ensures Interference(old(seg), seg, false, quiet) && node in seg.servers
      ensures reply.Some? ==> StateReplied(old(seg), seg, node, reply.value)
      ensures calm && node in down ==> reply.None? && seg == old(seg)
      ensures calm && node !in down ==> Served(old(seg), seg, node, Observe(old(seg).servers[node], knownTail))
      ensures calm && node !in down ==> reply == Some(StateOf(seg.servers[node]))
    {
      hide Inv, Grows, Interference, ServerGrows, LocalTail, StateReplied;
      Interfere(false);
      ghost var s := seg;
      InterferenceGives(old(seg), s, false, quiet);
      var unsent := Lost(node);
      if unsent {
        return None;
      }
      OthersInterfere(s, ObserveAction(node, knownTail), false, quiet);
      var server := Observe(seg.servers[node], knownTail);
      seg := seg.(servers := seg.servers[node := server]);
      reply := Report(s, node, quiet);
      InterferenceTransitive(old(seg), s, seg, false, quiet);
      InterferenceGives(old(seg), seg, false, quiet);
      StateReplyHolds(old(seg), seg, node, reply.value);
      var lost := Lost(node);
      if lost {
        return None;
      }
    }

    /** Builds the reply to a request just served, recording it when it is sealed. */
    method Report(ghost s: Segment, node: NodeId, ghost trimless: bool) returns (reply: Option<LogServerState>)
      requires node in seg.servers && Interference(s, seg, false, trimless)
      modifies this
      ensures Interference(s, seg, false, trimless) && seg.servers == old(seg).servers
      ensures reply == Some(StateOf(seg.servers[node]))
      ensures seg.known == old(seg).known && SameSequencer(old(seg), seg)
      ensures seg.servers[node].isSealed ==> SealedRead(node, LocalTail(seg.servers[node])) in seg.sealedReads
    {
      hide Inv, Grows, Interference, ServerGrows, LocalTail;
      ghost var t := seg;
      InterferenceGives(s, t, false, trimless);
      var server := seg.servers[node];
      var tail := FindLocalTail(server);
      if server.isSealed {
        OthersInterfere(seg, SealedReadAction(node), false, trimless);
        seg := seg.(sealedReads := seg.sealedReads + {SealedRead(node, tail)});
        InterferenceTransitive(s, t, seg, false, trimless);
      }
      reply := Some(LogServerState(tail, server.trimmed, server.knownTail, server.isSealed));
    }

    method SealServer(node: NodeId, knownTail: nat) returns (reply: Option<LogServerState>)
      requires Inv(seg) && node in seg.servers && knownTail <= seg.known
      modifies this
      ensures Interference(old(seg), seg, false, quiet) && node in seg.servers
      ensures reply.Some? ==> StateReplied(old(seg), seg, node, reply.value) && reply.value.isSealed
      ensures calm && node in down ==> reply.None? && seg == old(seg)
      ensures calm && node !in down ==> Served(old(seg), seg, node, Seal(old(seg).servers[node], knownTail))
      ensures calm && node !in down ==> reply == Some(StateOf(seg.servers[node]))
    {
      hide Inv, Grows, Interference, ServerGrows, LocalTail, StateReplied;
      Interfere(false);
      ghost var s := seg;
      InterferenceGives(old(seg), s, false, quiet);
      var unsent := Lost(node);
      if unsent {
        return None;
      }
      OthersInterfere(s, SealAction(node, knownTail), false, quiet);
      var server := Seal(seg.servers[node], knownTail);
      seg := seg.(servers := seg.servers[node := server]);
      reply := Report(s, node, quiet);
      InterferenceTransitive(old(seg), s, seg, false, quiet);
      InterferenceGives(old(seg), seg, false, quiet);
      StateReplyHolds(old(seg), seg, node, reply.value);
      var lost := Lost(node);
      if lost {
        return None;
      }
    }

    method TrimServer(node: NodeId, position: nat) returns (reply: Option<LogServerState>)
      requires Inv(seg) && node in seg.servers && position <= seg.known
      modifies this
      ensures Interference(old(seg), seg, false, false) && node in seg.servers
      ensures reply.Some? ==> StateReplied(old(seg), seg, node, reply.value) && position <= reply.value.trimmedPrefix
      ensures calm && node in down ==> reply.None? && seg == old(seg)
      ensures calm && node !in down ==> Served(old(seg), seg, node, PrefixTrim(old(seg).servers[node], position))
      ensures calm && node !in down ==> reply == Some(StateOf(seg.servers[node]))
    {
      hide Inv, Grows, Interference, ServerGrows, LocalTail, StateReplied;
      Interfere(false);
      ghost var s := seg;
      InterferenceGives(old(seg), s, false, quiet);
      InterferenceWithTrims(old(seg), s, false, quiet);
      var unsent := Lost(node);
      if unsent {
        return None;
      }
      OthersInterfere(s, TrimAction(node, position), false, false);
      var server := PrefixTrim(seg.servers[node], position);
      seg := seg.(servers := seg.servers[node := server]);
      reply := Report(s, node, false);
      InterferenceTransitive(old(seg), s, seg, false, false);
      InterferenceGives(old(seg), seg, false, false);
      StateReplyHolds(old(seg), seg, node, reply.value);
      var lost := Lost(node);
      if lost {
        return None;
      }
    }

    /** Reads one position at one server. */
    method Get(node: NodeId, position: nat, knownTail: nat) returns (outcome: GetOutcome)
      requires Inv(seg) && node in seg.servers && knownTail <= seg.known
      modifies this
      ensures Interference(old(seg), seg, false, quiet) && node in seg.servers
      ensures outcome.Answer? ==> GetAnswered(old(seg), seg, node, position, outcome.entry)
      ensures calm && node in down ==> outcome == Unreachable && seg == old(seg)
      ensures calm && node !in down ==> Served(old(seg), seg, node, Observe(old(seg).servers[node], knownTail))
      ensures calm && node !in down ==> outcome == Answer(EntryAt(old(seg).servers[node], position))
    {
      hide Inv, Grows, Interference, LocalTail, ServerGrows, GetAnswered;
      Interfere(false);
      ghost var s := seg;
      InterferenceGives(old(seg), s, false, quiet);
      var unsent := Lost(node);
      if unsent {
        return Unreachable;
      }
      OthersInterfere(s, ObserveAction(node, knownTail), false, quiet);
      seg := seg.(servers := seg.servers[node := Observe(seg.servers[node], knownTail)]);
      ghost var t := seg;
      InterferenceTransitive(old(seg), s, t, false, quiet);
      InterferenceGives(old(seg), t, false, quiet);
      var entries := seg.servers[node].entries;
      outcome := Answer(if position in entries then Some(entries[position]) else None);
      GetHolds(old(seg), t, node, position, outcome.entry);
      var lost := Lost(node);
      if lost {
        return Unreachable;
      }
    }

    /** A repair write, which seals do not stop. */
    method RepairServer(node: NodeId, entry: LogEntry, knownTail: nat) returns (outcome: Option<StoreOutcome>)
      requires Inv(seg) && node in seg.servers && knownTail <= seg.known
      requires entry.position < |seg.issued| && entry == seg.issued[entry.position]
      requires Repairable(seg, entry.position)
      requires DenseUpTo(seg, node, entry.position)
      modifies this
      ensures Interference(old(seg), seg, false, quiet) && node in seg.servers
      ensures outcome.Some? ==> outcome.value == Stored || outcome.value == PositionTrimmed
      ensures outcome == Some(Stored) ==> entry.position in seg.servers[node].entries
      ensures outcome == Some(PositionTrimmed) ==> entry.position < seg.servers[node].trimmed
      ensures calm && node in down ==> outcome.None? && seg == old(seg)
      ensures calm && node !in down ==> Served(old(seg), seg, node, Repair(old(seg).servers[node], entry, knownTail).0)
      ensures calm && node !in down ==> outcome == Some(Repair(old(seg).servers[node], entry, knownTail).1)
    {
      hide Inv, Grows, Interference, LocalTail;
      Interfere(false);
      ghost var s := seg;
      InterferenceGives(old(seg), s, false, quiet);
      var unsent := Lost(node);
      if unsent {
        return None;
      }
      RepairStillEnabled(old(seg), s, node, entry.position);
      ShapeFacts(s);
      OthersInterfere(s, RepairAction(node, entry.position, knownTail), false, quiet);
      RepairOutcome(s, node, entry.position, knownTail);
      var stepped := Repair(seg.servers[node], entry, knownTail);
      seg := seg.(servers := seg.servers[node := stepped.0]);
      InterferenceTransitive(old(seg), s, seg, false, quiet);
      outcome := Some(stepped.1);
      var lost := Lost(node);
      if lost {
        return None;
      }
    }

    /** A put of the sequencer's latest entry. */
    method PutEntry(node: NodeId, entry: LogEntry, knownTail: nat) returns (outcome: PutOutcome)
      requires Inv(seg) && node in seg.servers && knownTail <= seg.sequencerKnown
      requires 0 < |seg.issued| && entry == seg.issued[|seg.issued| - 1]
      modifies this
      ensures Interference(old(seg), seg, true, quiet) && node in seg.servers
      ensures outcome.Accepted? ==>
        && PutOk(node, entry.position) in seg.puts
        && PutReply(node, entry.position, outcome.state.knownTail) in seg.putReplies
        && node in old(seg).servers && !old(seg).servers[node].isSealed
      ensures outcome.RefusedSealed? ==> seg.servers[node].isSealed
      ensures calm && node in down ==> outcome == Failed && seg == old(seg)
      ensures calm && node !in down ==> Served(old(seg), seg, node, Put(old(seg).servers[node], entry, knownTail).0)
      ensures calm && node !in down ==>
        outcome == PutAnswer(Put(old(seg).servers[node], entry, knownTail).1, seg.servers[node])
    {
      hide Inv, Grows, Interference, LocalTail, ServerGrows, Put;
      Interfere(true);
      ghost var s := seg;
      InterferenceGives(old(seg), s, true, quiet);
      var unsent := Lost(node);
      if unsent {
        return Failed;
      }
      ShapeFacts(s);
      ghost var action := PutAction(node, entry.position, knownTail);
      OthersInterfere(s, action, true, quiet);
      OpenBefore(old(seg), s, node);
      StoredWhileOpen(seg.servers[node], entry, knownTail);
      PutAnswers(seg.servers[node], entry, knownTail);
      var stepped := Put(seg.servers[node], entry, knownTail);
      var tail := FindLocalTail(stepped.0);
      var server := stepped.0;
      if stepped.1.Stored? {
        seg := seg.(servers := seg.servers[node := server],
                    puts := seg.puts + {PutOk(node, entry.position)},
                    putReplies := seg.putReplies + {PutReply(node, entry.position, server.knownTail)});
        outcome := Accepted(LogServerState(tail, server.trimmed, server.knownTail, server.isSealed));
      } else {
        seg := seg.(servers := seg.servers[node := server]);
        outcome := if stepped.1.SegmentSealed? then RefusedSealed else Failed;
      }
      InterferenceTransitive(old(seg), s, seg, true, quiet);
      var lost := Lost(node);
      if lost {
        return Failed;
      }
    }
  }

  /** One server has served the request, and nothing else that servers hold has changed. */
  ghost predicate Served(s: Segment, t: Segment, node: NodeId, server: SegmentState) {
    t.servers == s.servers[node := server] && t.known == s.known && t.sequencerKnown == s.sequencerKnown
  }

  ghost function PutAnswer(outcome: StoreOutcome, server: SegmentState): PutOutcome {
    match outcome
    case Stored => Accepted(StateOf(server))
    case SegmentSealed => RefusedSealed
    case _ => Failed
  }

  function EntryAt(s: SegmentState, position: nat): Option<LogEntry> {
    if position in s.entries then Some(s.entries[position]) else None
  }

  /** A server that is open now has been open before. */
  lemma OpenBefore(s: Segment, t: Segment, node: NodeId)
    requires Grows(s, t) && node in s.servers
    ensures node in t.servers && (!t.servers[node].isSealed ==> !s.servers[node].isSealed)
  {
    hide LocalTail;
    assert ServerGrows(s.servers[node], t.servers[node]);
  }

  /** `state` was true of the server at a moment between `s` and `t`. */
  ghost predicate StateReplied(s: Segment, t: Segment, node: NodeId, state: LogServerState)
  {
    && node in s.servers && node in t.servers
    && LocalTail(s.servers[node]) <= state.localTail <= LocalTail(t.servers[node])
    && s.servers[node].trimmed <= state.trimmedPrefix <= t.servers[node].trimmed
    && state.trimmedPrefix <= t.known && state.knownTail <= t.known
    && (s.servers[node].isSealed ==> state.isSealed)
    && (state.isSealed ==> t.servers[node].isSealed && SealedRead(node, state.localTail) in t.sealedReads)
  }

  lemma StateReplyHolds(s: Segment, t: Segment, node: NodeId, state: LogServerState)
    requires Inv(t) && Grows(s, t)
    requires node in s.servers && node in t.servers && state == StateOf(t.servers[node])
    requires t.servers[node].isSealed ==> SealedRead(node, LocalTail(t.servers[node])) in t.sealedReads
    ensures StateReplied(s, t, node, state)
  {
    hide Inv, LocalTail;
    ServerBounds(t, node);
  }

  /** The answer was true of the server at a moment between `s` and `t`. */
  ghost predicate GetAnswered(s: Segment, t: Segment, node: NodeId, position: nat, entry: Option<LogEntry>) {
    && node in s.servers && node in t.servers
    && (entry.Some? ==>
          && position < |t.issued| && entry.value == t.issued[position] && entry.value.position == position
          && t.servers[node].Covers(position)
          && (PutOk(node, position) in t.puts || Repairable(t, position)))
    && (entry.None? && s.servers[node].Covers(position) ==> position < t.servers[node].trimmed)
  }

  lemma GetHolds(s: Segment, t: Segment, node: NodeId, position: nat, entry: Option<LogEntry>)
    requires Inv(t) && Grows(s, t) && node in s.servers && node in t.servers
    requires var entries := t.servers[node].entries;
      entry == if position in entries then Some(entries[position]) else None
    ensures GetAnswered(s, t, node, position, entry)
  {
    hide Inv, LocalTail, Repairable;
    assert ServerGrows(s.servers[node], t.servers[node]);
    if entry.Some? {
      CopyFacts(t, node, position);
    }
  }

  lemma RepairStillEnabled(s: Segment, t: Segment, node: NodeId, position: nat)
    requires Inv(s) && Inv(t) && Grows(s, t) && DenseUpTo(s, node, position)
    requires Repairable(s, position)
    ensures DenseUpTo(t, node, position)
    ensures Repairable(t, position)
  {
    hide LocalTail, Inv;
    DenseStays(s, t, node, position);
    RepairableStays(s, t, position);
  }

  lemma RepairableStays(s: Segment, t: Segment, position: nat)
    requires Grows(s, t) && Repairable(s, position)
    ensures Repairable(t, position)
  {
    hide LocalTail;
    if t.known <= position {
      var m :| SealedHolder(s, m, position);
      assert ServerGrows(s.servers[m], t.servers[m]);
      assert SealedHolder(t, m, position);
    }
  }

  /** Absence of holes beyond the established tail survives: what is trimmed is established. */
  lemma DenseStays(s: Segment, t: Segment, node: NodeId, limit: nat)
    requires Inv(t) && Grows(s, t) && DenseUpTo(s, node, limit)
    ensures DenseUpTo(t, node, limit)
  {
    hide LocalTail, Inv;
    ServerBounds(t, node);
    assert ServerGrows(s.servers[node], t.servers[node]);
    forall q | t.known <= q < limit
      ensures q in t.servers[node].entries
    {
      assert q in s.servers[node].entries;
    }
  }

  lemma RepairOutcome(s: Segment, node: NodeId, position: nat, knownTail: nat)
    requires Inv(s) && node in s.servers && position < |s.issued| && knownTail <= s.known
    requires DenseUpTo(s, node, position)
    ensures var (x, outcome) := Repair(s.servers[node], s.issued[position], knownTail);
      && (outcome == Stored ==> position in x.entries)
      && (outcome == Stored || (outcome == PositionTrimmed && position < x.trimmed))
  {
    hide LocalTail, Inv;
    ShapeFacts(s);
    ObserveFits(s, node, knownTail);
    var x := Observe(s.servers[node], knownTail);
    WriteFits(s, x, position);
  }
}
