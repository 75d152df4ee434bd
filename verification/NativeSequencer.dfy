/**
 The segment's one sequencer (native_loglet/sequencer.py): one pending position, retried until a
 quorum accepts it or reports the seal.
 */
module NativeSequencer {
  import opened Wrappers
  import opened Membership
  import opened LogletStore
  import opened LogletProtocol
  import opened LogletNetwork

  /** `NotContiguous` is the RuntimeError raised when replies already carried a tail past the entry. */
  datatype CommitOutcome = Committed | CommitSealed | NotContiguous | Retrying

  datatype AppendOutcome =
    | Appended(position: nat, knownTail: nat)
    | CommandConflict
    | AppendFailed(why: CommitOutcome)

  ghost predicate HasEntry(entries: map<string, LogEntry>, commandId: string, entry: LogEntry) {
    commandId in entries && entries[commandId] == entry
  }

  ghost predicate PendingFits(s: Segment, nextPosition: nat, knownTail: nat, pending: Option<LogEntry>) {
    match pending
    case None =>
      nextPosition <= knownTail && forall p: nat :: p < nextPosition ==> p in s.acked
    case Some(entry) =>
      && 0 < nextPosition == |s.issued| && entry == s.issued[nextPosition - 1] && nextPosition - 1 <= knownTail
      && nextPosition - 1 !in s.acked && forall p: nat :: p + 1 < nextPosition ==> p in s.acked
  }

  class NativeSequencer {
    const members: seq<NodeId>
    const quorum: nat
    const network: Network
    var nextPosition: nat
    var knownTail: nat
    var entriesByCommand: map<string, LogEntry>
    var pending: Option<LogEntry>

    /**
     Positions 0..nextPosition-1 are assigned, one command each; a pending entry is always the last of
     them and not yet acknowledged by a commit, and every other position has been.
     */
    ghost predicate Valid()
      reads this, network
    {
      && Inv(network.seg) && ValidMembers()
      && nextPosition == |network.seg.issued| && knownTail == network.seg.sequencerKnown
      && (forall i :: 0 <= i < nextPosition ==>
            HasEntry(entriesByCommand, network.seg.issued[i].commandId, network.seg.issued[i]))
      && (forall c :: c in entriesByCommand ==>
            && entriesByCommand[c].commandId == c && entriesByCommand[c].position < nextPosition
            && network.seg.issued[entriesByCommand[c].position] == entriesByCommand[c])
      && PendingFits(network.seg, nextPosition, knownTail, pending)
    }

    ghost predicate ValidMembers()
      reads this, network
    {
      ValidateFixedMembers(members) && Elements(members) == network.seg.members && quorum == Majority(|members|)
    }

    constructor (members: seq<NodeId>, network: Network)
      requires ValidateFixedMembers(members) && Inv(network.seg) && Elements(members) == network.seg.members
      requires network.seg.issued == [] && network.seg.sequencerKnown == 0
      ensures Valid() && this.network == network && this.members == members && knownTail == 0 && pending == None
    {
      this.members := members;
      this.quorum := Majority(|members|);
      this.network := network;
      nextPosition, knownTail, entriesByCommand, pending := 0, 0, map[], None;
    }

    /** What one round of puts brought in. */
    ghost predicate Gathered(accepted: seq<NodeId>, position: nat)
      reads network
    {
      && (forall i, j :: 0 <= i < j < |accepted| ==> accepted[i] != accepted[j])
      && (forall n :: n in accepted ==> PutOk(n, position) in network.seg.puts && n in network.seg.members)
    }

    /**
     One round: the entry to every member; accepted replies raise the known tail. The refusals counted are
     those of sealed members; in a whole network an entry on time is accepted by exactly the open members and
     refused by the others.
     */
    method PutRound(entry: LogEntry) returns (accepted: seq<NodeId>, refused: nat, ghost refusers: seq<NodeId>)
      requires Ready(entry)
      modifies network, this`knownTail
      ensures Ready(entry) && OnlyLearned(old(network.seg), network.seg)
      ensures Gathered(accepted, entry.position) && OpenAt(old(network.seg), accepted)
      ensures refused == |refusers| && Refusals(network.seg, refusers)
      ensures network.whole && OnTime(old(network.seg), entry) ==>
        && OnTime(network.seg, entry) && SameSeals(old(network.seg), network.seg)
        && Elements(accepted) == OpenServers(old(network.seg))
        && Elements(refusers) == SealedServers(old(network.seg))
    {
      hide Inv, Grows, Interference, OnlyLearned, SameSeals, OnTime;
      accepted, refused, refusers := [], 0, [];
      var asked := knownTail;
      ghost var s0 := network.seg;
      LearnedNothing(s0);
      SealsReflexive(s0);
      SizeDistinct(members);
      for i := 0 to |members|
        invariant Ready(entry) && OnlyLearned(s0, network.seg) && asked <= knownTail
        invariant Gathered(accepted, entry.position) && OpenAt(s0, accepted)
        invariant refused == |refusers| && Refusals(network.seg, refusers)
        invariant forall n :: n in accepted || n in refusers ==> n in members[..i]
        invariant network.whole && OnTime(s0, entry) ==>
          && OnTime(network.seg, entry) && SameSeals(s0, network.seg)
          && (forall n :: n in members[..i] ==>
                && n in s0.servers && (n in accepted <==> !s0.servers[n].isSealed)
                && (n in refusers <==> s0.servers[n].isSealed))
      {
        assert members[i] in members && members[i] !in members[..i];
        assert members[..i + 1] == members[..i] + [members[i]];
        ghost var s := network.seg;
        var stored, sawSeal := PutOne(members[i], entry, asked, s0);
        RefusalsStay(s, network.seg, refusers);
        if stored {
          accepted := accepted + [members[i]];
        } else if sawSeal {
          refused := refused + 1;
          refusers := refusers + [members[i]];
        }
      }
      assert members[..|members|] == members;
      LearnedGrows(s0, network.seg);
      SameServers(s0, network.seg);
      EverybodyAnswered(s0, network.seg, members, accepted, refusers);
    }

    /** The sequencer is working on its latest entry. */
    ghost predicate Ready(entry: LogEntry)
      reads this, network
    {
      && Inv(network.seg) && ValidMembers() && knownTail == network.seg.sequencerKnown
      && 0 < |network.seg.issued| && entry == network.seg.issued[|network.seg.issued| - 1]
    }

    method PutOne(node: NodeId, entry: LogEntry, asked: nat, ghost s0: Segment) returns (stored: bool, sawSeal: bool)
      requires Ready(entry) && OnlyLearned(s0, network.seg) && node in network.seg.members
      requires asked == s0.sequencerKnown <= knownTail
      modifies network, this`knownTail
      ensures Ready(entry) && OnlyLearned(s0, network.seg) && old(knownTail) <= knownTail
      ensures old(network.seg).puts <= network.seg.puts
      ensures stored ==> PutOk(node, entry.position) in network.seg.puts
      ensures stored ==> node in s0.servers && !s0.servers[node].isSealed
      ensures Grows(old(network.seg), network.seg)
      ensures sawSeal ==> !stored && node in network.seg.servers && network.seg.servers[node].isSealed
      ensures network.whole && OnTime(s0, entry) && OnTime(old(network.seg), entry) &&
              SameSeals(s0, old(network.seg)) ==>
        && OnTime(network.seg, entry) && SameSeals(s0, network.seg)
        && node in s0.servers && (stored <==> !s0.servers[node].isSealed) && (sawSeal <==> s0.servers[node].isSealed)
    {
      hide Inv, Grows, Interference, ValidateFixedMembers, OnlyLearned, OnTime, SameSeals, Put;
      ghost var s := network.seg;
      ServerMembers(s);
      LearnedGrows(s0, s);
      SameServers(s0, s);
      OpenBefore(s0, s, node);
      var outcome := network.PutEntry(node, entry, asked);
      InterferenceGives(s, network.seg, true, network.quiet);
      LearnsOn(s0, s, network.seg);
      stored, sawSeal := outcome.Accepted?, outcome.RefusedSealed?;
      ghost var t := network.seg;
      if network.whole && OnTime(s0, entry) && OnTime(s, entry) {
        AskedOnTime(s0, s, entry);
        SealsOf(s0, s, node);
        PutOnTime(s, t, node, entry, asked);
      }
      if outcome.Accepted? {
        ObserveReply(node, entry, outcome.state.knownTail);
        LearnsOn(s0, t, network.seg);
        GrowsTransitive(s, t, network.seg);
      }
      if network.whole && OnTime(s0, entry) && OnTime(s, entry) && SameSeals(s0, s) {
        StillOnTime(s0, s, t, network.seg, entry);
      }
    }

    /** The sequencer takes over a known tail reported with an accepted put. */
    method ObserveReply(node: NodeId, entry: LogEntry, tail: nat)
      requires Inv(network.seg) && ValidMembers() && knownTail == network.seg.sequencerKnown
      requires PutReply(node, entry.position, tail) in network.seg.putReplies
      requires 0 < |network.seg.issued| && entry == network.seg.issued[|network.seg.issued| - 1]
      modifies network, this`knownTail
      ensures Inv(network.seg) && knownTail == network.seg.sequencerKnown == Max(old(knownTail), tail)
      ensures Grows(old(network.seg), network.seg)
      ensures network.seg == old(network.seg).(sequencerKnown := network.seg.sequencerKnown)
    {
      hide Inv, Grows;
      ShapeFacts(network.seg);
      ghost var action := ObserveReplyAction(PutReply(node, entry.position, tail));
      NoteKeepsInv(network.seg, action);
      knownTail := Max(knownTail, tail);
      network.seg := network.seg.(sequencerKnown := knownTail);
    }

    /** Retries the entry in its position; `rounds` bounds how often. */
    method Commit(entry: LogEntry, rounds: nat) returns (outcome: CommitOutcome)
      requires Inv(network.seg) && ValidMembers() && knownTail == network.seg.sequencerKnown
      requires 0 < |network.seg.issued| && entry == network.seg.issued[|network.seg.issued| - 1]
      modifies network, this`knownTail
      ensures Inv(network.seg) && ValidMembers() && knownTail == network.seg.sequencerKnown
      ensures Grows(old(network.seg), network.seg) && network.seg.issued == old(network.seg.issued)
      ensures network.seg.shortcutAcked == old(network.seg.shortcutAcked)
      ensures outcome == Committed ==>
        && knownTail == entry.position + 1
        && network.seg.acked == old(network.seg.acked) + {entry.position}
      ensures outcome != Committed ==> network.seg.acked == old(network.seg.acked)
      ensures old(knownTail) <= knownTail
      ensures outcome == NotContiguous ==> entry.position != knownTail
      ensures entry.position < old(knownTail) ==> outcome != Committed
      ensures IsQuorum(old(network.seg).members, SealedServers(old(network.seg))) ==> outcome != Committed
      ensures outcome == CommitSealed ==> IsQuorum(network.seg.members, SealedServers(network.seg))
      ensures network.whole && OnTime(old(network.seg), entry) ==> SameSeals(old(network.seg), network.seg)
      ensures network.whole && OnTime(old(network.seg), entry) && outcome == Committed ==>
        network.seg.known == network.seg.sequencerKnown == entry.position + 1
      ensures network.whole && OnTime(old(network.seg), entry) && 0 < rounds ==>
        && (outcome == Committed <==> IsQuorum(old(network.seg).members, OpenServers(old(network.seg))))
        && (outcome == CommitSealed <==> IsQuorum(old(network.seg).members, SealedServers(old(network.seg))))
    {
      hide Inv, Grows, OpenAt, IsQuorum, SealedServers, OpenServers, SameSeals, OnTime, OnlyLearned;
      ghost var s0 := network.seg;
      ServerMembers(s0);
      NotBoth(s0);
      GrowsReflexive(s0);
      SealsReflexive(s0);
      for round := 0 to rounds
        invariant Inv(network.seg) && ValidMembers() && knownTail == network.seg.sequencerKnown
        invariant Grows(s0, network.seg) && network.seg.issued == s0.issued
        invariant network.seg.acked == s0.acked && network.seg.shortcutAcked == s0.shortcutAcked
        invariant old(knownTail) <= knownTail
        invariant network.whole && OnTime(s0, entry) ==>
          && OnTime(network.seg, entry) && SameSeals(s0, network.seg)
          && (0 < round ==>
                !IsQuorum(s0.members, OpenServers(s0)) && !IsQuorum(s0.members, SealedServers(s0)))
      {
        ghost var s := network.seg;
        var accepted, refused, refusers := PutRound(entry);
        LearnedGrows(s, network.seg);
        OpenEarlier(s0, s, accepted);
        GrowsTransitive(s0, s, network.seg);
        AnswersCounted(network.seg, accepted, refusers);
        if network.whole && OnTime(s0, entry) {
          SealsJoin(s0, s, network.seg);
          SameOpen(s0, s);
          NotBoth(s0);
          OnTimeMeans(network.seg, entry);
          RoundDecides(s0, network.seg, accepted, refusers);
        }
        if quorum <= |accepted| {
          NoQuorumOnceSealed(s0, network.seg, accepted, entry.position);
          if entry.position != knownTail {
            return NotContiguous;
          }
          AcceptedQuorum(network.seg, accepted, entry.position);
          ghost var t := network.seg;
          CommitKeepsInv(t, CommitAction(entry.position));
          network.seg := network.seg.(acked := network.seg.acked + {entry.position},
                                      known := Max(network.seg.known, entry.position + 1),
                                      sequencerKnown := Max(network.seg.sequencerKnown, entry.position + 1));
          knownTail := entry.position + 1;
          GrowsTransitive(s0, t, network.seg);
          SealsKept(s0, t, network.seg);
          return Committed;
        }
        if quorum <= refused {
          return CommitSealed;
        }
      }
      outcome := Retrying;
    }

    /**
     Appends a command: a retry gets its old position; a new command waits for the pending one and takes
     the next position. A position is assigned exactly when the command is new and nothing is pending, or
     the pending entry commits first; once a quorum is sealed, only if nothing was pending, and that
     append fails. It reports a seal only when a quorum is sealed. In a whole network, with the pending entry
     on time, it succeeds if a quorum is open and reports the seal if one is sealed.
     */
    method Append(commandId: string, payload: seq<int>, rounds: nat) returns (outcome: AppendOutcome)
      requires Valid()
      modifies network, this
      ensures Valid() && Grows(old(network.seg), network.seg)
      ensures outcome.Appended? ==>
        && outcome.position < |network.seg.issued| && outcome.position < outcome.knownTail == knownTail
        && network.seg.issued[outcome.position] == LogEntry(network.seg.segmentId, outcome.position, commandId, payload)
        && (outcome.position in network.seg.acked || outcome.position in network.seg.shortcutAcked)
      ensures nextPosition == old(nextPosition) || nextPosition == old(nextPosition) + 1
      ensures nextPosition == old(nextPosition) + 1 <==>
        && commandId !in old(entriesByCommand)
        && (old(pending).None? || old(pending).value.position in network.seg.acked)
      ensures IsQuorum(old(network.seg).members, SealedServers(old(network.seg))) ==>
        && (nextPosition == old(nextPosition) + 1 <==> commandId !in old(entriesByCommand) && old(pending).None?)
        && (nextPosition == old(nextPosition) + 1 ==> outcome.AppendFailed?)
      ensures outcome == CommandConflict <==>
        commandId in old(entriesByCommand) && old(entriesByCommand)[commandId].payload != payload
      ensures outcome.Appended? && commandId in old(entriesByCommand) ==>
        outcome.position == old(entriesByCommand)[commandId].position
      ensures outcome.Appended? && commandId !in old(entriesByCommand) ==> outcome.position == old(nextPosition)
      ensures outcome == AppendFailed(CommitSealed) ==> IsQuorum(network.seg.members, SealedServers(network.seg))
      ensures network.whole && 0 < rounds && (old(pending).Some? ==> OnTime(old(network.seg), old(pending).value)) ==>
        && (IsQuorum(old(network.seg).members, OpenServers(old(network.seg))) ==>
              outcome.Appended? || outcome == CommandConflict)
        && (IsQuorum(old(network.seg).members, SealedServers(old(network.seg))) ==>
              || outcome == AppendFailed(CommitSealed) || outcome == CommandConflict
              || (commandId in old(entriesByCommand) && old(entriesByCommand)[commandId].position < old(knownTail)))
    {
      hide Inv, Grows, SealedServers, IsQuorum, OnTime, SameSeals, OpenServers, ValidateFixedMembers;
      ghost var s0 := network.seg;
      GrowsReflexive(s0);
      ShapeFacts(s0);
      ServerMembers(s0);
      var known := commandId in entriesByCommand;
      if known && entriesByCommand[commandId].payload != payload {
        return CommandConflict;
      }
      if known && entriesByCommand[commandId].position < knownTail {
        outcome := Shortcut(entriesByCommand[commandId]);
        return;
      }
      var flushed := FlushOther(commandId, rounds);
      if flushed != Committed {
        return AppendFailed(flushed);
      }
      ghost var s1 := network.seg;
      var entry := Place(commandId, payload);
      ghost var s2 := network.seg;
      GrowsTransitive(s0, s1, s2);
      SealedStillThere(s0, s2);
      if network.whole && (old(pending).Some? ==> OnTime(s0, old(pending).value)) {
        OnTimeMeans(s1, entry);
        NextOnTime(s0, s1, s2, entry);
        NotBoth(s0);
      }
      var committed := CommitPending(rounds);
      GrowsTransitive(s0, s2, network.seg);
      SameSegment(s0, s2);
      SameSegment(s0, network.seg);
      if committed != Committed {
        return AppendFailed(committed);
      }
      outcome := Appended(entry.position, knownTail);
    }

    /** The entry of the command, with a position of its own if it is new, becomes the pending one. */
    method Place(commandId: string, payload: seq<int>) returns (entry: LogEntry)
      requires Valid() && (pending.Some? ==> pending.value.commandId == commandId)
      requires commandId in entriesByCommand ==>
        entriesByCommand[commandId].payload == payload && knownTail <= entriesByCommand[commandId].position
      modifies network, this`entriesByCommand, this`nextPosition, this`pending
      ensures Valid() && Grows(old(network.seg), network.seg) && pending == Some(entry)
      ensures network.seg == old(network.seg).(issued := network.seg.issued, sealedAt := network.seg.sealedAt)
      ensures entry == LogEntry(network.seg.segmentId, entry.position, commandId, payload)
      ensures commandId in old(entriesByCommand) ==>
        && entry == old(entriesByCommand)[commandId] && nextPosition == old(nextPosition)
        && network.seg == old(network.seg)
      ensures commandId !in old(entriesByCommand) ==>
        entry.position == old(nextPosition) && nextPosition == old(nextPosition) + 1
    {
      hide Inv, Grows;
      ghost var s := network.seg;
      ServerMembers(s);
      GrowsReflexive(s);
      if commandId !in entriesByCommand {
        Assign(commandId, payload);
      }
      entry := entriesByCommand[commandId];
      assert commandId in old(entriesByCommand) ==> entry == s.issued[entry.position];
      ShapeFacts(network.seg);
      pending := Some(entry);
    }

    /** Commits the pending entry of another command first; afterwards the next entry is on time if that one was. */
    method FlushOther(commandId: string, rounds: nat) returns (flushed: CommitOutcome)
      requires Valid()
      requires commandId in entriesByCommand ==> knownTail <= entriesByCommand[commandId].position
      modifies network, this`knownTail, this`pending
      ensures Valid() && Grows(old(network.seg), network.seg)
      ensures network.seg.issued == old(network.seg.issued)
      ensures network.seg.shortcutAcked == old(network.seg.shortcutAcked)
      ensures flushed == Committed ==>
        if old(pending).Some? && old(pending).value.commandId != commandId
        then pending == None && network.seg.acked == old(network.seg.acked) + {old(pending).value.position}
        else pending == old(pending) && network.seg == old(network.seg)
      ensures flushed != Committed ==>
        && old(pending).Some? && old(pending).value.commandId != commandId
        && pending == old(pending) && network.seg.acked == old(network.seg.acked)
      ensures IsQuorum(old(network.seg).members, SealedServers(old(network.seg))) && flushed == Committed ==>
        network.seg == old(network.seg) && pending == old(pending)
      ensures flushed == CommitSealed ==> IsQuorum(network.seg.members, SealedServers(network.seg))
      ensures network.whole && (old(pending).Some? ==> OnTime(old(network.seg), old(pending).value)) ==>
        && SameSeals(old(network.seg), network.seg)
        && (flushed == Committed ==>
              network.seg.known == network.seg.sequencerKnown ==
                if commandId in entriesByCommand then entriesByCommand[commandId].position else nextPosition)
        && (0 < rounds && flushed != Committed ==>
              && !IsQuorum(old(network.seg).members, OpenServers(old(network.seg)))
              && (IsQuorum(old(network.seg).members, SealedServers(old(network.seg))) ==> flushed == CommitSealed))
    {
      hide Inv, Grows, SealedServers, IsQuorum, OnTime, SameSeals, OpenServers;
      ghost var s0 := network.seg;
      GrowsReflexive(s0);
      SealsReflexive(s0);
      ServerMembers(s0);
      flushed := Committed;
      if pending.Some? {
        OnTimeMeans(s0, pending.value);
        assert HasEntry(entriesByCommand, s0.issued[nextPosition - 1].commandId, s0.issued[nextPosition - 1]);
      }
      if pending.Some? && pending.value.commandId != commandId {
        flushed := CommitPending(rounds);
        ServerMembers(network.seg);
      }
    }

    /** Retries the pending entry; once it is committed nothing is pending. */
    method CommitPending(rounds: nat) returns (outcome: CommitOutcome)
      requires Valid() && pending.Some?
      modifies network, this`knownTail, this`pending
      ensures Valid() && Grows(old(network.seg), network.seg) && old(knownTail) <= knownTail
      ensures network.seg.issued == old(network.seg.issued)
      ensures network.seg.shortcutAcked == old(network.seg.shortcutAcked)
      ensures outcome == Committed ==>
        && pending == None && knownTail == nextPosition
        && network.seg.acked == old(network.seg.acked) + {old(pending).value.position}
      ensures outcome != Committed ==> pending == old(pending) && network.seg.acked == old(network.seg.acked)
      ensures IsQuorum(old(network.seg).members, SealedServers(old(network.seg))) ==> outcome != Committed
      ensures outcome == CommitSealed ==> IsQuorum(network.seg.members, SealedServers(network.seg))
      ensures network.whole && OnTime(old(network.seg), old(pending).value) ==>
        SameSeals(old(network.seg), network.seg)
      ensures network.whole && OnTime(old(network.seg), old(pending).value) && outcome == Committed ==>
        network.seg.known == network.seg.sequencerKnown
      ensures network.whole && OnTime(old(network.seg), old(pending).value) && 0 < rounds ==>
        && (outcome == Committed <==> IsQuorum(old(network.seg).members, OpenServers(old(network.seg))))
        && (outcome == CommitSealed <==> IsQuorum(old(network.seg).members, SealedServers(old(network.seg))))
    {
      hide Inv, Grows, SealedServers, IsQuorum, OnTime, SameSeals, OpenServers;
      ShapeFacts(network.seg);
      outcome := Commit(pending.value, rounds);
      if outcome == Committed {
        pending := None;
      }
    }

    /** A retry of a command whose position the known tail already covers. */
    method Shortcut(entry: LogEntry) returns (outcome: AppendOutcome)
      requires Valid() && HasEntry(entriesByCommand, entry.commandId, entry) && entry.position < knownTail
      modifies network
      ensures Valid() && Grows(old(network.seg), network.seg)
      ensures outcome == Appended(entry.position, knownTail)
      ensures network.seg.issued == old(network.seg.issued) && network.seg.issued[entry.position] == entry
      ensures entry.position in network.seg.shortcutAcked && network.seg.segmentId == old(network.seg.segmentId)
    {
      hide Inv, Grows;
      NoteKeepsInv(network.seg, ShortcutAction(entry.position));
      network.seg := network.seg.(shortcutAcked := network.seg.shortcutAcked + {entry.position});
      outcome := Appended(entry.position, knownTail);
    }

    /** Gives the next position to a new command. */
    method Assign(commandId: string, payload: seq<int>)
      requires Valid() && pending == None && commandId !in entriesByCommand
      modifies network, this`entriesByCommand, this`nextPosition, this`pending
      ensures Valid() && Grows(old(network.seg), network.seg) && pending.Some?
      ensures nextPosition == old(nextPosition) + 1
      ensures network.seg == old(network.seg).(issued := network.seg.issued, sealedAt := network.seg.sealedAt)
      ensures HasEntry(entriesByCommand, commandId, pending.value)
      ensures pending == Some(LogEntry(network.seg.segmentId, old(nextPosition), commandId, payload))
      ensures pending.value == network.seg.issued[nextPosition - 1]
    {
      hide Inv, Grows;
      ghost var s := network.seg;
      ghost var action := AssignAction(commandId, payload);
      ServerMembers(s);
      AssignKeepsInv(s, action);
      var entry := LogEntry(network.seg.segmentId, nextPosition, commandId, payload);
      var sealedNow := set n | n in network.seg.servers && network.seg.servers[n].isSealed;
      entriesByCommand := entriesByCommand[commandId := entry];
      nextPosition := nextPosition + 1;
      network.seg := network.seg.(issued := network.seg.issued + [entry],
                                  sealedAt := network.seg.sealedAt + [sealedNow]);
      assert network.seg == After(s, action);
      pending := Some(entry);
    }
  }

  // ---- A whole network -----------------------------------------------------------------------------

  /** Everything before the entry is known to be committed, and nothing from it on is established. */
  ghost predicate OnTime(s: Segment, entry: LogEntry) {
    s.known == entry.position == s.sequencerKnown
  }

  ghost function OpenServers(s: Segment): set<NodeId> {
    set n | n in s.servers && !s.servers[n].isSealed
  }

  ghost predicate SameSeals(s: Segment, t: Segment) {
    t.servers.Keys == s.servers.Keys && forall n :: n in s.servers ==> t.servers[n].isSealed == s.servers[n].isSealed
  }

  lemma SealsReflexive(s: Segment)
    ensures SameSeals(s, s)
  {
  }

  lemma SealsOf(s: Segment, t: Segment, node: NodeId)
    requires node in s.servers && node in t.servers
    ensures SameSeals(s, t) ==> t.servers[node].isSealed == s.servers[node].isSealed
  {
  }

  lemma SealsJoin(s: Segment, t: Segment, u: Segment)
    requires SameSeals(s, t) && SameSeals(t, u)
    ensures SameSeals(s, u)
  {
  }

  lemma SealsKept(s: Segment, t: Segment, u: Segment)
    requires u.servers == t.servers
    ensures SameSeals(s, t) ==> SameSeals(s, u)
  {
  }

  lemma SameOpen(s: Segment, t: Segment)
    requires SameSeals(s, t)
    ensures OpenServers(t) == OpenServers(s) && SealedServers(t) == SealedServers(s)
  {
  }

  /** A quorum cannot be open and another one sealed. */
  lemma NotBoth(s: Segment)
    requires Inv(s)
    ensures !(IsQuorum(s.members, OpenServers(s)) && IsQuorum(s.members, SealedServers(s)))
  {
    hide Inv;
    if IsQuorum(s.members, OpenServers(s)) && IsQuorum(s.members, SealedServers(s)) {
      var n := QuorumsIntersect(s.members, OpenServers(s), SealedServers(s));
    }
  }

  lemma AskedOnTime(s: Segment, t: Segment, entry: LogEntry)
    requires OnTime(s, entry) && OnTime(t, entry)
    ensures s.sequencerKnown == t.sequencerKnown
  {
  }

  /** A put on time is accepted exactly by an open server, and refused as sealed by any other. */
  lemma PutOnTime(s: Segment, t: Segment, node: NodeId, entry: LogEntry, asked: nat)
    requires Inv(s) && OnTime(s, entry) && node in s.servers && asked == s.sequencerKnown
    requires 0 < |s.issued| && entry == s.issued[|s.issued| - 1]
    requires Served(s, t, node, Put(s.servers[node], entry, asked).0)
    ensures SameSeals(s, t) && t.known == s.known && t.sequencerKnown == s.sequencerKnown
    ensures Put(s.servers[node], entry, asked).1 == if s.servers[node].isSealed then SegmentSealed else Stored
  {
    hide Inv, Put;
    PutAnswers(s.servers[node], entry, asked);
    ServerBounds(s, node);
    if entry.position in s.servers[node].entries {
      CopyFacts(s, node, entry.position);
      ShapeFacts(s);
    }
  }

  /** The replies of a round on time bring in no later tail. */
  lemma StillOnTime(s0: Segment, s: Segment, t: Segment, u: Segment, entry: LogEntry)
    requires OnTime(s, entry) && SameSeals(s0, s) && SameSeals(s, t) && t.known == s.known && Inv(u)
    requires u == t.(sequencerKnown := u.sequencerKnown) && s.sequencerKnown <= u.sequencerKnown
    ensures OnTime(u, entry) && SameSeals(s0, u)
  {
    hide Inv;
    ServerMembers(u);
  }

  /** Distinct sealed servers. */
  ghost predicate Refusals(s: Segment, refusers: seq<NodeId>) {
    && (forall i, j :: 0 <= i < j < |refusers| ==> refusers[i] != refusers[j])
    && (forall n :: n in refusers ==> n in s.servers && s.servers[n].isSealed)
  }

  lemma RefusalsStay(s: Segment, t: Segment, refusers: seq<NodeId>)
    requires Grows(s, t) && Refusals(s, refusers)
    ensures Refusals(t, refusers)
  {
    hide LocalTail;
    SameServers(s, t);
    forall n | n in refusers
      ensures t.servers[n].isSealed
    {
      OpenBefore(s, t, n);
    }
  }

  lemma AnswersCounted(s: Segment, accepted: seq<NodeId>, refusers: seq<NodeId>)
    requires Inv(s) && Refusals(s, refusers)
    requires forall i, j :: 0 <= i < j < |accepted| ==> accepted[i] != accepted[j]
    ensures |Elements(accepted)| == |accepted| && |Elements(refusers)| == |refusers|
    ensures Majority(|s.members|) <= |refusers| ==> IsQuorum(s.members, SealedServers(s))
  {
    hide Inv;
    ServerMembers(s);
    DistinctSize(accepted);
    DistinctSize(refusers);
    SubsetSize(Elements(refusers), SealedServers(s));
  }

  /** In such a round the answers decide exactly as the seals do. */
  lemma RoundDecides(s: Segment, t: Segment, accepted: seq<NodeId>, refusers: seq<NodeId>)
    requires Inv(s) && Grows(s, t)
    requires Elements(accepted) == OpenServers(s) && Elements(refusers) == SealedServers(s)
    requires |Elements(accepted)| == |accepted| && |Elements(refusers)| == |refusers|
    ensures Majority(|t.members|) <= |accepted| <==> IsQuorum(s.members, OpenServers(s))
    ensures Majority(|t.members|) <= |refusers| <==> IsQuorum(s.members, SealedServers(s))
  {
    hide Inv;
    ServerMembers(s);
    SameServers(s, t);
  }

  lemma EverybodyAnswered(s: Segment, t: Segment, members: seq<NodeId>, accepted: seq<NodeId>, refusers: seq<NodeId>)
    requires Inv(t) && t.servers.Keys == s.servers.Keys && Elements(members) == t.members
    requires forall n :: n in accepted || n in refusers ==> n in members
    ensures (forall n :: n in members ==>
          && n in s.servers && (n in accepted <==> !s.servers[n].isSealed)
          && (n in refusers <==> s.servers[n].isSealed)) ==>
      Elements(accepted) == OpenServers(s) && Elements(refusers) == SealedServers(s)
  {
    hide Inv;
    ServerMembers(t);
    assert forall n :: n in members <==> n in Elements(members);
  }

  /** With nothing pending, or the pending entry just committed, the next entry is on time. */
  lemma NextOnTime(s0: Segment, s1: Segment, s2: Segment, entry: LogEntry)
    requires SameSeals(s0, s1) && s2.servers == s1.servers && s2.known == s1.known
    requires s2.sequencerKnown == s1.sequencerKnown && OnTime(s1, entry)
    ensures SameSeals(s0, s2) && OpenServers(s2) == OpenServers(s0) && SealedServers(s2) == SealedServers(s0)
    ensures OnTime(s2, entry)
  {
    SealsKept(s0, s1, s2);
    SameOpen(s0, s2);
  }

  lemma OnTimeMeans(s: Segment, entry: LogEntry)
    ensures OnTime(s, entry) <==> s.known == entry.position == s.sequencerKnown
  {
  }

  lemma LearnedNothing(s: Segment)
    ensures OnlyLearned(s, s)
  {
    hide Grows;
    GrowsReflexive(s);
  }

  /** The listed servers were open. */
  ghost predicate OpenAt(s: Segment, nodes: seq<NodeId>) {
    forall n :: n in nodes ==> n in s.servers && !s.servers[n].isSealed
  }

  lemma OpenEarlier(s: Segment, t: Segment, nodes: seq<NodeId>)
    requires Grows(s, t) && OpenAt(t, nodes)
    ensures OpenAt(s, nodes)
  {
    hide LocalTail;
    SameServers(s, t);
    forall n | n in nodes
      ensures !s.servers[n].isSealed
    {
      OpenBefore(s, t, n);
    }
  }

  lemma SameServers(s: Segment, t: Segment)
    requires Grows(s, t)
    ensures t.servers.Keys == s.servers.Keys && t.members == s.members
  {
    hide ServerGrows;
  }

  /** Servers that were open are no quorum where one was sealed. */
  lemma NoQuorumOnceSealed(s: Segment, t: Segment, accepted: seq<NodeId>, position: nat)
    requires Grows(s, t) && OpenAt(s, accepted) && Majority(|t.members|) <= |accepted|
    requires forall i, j :: 0 <= i < j < |accepted| ==> accepted[i] != accepted[j]
    requires forall n :: n in accepted ==> PutOk(n, position) in t.puts && n in t.members
    ensures !IsQuorum(s.members, SealedServers(s))
  {
    hide ServerGrows;
    DistinctSize(accepted);
    SameServers(s, t);
    if IsQuorum(s.members, SealedServers(s)) {
      var n := QuorumsIntersect(s.members, SealedServers(s), Elements(accepted));
    }
  }

  lemma SealedStillThere(s: Segment, t: Segment)
    requires Inv(t) && Grows(s, t)
    ensures IsQuorum(s.members, SealedServers(s)) ==> IsQuorum(t.members, SealedServers(t))
  {
    hide LocalTail, Inv;
    ServerMembers(t);
    SameServers(s, t);
    forall n | n in SealedServers(s)
      ensures n in SealedServers(t)
    {
      OpenBefore(s, t, n);
    }
    SubsetSize(SealedServers(s), SealedServers(t));
  }

  /** Nothing was assigned or acknowledged in between. */
  ghost predicate OnlyLearned(s: Segment, t: Segment) {
    && Grows(s, t) && t.issued == s.issued
    && t.acked == s.acked && t.shortcutAcked == s.shortcutAcked
    && s.sequencerKnown <= t.sequencerKnown
  }

  lemma LearnedGrows(s: Segment, t: Segment)
    requires OnlyLearned(s, t)
    ensures Grows(s, t) && t.issued == s.issued && t.acked == s.acked && t.shortcutAcked == s.shortcutAcked
  {
  }

  lemma LearnsOn(s0: Segment, s: Segment, t: Segment)
    requires OnlyLearned(s0, s) && Grows(s, t)
    requires t.issued == s.issued && t.acked == s.acked && t.shortcutAcked == s.shortcutAcked
    requires s.sequencerKnown <= t.sequencerKnown
    ensures OnlyLearned(s0, t)
  {
    hide Grows;
    GrowsTransitive(s0, s, t);
  }

  lemma SameSegment(s: Segment, t: Segment)
    requires Grows(s, t)
    ensures t.segmentId == s.segmentId
  {
  }

  lemma ServerMembers(s: Segment)
    requires Inv(s)
    ensures s.servers.Keys == s.members && s.known <= |s.issued| && s.sequencerKnown <= s.known
    ensures forall p :: p in s.acked ==> p < |s.issued|
  {
    hide LocalTail, Dense, CopiesAssigned, KnownPut, CopiesPut, KnownCovered, SequencerBacked, ReadsFinal;
  }

  /** Distinct servers that accepted the position form a quorum of holders. */
  lemma AcceptedQuorum(s: Segment, accepted: seq<NodeId>, position: nat)
    requires forall i, j :: 0 <= i < j < |accepted| ==> accepted[i] != accepted[j]
    requires forall n :: n in accepted ==> PutOk(n, position) in s.puts && n in s.members
    requires Majority(|s.members|) <= |accepted|
    ensures IsQuorum(s.members, Holders(s, position))
  {
    DistinctSize(accepted);
    SubsetSize(Elements(accepted), Holders(s, position));
  }
}
