/** A NativeLoglet segment keeps the contract the VirtualLog relies on (native_loglet/virtual_log_adapter.py). */
module NativeContract {
  import opened Wrappers
  import opened Membership
  import opened LogletStore
  import Native = LogletProtocol
  import opened LogletTheorems
  import opened NativeClient
  import Virtual = VirtualLogProtocol
  import VirtualLogNetwork
  import LogletReader

  function CommandOf(entry: LogEntry): Virtual.LogCommand {
    Virtual.LogCommand(entry.commandId, entry.payload)
  }

  /** The appends the segment answered for: commits, and retries as far as their shortcut is sound. */
  function Acknowledged(s: Native.Segment): set<nat> {
    if |s.members| <= 4 then s.acked + s.shortcutAcked else s.acked
  }

  function Issued(s: Native.Segment): map<nat, Virtual.LogCommand> {
    map p: nat | p < |s.issued| :: CommandOf(s.issued[p])
  }

  /** `l` is what the segment has promised: its certified trim lies on a quorum, its discarded mark on a server. */
  ghost predicate Abstracts(s: Native.Segment, l: Virtual.Loglet) {
    && l.issued == Issued(s) && l.acked == Acknowledged(s) && l.sealedTails == s.sealedTails
    && l.established == s.known
    && IsQuorum(s.members, TrimmedServers(s, l.trimmed))
    && HighestTrim(s, l.discarded)
  }

  ghost predicate HighestTrim(s: Native.Segment, watermark: nat) {
    && (forall n :: n in s.servers ==> s.servers[n].trimmed <= watermark)
    && (exists n :: n in s.servers && s.servers[n].trimmed == watermark)
  }

  lemma {:induction false} HighestTrimAmong(s: Native.Segment, nodes: set<NodeId>) returns (n: NodeId)
    requires nodes <= s.servers.Keys && nodes != {}
    ensures n in nodes && forall m :: m in nodes ==> s.servers[m].trimmed <= s.servers[n].trimmed
    decreases |nodes|
  {
    n :| n in nodes;
    if nodes != {n} {
      var rest := nodes - {n};
      assert nodes == rest + {n};
      var top := HighestTrimAmong(s, rest);
      if s.servers[n].trimmed < s.servers[top].trimmed {
        n := top;
      }
    }
  }

  lemma TrimExists(s: Native.Segment) returns (watermark: nat)
    requires s.servers.Keys == s.members && 3 <= |s.members|
    ensures HighestTrim(s, watermark)
  {
    var n := HighestTrimAmong(s, s.servers.Keys);
    watermark := s.servers[n].trimmed;
  }

  lemma BoundedByKnown(s: Native.Segment)
    requires Native.Inv(s)
    ensures s.known <= |s.issued| && forall p :: p in Acknowledged(s) ==> p < s.known
    ensures forall tail :: tail in s.sealedTails ==> tail <= s.known
  {
    hide LocalTail, Native.Dense, Native.CopiesAssigned, Native.KnownPut, Native.CopiesPut, Native.KnownCovered,
      Native.LateRefused, Native.ReadsFinal, Native.TwoReach;
  }

  lemma QuorumInhabited(members: set<NodeId>, quorum: set<NodeId>) returns (n: NodeId)
    requires IsQuorum(members, quorum)
    ensures n in quorum
  {
    n :| n in quorum;
  }

  /** Every reachable segment, seen as a Loglet, meets the contract. */
  lemma NativeMeetsContract(s: Native.Segment, l: Virtual.Loglet)
    requires Native.Inv(s) && Abstracts(s, l)
    ensures Virtual.Contract(l)
  {
    hide Native.Inv, LocalTail, IsQuorum;
    BoundedByKnown(s);
    forall p, tail | p in l.acked && tail in l.sealedTails
      ensures p < tail
    {
      if p in s.acked {
        AckedBelowSealedTails(s, p, tail);
      } else {
        SmallMembershipBounded(s);
      }
    }
    var n := QuorumInhabited(s.members, TrimmedServers(s, l.trimmed));
  }

  lemma StartAbstracted(s: Native.Segment)
    requires Native.Init(s)
    ensures Abstracts(s, Virtual.UNTOUCHED)
  {
    assert TrimmedServers(s, 0) == s.members;
    assert s.members != {};
    var n :| n in s.members;
    assert s.servers[n].trimmed == 0;
  }

  /** Whatever a segment does, and whatever trim `certified` a quorum confirms, the Loglet it stands for evolves. */
  lemma NativeEvolves(s: Native.Segment, t: Native.Segment, l: Virtual.Loglet, certified: nat)
    returns (m: Virtual.Loglet)
    requires Native.Inv(s) && Native.Inv(t) && Native.Grows(s, t) && Abstracts(s, l)
    requires IsQuorum(t.members, TrimmedServers(t, certified))
    ensures Abstracts(t, m) && Virtual.Evolves(l, m) && certified <= m.trimmed
  {
    hide Native.Inv, Native.Grows, LocalTail, IsQuorum, Issued, Acknowledged, HighestTrim, TrimmedServers;
    SameMembership(t);
    var watermark := TrimExists(t);
    m := Virtual.Loglet(Issued(t), Acknowledged(t), t.sealedTails, t.known, Max(l.trimmed, certified), watermark);
    TrimQuorumStays(s, t, l.trimmed);
    HighestTrimRises(s, t, l.discarded, watermark);
    PromisesKept(s, t);
    BoundedByKnown(s);
  }

  lemma HighestTrimRises(s: Native.Segment, t: Native.Segment, before: nat, after: nat)
    requires Native.Grows(s, t) && HighestTrim(s, before) && HighestTrim(t, after)
    ensures before <= after
  {
    hide LocalTail;
    var n :| n in s.servers && s.servers[n].trimmed == before;
    SealsStay(s, t);
  }

  lemma PromisesKept(s: Native.Segment, t: Native.Segment)
    requires Native.Grows(s, t)
    ensures forall p :: p in Issued(s) ==> p in Issued(t) && Issued(t)[p] == Issued(s)[p]
    ensures forall p :: p in Issued(t) && p < |s.issued| ==> p in Issued(s)
    ensures Acknowledged(s) <= Acknowledged(t) && s.sealedTails <= t.sealedTails
    ensures s.known <= t.known
  {
    hide ServerGrows;
  }

  lemma SameMembership(s: Native.Segment)
    requires Native.Inv(s)
    ensures s.servers.Keys == s.members && 3 <= |s.members|
  {
  }

  lemma TrimQuorumStays(s: Native.Segment, t: Native.Segment, watermark: nat)
    requires Native.Inv(t) && Native.Grows(s, t) && IsQuorum(s.members, TrimmedServers(s, watermark))
    ensures IsQuorum(t.members, TrimmedServers(t, watermark))
  {
    hide Native.Inv, LocalTail;
    SameMembership(t);
    SealsStay(s, t);
    SubsetSize(TrimmedServers(s, watermark), TrimmedServers(t, watermark));
  }

  /** Each step of a segment is a step of the VirtualLog's Loglet that stands for it. */
  lemma NativeStepIsLogletStep(log: Virtual.State, id: string, s: Native.Segment, t: Native.Segment)
    returns (m: Virtual.Loglet)
    requires Virtual.Inv(log) && Native.Inv(s) && Native.Next(s, t)
    requires Abstracts(s, Virtual.LogletOf(log, id))
    ensures Virtual.Enabled(log, Virtual.LogletAction(id, m)) && |log.windows| == |log.chains|
    ensures Abstracts(t, Virtual.LogletOf(Virtual.After(log, Virtual.LogletAction(id, m)), id))
  {
    hide Native.Inv, Native.Next, Native.Grows, LocalTail, Virtual.Inv;
    Native.NextKeepsInv(s, t);
    Virtual.SameLengths(log);
    TrimQuorumStays(s, t, Virtual.LogletOf(log, id).trimmed);
    m := NativeEvolves(s, t, Virtual.LogletOf(log, id), Virtual.LogletOf(log, id).trimmed);
    NativeMeetsContract(t, m);
  }

  /** Before any sealed check_tail has finished, and only then, can a check_tail that starts now come back open. */
  lemma OpenOnlyBeforeSealed(s: Native.Segment, l: Virtual.Loglet)
    requires Native.Inv(s) && Abstracts(s, l) && !IsQuorum(s.members, Native.SealedServers(s))
    ensures l.sealedTails == {}
  {
    hide Native.Inv, LocalTail, IsQuorum;
    forall tail | tail in s.sealedTails
      ensures false
    {
      SealedTailsMeanSealed(s, tail);
    }
  }

  /** What a native check_tail from `s` to `t` returns is what the VirtualLog expects of a Loglet's. */
  lemma CheckTailMeetsContract(s: Native.Segment, t: Native.Segment, a: Virtual.Loglet, b: Virtual.Loglet, tail: nat,
      isSealed: bool)
    requires Native.Inv(s) && Abstracts(s, a) && Abstracts(t, b)
    requires tail <= t.known && (forall p :: p in s.acked || p in s.shortcutAcked ==> p < tail)
    requires isSealed ==> tail in t.sealedTails
    requires !isSealed ==> !IsQuorum(s.members, Native.SealedServers(s))
    ensures Virtual.AckedBelow(a, tail) && tail <= b.established
    ensures isSealed ==> tail in b.sealedTails
    ensures !isSealed ==> a.sealedTails == {}
  {
    hide Native.Inv, LocalTail, IsQuorum;
    if !isSealed {
      OpenOnlyBeforeSealed(s, a);
    }
  }

  /** A native read that ends at `t` passes over an established entry only where the Loglet has discarded. */
  lemma ReadMeetsContract(s: Native.Segment, t: Native.Segment, a: Virtual.Loglet, b: Virtual.Loglet,
      trimmedPrefix: nat,
      from: int, to: int)
    requires Native.Inv(s) && Abstracts(s, a) && Abstracts(t, b) && TrimSeen(t, trimmedPrefix)
    requires t.servers.Keys == t.members
    requires LogletReader.SkipsTrimmed(s, t, trimmedPrefix, from, to)
    ensures VirtualLogNetwork.NoneSkipped(a, b, from, to)
  {
    hide Native.Inv, LocalTail, IsQuorum;
    forall q: nat | q in a.issued && q < a.established && from <= q < to
      ensures q < b.discarded
    {
      if trimmedPrefix <= q {
        CoveredBelowKnown(s, q);
        var n := QuorumInhabited(t.members, TrimmedServers(t, q + 1));
        assert t.servers[n].trimmed <= b.discarded;
      } else {
        var n :| n in t.servers && trimmedPrefix <= t.servers[n].trimmed;
        assert t.servers[n].trimmed <= b.discarded;
      }
    }
  }
}
