/**
 A closed segment's source and target memberships together (native_loglet/replacement.py): requests reach
 servers of either, some servers belong to both, and others act on them at any time.
 */
module TargetNetwork {
  import opened Wrappers
  import opened Membership
  import opened LogletStore
  import opened LogletProtocol
  import opened LogletNetwork
  import opened NativeClient

  /** The servers that belong to the target only, and what they hold of the segment. */
  type Extras = map<NodeId, SegmentState>

  // ---- Servers that only the target has ------------------------------------------------------

  /** A target-only server holds nothing but entries of the source, each of them fit for repairs. */
  ghost predicate ExtraFits(s: Segment, x: SegmentState) {
    && TrimmedAway(x) && x.trimmed <= s.known && x.knownTail <= s.known
    && (forall p :: p in x.entries ==> p < |s.issued| && x.entries[p] == s.issued[p] && Repairable(s, p))
  }

  ghost predicate ExtrasFit(s: Segment, extra: Extras) {
    forall n :: n in extra ==> ExtraFits(s, extra[n])
  }

  ghost predicate ExtrasGrow(x: Extras, y: Extras) {
    x.Keys == y.Keys && forall n :: n in x ==> ServerGrows(x[n], y[n])
  }

  /** Both memberships move on: the source by its protocol, the target-only servers with source entries only. */
  ghost predicate MovesOn(s: Segment, x: Extras, t: Segment, y: Extras) {
    Interference(s, t, false, false) && ExtrasFit(t, y) && ExtrasGrow(x, y)
  }

  lemma ExtrasStay(s: Segment, t: Segment, extra: Extras)
    requires Grows(s, t) && ExtrasFit(s, extra)
    ensures ExtrasFit(t, extra)
  {
    hide LocalTail, ServerGrows, Repairable;
    forall n | n in extra
      ensures ExtraFits(t, extra[n])
    {
      assert ExtraFits(s, extra[n]);
      forall p | p in extra[n].entries
        ensures Repairable(t, p)
      {
        RepairableStays(s, t, p);
      }
    }
  }

  lemma ExtrasGrowReflexive(x: Extras)
    ensures ExtrasGrow(x, x)
  {
    hide LocalTail;
  }

  lemma ExtrasGrowTransitive(x: Extras, y: Extras, z: Extras)
    requires ExtrasGrow(x, y) && ExtrasGrow(y, z)
    ensures ExtrasGrow(x, z)
  {
    hide ServerGrows;
    forall n | n in x
      ensures ServerGrows(x[n], z[n])
    {
      ServerGrowsTransitive(x[n], y[n], z[n]);
    }
  }

  lemma MovesOnReflexive(s: Segment, x: Extras)
    requires Inv(s) && ExtrasFit(s, x)
    ensures MovesOn(s, x, s, x)
  {
    hide Inv, ExtrasFit, Interference, ExtrasGrow;
    InterferenceReflexive(s, false, false);
    ExtrasGrowReflexive(x);
  }

  lemma MovesOnTransitive(s: Segment, x: Extras, t: Segment, y: Extras,
      u: Segment, z: Extras)
    requires MovesOn(s, x, t, y) && MovesOn(t, y, u, z)
    ensures MovesOn(s, x, u, z)
  {
    hide ExtrasFit, Interference, ExtrasGrow;
    InterferenceTransitive(s, t, u, false, false);
    ExtrasGrowTransitive(x, y, z);
  }

  lemma SourceMoves(s: Segment, t: Segment, x: Extras, quiet: bool)
    requires Interference(s, t, false, quiet) && ExtrasFit(s, x)
    ensures MovesOn(s, x, t, x)
  {
    hide Interference, ExtrasFit, ExtrasGrow;
    InterferenceWithTrims(s, t, false, quiet);
    InterferenceGives(s, t, false, false);
    ExtrasStay(s, t, x);
    ExtrasGrowReflexive(x);
  }

  lemma ExtraMoves(s: Segment, x: Extras, n: NodeId, state: SegmentState)
    requires Inv(s) && ExtrasFit(s, x) && n in x && ServerGrows(x[n], state) && ExtraFits(s, state)
    ensures MovesOn(s, x, s, x[n := state])
  {
    hide Interference, ServerGrows, ExtraFits, Inv;
    InterferenceReflexive(s, false, false);
    assert ExtrasGrow(x, x[n := state]) by { ExtrasGrowReflexive(x); }
  }

  /** A repair of a target-only server leaves it with source entries only. */
  lemma RepairStep(s: Segment, x: SegmentState, position: nat, knownTail: nat)
    requires Inv(s) && ExtraFits(s, x) && position < |s.issued| && Repairable(s, position) && knownTail <= s.known
    ensures var r := Repair(x, s.issued[position], knownTail);
      && ServerGrows(x, r.0) && ExtraFits(s, r.0)
      && (r.1 == Stored ==> position in r.0.entries) && (r.1 == Stored || r.1 == PositionTrimmed)
  {
    hide Inv, LocalTail, ServerGrows, Repairable;
    ShapeFacts(s);
    RequestsGrow(x, s.issued[position], knownTail, 0);
  }

  lemma TrimStep(s: Segment, x: SegmentState, position: nat)
    requires Inv(s) && ExtraFits(s, x) && position <= s.known
    ensures ServerGrows(x, PrefixTrim(x, position)) && ExtraFits(s, PrefixTrim(x, position))
    ensures position <= PrefixTrim(x, position).trimmed
  {
    hide Inv, LocalTail, ServerGrows, Repairable;
    TrimGrows(x, position);
  }

  lemma SealStep(s: Segment, x: SegmentState, knownTail: nat)
    requires ExtraFits(s, x) && knownTail <= s.known
    ensures ServerGrows(x, Seal(x, knownTail)) && ExtraFits(s, Seal(x, knownTail)) && Seal(x, knownTail).isSealed
  {
    hide LocalTail, ServerGrows, Repairable;
    FlagsGrow(x, knownTail);
  }

  lemma ObserveStep(s: Segment, x: SegmentState, knownTail: nat)
    requires ExtraFits(s, x) && knownTail <= s.known
    ensures ServerGrows(x, Observe(x, knownTail)) && ExtraFits(s, Observe(x, knownTail))
    ensures LocalTail(Observe(x, knownTail)) == LocalTail(x)
  {
    hide LocalTail, ServerGrows, Repairable;
    ObserveGrows(x, knownTail);
  }

  lemma ReopenStep(s: Segment, x: SegmentState)
    requires ExtraFits(s, x)
    ensures ServerGrows(x, Reopen(x)) && ExtraFits(s, Reopen(x))
  {
    hide LocalTail, ServerGrows, Repairable;
    FlagsGrow(x, 0);
  }

  // ---- What others do to either membership -------------------------------------------------------

  /**
   A step of the source's protocol, or a request served by a target-only server. The segment is closed,
   so nobody appends through the target; its clients repair, trim, seal and observe.
   */
  datatype TargetAction =
    | SourceAction(action: Action)
    | RepairExtra(node: NodeId, position: nat, knownTail: nat)
    | TrimExtra(node: NodeId, position: nat)
    | SealExtra(node: NodeId, knownTail: nat)
    | ObserveExtra(node: NodeId, knownTail: nat)
    | RestartExtra(node: NodeId)

  ghost predicate TargetEnabled(s: Segment, x: Extras, action: TargetAction) {
    match action
    case SourceAction(step) => Enabled(s, step)
    case RepairExtra(node, position, knownTail) =>
      node in x && position < |s.issued| && Repairable(s, position) && knownTail <= s.known
    case TrimExtra(node, position) => node in x && position <= s.known
    case SealExtra(node, knownTail) => node in x && knownTail <= s.known
    case ObserveExtra(node, knownTail) => node in x && knownTail <= s.known
    case RestartExtra(node) => node in x
  }

  ghost function TargetAfter(s: Segment, x: Extras, action: TargetAction)
    : (Segment, Extras)
    requires TargetEnabled(s, x, action)
  {
    match action
    case SourceAction(step) => (After(s, step), x)
    case RepairExtra(node, position, knownTail) => (s, x[node := Repair(x[node], s.issued[position], knownTail).0])
    case TrimExtra(node, position) => (s, x[node := PrefixTrim(x[node], position)])
    case SealExtra(node, knownTail) => (s, x[node := Seal(x[node], knownTail)])
    case ObserveExtra(node, knownTail) => (s, x[node := Observe(x[node], knownTail)])
    case RestartExtra(node) => (s, x[node := Reopen(x[node])])
  }

  /** Every such step moves both memberships on: the target's new servers never hold but source entries. */
  lemma OthersMoveOn(s: Segment, x: Extras, action: TargetAction)
    requires Inv(s) && ExtrasFit(s, x) && TargetEnabled(s, x, action)
    ensures var (t, y) := TargetAfter(s, x, action); MovesOn(s, x, t, y)
  {
    hide Inv, Grows, Interference, LocalTail, ServerGrows, ExtraFits, Enabled, After, Repairable, MovesOn, Repair,
      PrefixTrim, Seal, Observe, Reopen;
    match action
    case SourceAction(step) =>
      OthersInterfere(s, step, false, false);
      SourceMoves(s, After(s, step), x, false);
    case RepairExtra(node, position, knownTail) =>
      RepairStep(s, x[node], position, knownTail);
      ExtraMoves(s, x, node, Repair(x[node], s.issued[position], knownTail).0);
    case TrimExtra(node, position) =>
      TrimStep(s, x[node], position);
      ExtraMoves(s, x, node, PrefixTrim(x[node], position));
    case SealExtra(node, knownTail) =>
      SealStep(s, x[node], knownTail);
      ExtraMoves(s, x, node, Seal(x[node], knownTail));
    case ObserveExtra(node, knownTail) =>
      ObserveStep(s, x[node], knownTail);
      ExtraMoves(s, x, node, Observe(x[node], knownTail));
    case RestartExtra(node) =>
      ReopenStep(s, x[node]);
      ExtraMoves(s, x, node, Reopen(x[node]));
  }

  // ---- The target ------------------------------------------------------------------------------

  /** The state of a server, whichever membership it belongs to. */
  ghost predicate At(s: Segment, x: Extras, n: NodeId, state: SegmentState) {
    if n in s.servers then state == s.servers[n] else n in x && state == x[n]
  }

  ghost predicate CoversAt(s: Segment, x: Extras, n: NodeId, p: nat) {
    exists state :: At(s, x, n, state) && state.Covers(p)
  }

  ghost predicate SealedAt(s: Segment, x: Extras, n: NodeId) {
    exists state :: At(s, x, n, state) && state.isSealed
  }

  ghost predicate TrimmedAt(s: Segment, x: Extras, n: NodeId, watermark: nat) {
    exists state :: At(s, x, n, state) && watermark <= state.trimmed
  }

  ghost function TargetCoverers(s: Segment, x: Extras, target: set<NodeId>, p: nat): set<NodeId> {
    set n | n in target && CoversAt(s, x, n, p)
  }

  ghost function TargetSealed(s: Segment, x: Extras, target: set<NodeId>): set<NodeId> {
    set n | n in target && SealedAt(s, x, n)
  }

  ghost function TargetTrimmers(s: Segment, x: Extras, target: set<NodeId>, watermark: nat): set<NodeId> {
    set n | n in target && TrimmedAt(s, x, n, watermark)
  }

  /** On a quorum of the target the position is present or trimmed. */
  ghost predicate TargetCovered(s: Segment, x: Extras, target: set<NodeId>, p: nat) {
    IsQuorum(target, TargetCoverers(s, x, target, p))
  }

  /** No member of the target holds anything but the source's entry at any position. */
  ghost predicate OnlySource(s: Segment, x: Extras, target: set<NodeId>) {
    forall n, state :: n in target && At(s, x, n, state) ==>
      forall p :: p in state.entries ==> p < |s.issued| && state.entries[p] == s.issued[p]
  }

  lemma TargetHoldsOnlySource(s: Segment, x: Extras, target: set<NodeId>)
    requires Inv(s) && ExtrasFit(s, x)
    ensures OnlySource(s, x, target)
  {
    hide Dense, KnownPut, KnownCovered, SequencerBacked, ReadsFinal, CopiesPut, LateRefused, TailsKnown, LocalTail,
      IsQuorum;
    forall n, state | n in target && At(s, x, n, state)
      ensures forall p :: p in state.entries ==> p < |s.issued| && state.entries[p] == s.issued[p]
    {
      if n in s.servers {
        assert CopiesAssignedAt(s, n);
      } else {
        assert ExtraFits(s, x[n]);
      }
    }
  }

  lemma StateMoves(s: Segment, x: Extras, t: Segment, y: Extras, n: NodeId,
      a: SegmentState) returns (b: SegmentState)
    requires MovesOn(s, x, t, y) && At(s, x, n, a)
    ensures At(t, y, n, b) && ServerGrows(a, b)
  {
    hide Inv, ServerGrows;
    InterferenceGives(s, t, false, false);
    b := if n in t.servers then t.servers[n] else y[n];
  }

  /** What a server has confirmed it keeps. */
  lemma ConfirmationsStay(s: Segment, x: Extras, t: Segment, y: Extras, n: NodeId, p: nat)
    requires MovesOn(s, x, t, y)
    ensures CoversAt(s, x, n, p) ==> CoversAt(t, y, n, p)
    ensures SealedAt(s, x, n) ==> SealedAt(t, y, n)
    ensures TrimmedAt(s, x, n, p) ==> TrimmedAt(t, y, n, p)
  {
    hide MovesOn, LocalTail;
    if state :| At(s, x, n, state) && state.Covers(p) {
      var b := StateMoves(s, x, t, y, n, state);
      assert b.Covers(p);
    }
    if state :| At(s, x, n, state) && state.isSealed {
      var b := StateMoves(s, x, t, y, n, state);
      assert b.isSealed;
    }
    if state :| At(s, x, n, state) && p <= state.trimmed {
      var b := StateMoves(s, x, t, y, n, state);
      assert p <= b.trimmed;
    }
  }

  lemma CoveredStays(s: Segment, x: Extras, t: Segment, y: Extras,
      target: set<NodeId>, p: nat)
    requires MovesOn(s, x, t, y) && TargetCovered(s, x, target, p)
    ensures TargetCovered(t, y, target, p)
  {
    hide MovesOn, CoversAt, SealedAt, TrimmedAt;
    forall n | n in TargetCoverers(s, x, target, p)
      ensures n in TargetCoverers(t, y, target, p)
    {
      ConfirmationsStay(s, x, t, y, n, p);
    }
    SubsetSize(TargetCoverers(s, x, target, p), TargetCoverers(t, y, target, p));
  }

  lemma RangeStays(s: Segment, x: Extras, t: Segment, y: Extras,
      target: set<NodeId>, from: nat, upTo: nat)
    requires MovesOn(s, x, t, y) && RangeCovered(s, x, target, from, upTo)
    ensures RangeCovered(t, y, target, from, upTo)
  {
    hide MovesOn, TargetCovered;
    forall p: nat | from <= p < upTo
      ensures TargetCovered(t, y, target, p)
    {
      CoveredStays(s, x, t, y, target, p);
    }
  }

  ghost predicate RangeCovered(s: Segment, x: Extras, target: set<NodeId>, from: nat, upTo: nat) {
    forall p: nat :: from <= p < upTo ==> TargetCovered(s, x, target, p)
  }

  // ---- Requests ----------------------------------------------------------------------------------

  /** Every server of either membership. */
  ghost function All(s: Segment, x: Extras): map<NodeId, SegmentState> {
    x + s.servers
  }

  /** In a whole network one server has served the request, and nothing else has changed. */
  ghost predicate Does(s: Segment, x: Extras, t: Segment, y: Extras, node: NodeId, server: SegmentState) {
    All(t, y) == All(s, x)[node := server] && t.known == s.known
  }

  lemma SourceDoes(s: Segment, x: Extras, t: Segment, node: NodeId, server: SegmentState)
    requires Served(s, t, node, server) && node in s.servers
    ensures Does(s, x, t, x, node, server) && All(s, x)[node] == s.servers[node]
  {
  }

  lemma ExtraDoes(s: Segment, x: Extras, node: NodeId, server: SegmentState)
    requires node in x && node !in s.servers
    ensures Does(s, x, s, x[node := server], node, server) && All(s, x)[node] == x[node]
  {
  }

  class ReplacementNetwork {
    const source: Network
    var extra: Extras

    ghost predicate Valid()
      reads this, source
    {
      Inv(source.seg) && ExtrasFit(source.seg, extra) && (source.calm ==> source.quiet)
    }

    ghost predicate Knows(node: NodeId)
      reads this, source
    {
      node in source.seg.servers || node in extra
    }

    /** The target-only servers start with nothing of the segment. */
    constructor (source: Network, targetOnly: set<NodeId>)
      requires Inv(source.seg) && (source.calm ==> source.quiet)
      ensures Valid() && this.source == source && extra.Keys == targetOnly
    {
      this.source := source;
      extra := map n | n in targetOnly :: EMPTY_SEGMENT;
    }

    /** A legal membership all of whose members can be asked. */
    ghost predicate Serves(target: seq<NodeId>)
      reads this, source
    {
      Valid() && ValidateFixedMembers(target) && forall n :: n in target ==> Knows(n)
    }

    /** Others act on either membership. */
    method Interfere()
      requires Valid()
      modifies this, source
      ensures Valid() && MovesOn(old(source.seg), old(extra), source.seg, extra)
      ensures source.calm ==> source.seg == old(source.seg) && extra == old(extra)
    {
      MovesOnReflexive(source.seg, extra);
    }

    /** A repair of a source entry at one server of either membership. */
    method RepairAt(node: NodeId, entry: LogEntry, knownTail: nat) returns (stored: bool)
      requires Valid() && Knows(node) && knownTail <= source.seg.known
      requires entry.position < |source.seg.issued| && entry == source.seg.issued[entry.position]
      requires Repairable(source.seg, entry.position)
      requires node in source.seg.servers ==> DenseUpTo(source.seg, node, entry.position)
      modifies this, source
      ensures Valid() && MovesOn(old(source.seg), old(extra), source.seg, extra)
      ensures stored ==> CoversAt(source.seg, extra, node, entry.position)
      ensures node in All(old(source.seg), old(extra))
      ensures source.calm && node in source.down ==>
        !stored && source.seg == old(source.seg) && extra == old(extra)
      ensures source.calm && node !in source.down ==>
        var repaired := Repair(All(old(source.seg), old(extra))[node], entry, knownTail);
        Does(old(source.seg), old(extra), source.seg, extra, node, repaired.0) && (stored <==> repaired.1 == Stored)
    {
      hide Inv, Interference, ExtrasFit, ExtrasGrow, ExtraFits, LocalTail, ServerGrows, Grows, Repair, Does;
      ghost var s0, x0 := source.seg, extra;
      Interfere();
      ghost var s1, x1 := source.seg, extra;
      MovedFits(s0, x0, s1, x1);
      RepairStillThere(s0, s1, node, entry.position);
      if node in source.seg.servers {
        var written := source.RepairServer(node, entry, knownTail);
        SourceMoves(s1, source.seg, x1, source.quiet);
        stored := written == Some(Stored);
        if source.calm && node !in source.down {
          SourceDoes(s1, x1, source.seg, node, Repair(s1.servers[node], entry, knownTail).0);
        }
        if stored {
          assert At(source.seg, extra, node, source.seg.servers[node]);
        }
      } else {
        var unsent := source.Lost(node);
        if unsent {
          return false;
        }
        ExtrasAt(s1, x1, node);
        RepairStep(s1, x1[node], entry.position, knownTail);
        var step := Repair(extra[node], entry, knownTail);
        extra := extra[node := step.0];
        ExtraMoves(s1, x1, node, step.0);
        var lost := source.Lost(node);
        stored := !lost && step.1 == Stored;
        ExtraDoes(s1, x1, node, step.0);
        assert At(source.seg, extra, node, extra[node]);
      }
      MovesOnTransitive(s0, x0, s1, x1, source.seg, extra);
      MovedFits(s0, x0, source.seg, extra);
    }

    method TrimAt(node: NodeId, position: nat) returns (watermark: Option<nat>)
      requires Valid() && Knows(node) && position <= source.seg.known
      modifies this, source
      ensures Valid() && MovesOn(old(source.seg), old(extra), source.seg, extra)
      ensures watermark.Some? ==> position <= watermark.value && TrimmedAt(source.seg, extra, node, watermark.value)
      ensures node in All(old(source.seg), old(extra)) && node in All(source.seg, extra)
      ensures source.calm && node in source.down ==>
        watermark.None? && source.seg == old(source.seg) && extra == old(extra)
      ensures source.calm && node !in source.down ==>
        && Does(old(source.seg), old(extra), source.seg, extra, node,
                PrefixTrim(All(old(source.seg), old(extra))[node], position))
        && watermark == Some(All(source.seg, extra)[node].trimmed)
    {
      hide Inv, Interference, ExtrasFit, ExtrasGrow, ExtraFits, LocalTail, ServerGrows, Grows, PrefixTrim, Does;
      ghost var s0, x0 := source.seg, extra;
      Interfere();
      ghost var s1, x1 := source.seg, extra;
      MovedFits(s0, x0, s1, x1);
      if node in source.seg.servers {
        var reply := source.TrimServer(node, position);
        SourceMoves(s1, source.seg, x1, false);
        watermark := if reply.Some? then Some(reply.value.trimmedPrefix) else None;
        if source.calm && node !in source.down {
          SourceDoes(s1, x1, source.seg, node, PrefixTrim(s1.servers[node], position));
        }
        if reply.Some? {
          assert At(source.seg, extra, node, source.seg.servers[node]);
        }
      } else {
        var unsent := source.Lost(node);
        if unsent {
          return None;
        }
        ExtrasAt(s1, x1, node);
        TrimStep(s1, x1[node], position);
        var trimmed := PrefixTrim(extra[node], position);
        extra := extra[node := trimmed];
        ExtraMoves(s1, x1, node, trimmed);
        assert At(source.seg, extra, node, extra[node]);
        ExtraDoes(s1, x1, node, trimmed);
        var lost := source.Lost(node);
        watermark := if lost then None else Some(trimmed.trimmed);
      }
      MovesOnTransitive(s0, x0, s1, x1, source.seg, extra);
      MovedFits(s0, x0, source.seg, extra);
    }

    method SealAt(node: NodeId, knownTail: nat) returns (done: bool)
      requires Valid() && Knows(node) && knownTail <= source.seg.known
      modifies this, source
      ensures Valid() && MovesOn(old(source.seg), old(extra), source.seg, extra)
      ensures done ==> SealedAt(source.seg, extra, node)
      ensures node in All(old(source.seg), old(extra))
      ensures source.calm && node in source.down ==>
        !done && source.seg == old(source.seg) && extra == old(extra)
      ensures source.calm && node !in source.down ==>
        && Does(old(source.seg), old(extra), source.seg, extra, node,
                Seal(All(old(source.seg), old(extra))[node], knownTail))
        && done
    {
      hide Inv, Interference, ExtrasFit, ExtrasGrow, ExtraFits, LocalTail, ServerGrows, Grows, Does;
      ghost var s0, x0 := source.seg, extra;
      Interfere();
      ghost var s1, x1 := source.seg, extra;
      MovedFits(s0, x0, s1, x1);
      if node in source.seg.servers {
        var reply := source.SealServer(node, knownTail);
        SourceMoves(s1, source.seg, x1, source.quiet);
        done := reply.Some?;
        if source.calm && node !in source.down {
          SourceDoes(s1, x1, source.seg, node, Seal(s1.servers[node], knownTail));
        }
        if done {
          assert At(source.seg, extra, node, source.seg.servers[node]);
        }
      } else {
        var unsent := source.Lost(node);
        if unsent {
          return false;
        }
        ExtrasAt(s1, x1, node);
        SealStep(s1, x1[node], knownTail);
        var closed := Seal(extra[node], knownTail);
        extra := extra[node := closed];
        ExtraMoves(s1, x1, node, closed);
        assert At(source.seg, extra, node, extra[node]);
        ExtraDoes(s1, x1, node, closed);
        var lost := source.Lost(node);
        done := !lost;
      }
      MovesOnTransitive(s0, x0, s1, x1, source.seg, extra);
      MovedFits(s0, x0, source.seg, extra);
    }

    /** The state request at one server of either membership. */
    method StateAt(node: NodeId, knownTail: nat) returns (reply: Option<LogServerState>)
      requires Valid() && Knows(node) && knownTail <= source.seg.known
      modifies this, source
      ensures Valid() && MovesOn(old(source.seg), old(extra), source.seg, extra)
      ensures reply.Some? ==> TargetReplied(old(source.seg), old(extra), source.seg, extra, node, reply.value)
      ensures node in All(old(source.seg), old(extra)) && node in All(source.seg, extra)
      ensures source.calm && node in source.down ==>
        reply.None? && source.seg == old(source.seg) && extra == old(extra)
      ensures source.calm && node !in source.down ==>
        && Does(old(source.seg), old(extra), source.seg, extra, node,
                Observe(All(old(source.seg), old(extra))[node], knownTail))
        && reply == Some(StateOf(All(source.seg, extra)[node]))
    {
      hide Inv, Interference, ExtrasFit, ExtrasGrow, ExtraFits, LocalTail, ServerGrows, Grows, StateReplied,
        TargetReplied, Observe, Does;
      ghost var s0, x0 := source.seg, extra;
      Interfere();
      ghost var s1, x1 := source.seg, extra;
      MovedFits(s0, x0, s1, x1);
      if node in source.seg.servers {
        reply := source.ReadState(node, knownTail);
        SourceMoves(s1, source.seg, x1, source.quiet);
        if source.calm && node !in source.down {
          SourceDoes(s1, x1, source.seg, node, Observe(s1.servers[node], knownTail));
        }
        if reply.Some? {
          SourceReplied(s1, source.seg, x1, node, reply.value);
        }
      } else {
        var unsent := source.Lost(node);
        if unsent {
          return None;
        }
        ExtrasAt(s1, x1, node);
        ObserveStep(s1, x1[node], knownTail);
        var seen := Observe(extra[node], knownTail);
        extra := extra[node := seen];
        ExtraMoves(s1, x1, node, seen);
        var tail := FindLocalTail(seen);
        var state := LogServerState(tail, seen.trimmed, seen.knownTail, seen.isSealed);
        ExtraReplied(s1, x1, extra, node, seen, state);
        ExtraDoes(s1, x1, node, seen);
        var lost := source.Lost(node);
        reply := if lost then None else Some(state);
      }
      MovesOnTransitive(s0, x0, s1, x1, source.seg, extra);
      MovedFits(s0, x0, source.seg, extra);
      if reply.Some? {
        RepliedSince(s0, x0, s1, x1, source.seg, extra, node, reply.value);
      }
    }

    /** Reads one position at one server of either membership. */
    method GetAt(node: NodeId, position: nat, knownTail: nat) returns (outcome: GetOutcome)
      requires Valid() && Knows(node) && knownTail <= source.seg.known
      modifies this, source
      ensures Valid() && MovesOn(old(source.seg), old(extra), source.seg, extra)
      ensures outcome.Answer? ==>
        TargetAnswered(old(source.seg), old(extra), source.seg, extra, node, position, outcome.entry)
      ensures node in All(old(source.seg), old(extra))
      ensures source.calm && node in source.down ==>
        outcome == Unreachable && source.seg == old(source.seg) && extra == old(extra)
      ensures source.calm && node !in source.down ==>
        && Does(old(source.seg), old(extra), source.seg, extra, node,
                Observe(All(old(source.seg), old(extra))[node], knownTail))
        && outcome == Answer(EntryAt(All(old(source.seg), old(extra))[node], position))
    {
      hide Inv, Interference, ExtrasFit, ExtrasGrow, ExtraFits, LocalTail, ServerGrows, Grows, GetAnswered,
        TargetAnswered, Observe, Does;
      ghost var s0, x0 := source.seg, extra;
      Interfere();
      ghost var s1, x1 := source.seg, extra;
      MovedFits(s0, x0, s1, x1);
      if node in source.seg.servers {
        outcome := source.Get(node, position, knownTail);
        SourceMoves(s1, source.seg, x1, source.quiet);
        if source.calm && node !in source.down {
          SourceDoes(s1, x1, source.seg, node, Observe(s1.servers[node], knownTail));
        }
        if outcome.Answer? {
          SourceAnswered(s1, source.seg, x1, node, position, outcome.entry);
        }
      } else {
        var unsent := source.Lost(node);
        if unsent {
          return Unreachable;
        }
        ExtrasAt(s1, x1, node);
        ObserveStep(s1, x1[node], knownTail);
        var seen := Observe(extra[node], knownTail);
        extra := extra[node := seen];
        ExtraMoves(s1, x1, node, seen);
        var entry := if position in seen.entries then Some(seen.entries[position]) else None;
        ExtraAnswered(s1, x1, extra, node, seen, position, entry);
        ExtraDoes(s1, x1, node, seen);
        SameEntries(x1[node], knownTail);
        var lost := source.Lost(node);
        outcome := if lost then Unreachable else Answer(entry);
      }
      MovesOnTransitive(s0, x0, s1, x1, source.seg, extra);
      MovedFits(s0, x0, source.seg, extra);
      if outcome.Answer? {
        AnsweredSince(s0, x0, s1, x1, source.seg, extra, node, position, outcome.entry);
      }
    }
  }

  lemma SameEntries(s: SegmentState, knownTail: nat)
    ensures Observe(s, knownTail).entries == s.entries
  {
  }

  // ---- What replies show -------------------------------------------------------------------------

  /** The reply was true of the server at a moment between the two states. */
  ghost predicate TargetReplied(s: Segment, x: Extras, t: Segment, y: Extras, node: NodeId, state: LogServerState) {
    exists a, b :: At(s, x, node, a) && At(t, y, node, b) && RepliedBetween(t.known, a, b, state)
  }

  ghost predicate RepliedBetween(known: nat, a: SegmentState, b: SegmentState, state: LogServerState) {
    && LocalTail(a) <= state.localTail <= LocalTail(b) && a.trimmed <= state.trimmedPrefix <= b.trimmed
    && state.trimmedPrefix <= known && state.knownTail <= known
    && (a.isSealed ==> state.isSealed) && (state.isSealed ==> b.isSealed)
  }

  lemma SourceReplied(s: Segment, t: Segment, x: Extras, node: NodeId, state: LogServerState)
    requires StateReplied(s, t, node, state)
    ensures TargetReplied(s, x, t, x, node, state)
  {
    hide LocalTail;
    assert At(s, x, node, s.servers[node]) && At(t, x, node, t.servers[node]);
    assert RepliedBetween(t.known, s.servers[node], t.servers[node], state);
  }

  lemma ExtraReplied(s: Segment, x: Extras, y: Extras, node: NodeId, seen: SegmentState, state: LogServerState)
    requires node !in s.servers && node in x && y == x[node := seen] && ExtraFits(s, seen) && ServerGrows(x[node], seen)
    requires state == StateOf(seen)
    ensures TargetReplied(s, x, s, y, node, state)
  {
    hide LocalTail;
    assert At(s, x, node, x[node]) && At(s, y, node, seen);
    assert RepliedBetween(s.known, x[node], seen, state);
  }

  /** A reply read later than `s` and held by an earlier `u` still holds between `s` and a later `v`. */
  lemma RepliedLonger(s: Segment, x: Extras, t: Segment, y: Extras, u: Segment, z: Extras, v: Segment, w: Extras,
      node: NodeId, state: LogServerState)
    requires MovesOn(s, x, t, y) && TargetReplied(t, y, u, z, node, state) && MovesOn(u, z, v, w) && u.known <= v.known
    ensures TargetReplied(s, x, v, w, node, state)
  {
    hide LocalTail, MovesOn;
    var b, c :| At(t, y, node, b) && At(u, z, node, c) && RepliedBetween(u.known, b, c, state);
    var a := StateBefore(s, x, t, y, node, b);
    var d := StateMoves(u, z, v, w, node, c);
    assert RepliedBetween(v.known, a, d, state);
  }

  lemma RepliedSince(s: Segment, x: Extras, t: Segment, y: Extras, u: Segment, z: Extras, node: NodeId,
      state: LogServerState)
    requires MovesOn(s, x, t, y) && MovesOn(t, y, u, z) && TargetReplied(t, y, u, z, node, state)
    ensures TargetReplied(s, x, u, z, node, state)
  {
    hide LocalTail, MovesOn;
    var b, c :| At(t, y, node, b) && At(u, z, node, c) && RepliedBetween(u.known, b, c, state);
    var a := StateBefore(s, x, t, y, node, b);
    assert RepliedBetween(u.known, a, c, state);
  }

  lemma StateBefore(s: Segment, x: Extras, t: Segment, y: Extras, n: NodeId, b: SegmentState) returns (a: SegmentState)
    requires MovesOn(s, x, t, y) && At(t, y, n, b)
    ensures At(s, x, n, a) && ServerGrows(a, b)
  {
    hide Inv, ServerGrows;
    InterferenceGives(s, t, false, false);
    a := if n in s.servers then s.servers[n] else x[n];
  }

  /**
   What a read of one position found: the source's entry, fit for repairs if the server was sealed; or
   nothing, and then what the server covered before has been trimmed.
   */
  ghost predicate TargetAnswered(s: Segment, x: Extras, t: Segment, y: Extras, node: NodeId, position: nat,
      entry: Option<LogEntry>) {
    && (entry.Some? ==>
          && position < |t.issued| && entry.value == t.issued[position] && entry.value.position == position
          && CoversAt(t, y, node, position) && (SealedAt(t, y, node) ==> Repairable(t, position)))
    && (entry.None? ==> (CoversAt(s, x, node, position) ==> TrimmedAt(t, y, node, position + 1)))
  }

  lemma SourceAnswered(s: Segment, t: Segment, x: Extras, node: NodeId, position: nat, entry: Option<LogEntry>)
    requires GetAnswered(s, t, node, position, entry)
    ensures TargetAnswered(s, x, t, x, node, position, entry)
  {
    hide LocalTail;
    assert At(t, x, node, t.servers[node]);
    if entry.Some? && SealedAt(t, x, node) && PutOk(node, position) in t.puts {
      assert SealedHolder(t, node, position);
    }
  }

  lemma ExtraAnswered(s: Segment, x: Extras, y: Extras, node: NodeId, seen: SegmentState, position: nat,
      entry: Option<LogEntry>)
    requires Inv(s) && node !in s.servers && node in x && y == x[node := seen] && ExtraFits(s, seen)
    requires ServerGrows(x[node], seen)
    requires entry == if position in seen.entries then Some(seen.entries[position]) else None
    ensures TargetAnswered(s, x, s, y, node, position, entry)
  {
    hide LocalTail, Inv, Repairable;
    ShapeFacts(s);
    assert At(s, y, node, seen);
  }

  lemma AnsweredSince(s: Segment, x: Extras, t: Segment, y: Extras, u: Segment, z: Extras, node: NodeId, position: nat,
      entry: Option<LogEntry>)
    requires MovesOn(s, x, t, y) && TargetAnswered(t, y, u, z, node, position, entry)
    ensures TargetAnswered(s, x, u, z, node, position, entry)
  {
    hide MovesOn, CoversAt, SealedAt, TrimmedAt, Repairable;
    ConfirmationsStay(s, x, t, y, node, position);
  }

  lemma RepairStillThere(s: Segment, t: Segment, node: NodeId, position: nat)
    requires Inv(s) && Inv(t) && Grows(s, t) && Repairable(s, position) && position < |s.issued|
    requires node in s.servers ==> DenseUpTo(s, node, position)
    ensures Repairable(t, position) && position < |t.issued| && t.issued[position] == s.issued[position]
    ensures node in s.servers ==> DenseUpTo(t, node, position)
    ensures t.issued[position].position == position
  {
    hide Inv, LocalTail, ServerGrows, DenseUpTo;
    ShapeFacts(t);
    RepairableStays(s, t, position);
    if node in s.servers {
      DenseStays(s, t, node, position);
    }
  }

  lemma ExtrasAt(s: Segment, x: Extras, n: NodeId)
    requires ExtrasFit(s, x) && n in x
    ensures ExtraFits(s, x[n])
  {
  }

  lemma MovedFits(s: Segment, x: Extras, t: Segment, y: Extras)
    requires MovesOn(s, x, t, y)
    ensures Inv(t) && ExtrasFit(t, y) && Grows(s, t) && x.Keys == y.Keys
    ensures t.servers.Keys == s.servers.Keys && s.known <= t.known && s.issued <= t.issued && t.members == s.members
  {
    hide Inv, ExtrasFit;
    InterferenceGives(s, t, false, false);
  }

  ghost predicate Distinct(nodes: seq<NodeId>) {
    forall i, j :: 0 <= i < j < |nodes| ==> nodes[i] != nodes[j]
  }

  /** Distinct target members that confirmed something are a quorum once there are enough of them. */
  lemma CoveringQuorum(s: Segment, x: Extras, target: set<NodeId>, confirmed: seq<NodeId>, p: nat)
    requires Distinct(confirmed) && Majority(|target|) <= |confirmed|
    requires forall n :: n in confirmed ==> n in target && CoversAt(s, x, n, p)
    ensures TargetCovered(s, x, target, p)
  {
    hide CoversAt;
    DistinctSize(confirmed);
    SubsetSize(Elements(confirmed), TargetCoverers(s, x, target, p));
  }

  lemma SealingQuorum(s: Segment, x: Extras, target: set<NodeId>, confirmed: seq<NodeId>)
    requires Distinct(confirmed) && Majority(|target|) <= |confirmed|
    requires forall n :: n in confirmed ==> n in target && SealedAt(s, x, n)
    ensures IsQuorum(target, TargetSealed(s, x, target))
  {
    hide SealedAt;
    DistinctSize(confirmed);
    SubsetSize(Elements(confirmed), TargetSealed(s, x, target));
  }

  lemma TrimmingQuorum(s: Segment, x: Extras, target: set<NodeId>, confirmed: seq<NodeId>, watermark: nat)
    requires Distinct(confirmed) && Majority(|target|) <= |confirmed|
    requires forall n :: n in confirmed ==> n in target && TrimmedAt(s, x, n, watermark)
    ensures RangeCovered(s, x, target, 0, watermark) && IsQuorum(target, TargetTrimmers(s, x, target, watermark))
  {
    hide TrimmedAt, CoversAt, TargetCovered;
    DistinctSize(confirmed);
    assert Elements(confirmed) <= TargetTrimmers(s, x, target, watermark);
    SubsetSize(Elements(confirmed), TargetTrimmers(s, x, target, watermark));
    forall p: nat | 0 <= p < watermark
      ensures TargetCovered(s, x, target, p)
    {
      forall n | n in confirmed
        ensures CoversAt(s, x, n, p)
      {
        TrimmedCovers(s, x, n, watermark, p);
      }
      CoveringQuorum(s, x, target, confirmed, p);
    }
  }

  lemma TrimmedCovers(s: Segment, x: Extras, n: NodeId, watermark: nat, p: nat)
    requires TrimmedAt(s, x, n, watermark) && p < watermark
    ensures CoversAt(s, x, n, p)
  {
    var state :| At(s, x, n, state) && watermark <= state.trimmed;
    assert state.Covers(p);
  }

  lemma LowerTrim(s: Segment, x: Extras, n: NodeId, watermark: nat, lower: nat)
    requires TrimmedAt(s, x, n, watermark) && lower <= watermark
    ensures TrimmedAt(s, x, n, lower)
  {
    var state :| At(s, x, n, state) && watermark <= state.trimmed;
    assert lower <= state.trimmed;
  }

  lemma AllStay(s: Segment, x: Extras, t: Segment, y: Extras, nodes: seq<NodeId>, p: nat)
    requires MovesOn(s, x, t, y)
    ensures (forall n :: n in nodes ==> CoversAt(s, x, n, p)) ==> forall n :: n in nodes ==> CoversAt(t, y, n, p)
    ensures (forall n :: n in nodes ==> SealedAt(s, x, n)) ==> forall n :: n in nodes ==> SealedAt(t, y, n)
    ensures (forall n :: n in nodes ==> TrimmedAt(s, x, n, p)) ==> forall n :: n in nodes ==> TrimmedAt(t, y, n, p)
  {
    hide MovesOn, CoversAt, SealedAt, TrimmedAt;
    forall n | n in nodes
      ensures CoversAt(s, x, n, p) ==> CoversAt(t, y, n, p)
      ensures SealedAt(s, x, n) ==> SealedAt(t, y, n)
      ensures TrimmedAt(s, x, n, p) ==> TrimmedAt(t, y, n, p)
    {
      ConfirmationsStay(s, x, t, y, n, p);
    }
  }

  lemma AllLower(s: Segment, x: Extras, nodes: seq<NodeId>, watermark: nat, lower: nat)
    requires forall n :: n in nodes ==> TrimmedAt(s, x, n, watermark)
    requires nodes == [] || lower <= watermark
    ensures forall n :: n in nodes ==> TrimmedAt(s, x, n, lower)
  {
    hide TrimmedAt;
    forall n | n in nodes
      ensures TrimmedAt(s, x, n, lower)
    {
      LowerTrim(s, x, n, watermark, lower);
    }
  }

  // ---- Members that hold the same ------------------------------------------------------------------

  /** Each of the nodes has trimmed to `trim` and holds exactly the positions [from, upTo). */
  ghost predicate Uniform(a: map<NodeId, SegmentState>, nodes: seq<NodeId>, trim: nat, from: nat, upTo: nat,
      isSealed: bool)
  {
    forall n :: n in nodes ==> n in a && HoldsExactly(a[n], trim, from, upTo) && a[n].isSealed == isSealed
  }

  ghost predicate HoldsExactly(x: SegmentState, trim: nat, from: nat, upTo: nat) {
    x.trimmed == trim && forall p: nat :: p in x.entries <==> from <= p < upTo
  }

  /** What nodes outside the list hold and how far they have trimmed has not changed. */
  ghost predicate OthersSame(a: map<NodeId, SegmentState>, b: map<NodeId, SegmentState>, nodes: seq<NodeId>) {
    && b.Keys == a.Keys
    && forall n :: n in a && n !in nodes ==> b[n].entries == a[n].entries && b[n].trimmed == a[n].trimmed
  }

  lemma OthersReflexive(a: map<NodeId, SegmentState>, nodes: seq<NodeId>)
    ensures OthersSame(a, a, nodes)
  {
  }

  lemma OthersJoin(a: map<NodeId, SegmentState>, b: map<NodeId, SegmentState>, c: map<NodeId, SegmentState>,
      nodes: seq<NodeId>)
    requires OthersSame(a, b, nodes) && OthersSame(b, c, nodes)
    ensures OthersSame(a, c, nodes)
  {
  }

  /** One more node has come to this shape; those after it keep theirs. */
  lemma UniformStep(a: map<NodeId, SegmentState>, nodes: seq<NodeId>, i: nat, server: SegmentState,
      trim: nat, from: nat, upTo: nat, isSealed: bool)
    requires i < |nodes| && nodes[i] in a && Distinct(nodes) && Uniform(a, nodes[..i], trim, from, upTo, isSealed)
    requires HoldsExactly(server, trim, from, upTo) && server.isSealed == isSealed
    ensures Uniform(a[nodes[i] := server], nodes[..i + 1], trim, from, upTo, isSealed)
  {
    hide HoldsExactly;
    assert nodes[..i + 1] == nodes[..i] + [nodes[i]];
  }

  lemma UniformRest(a: map<NodeId, SegmentState>, nodes: seq<NodeId>, i: nat, server: SegmentState,
      trim: nat, from: nat, upTo: nat, isSealed: bool)
    requires i < |nodes| && nodes[i] in a && Distinct(nodes) && Uniform(a, nodes[i..], trim, from, upTo, isSealed)
    ensures HoldsExactly(a[nodes[i]], trim, from, upTo) && a[nodes[i]].isSealed == isSealed
    ensures Uniform(a[nodes[i] := server], nodes[i + 1..], trim, from, upTo, isSealed)
    ensures OthersSame(a, a[nodes[i] := server], nodes)
  {
    hide HoldsExactly;
    assert nodes[i..][0] == nodes[i];
    assert forall n :: n in nodes[i + 1..] ==> n != nodes[i] && n in nodes[i..];
  }

  /** The tail of a server that holds such a range. */
  lemma ExactTail(x: SegmentState, trim: nat, from: nat, upTo: nat)
    requires HoldsExactly(x, trim, from, upTo) && (from < upTo ==> trim <= upTo)
    ensures LocalTail(x) == if from < upTo then upTo else trim
  {
    var tail := if from < upTo then upTo else trim;
    assert from < upTo ==> upTo - 1 in x.entries;
    LocalTailUnique(x, tail);
  }

  /** The next repair adds the next position. */
  lemma RepairExact(x: SegmentState, entry: LogEntry, knownTail: nat, from: nat)
    requires HoldsExactly(x, 0, from, entry.position) && from <= entry.position
    ensures var r := Repair(x, entry, knownTail);
      r.1 == Stored && HoldsExactly(r.0, 0, from, entry.position + 1) && r.0.isSealed == x.isSealed
  {
    RepairAnswers(x, entry, knownTail);
  }

  lemma TrimExact(x: SegmentState, trim: nat, upTo: nat)
    requires HoldsExactly(x, 0, trim, upTo)
    ensures HoldsExactly(PrefixTrim(x, trim), trim, trim, upTo) && PrefixTrim(x, trim).isSealed == x.isSealed
  {
  }

  lemma FlagsExact(x: SegmentState, knownTail: nat, trim: nat, from: nat, upTo: nat)
    requires HoldsExactly(x, trim, from, upTo)
    ensures HoldsExactly(Seal(x, knownTail), trim, from, upTo) && Seal(x, knownTail).isSealed
    ensures HoldsExactly(Observe(x, knownTail), trim, from, upTo) && Observe(x, knownTail).isSealed == x.isSealed
  {
  }

  lemma DoesMeans(s: Segment, x: Extras, t: Segment, y: Extras, node: NodeId, server: SegmentState)
    requires Does(s, x, t, y, node, server)
    ensures All(t, y) == All(s, x)[node := server] && t.known == s.known
  {
  }
}
