/**
 The VirtualLog's shared state: the chains installed in the MetaStore, what each Loglet has promised,
 and the appends acknowledged through it (virtual_log/core.py, virtual_log/loglet.py). A client may act
 through any installed chain, however old.
 */
module VirtualLogProtocol {
  import opened Wrappers
  import opened LogChains
  import opened Register

  datatype LogCommand = LogCommand(commandId: string, payload: seq<int>)

  /**
   What one Loglet has promised: the commands it has placed, the local positions it acknowledged, the
   tails its sealed check_tails returned, the highest tail it established, the trim watermark it
   certified, and the highest position below which any of its copies may be gone.
   */
  datatype Loglet = Loglet(
    issued: map<nat, LogCommand>,
    acked: set<nat>,
    sealedTails: set<nat>,
    established: nat,
    trimmed: nat,
    discarded: nat)

  const UNTOUCHED := Loglet(map[], {}, {}, 0, 0, 0)

  /**
   The Loglet contract: one command per position, acknowledged positions below every sealed tail, and
   nothing acknowledged or returned as a sealed tail that is not established.
   */
  ghost predicate Contract(l: Loglet) {
    && l.acked <= l.issued.Keys
    && (forall p, tail :: p in l.acked && tail in l.sealedTails ==> p < tail)
    && (forall tail :: tail in l.sealedTails ==> tail <= l.established)
    && (forall p :: p in l.acked ==> p < l.established)
    && l.trimmed <= l.discarded
  }

  /** Everything the Loglet acknowledged lies below `tail`. */
  ghost predicate AckedBelow(l: Loglet, tail: nat) {
    forall p :: p in l.acked ==> p < tail
  }

  /** A Loglet takes nothing back, and places nothing new below what it has established. */
  ghost predicate Evolves(a: Loglet, b: Loglet) {
    && (forall p :: p in a.issued ==> p in b.issued && b.issued[p] == a.issued[p])
    && (forall p :: p in b.issued && p < a.established ==> p in a.issued)
    && a.acked <= b.acked && a.sealedTails <= b.sealedTails
    && a.established <= b.established
    && a.trimmed <= b.trimmed && a.discarded <= b.discarded
  }

  /** A segment ever activated, with the start it was given. */
  datatype Placed = Placed(segmentId: string, start: nat)

  /** The segments an installed chain lists: `placed[low..high]`. */
  datatype Window = Window(low: nat, high: nat)

  /** An append that returned `position` through the chain of `version`. */
  datatype Ack = Ack(position: nat, command: LogCommand, segmentId: string, local: nat, version: nat)

  /** `chains[v - 1]` is the chain installed as version v. */
  datatype State = State(
    loglets: map<string, Loglet>,
    chains: seq<LogChain>,
    placed: seq<Placed>,
    windows: seq<Window>,
    acks: set<Ack>)

  datatype Action =
    | LogletAction(segmentId: string, loglet: Loglet)
    | AcknowledgeAction(version: nat, local: nat)
    | BootstrapAction(segment: LogSegment)
    | ExtendAction(next: NewLogletConfiguration, tail: nat)
    | TruncateAction
    | ModifyAction(index: nat, configuration: LogletConfiguration)

  function LogletOf(s: State, segmentId: string): Loglet {
    if segmentId in s.loglets then s.loglets[segmentId] else UNTOUCHED
  }

  function RegisterOf(s: State): VersionedLogChain {
    VersionedLogChain(|s.chains|, if s.chains == [] then None else Some(s.chains[|s.chains| - 1]))
  }

  /** The snapshot is one of the versions ever installed. */
  ghost predicate Installed(s: State, snapshot: VersionedLogChain) {
    0 < snapshot.version <= |s.chains| && snapshot.chain == Some(s.chains[snapshot.version - 1])
  }

  /** No segment ever activated had this identifier. */
  predicate Unused(s: State, segmentId: string) {
    forall k :: 0 <= k < |s.placed| ==> s.placed[k].segmentId != segmentId
  }

  // ---- Reconfigurations of a chain -----------------------------------------------------------

  /** The active segment closes at its sealed tail and a fresh one opens there. */
  function Extended(chain: LogChain, next: NewLogletConfiguration, tail: nat): LogChain
    requires chain.segments != []
  {
    var active := chain.Active();
    var stop := active.virtualStart + tail;
    LogChain(chain.segments[..|chain.segments| - 1] + [active.(virtualStop := Some(stop)), next.Activate(stop)])
  }

  function Truncated(chain: LogChain): LogChain
    requires chain.segments != []
  {
    LogChain(chain.segments[1..])
  }

  function Modified(chain: LogChain, index: nat, configuration: LogletConfiguration): LogChain
    requires index < |chain.segments|
  {
    LogChain(chain.segments[index := chain.segments[index].(loglet := configuration)])
  }

  // ---- Steps -----------------------------------------------------------------------------------

  function Current(s: State): LogChain
    requires s.chains != []
  {
    s.chains[|s.chains| - 1]
  }

  ghost predicate Enabled(s: State, action: Action) {
    match action
    case LogletAction(segmentId, loglet) =>
      Contract(loglet) && Evolves(LogletOf(s, segmentId), loglet)
    case AcknowledgeAction(version, local) =>
      && 0 < version <= |s.chains| && s.chains[version - 1].segments != []
      && Contract(LogletOf(s, s.chains[version - 1].Active().segmentId))
      && local in LogletOf(s, s.chains[version - 1].Active().segmentId).acked
    case BootstrapAction(segment) =>
      s.chains == [] && s.placed == [] && segment.Valid() && segment.virtualStart == 0 && segment.virtualStop == None
    case ExtendAction(next, tail) =>
      && s.chains != [] && Current(s).segments != []
      && tail in LogletOf(s, Current(s).Active().segmentId).sealedTails
      && next.segmentId != "" && Unused(s, next.segmentId)
    case TruncateAction =>
      && s.chains != [] && 1 < |Current(s).segments|
      && FullyTrimmed(s, Current(s).First())
    case ModifyAction(index, configuration) =>
      && s.chains != [] && index < |Current(s).segments|
      && Current(s).segments[index].virtualStop.Some?
  }

  /** The segment has ended and its Loglet certified the trim of all of it. */
  ghost predicate FullyTrimmed(s: State, segment: LogSegment) {
    && segment.virtualStop.Some?
    && segment.virtualStop.value <= segment.virtualStart + LogletOf(s, segment.segmentId).trimmed
  }

  function Install(s: State, chain: LogChain, placed: seq<Placed>, window: Window): State {
    s.(chains := s.chains + [chain], placed := placed, windows := s.windows + [window])
  }

  function After(s: State, action: Action): State
    requires Enabled(s, action) && |s.windows| == |s.chains|
  {
    match action
    case LogletAction(segmentId, loglet) =>
      s.(loglets := s.loglets[segmentId := loglet])
    case AcknowledgeAction(version, local) =>
      s.(acks := s.acks + {AckOf(s, version, local)})
    case BootstrapAction(segment) =>
      Install(s, LogChain([segment]), [Placed(segment.segmentId, 0)], Window(0, 1))
    case ExtendAction(next, tail) =>
      var chain := Extended(Current(s), next, tail);
      var window := s.windows[|s.windows| - 1];
      var placed := s.placed + [Placed(next.segmentId, chain.Active().virtualStart)];
      Install(s, chain, placed, window.(high := window.high + 1))
    case TruncateAction =>
      var window := s.windows[|s.windows| - 1];
      Install(s, Truncated(Current(s)), s.placed, window.(low := window.low + 1))
    case ModifyAction(index, configuration) =>
      Install(s, Modified(Current(s), index, configuration), s.placed, s.windows[|s.windows| - 1])
  }

  /** What an append through the chain of `version` returns for a local position. */
  function AckOf(s: State, version: nat, local: nat): Ack
    requires 0 < version <= |s.chains| && s.chains[version - 1].segments != []
    requires local in LogletOf(s, s.chains[version - 1].Active().segmentId).issued
  {
    var active := s.chains[version - 1].Active();
    Ack(active.virtualStart + local, LogletOf(s, active.segmentId).issued[local], active.segmentId, local, version)
  }

  ghost predicate Init(s: State) {
    s == State(map[], [], [], [], {})
  }

  ghost predicate Next(s: State, t: State) {
    |s.windows| == |s.chains| && exists action :: Enabled(s, action) && t == After(s, action)
  }

  ghost predicate Run(run: seq<State>) {
    && run != [] && Init(run[0])
    && forall i :: 0 < i < |run| ==> Next(run[i - 1], run[i])
  }

  // ---- The inductive invariant -------------------------------------------------------------------

  ghost predicate ContractsHold(s: State) {
    forall id :: id in s.loglets ==> Contract(s.loglets[id])
  }

  function StopAt(placed: seq<Placed>, high: nat, k: nat): Option<nat>
    requires high <= |placed|
  {
    if k + 1 < high then Some(placed[k + 1].start) else None
  }

  /** The chain lists exactly the segments of its window, each ending where the next one starts. */
  ghost predicate IsWindow(chain: LogChain, placed: seq<Placed>, w: Window) {
    && w.low < w.high <= |placed| && |chain.segments| == w.high - w.low
    && (forall i :: 0 <= i < |chain.segments| ==> ListsPlaced(chain.segments[i], placed, w.high, w.low + i))
  }

  ghost predicate ListsPlaced(segment: LogSegment, placed: seq<Placed>, high: nat, k: nat) {
    && k < high <= |placed|
    && segment.segmentId == placed[k].segmentId && segment.virtualStart == placed[k].start
    && segment.virtualStop == StopAt(placed, high, k)
  }

  /** Every chain is a window of the one list of segments, and windows only move up. */
  ghost predicate WindowsFit(s: State) {
    && |s.windows| == |s.chains|
    && (s.chains == [] <==> s.placed == [])
    && (forall i :: 0 <= i < |s.chains| ==> IsWindow(s.chains[i], s.placed, s.windows[i]))
    && (forall i, j :: 0 <= i <= j < |s.windows| ==>
          s.windows[i].low <= s.windows[j].low && s.windows[i].high <= s.windows[j].high)
    && (s.windows != [] ==> s.windows[|s.windows| - 1].high == |s.placed|)
  }

  /** Segment k ended at a tail its sealed Loglet reported, and there segment k + 1 began. */
  ghost predicate EndedSealed(s: State, k: nat)
    requires k + 1 < |s.placed|
  {
    && s.placed[k].start <= s.placed[k + 1].start
    && s.placed[k + 1].start - s.placed[k].start in LogletOf(s, s.placed[k].segmentId).sealedTails
  }

  ghost predicate PlacedInOrder(s: State) {
    && (forall k :: 0 <= k < |s.placed| ==> s.placed[k].segmentId != "")
    && (forall j, k :: 0 <= j < k < |s.placed| ==> s.placed[j].segmentId != s.placed[k].segmentId)
    && (forall k :: 0 <= k && k + 1 < |s.placed| ==> EndedSealed(s, k))
  }

  /** The append went to segment k and was given the address its local position has there. */
  ghost predicate PlacedAs(s: State, k: int, a: Ack) {
    && 0 <= k < |s.placed| && a.segmentId == s.placed[k].segmentId
    && a.position == s.placed[k].start + a.local
  }

  ghost predicate AckFits(s: State, a: Ack) {
    && 0 < a.version <= |s.windows|
    && PlacedAs(s, s.windows[a.version - 1].high - 1, a)
    && a.local in LogletOf(s, a.segmentId).acked
    && a.local in LogletOf(s, a.segmentId).issued && LogletOf(s, a.segmentId).issued[a.local] == a.command
  }

  ghost predicate AcksFit(s: State) {
    forall a :: a in s.acks ==> AckFits(s, a)
  }

  /** What no longer appears in the current chain has been trimmed to its end. */
  ghost predicate DroppedTrimmed(s: State) {
    s.windows != [] ==>
      forall k :: 0 <= k < s.windows[|s.windows| - 1].low && k + 1 < |s.placed| ==> EndTrimmed(s, k)
  }

  ghost predicate EndTrimmed(s: State, k: nat)
    requires k + 1 < |s.placed|
  {
    s.placed[k + 1].start <= s.placed[k].start + LogletOf(s, s.placed[k].segmentId).trimmed
  }

  /** Each version follows from the one before by one extend, truncate or modify. */
  ghost predicate Reconfigures(c: LogChain, d: LogChain) {
    c.segments != [] &&
    (|| (exists next, tail :: d == Extended(c, next, tail))
     || (1 < |c.segments| && d == Truncated(c))
     || (exists index: nat, configuration ::
           index < |c.segments| && c.segments[index].virtualStop.Some? && d == Modified(c, index, configuration)))
  }

  ghost predicate HistorySteps(s: State) {
    forall i :: 0 < i < |s.chains| ==> Reconfigures(s.chains[i - 1], s.chains[i])
  }

  ghost predicate Inv(s: State) {
    ContractsHold(s) && WindowsFit(s) && PlacedInOrder(s) && AcksFit(s) && DroppedTrimmed(s) && HistorySteps(s)
  }

  /** What no step takes back. */
  ghost predicate Grows(s: State, t: State) {
    && s.chains <= t.chains && s.placed <= t.placed && s.windows <= t.windows && s.acks <= t.acks
    && (forall id: string :: Evolves(LogletOf(s, id), LogletOf(t, id)))
  }

  lemma GrowsReflexive(s: State)
    ensures Grows(s, s)
  {
  }

  lemma GrowsTransitive(s: State, t: State, u: State)
    requires Grows(s, t) && Grows(t, u)
    ensures Grows(s, u)
  {
    forall id: string
      ensures Evolves(LogletOf(s, id), LogletOf(u, id))
    {
      assert Evolves(LogletOf(s, id), LogletOf(t, id)) && Evolves(LogletOf(t, id), LogletOf(u, id));
    }
  }

  // ---- Every step keeps the invariant --------------------------------------------------------------

  /** What lies behind stays settled while the list of segments stands still. */
  lemma SettledStays(s: State, t: State)
    requires PlacedInOrder(s) && t.placed == s.placed
    requires forall id: string :: Evolves(LogletOf(s, id), LogletOf(t, id))
    ensures PlacedInOrder(t)
    ensures forall k :: 0 <= k && k + 1 < |s.placed| && EndTrimmed(s, k) ==> EndTrimmed(t, k)
  {
    forall k | 0 <= k && k + 1 < |t.placed|
      ensures EndedSealed(t, k) && (EndTrimmed(s, k) ==> EndTrimmed(t, k))
    {
      assert EndedSealed(s, k);
      assert Evolves(LogletOf(s, s.placed[k].segmentId), LogletOf(t, s.placed[k].segmentId));
    }
  }

  lemma LogletKeepsInv(s: State, action: Action)
    requires Inv(s) && action.LogletAction? && Enabled(s, action)
    ensures Inv(After(s, action)) && Grows(s, After(s, action))
  {
    hide HistorySteps, IsWindow, EndedSealed, EndTrimmed;
    var t := After(s, action);
    assert Grows(s, t);
    SettledStays(s, t);
    forall a | a in t.acks
      ensures AckFits(t, a)
    {
      assert AckFits(s, a);
      assert Evolves(LogletOf(s, a.segmentId), LogletOf(t, a.segmentId));
    }
    assert HistorySteps(t) by { HistorySame(s, t); }
  }

  lemma HistorySame(s: State, t: State)
    requires HistorySteps(s) && t.chains == s.chains
    ensures HistorySteps(t)
  {
  }

  lemma AcknowledgeKeepsInv(s: State, action: Action)
    requires Inv(s) && action.AcknowledgeAction? && Enabled(s, action)
    ensures Inv(After(s, action)) && Grows(s, After(s, action))
  {
    hide HistorySteps, EndedSealed, EndTrimmed;
    var t := After(s, action);
    HistorySame(s, t);
    SettledStays(s, t);
    var active := s.chains[action.version - 1].Active();
    var w := s.windows[action.version - 1];
    assert IsWindow(s.chains[action.version - 1], s.placed, w);
    assert ListsPlaced(active, s.placed, w.high, w.high - 1);
    assert AckFits(t, AckOf(s, action.version, action.local));
    forall a | a in s.acks
      ensures AckFits(t, a)
    {
      assert AckFits(s, a);
    }
  }

  /** Adding a chain: the rest follows from the window, the new segment's end and the trims. */
  lemma InstallKeepsInv(s: State, chain: LogChain, placed: seq<Placed>, window: Window)
    requires Inv(s) && s.placed <= placed && IsWindow(chain, placed, window) && window.high == |placed|
    requires s.windows != [] ==>
      s.windows[|s.windows| - 1].low <= window.low && s.windows[|s.windows| - 1].high <= window.high
    requires forall i :: 0 <= i < |s.chains| ==> IsWindow(s.chains[i], placed, s.windows[i])
    requires var t := Install(s, chain, placed, window);
      PlacedInOrder(t) && DroppedTrimmed(t) && HistorySteps(t)
    ensures Inv(Install(s, chain, placed, window)) && Grows(s, Install(s, chain, placed, window))
  {
    hide HistorySteps, IsWindow, PlacedInOrder, DroppedTrimmed;
    var t := Install(s, chain, placed, window);
    WindowSize(chain, placed, window);
    forall i | 0 <= i < |t.windows|
      ensures t.windows[i].low <= window.low && t.windows[i].high <= window.high
    {
      if i < |s.windows| {
        assert s.windows[i].low <= s.windows[|s.windows| - 1].low;
      }
    }
    assert WindowsFit(t);
    forall a | a in t.acks
      ensures AckFits(t, a)
    {
      assert AckFits(s, a);
    }
  }

  lemma WindowSize(chain: LogChain, placed: seq<Placed>, window: Window)
    requires IsWindow(chain, placed, window)
    ensures window.low < window.high <= |placed| && |chain.segments| == window.high - window.low
  {
  }

  /** Windows of the segments so far stay windows when segments are added. */
  lemma WindowsStay(s: State, placed: seq<Placed>)
    requires WindowsFit(s) && s.placed <= placed
    ensures forall i :: 0 <= i < |s.chains| ==> IsWindow(s.chains[i], placed, s.windows[i])
  {
    forall i | 0 <= i < |s.chains|
      ensures IsWindow(s.chains[i], placed, s.windows[i])
    {
      WindowStays(s.chains[i], s.placed, placed, s.windows[i]);
    }
  }

  lemma WindowStays(chain: LogChain, placed: seq<Placed>, longer: seq<Placed>, w: Window)
    requires IsWindow(chain, placed, w) && placed <= longer
    ensures IsWindow(chain, longer, w)
  {
    forall i | 0 <= i < |chain.segments|
      ensures ListsPlaced(chain.segments[i], longer, w.high, w.low + i)
    {
      assert ListsPlaced(chain.segments[i], placed, w.high, w.low + i);
    }
  }

  lemma HistoryGrows(s: State, t: State, chain: LogChain)
    requires HistorySteps(s) && t.chains == s.chains + [chain]
    requires s.chains != [] ==> Reconfigures(Current(s), chain)
    ensures HistorySteps(t)
  {
    hide Reconfigures;
    forall i | 0 < i < |t.chains|
      ensures Reconfigures(t.chains[i - 1], t.chains[i])
    {
      if i < |s.chains| {
        assert Reconfigures(s.chains[i - 1], s.chains[i]);
      }
    }
  }

  lemma BootstrapKeepsInv(s: State, action: Action)
    requires Inv(s) && action.BootstrapAction? && Enabled(s, action)
    ensures Inv(After(s, action)) && Grows(s, After(s, action))
  {
    hide HistorySteps;
    var chain := LogChain([action.segment]);
    var placed := [Placed(action.segment.segmentId, 0)];
    assert ListsPlaced(chain.segments[0], placed, 1, 0);
    HistoryGrows(s, After(s, action), chain);
    InstallKeepsInv(s, chain, placed, Window(0, 1));
  }

  lemma ExtendKeepsInv(s: State, action: Action)
    requires Inv(s) && action.ExtendAction? && Enabled(s, action)
    ensures Inv(After(s, action)) && Grows(s, After(s, action))
  {
    hide HistorySteps, Extended;
    var chain := Extended(Current(s), action.next, action.tail);
    var w := s.windows[|s.windows| - 1];
    var t := After(s, action);
    assert IsWindow(Current(s), s.placed, w);
    var active := Current(s).Active();
    assert ListsPlaced(active, s.placed, w.high, w.high - 1);
    ExtendedWindow(Current(s), s.placed, w, action.next, action.tail);
    HistoryGrows(s, t, chain) by { assert Reconfigures(Current(s), chain); }
    WindowsStay(s, t.placed);
    forall k | 0 <= k && k + 1 < |t.placed|
      ensures EndedSealed(t, k)
    {
      if k + 1 < |s.placed| {
        assert EndedSealed(s, k);
      }
    }
    forall k | 0 <= k < w.low && k + 1 < |t.placed|
      ensures EndTrimmed(t, k)
    {
      assert EndTrimmed(s, k);
    }
    InstallKeepsInv(s, chain, t.placed, w.(high := w.high + 1));
  }

  lemma ExtendedWindow(chain: LogChain, placed: seq<Placed>, w: Window, next: NewLogletConfiguration, tail: nat)
    requires IsWindow(chain, placed, w) && w.high == |placed|
    ensures var longer := placed + [Placed(next.segmentId, Extended(chain, next, tail).Active().virtualStart)];
      IsWindow(Extended(chain, next, tail), longer, w.(high := w.high + 1))
    ensures Extended(chain, next, tail).Active().virtualStart == chain.Active().virtualStart + tail
  {
    var d := Extended(chain, next, tail);
    var longer := placed + [Placed(next.segmentId, d.Active().virtualStart)];
    forall i | 0 <= i < |d.segments|
      ensures ListsPlaced(d.segments[i], longer, w.high + 1, w.low + i)
    {
      if i < |chain.segments| {
        assert ListsPlaced(chain.segments[i], placed, w.high, w.low + i);
      }
    }
  }

  lemma TruncatedWindow(chain: LogChain, placed: seq<Placed>, w: Window)
    requires IsWindow(chain, placed, w) && 1 < |chain.segments|
    ensures IsWindow(Truncated(chain), placed, w.(low := w.low + 1))
    ensures ListsPlaced(chain.First(), placed, w.high, w.low)
  {
    var d := Truncated(chain);
    forall i | 0 <= i < |d.segments|
      ensures ListsPlaced(d.segments[i], placed, w.high, w.low + 1 + i)
    {
      assert ListsPlaced(chain.segments[i + 1], placed, w.high, w.low + (i + 1));
    }
    assert ListsPlaced(chain.segments[0], placed, w.high, w.low + 0);
  }

  lemma TruncateKeepsInv(s: State, action: Action)
    requires Inv(s) && action.TruncateAction? && Enabled(s, action)
    ensures Inv(After(s, action)) && Grows(s, After(s, action))
  {
    hide HistorySteps, Truncated, Reconfigures, EndedSealed, AckFits;
    var chain := Truncated(Current(s));
    var w := s.windows[|s.windows| - 1];
    var t := After(s, action);
    assert IsWindow(Current(s), s.placed, w);
    TruncatedWindow(Current(s), s.placed, w);
    TruncateIsStep(s, t);
    SettledStays(s, t);
    forall k | 0 <= k < w.low + 1 && k + 1 < |t.placed|
      ensures EndTrimmed(t, k)
    {
      assert k < w.low ==> EndTrimmed(s, k);
    }
    InstallKeepsInv(s, chain, s.placed, w.(low := w.low + 1));
  }

  lemma TruncateIsStep(s: State, t: State)
    requires HistorySteps(s) && s.chains != [] && 1 < |Current(s).segments|
    requires t.chains == s.chains + [Truncated(Current(s))]
    ensures HistorySteps(t)
  {
    assert Reconfigures(Current(s), Truncated(Current(s)));
    HistoryGrows(s, t, Truncated(Current(s)));
  }

  lemma ModifyKeepsInv(s: State, action: Action)
    requires Inv(s) && action.ModifyAction? && Enabled(s, action)
    ensures Inv(After(s, action)) && Grows(s, After(s, action))
  {
    hide HistorySteps, EndedSealed, EndTrimmed, AckFits;
    var chain := Modified(Current(s), action.index, action.configuration);
    var w := s.windows[|s.windows| - 1];
    var t := After(s, action);
    assert IsWindow(Current(s), s.placed, w);
    forall i | 0 <= i < |chain.segments|
      ensures ListsPlaced(chain.segments[i], s.placed, w.high, w.low + i)
    {
      assert ListsPlaced(Current(s).segments[i], s.placed, w.high, w.low + i);
    }
    HistoryGrows(s, t, chain) by { assert Reconfigures(Current(s), chain); }
    SettledStays(s, t);
    InstallKeepsInv(s, chain, s.placed, w);
  }

  lemma StepKeepsInv(s: State, action: Action)
    requires Inv(s) && Enabled(s, action)
    ensures Inv(After(s, action)) && Grows(s, After(s, action))
  {
    hide Inv, Grows, Enabled, After;
    assert |s.windows| == |s.chains| by { SameLengths(s); }
    match action
    case LogletAction(_, _) => LogletKeepsInv(s, action);
    case AcknowledgeAction(_, _) => AcknowledgeKeepsInv(s, action);
    case BootstrapAction(_) => BootstrapKeepsInv(s, action);
    case ExtendAction(_, _) => ExtendKeepsInv(s, action);
    case TruncateAction => TruncateKeepsInv(s, action);
    case ModifyAction(_, _) => ModifyKeepsInv(s, action);
  }

  lemma SameLengths(s: State)
    requires Inv(s)
    ensures |s.windows| == |s.chains|
  {
  }
}
