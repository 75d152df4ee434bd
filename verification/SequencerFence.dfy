/**
 Who sequences a segment: the fence every process puts before its sequencers, over all processes and all
 runs of the VirtualLog (native_loglet/sequencer_registry.py, native_loglet/config.py).
 */
module SequencerFence {
  import opened Wrappers
  import opened Membership
  import opened LogChains
  import opened VirtualLogProtocol
  import opened VirtualLogTheorems

  /** What a segment's configuration says about who sequences it and who stores it. */
  datatype NativeConfiguration = NativeConfiguration(
    sequencerNode: NodeId,
    sequencerIncarnation: string,
    storageMembers: seq<NodeId>)

  /** The opaque configurations that are native ones, and what they say. */
  type Parser = map<LogletConfiguration, NativeConfiguration>

  /** What the configuration's own validators demand. */
  ghost predicate ParserFits(parser: Parser) {
    forall l :: l in parser ==>
      ValidateFixedMembers(parser[l].storageMembers) && parser[l].sequencerNode in parser[l].storageMembers
  }

  /** One incarnation of one node. */
  datatype Process = Process(node: NodeId, incarnation: string)

  /** The process has made a sequencer for the segment under this configuration. */
  datatype Made = Made(process: Process, segmentId: string, loglet: LogletConfiguration)

  datatype Fence = Serves | NotNative | NotSequencer | IncarnationMismatch

  datatype Cluster = Cluster(log: State, made: set<Made>)

  datatype ClusterAction = LogAction(action: Action) | AskAction(process: Process, version: nat)

  function Owner(configuration: NativeConfiguration): Process {
    Process(configuration.sequencerNode, configuration.sequencerIncarnation)
  }

  /** How a process answers an append for the segment, given the sequencers it has made. */
  ghost function FenceOf(parser: Parser, made: set<Made>, process: Process, segment: LogSegment): Fence {
    if segment.loglet !in parser then NotNative
    else
      var configuration := parser[segment.loglet];
      if configuration.sequencerNode != process.node then NotSequencer
      else if configuration.sequencerIncarnation != process.incarnation then IncarnationMismatch
      else if exists m :: m in made && m.process == process && m.segmentId == segment.segmentId
                       && m.loglet != segment.loglet then IncarnationMismatch
      else Serves
  }

  // ---- Steps -----------------------------------------------------------------------------------

  ghost predicate ClusterEnabled(c: Cluster, action: ClusterAction) {
    match action
    case LogAction(step) =>
      |c.log.windows| == |c.log.chains| && Enabled(c.log, step)
    case AskAction(process, version) =>
      0 < version <= |c.log.chains| && c.log.chains[version - 1].segments != []
  }

  /** An append carries the active segment of whatever installed version its sender has cached. */
  ghost function ClusterAfter(parser: Parser, c: Cluster, action: ClusterAction): Cluster
    requires ClusterEnabled(c, action)
  {
    match action
    case LogAction(step) => c.(log := After(c.log, step))
    case AskAction(process, version) =>
      var segment := c.log.chains[version - 1].Active();
      if FenceOf(parser, c.made, process, segment) == Serves then
        c.(made := c.made + {Made(process, segment.segmentId, segment.loglet)})
      else c
  }

  ghost predicate ClusterInit(c: Cluster) {
    Init(c.log) && c.made == {}
  }

  ghost predicate ClusterNext(parser: Parser, c: Cluster, d: Cluster) {
    exists action :: ClusterEnabled(c, action) && d == ClusterAfter(parser, c, action)
  }

  ghost predicate ClusterRun(parser: Parser, run: seq<Cluster>) {
    && run != [] && ClusterInit(run[0])
    && forall i :: 0 < i < |run| ==> ClusterNext(parser, run[i - 1], run[i])
  }

  // ---- One configuration while active -----------------------------------------------------------

  /** As long as no segment follows, reconfigurations leave the active segment's configuration alone. */
  lemma ActiveKept(s: State, v: nat)
    requires Inv(s) && 0 < v < |s.chains| && |s.windows| == |s.chains|
    requires s.windows[v - 1].high == s.windows[v].high
    ensures s.chains[v - 1].segments != [] && s.chains[v].segments != []
    ensures s.chains[v].Active().loglet == s.chains[v - 1].Active().loglet
  {
    hide AcksFit, DroppedTrimmed, ContractsHold, PlacedInOrder, ListsPlaced;
    var c, d := s.chains[v - 1], s.chains[v];
    WindowSize(c, s.placed, s.windows[v - 1]);
    WindowSize(d, s.placed, s.windows[v]);
    assert Reconfigures(c, d);
    LastOpen(s, v - 1);
  }

  lemma LastOpen(s: State, v: nat)
    requires Inv(s) && v < |s.chains|
    ensures s.chains[v].segments != [] && s.chains[v].Active().virtualStop == None
  {
    hide Inv;
    ChainsValid(s, v);
  }

  lemma {:induction false} ActiveKeptThrough(s: State, u: nat, v: nat)
    requires Inv(s) && u <= v < |s.chains| && |s.windows| == |s.chains|
    requires s.windows[u].high == s.windows[v].high
    ensures s.chains[u].segments != [] && s.chains[v].segments != []
    ensures s.chains[v].Active().loglet == s.chains[u].Active().loglet
    decreases v - u
  {
    hide Inv;
    LastOpen(s, u);
    LastOpen(s, v);
    if u < v {
      var w := WindowFacts(s, u, v - 1);
      var z := WindowFacts(s, v - 1, v);
      ActiveKeptThrough(s, u, v - 1);
      ActiveKept(s, v);
    }
  }

  /** In all installed chains in which a segment is the active one, it has one configuration. */
  lemma OneActiveConfiguration(s: State, u: nat, v: nat)
    requires Inv(s) && 0 < u <= |s.chains| && 0 < v <= |s.chains|
    ensures s.chains[u - 1].segments != [] && s.chains[v - 1].segments != []
    ensures s.chains[u - 1].Active().segmentId == s.chains[v - 1].Active().segmentId ==>
      s.chains[u - 1].Active().loglet == s.chains[v - 1].Active().loglet
  {
    hide Inv;
    ActiveFacts(s, u);
    ActiveFacts(s, v);
    if s.chains[u - 1].Active().segmentId == s.chains[v - 1].Active().segmentId {
      SameHigh(s, s.windows[u - 1].high, s.windows[v - 1].high);
      if u <= v {
        ActiveKeptThrough(s, u - 1, v - 1);
      } else {
        ActiveKeptThrough(s, v - 1, u - 1);
      }
    }
  }

  lemma SameHigh(s: State, i: nat, j: nat)
    requires Inv(s) && 0 < i <= |s.placed| && 0 < j <= |s.placed|
    requires s.placed[i - 1].segmentId == s.placed[j - 1].segmentId
    ensures i == j
  {
    hide AcksFit, DroppedTrimmed, HistorySteps, ContractsHold, WindowsFit;
  }

  // ---- One process per segment --------------------------------------------------------------------

  /** The sequencer was made by the owner named in the segment's configuration while active. */
  ghost predicate MadeByOwner(parser: Parser, s: State, m: Made) {
    && m.loglet in parser && m.process == Owner(parser[m.loglet])
    && exists v :: ActiveAs(s, v, m.segmentId, m.loglet)
  }

  ghost predicate ActiveAs(s: State, v: nat, segmentId: string, loglet: LogletConfiguration) {
    && 0 < v <= |s.chains| && s.chains[v - 1].segments != []
    && s.chains[v - 1].Active().segmentId == segmentId && s.chains[v - 1].Active().loglet == loglet
  }

  ghost predicate ClusterInv(parser: Parser, c: Cluster) {
    Inv(c.log) && forall m :: m in c.made ==> MadeByOwner(parser, c.log, m)
  }

  lemma ClusterStepKeepsInv(parser: Parser, c: Cluster, action: ClusterAction)
    requires ClusterInv(parser, c) && ClusterEnabled(c, action)
    ensures ClusterInv(parser, ClusterAfter(parser, c, action))
    ensures c.made <= ClusterAfter(parser, c, action).made
  {
    hide Inv, Enabled, After;
    var d := ClusterAfter(parser, c, action);
    match action
    case LogAction(step) =>
      StepKeepsInv(c.log, step);
      forall m | m in d.made
        ensures MadeByOwner(parser, d.log, m)
      {
        ActiveStays(parser, c.log, d.log, m);
      }
    case AskAction(process, version) =>
      var segment := c.log.chains[version - 1].Active();
      forall m | m in d.made
        ensures MadeByOwner(parser, d.log, m)
      {
        if m !in c.made {
          assert ActiveAs(c.log, version, m.segmentId, m.loglet);
        }
      }
  }

  lemma ActiveStays(parser: Parser, s: State, t: State, m: Made)
    requires Grows(s, t) && MadeByOwner(parser, s, m)
    ensures MadeByOwner(parser, t, m)
  {
    var v :| ActiveAs(s, v, m.segmentId, m.loglet);
    assert ActiveAs(t, v, m.segmentId, m.loglet);
  }

  lemma {:induction false} ClusterRunInv(parser: Parser, run: seq<Cluster>, i: nat)
    requires ClusterRun(parser, run) && i < |run|
    ensures ClusterInv(parser, run[i])
  {
    hide ClusterInv, ClusterAfter, ClusterEnabled;
    if i == 0 {
      StartKeepsInv(parser, run[0]);
    } else {
      ClusterRunInv(parser, run, i - 1);
      assert ClusterNext(parser, run[i - 1], run[i]);
      var action :| ClusterEnabled(run[i - 1], action) && run[i] == ClusterAfter(parser, run[i - 1], action);
      ClusterStepKeepsInv(parser, run[i - 1], action);
    }
  }

  lemma StartKeepsInv(parser: Parser, c: Cluster)
    requires ClusterInit(c)
    ensures ClusterInv(parser, c)
  {
    InitInv(c.log);
  }

  lemma {:induction false} MadeStays(parser: Parser, run: seq<Cluster>, i: nat, j: nat)
    requires ClusterRun(parser, run) && i <= j < |run|
    ensures run[i].made <= run[j].made
    decreases j - i
  {
    hide ClusterInv, ClusterAfter, ClusterEnabled;
    if i < j {
      MadeStays(parser, run, i, j - 1);
      ClusterRunInv(parser, run, j - 1);
      assert ClusterNext(parser, run[j - 1], run[j]);
      var action :| ClusterEnabled(run[j - 1], action) && run[j] == ClusterAfter(parser, run[j - 1], action);
      ClusterStepKeepsInv(parser, run[j - 1], action);
    }
  }

  /** Two sequencers made for one segment were made by one process under one configuration. */
  lemma SameOwner(parser: Parser, c: Cluster, m: Made, n: Made)
    requires ClusterInv(parser, c) && m in c.made && n in c.made && m.segmentId == n.segmentId
    ensures m == n
  {
    hide Inv;
    var u :| ActiveAs(c.log, u, m.segmentId, m.loglet);
    var v :| ActiveAs(c.log, v, n.segmentId, n.loglet);
    OneActiveConfiguration(c.log, u, v);
  }

  /**
   One sequencer per segment: over any run of any number of processes, with appends carrying the active
   segment of any installed chain however old, only one process ever makes a sequencer for a segment.
   */
  lemma OneSequencerPerSegment(parser: Parser, run: seq<Cluster>, i: nat, j: nat, m: Made, n: Made)
    requires ClusterRun(parser, run) && i < |run| && j < |run| && m in run[i].made && n in run[j].made
    ensures m.segmentId == n.segmentId ==> m == n
  {
    hide ClusterInv;
    var k := if i < j then j else i;
    MadeStays(parser, run, i, k);
    MadeStays(parser, run, j, k);
    ClusterRunInv(parser, run, k);
    if m.segmentId == n.segmentId {
      SameOwner(parser, run[k], m, n);
    }
  }

  /** So the refusal for a changed configuration never strikes an append for an active segment. */
  lemma ConfigurationNeverChanged(parser: Parser, c: Cluster, process: Process, v: nat)
    requires ClusterInv(parser, c) && 0 < v <= |c.log.chains|
    ensures c.log.chains[v - 1].segments != []
    ensures var segment := c.log.chains[v - 1].Active();
      segment.loglet in parser && Owner(parser[segment.loglet]) == process <==>
        FenceOf(parser, c.made, process, segment) == Serves
  {
    hide Inv;
    OneActiveConfiguration(c.log, v, v);
    var segment := c.log.chains[v - 1].Active();
    if segment.loglet in parser {
      assert ActiveAs(c.log, v, segment.segmentId, segment.loglet);
      forall m | m in c.made && m.segmentId == segment.segmentId
        ensures m.loglet == segment.loglet
      {
        var u :| ActiveAs(c.log, u, m.segmentId, m.loglet);
        OneActiveConfiguration(c.log, u, v);
      }
    }
  }
}
