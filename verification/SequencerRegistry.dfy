/**
 The sequencers one server process owns (native_loglet/sequencer_registry.py): at most one per segment,
 and one append at a time on each.
 */
module SequencerRegistry {
  import opened Wrappers
  import opened Membership
  import opened LogChains
  import Virtual = VirtualLogProtocol
  import opened LogletProtocol
  import opened LogletNetwork
  import opened NativeSequencer
  import opened SequencerFence

  datatype PendingAppend = PendingAppend(commandId: string, payload: seq<int>)

  datatype Admission = Started | Joined | Waits | Conflicts | Closed

  /**
   What all processes share: the VirtualLog, the sequencers ever made anywhere, and the servers of each
   segment. A segment for which no process has made a sequencer is untouched.
   */
  class Site {
    ghost var log: Virtual.State
    ghost var made: set<Made>
    const parser: Parser
    const networks: map<string, Network>

    ghost predicate Valid()
      reads this, networks.Values
    {
      SiteFits(parser, Segments(networks), Cluster(log, made))
    }

    /** The segment is the active one of some installed chain, and its servers are the configured ones. */
    ghost predicate Serving(segment: LogSegment)
      reads this, networks.Values
    {
      && (exists v :: ActiveAs(log, v, segment.segmentId, segment.loglet))
      && segment.segmentId in networks
      && (segment.loglet in parser ==>
            Elements(parser[segment.loglet].storageMembers) == networks[segment.segmentId].seg.members)
    }

    constructor (parser: Parser, networks: map<string, Network>)
      requires ParserFits(parser)
      requires forall id :: id in networks ==>
        && networks[id].seg.segmentId == id && LogletProtocol.Inv(networks[id].seg)
        && networks[id].seg.issued == [] && networks[id].seg.sequencerKnown == 0
      ensures Valid() && this.parser == parser && this.networks == networks && made == {}
    {
      hide LogletProtocol.Inv, ClusterInv, ParserFits;
      this.parser, this.networks := parser, networks;
      log, made := Virtual.State(map[], [], [], [], {}), {};
      new;
      StartKeepsInv(parser, Cluster(log, made));
    }
  }

  ghost function Segments(networks: map<string, Network>): map<string, Segment>
    reads networks.Values
  {
    map id | id in networks :: networks[id].seg
  }

  ghost predicate SiteFits(parser: Parser, segments: map<string, Segment>, c: Cluster) {
    && ClusterInv(parser, c) && ParserFits(parser)
    && (forall id :: id in segments ==> SegmentFits(segments[id], id, Unsequenced(c, id)))
  }

  ghost predicate SegmentFits(s: Segment, id: string, untouched: bool) {
    s.segmentId == id && LogletProtocol.Inv(s) && (untouched ==> s.issued == [] && s.sequencerKnown == 0)
  }

  ghost predicate Unsequenced(c: Cluster, id: string) {
    forall m :: m in c.made ==> m.segmentId != id
  }

  lemma Sequenced(c: Cluster, m: Made)
    requires m in c.made
    ensures !Unsequenced(c, m.segmentId)
  {
  }

  lemma SiteNames(parser: Parser, segments: map<string, Segment>, c: Cluster)
    requires SiteFits(parser, segments, c)
    ensures forall id :: id in segments ==> segments[id].segmentId == id
  {
    hide LogletProtocol.Inv, ClusterInv, ParserFits;
    forall id | id in segments
      ensures segments[id].segmentId == id
    {
      assert SegmentFits(segments[id], id, Unsequenced(c, id));
    }
  }

  /** The servers of a segment that is sequenced may move on. */
  lemma SiteMoved(parser: Parser, segments: map<string, Segment>, c: Cluster, id: string, s: Segment)
    requires SiteFits(parser, segments, c) && !Unsequenced(c, id) && SegmentFits(s, id, false)
    ensures SiteFits(parser, segments[id := s], c)
  {
    hide LogletProtocol.Inv, ClusterInv, ParserFits;
  }

  lemma SiteKept(parser: Parser, segments: map<string, Segment>, c: Cluster, m: Made)
    requires SiteFits(parser, segments, c) && ClusterInv(parser, c.(made := c.made + {m}))
    ensures SiteFits(parser, segments, c.(made := c.made + {m}))
  {
    hide LogletProtocol.Inv, ClusterInv, ParserFits;
    var d := c.(made := c.made + {m});
    forall id | id in segments
      ensures SegmentFits(segments[id], id, Unsequenced(d, id))
    {
      assert Unsequenced(d, id) ==> Unsequenced(c, id);
    }
  }

  lemma SequencerSound(sequencer: NativeSequencer)
    requires sequencer.Valid()
    ensures LogletProtocol.Inv(sequencer.network.seg)
  {
  }

  class LogServerSequencerRegistry {
    const process: Process
    const site: Site
    var sequencers: map<string, NativeSequencer>
    var segments: map<string, LogSegment>
    var pending: map<string, PendingAppend>
    var closed: bool

    /** The sequencers kept here are exactly those this process ever made, each for the segment kept with it. */
    ghost predicate Valid()
      reads this, site, site.networks.Values
    {
      && site.Valid()
      && sequencers.Keys == segments.Keys && pending.Keys <= sequencers.Keys
      && (forall id :: id in segments ==> Recorded(id))
      && (forall m :: m in site.made && m.process == process ==> m.segmentId in segments)
    }

    ghost predicate Recorded(id: string)
      requires id in segments
      reads this`segments, site`made
    {
      segments[id].segmentId == id && Made(process, id, segments[id].loglet) in site.made
    }

    constructor (process: Process, site: Site)
      requires site.Valid() && forall m :: m in site.made ==> m.process != process
      ensures Valid() && this.process == process && this.site == site && sequencers == map[]
    {
      this.process, this.site := process, site;
      sequencers, segments, pending, closed := map[], map[], map[], false;
    }

    /** No sequencer is ever replaced, and none is bound to another configuration. */
    twostate predicate KeepsSequencers()
      reads this
    {
      && old(sequencers).Keys <= sequencers.Keys && old(segments).Keys <= segments.Keys
      && (forall id :: id in old(sequencers) ==> sequencers[id] == old(sequencers)[id])
      && (forall id :: id in old(segments) ==> segments[id] == old(segments)[id])
    }

    /**
     The fence. A sequencer is made for a segment only while no process has made one; that nothing of the
     segment has been assigned is a consequence, not a demand on the caller.
     */
    method SequencerFor(segment: LogSegment) returns (fence: Fence)
      requires Valid() && site.Serving(segment)
      modifies this, site
      ensures Valid() && KeepsSequencers() && pending == old(pending) && closed == old(closed)
      ensures site.log == old(site.log)
      ensures fence == FenceOf(site.parser, old(site.made), process, segment)
      ensures fence == Serves <==> segment.loglet in site.parser && Owner(site.parser[segment.loglet]) == process
      ensures fence == Serves ==>
        && segment.segmentId in sequencers && segments[segment.segmentId].loglet == segment.loglet
        && sequencers.Keys == old(sequencers).Keys + {segment.segmentId}
        && site.made == old(site.made) + {Made(process, segment.segmentId, segment.loglet)}
      ensures segment.segmentId in sequencers && segment.segmentId !in old(sequencers) ==>
        && Unsequenced(Cluster(old(site.log), old(site.made)), segment.segmentId)
        && fresh(sequencers[segment.segmentId]) && sequencers[segment.segmentId].Valid()
        && sequencers[segment.segmentId].network == site.networks[segment.segmentId]
      ensures fence != Serves ==> sequencers == old(sequencers) && site.made == old(site.made)
    {
      hide SiteFits, ClusterInv, LogletProtocol.Inv, ValidateFixedMembers, Segments, Unsequenced, NativeSequencer.Valid;
      ghost var c := Cluster(site.log, site.made);
      FenceHere(c, segment);
      if segment.loglet !in site.parser {
        return NotNative;
      }
      var configuration := site.parser[segment.loglet];
      if configuration.sequencerNode != process.node {
        return NotSequencer;
      }
      if configuration.sequencerIncarnation != process.incarnation {
        return IncarnationMismatch;
      }
      if segment.segmentId in segments && segments[segment.segmentId].loglet != segment.loglet {
        return IncarnationMismatch;
      }
      if segment.segmentId !in sequencers {
        MakeSequencer(segment);
      } else {
        assert Recorded(segment.segmentId);
        assert site.made + {Made(process, segment.segmentId, segment.loglet)} == site.made;
      }
      fence := Serves;
    }

    lemma FenceHere(c: Cluster, segment: LogSegment)
      requires Valid() && site.Serving(segment) && c == Cluster(site.log, site.made)
      ensures ClusterInv(site.parser, c)
      ensures forall m :: m in c.made && m.segmentId == segment.segmentId ==> m.loglet == segment.loglet
      ensures segment.loglet in site.parser && Owner(site.parser[segment.loglet]) == process <==>
        FenceOf(site.parser, c.made, process, segment) == Serves
    {
      hide LogletProtocol.Inv, ClusterInv;
      FenceFacts(site.parser, c, process, segment);
    }

    /** Makes the segment's first sequencer. */
    method MakeSequencer(segment: LogSegment)
      requires Valid() && site.Serving(segment) && segment.segmentId !in sequencers
      requires segment.loglet in site.parser && Owner(site.parser[segment.loglet]) == process
      modifies this`sequencers, this`segments, site`made
      ensures Valid() && KeepsSequencers()
      ensures sequencers.Keys == old(sequencers).Keys + {segment.segmentId}
      ensures segments[segment.segmentId] == segment
      ensures site.made == old(site.made) + {Made(process, segment.segmentId, segment.loglet)}
      ensures Unsequenced(Cluster(old(site.log), old(site.made)), segment.segmentId)
      ensures fresh(sequencers[segment.segmentId]) && sequencers[segment.segmentId].Valid()
      ensures sequencers[segment.segmentId].network == site.networks[segment.segmentId]
    {
      hide LogletProtocol.Inv, ClusterInv, Segments, SiteFits, ValidateFixedMembers, Unsequenced, FenceOf,
        NativeSequencer.Valid;
      ghost var c := Cluster(site.log, site.made);
      var network := site.networks[segment.segmentId];
      UntouchedHere(c, segment);
      var sequencer := new NativeSequencer(site.parser[segment.loglet].storageMembers, network);
      Keep(segment, sequencer);
    }

    /** Keeps a sequencer that was just made. */
    method Keep(segment: LogSegment, sequencer: NativeSequencer)
      requires Valid() && segment.segmentId !in sequencers
      requires SiteFits(site.parser, Segments(site.networks),
                        Cluster(site.log, site.made + {Made(process, segment.segmentId, segment.loglet)}))
      modifies this`sequencers, this`segments, site`made
      ensures Valid() && KeepsSequencers()
      ensures sequencers == old(sequencers)[segment.segmentId := sequencer]
      ensures segments == old(segments)[segment.segmentId := segment]
      ensures site.made == old(site.made) + {Made(process, segment.segmentId, segment.loglet)}
    {
      hide LogletProtocol.Inv, ClusterInv, Segments, SiteFits;
      segments := segments[segment.segmentId := segment];
      sequencers := sequencers[segment.segmentId := sequencer];
      site.made := site.made + {Made(process, segment.segmentId, segment.loglet)};
    }

    /** No process has made a sequencer for the segment, so nothing of it has been assigned. */
    lemma UntouchedHere(c: Cluster, segment: LogSegment)
      requires Valid() && site.Serving(segment) && segment.segmentId !in sequencers && c == Cluster(site.log, site.made)
      requires segment.loglet in site.parser && Owner(site.parser[segment.loglet]) == process
      ensures Unsequenced(c, segment.segmentId)
      ensures var s := site.networks[segment.segmentId].seg;
        && LogletProtocol.Inv(s) && s.issued == [] && s.sequencerKnown == 0
        && ValidateFixedMembers(site.parser[segment.loglet].storageMembers)
        && Elements(site.parser[segment.loglet].storageMembers) == s.members
      ensures SiteFits(site.parser, Segments(site.networks),
                       c.(made := c.made + {Made(process, segment.segmentId, segment.loglet)}))
    {
      hide LogletProtocol.Inv, ClusterInv;
      FenceFacts(site.parser, c, process, segment);
      var segs := Segments(site.networks);
      assert SegmentFits(segs[segment.segmentId], segment.segmentId, Unsequenced(c, segment.segmentId));
      SiteKept(site.parser, segs, c, Made(process, segment.segmentId, segment.loglet));
    }

    /** A new append starts only on an idle segment; the same command joins the running one, another waits. */
    method Admit(segmentId: string, commandId: string, payload: seq<int>) returns (admission: Admission)
      requires Valid() && segmentId in sequencers
      modifies this`pending
      ensures Valid()
      ensures admission == Closed <==> closed
      ensures admission == Started <==> !closed && segmentId !in old(pending)
      ensures admission == Joined <==>
        !closed && segmentId in old(pending) && old(pending)[segmentId] == PendingAppend(commandId, payload)
      ensures admission == Conflicts <==>
        && !closed && segmentId in old(pending)
        && old(pending)[segmentId].commandId == commandId && old(pending)[segmentId].payload != payload
      ensures pending ==
        if admission == Started then old(pending)[segmentId := PendingAppend(commandId, payload)] else old(pending)
    {
      hide SiteFits;
      if closed {
        return Closed;
      }
      if segmentId !in pending {
        pending := pending[segmentId := PendingAppend(commandId, payload)];
        return Started;
      }
      if pending[segmentId].commandId != commandId {
        return Waits;
      }
      admission := if pending[segmentId].payload != payload then Conflicts else Joined;
    }

    /** Runs the segment's pending append to its end and frees the segment for the next one. */
    method RunAppend(segmentId: string, rounds: nat) returns (outcome: AppendOutcome)
      requires Valid() && segmentId in pending && sequencers[segmentId].Valid()
      requires segmentId in site.networks && sequencers[segmentId].network == site.networks[segmentId]
      modifies this`pending, sequencers[segmentId], sequencers[segmentId].network
      ensures Valid() && sequencers[segmentId].Valid() && pending == old(pending) - {segmentId}
      ensures Grows(old(sequencers[segmentId].network.seg), sequencers[segmentId].network.seg)
      ensures outcome.Appended? ==>
        var s := sequencers[segmentId].network.seg;
        && outcome.position < |s.issued| && (outcome.position in s.acked || outcome.position in s.shortcutAcked)
        && s.issued[outcome.position].commandId == old(pending)[segmentId].commandId
        && s.issued[outcome.position].payload == old(pending)[segmentId].payload
      ensures outcome == AppendFailed(CommitSealed) ==>
        var s := sequencers[segmentId].network.seg; IsQuorum(s.members, SealedServers(s))
      ensures outcome == CommandConflict <==>
        var known := old(sequencers[segmentId].entriesByCommand);
        var append := old(pending)[segmentId];
        append.commandId in known && known[append.commandId].payload != append.payload
      ensures sequencers[segmentId].network.whole && 0 < rounds && old(sequencers[segmentId].pending).None? ==>
        var s := old(sequencers[segmentId].network.seg);
        IsQuorum(s.members, OpenServers(s)) ==> outcome.Appended? || outcome == CommandConflict
    {
      hide LogletProtocol.Inv, Grows, ClusterInv, ParserFits, Unsequenced, SiteFits, NativeSequencer.Valid, IsQuorum,
        SealedServers, OpenServers;
      ghost var c := Cluster(site.log, site.made);
      assert Recorded(segmentId);
      Sequenced(c, Made(process, segmentId, segments[segmentId].loglet));
      ghost var before := Segments(site.networks);
      SiteNames(site.parser, before, c);
      var append := pending[segmentId];
      ghost var s := sequencers[segmentId].network.seg;
      assert s == before[segmentId];
      outcome := sequencers[segmentId].Append(append.commandId, append.payload, rounds);
      SameSegment(s, sequencers[segmentId].network.seg);
      SequencerSound(sequencers[segmentId]);
      ghost var after := sequencers[segmentId].network.seg;
      SiteMoved(site.parser, before, c, segmentId, after);
      assert Segments(site.networks) == before[segmentId := after];
      pending := pending - {segmentId};
    }

    /** What this incarnation's sequencer knows, without creating one. */
    method Observe(segment: LogSegment) returns (knownTail: Option<nat>)
      requires Valid()
      ensures knownTail.None? <==>
        segment.loglet !in site.parser || Owner(site.parser[segment.loglet]) != process
      ensures knownTail.Some? ==>
        knownTail.value == if segment.segmentId in sequencers then sequencers[segment.segmentId].knownTail else 0
    {
      if segment.loglet !in site.parser || Owner(site.parser[segment.loglet]) != process {
        return None;
      }
      knownTail := Some(if segment.segmentId in sequencers then sequencers[segment.segmentId].knownTail else 0);
    }
  }

  /** What the fence means for a segment that is active in some installed chain. */
  lemma FenceFacts(parser: Parser, c: Cluster, process: Process, segment: LogSegment)
    requires ClusterInv(parser, c) && exists v :: ActiveAs(c.log, v, segment.segmentId, segment.loglet)
    ensures forall m :: m in c.made && m.segmentId == segment.segmentId ==>
      m.loglet == segment.loglet && m.loglet in parser && m.process == Owner(parser[m.loglet])
    ensures segment.loglet in parser && Owner(parser[segment.loglet]) == process <==>
      FenceOf(parser, c.made, process, segment) == Serves
    ensures segment.loglet in parser ==>
      ClusterInv(parser, c.(made := c.made + {Made(Owner(parser[segment.loglet]), segment.segmentId, segment.loglet)}))
  {
    hide Virtual.Inv;
    var v :| ActiveAs(c.log, v, segment.segmentId, segment.loglet);
    forall m | m in c.made && m.segmentId == segment.segmentId
      ensures m.loglet == segment.loglet
    {
      var u :| ActiveAs(c.log, u, m.segmentId, m.loglet);
      OneActiveConfiguration(c.log, u, v);
    }
  }
}
