/**
 One NativeLoglet segment as a distributed system: LogServers, the sequencer's assignments, and the
 evidence clients gather from replies. Each request is one atomic step at one server; replies may be
 lost, and a request may arrive late or twice (native_loglet/client.py, sequencer.py, memory_store.py).
 */
module LogletProtocol {
  import opened Wrappers
  import opened Membership
  import opened LogletStore

  /** `node` accepted a put of `position`. */
  datatype PutOk = PutOk(node: NodeId, position: nat)

  /** The state reply to an accepted put, as far as the sequencer uses it. */
  datatype PutReply = PutReply(node: NodeId, position: nat, knownTail: nat)

  /** A reply in which `node` said it was sealed and reported its local tail. */
  datatype SealedRead = SealedRead(node: NodeId, tail: nat)

  /**
   `issued` holds the sequencer's entries in order, `sealedAt[p]` the servers already sealed when
   position p was assigned, and `known` the highest tail established by a commit or a check_tail.
   `acked` are the positions acknowledged by a commit, `shortcutAcked` those a retry acknowledged
   from the sequencer's known tail, `sealedTails` the tails returned by sealed check_tails.
   */
  datatype Segment = Segment(
    segmentId: string,
    members: set<NodeId>,
    servers: map<NodeId, SegmentState>,
    issued: seq<LogEntry>,
    sealedAt: seq<set<NodeId>>,
    sequencerKnown: nat,
    puts: set<PutOk>,
    putReplies: set<PutReply>,
    sealedReads: set<SealedRead>,
    known: nat,
    acked: set<nat>,
    shortcutAcked: set<nat>,
    sealedTails: set<nat>)

  datatype Action =
    | AssignAction(commandId: string, payload: seq<int>)
    | PutAction(node: NodeId, position: nat, knownTail: nat)
    | ObserveReplyAction(reply: PutReply)
    | CommitAction(position: nat)
    | ShortcutAction(position: nat)
    | RepairAction(node: NodeId, position: nat, knownTail: nat)
    | SealAction(node: NodeId, knownTail: nat)
    | TrimAction(node: NodeId, position: nat)
    | ObserveAction(node: NodeId, knownTail: nat)
    | SealedReadAction(node: NodeId)
    | OpenTailAction(tail: nat)
    | SealedTailAction(responders: set<NodeId>, tail: nat)
    | RestartAction(node: NodeId)

  // ---- Evidence ----------------------------------------------------------------------------

  ghost function SealedServers(s: Segment): set<NodeId> {
    set n | n in s.servers && s.servers[n].isSealed
  }

  /** The servers that have accepted a put of `position`. */
  ghost function Holders(s: Segment, position: nat): set<NodeId> {
    set n | n in s.members && PutOk(n, position) in s.puts
  }

  ghost function Coverers(s: Segment, position: nat): set<NodeId> {
    set n | n in s.members && n in s.servers && s.servers[n].Covers(position)
  }

  ghost predicate QuorumCovered(s: Segment, position: nat) {
    IsQuorum(s.members, Coverers(s, position))
  }

  /** The servers whose local tail has reached `tail`. */
  ghost function Reached(s: Segment, tail: nat): set<NodeId> {
    set n | n in s.members && n in s.servers && tail <= LocalTail(s.servers[n])
  }

  /** The servers that, once sealed, reported a tail no higher than `tail`. */
  ghost function SealedBelow(s: Segment, tail: nat): set<NodeId> {
    set r | r in s.sealedReads && r.node in s.members && r.tail <= tail :: r.node
  }

  /** A sealed server accepted a put of `position`. */
  ghost predicate SealedHolder(s: Segment, node: NodeId, position: nat) {
    node in s.servers && s.servers[node].isSealed && PutOk(node, position) in s.puts
  }

  /** The position is established, or some sealed server accepted a put of it. */
  ghost predicate Repairable(s: Segment, position: nat) {
    position < s.known || exists m :: SealedHolder(s, m, position)
  }

  /** Every position from `known` up to `limit` is present at `node`. */
  ghost predicate DenseUpTo(s: Segment, node: NodeId, limit: nat) {
    node in s.servers && forall q :: s.known <= q < limit ==> q in s.servers[node].entries
  }

  // ---- Steps -------------------------------------------------------------------------------

  ghost predicate Enabled(s: Segment, action: Action) {
    match action
    case AssignAction(commandId, payload) =>
      && (forall i :: 0 <= i < |s.issued| ==> s.issued[i].commandId != commandId)
      && (forall i: nat :: i < |s.issued| ==> i in s.acked)
    case PutAction(node, position, knownTail) =>
      node in s.servers && position < |s.issued| && knownTail <= s.sequencerKnown
    case ObserveReplyAction(reply) =>
      reply in s.putReplies && reply.position == |s.issued| - 1
    case CommitAction(position) =>
      IsQuorum(s.members, Holders(s, position))
    case ShortcutAction(position) =>
      position < s.sequencerKnown
    case RepairAction(node, position, knownTail) =>
      && node in s.servers && position < |s.issued| && knownTail <= s.known
      && Repairable(s, position)
      && DenseUpTo(s, node, position)
    case SealAction(node, knownTail) =>
      node in s.servers && knownTail <= s.known
    case TrimAction(node, position) =>
      node in s.servers && position <= s.known
    case ObserveAction(node, knownTail) =>
      node in s.servers && knownTail <= s.known
    case SealedReadAction(node) =>
      node in s.servers && s.servers[node].isSealed
    case OpenTailAction(tail) =>
      IsQuorum(s.members, Reached(s, tail))
    case SealedTailAction(responders, tail) =>
      && IsQuorum(s.members, responders) && responders <= SealedBelow(s, tail)
      && (exists r :: r in s.sealedReads && r.tail == tail)
      && (forall n :: n in responders ==> DenseUpTo(s, n, tail))
    case RestartAction(node) =>
      node in s.servers
  }

  ghost function After(s: Segment, action: Action): Segment
    requires Enabled(s, action)
  {
    match action
    case AssignAction(commandId, payload) =>
      var entry := LogEntry(s.segmentId, |s.issued|, commandId, payload);
      s.(issued := s.issued + [entry], sealedAt := s.sealedAt + [SealedServers(s)])
    case PutAction(node, position, knownTail) =>
      var (t, outcome) := Put(s.servers[node], s.issued[position], knownTail);
      if outcome.Stored? then
        s.(servers := s.servers[node := t],
           puts := s.puts + {PutOk(node, position)},
           putReplies := s.putReplies + {PutReply(node, position, t.knownTail)})
      else
        s.(servers := s.servers[node := t])
    case ObserveReplyAction(reply) =>
      s.(sequencerKnown := Max(s.sequencerKnown, reply.knownTail))
    case CommitAction(position) =>
      s.(acked := s.acked + {position},
         known := Max(s.known, position + 1),
         sequencerKnown := Max(s.sequencerKnown, position + 1))
    case ShortcutAction(position) =>
      s.(shortcutAcked := s.shortcutAcked + {position})
    case RepairAction(node, position, knownTail) =>
      s.(servers := s.servers[node := Repair(s.servers[node], s.issued[position], knownTail).0])
    case SealAction(node, knownTail) =>
      s.(servers := s.servers[node := Seal(s.servers[node], knownTail)])
    case TrimAction(node, position) =>
      s.(servers := s.servers[node := PrefixTrim(s.servers[node], position)])
    case ObserveAction(node, knownTail) =>
      s.(servers := s.servers[node := Observe(s.servers[node], knownTail)])
    case SealedReadAction(node) =>
      s.(sealedReads := s.sealedReads + {SealedRead(node, LocalTail(s.servers[node]))})
    case OpenTailAction(tail) =>
      s.(known := Max(s.known, tail))
    case SealedTailAction(responders, tail) =>
      s.(known := Max(s.known, tail), sealedTails := s.sealedTails + {tail})
    case RestartAction(node) =>
      s.(servers := s.servers[node := Reopen(s.servers[node])])
  }

  ghost predicate Init(s: Segment) {
    && 3 <= |s.members| && s.servers.Keys == s.members
    && (forall n :: n in s.servers ==> s.servers[n] == EMPTY_SEGMENT)
    && s == Segment(s.segmentId, s.members, s.servers, [], [], 0, {}, {}, {}, 0, {}, {}, {})
  }

  ghost predicate Next(s: Segment, t: Segment) {
    exists action :: Enabled(s, action) && t == After(s, action)
  }

  ghost predicate Run(run: seq<Segment>) {
    && run != [] && Init(run[0])
    && forall i :: 0 < i < |run| ==> Next(run[i - 1], run[i])
  }

  // ---- The inductive invariant -------------------------------------------------------------

  ghost predicate Shape(s: Segment) {
    && 3 <= |s.members| && s.servers.Keys == s.members
    && |s.sealedAt| == |s.issued|
    && (forall i :: 0 <= i < |s.issued| ==> s.issued[i].position == i && s.issued[i].segmentId == s.segmentId)
    && (forall i, j :: 0 <= i < j < |s.issued| ==> s.issued[i].commandId != s.issued[j].commandId)
  }

  /** Every copy anywhere is the entry the sequencer assigned to its position. */
  ghost predicate CopiesAssigned(s: Segment) {
    forall n :: n in s.servers ==> CopiesAssignedAt(s, n)
  }

  ghost predicate CopiesAssignedAt(s: Segment, n: NodeId)
    requires n in s.servers
  {
    && TrimmedAway(s.servers[n])
    && (forall p :: p in s.servers[n].entries ==> p < |s.issued| && s.servers[n].entries[p] == s.issued[p])
  }

  /** No tail held anywhere runs ahead of what is established, and none ahead of the assignments. */
  ghost predicate TailsKnown(s: Segment) {
    && s.known <= |s.issued| && s.sequencerKnown <= s.known
    && (forall n :: n in s.servers ==> s.servers[n].trimmed <= s.known && s.servers[n].knownTail <= s.known)
    && (forall r :: r in s.putReplies ==> r.knownTail <= s.known)
    && (forall t :: t in s.sealedTails ==> t <= s.known)
    && (forall p :: p in s.acked ==> p < s.known)
  }

  /** Beyond the established tail a server has no holes. */
  ghost predicate Dense(s: Segment) {
    forall n :: n in s.servers ==> DenseUpTo(s, n, LocalTail(s.servers[n]))
  }

  ghost predicate KnownCovered(s: Segment) {
    forall q :: 0 <= q < s.known ==> QuorumCovered(s, q)
  }

  ghost predicate PutsHeld(s: Segment) {
    && (forall w :: w in s.puts ==>
          w.node in s.servers && w.position < |s.issued| && w.position < LocalTail(s.servers[w.node]))
    && (forall r :: r in s.putReplies ==> PutOk(r.node, r.position) in s.puts)
  }

  /** A sealed read is final: its server was sealed, and everything it ever accepted lies below. */
  ghost predicate ReadsFinal(s: Segment) {
    forall r :: r in s.sealedReads ==>
      && r.node in s.servers && s.servers[r.node].isSealed
      && r.tail <= LocalTail(s.servers[r.node]) && r.tail <= |s.issued|
      && (forall w :: w in s.puts && w.node == r.node ==> w.position < r.tail)
  }

  ghost predicate AckedHeld(s: Segment) {
    forall p :: p in s.acked ==> IsQuorum(s.members, Holders(s, p))
  }

  ghost predicate SealedTailsRead(s: Segment) {
    forall t :: t in s.sealedTails ==> IsQuorum(s.members, SealedBelow(s, t))
  }

  /** A server sealed when a position was assigned stays sealed and never accepts it. */
  ghost predicate LateRefused(s: Segment) {
    forall p, n :: 0 <= p < |s.sealedAt| && n in s.sealedAt[p] ==>
      && n in s.servers && s.servers[n].isSealed
      && PutOk(n, p) !in s.puts
  }

  /** Every copy was accepted here as a put, or is established, or was accepted by a server sealed by now. */
  ghost predicate CopiesPut(s: Segment) {
    forall n, p :: n in s.servers && p in s.servers[n].entries ==> PutOk(n, p) in s.puts || Repairable(s, p)
  }

  ghost predicate TwoHolders(s: Segment, m: NodeId, n: NodeId, p: nat) {
    m != n && PutOk(m, p) in s.puts && PutOk(n, p) in s.puts
  }

  ghost predicate PutBacked(s: Segment, p: nat) {
    || (exists m :: SealedHolder(s, m, p))
    || (exists m, n :: TwoHolders(s, m, n, p))
  }

  /** The last established position was accepted by two servers, or by one that is sealed. */
  ghost predicate KnownPut(s: Segment) {
    s.known == 0 || PutBacked(s, s.known - 1)
  }

  ghost predicate Beyond(s: Segment, m: NodeId, tail: nat) {
    exists w :: w in s.puts && w.node == m && tail <= w.position + 1
  }

  /** Two distinct servers have accepted puts reaching `tail`. */
  ghost predicate TwoReach(s: Segment, tail: nat) {
    tail == 0 || exists m, n :: m != n && Beyond(s, m, tail) && Beyond(s, n, tail)
  }

  /** What the sequencer knows, or could learn from a reply to its latest put, two servers back. */
  ghost predicate SequencerBacked(s: Segment) {
    && TwoReach(s, s.sequencerKnown)
    && (forall r :: r in s.putReplies && r.position == |s.issued| - 1 ==> TwoReach(s, r.knownTail))
    && (forall p :: p in s.shortcutAcked ==> p < s.sequencerKnown)
  }

  ghost predicate Inv(s: Segment) {
    && Shape(s) && CopiesAssigned(s) && TailsKnown(s) && Dense(s) && KnownCovered(s)
    && PutsHeld(s) && ReadsFinal(s) && AckedHeld(s) && SealedTailsRead(s) && LateRefused(s)
    && CopiesPut(s) && KnownPut(s) && SequencerBacked(s)
  }

  // ---- What a step never takes back --------------------------------------------------------

  ghost predicate Grows(s: Segment, t: Segment) {
    && t.segmentId == s.segmentId && t.members == s.members && t.servers.Keys == s.servers.Keys
    && (forall n :: n in s.servers ==> ServerGrows(s.servers[n], t.servers[n]))
    && s.issued <= t.issued && s.sealedAt <= t.sealedAt
    && s.puts <= t.puts && s.putReplies <= t.putReplies && s.sealedReads <= t.sealedReads
    && s.known <= t.known && s.sequencerKnown <= t.sequencerKnown
    && s.acked <= t.acked && s.shortcutAcked <= t.shortcutAcked && s.sealedTails <= t.sealedTails
  }

  lemma GrowsReflexive(s: Segment)
    ensures Grows(s, s)
  {
  }

  lemma GrowsTransitive(s: Segment, t: Segment, u: Segment)
    requires Grows(s, t) && Grows(t, u)
    ensures Grows(s, u)
  {
    hide ServerGrows;
    forall n | n in s.servers
      ensures ServerGrows(s.servers[n], u.servers[n])
    {
      ServerGrowsTransitive(s.servers[n], t.servers[n], u.servers[n]);
    }
  }

  lemma QuorumGrows(members: set<NodeId>, a: set<NodeId>, b: set<NodeId>)
    requires IsQuorum(members, a) && a <= b <= members
    ensures IsQuorum(members, b)
  {
    SubsetSize(a, b);
  }

  lemma EvidenceStays(s: Segment, t: Segment)
    requires Grows(s, t)
    ensures forall q: nat :: QuorumCovered(s, q) ==> QuorumCovered(t, q)
    ensures forall p: nat :: IsQuorum(s.members, Holders(s, p)) ==> IsQuorum(t.members, Holders(t, p))
    ensures forall tail: nat :: IsQuorum(s.members, Reached(s, tail)) ==> IsQuorum(t.members, Reached(t, tail))
    ensures forall tail: nat :: IsQuorum(s.members, SealedBelow(s, tail)) ==> IsQuorum(t.members, SealedBelow(t, tail))
  {
    hide IsQuorum;
    forall q: nat | QuorumCovered(s, q)
      ensures QuorumCovered(t, q)
    {
      assert Coverers(s, q) <= Coverers(t, q);
      QuorumGrows(s.members, Coverers(s, q), Coverers(t, q));
    }
    forall p: nat | IsQuorum(s.members, Holders(s, p))
      ensures IsQuorum(t.members, Holders(t, p))
    {
      QuorumGrows(s.members, Holders(s, p), Holders(t, p));
    }
    forall tail: nat | IsQuorum(s.members, Reached(s, tail))
      ensures IsQuorum(t.members, Reached(t, tail))
    {
      assert Reached(s, tail) <= Reached(t, tail);
      QuorumGrows(s.members, Reached(s, tail), Reached(t, tail));
    }
    forall tail: nat | IsQuorum(s.members, SealedBelow(s, tail))
      ensures IsQuorum(t.members, SealedBelow(t, tail))
    {
      QuorumGrows(s.members, SealedBelow(s, tail), SealedBelow(t, tail));
    }
  }

  lemma HoldersStay(s: Segment, t: Segment)
    requires Grows(s, t)
    ensures forall m, p :: SealedHolder(s, m, p) ==> SealedHolder(t, m, p)
    ensures forall p: nat :: Repairable(s, p) ==> Repairable(t, p)
    ensures forall p: nat :: PutBacked(s, p) ==> PutBacked(t, p)
    ensures forall tail: nat :: TwoReach(s, tail) ==> TwoReach(t, tail)
  {
    forall p: nat | PutBacked(s, p)
      ensures PutBacked(t, p)
    {
      if m :| SealedHolder(s, m, p) {
        assert SealedHolder(t, m, p);
      } else {
        var m, n :| TwoHolders(s, m, n, p);
        assert TwoHolders(t, m, n, p);
      }
    }
    forall tail: nat | TwoReach(s, tail)
      ensures TwoReach(t, tail)
    {
      if 0 < tail {
        var m, n :| m != n && Beyond(s, m, tail) && Beyond(s, n, tail);
        assert Beyond(t, m, tail) && Beyond(t, n, tail);
      }
    }
  }

  // ---- Steps at one server -----------------------------------------------------------------

  /** Only server `node` changes, and with it perhaps the record of accepted puts. */
  ghost predicate ServerStep(s: Segment, t: Segment, node: NodeId) {
    && node in s.servers && t.servers.Keys == s.servers.Keys
    && (forall n :: n in s.servers && n != node ==> t.servers[n] == s.servers[n])
    && ServerGrows(s.servers[node], t.servers[node])
    && t == s.(servers := t.servers, puts := t.puts, putReplies := t.putReplies)
    && s.puts <= t.puts && s.putReplies <= t.putReplies
  }

  /** The server ends within bounds, with no copy that is not the assigned one. */
  ghost predicate ServerFits(s: Segment, x: SegmentState) {
    && TrimmedAway(x)
    && x.trimmed <= s.known && x.knownTail <= s.known
    && (forall p :: p in x.entries ==> p < |s.issued| && x.entries[p] == s.issued[p])
    && (forall q :: s.known <= q < LocalTail(x) ==> q in x.entries)
  }

  /** New puts were accepted at `node` while it was open, and are held there now. */
  ghost predicate NewPutsFit(s: Segment, t: Segment, node: NodeId)
    requires node in s.servers && node in t.servers
  {
    && (forall w :: w in t.puts && w !in s.puts ==>
          && w.node == node && !s.servers[node].isSealed
          && w.position < |s.issued| && w.position < LocalTail(t.servers[node]))
    && (forall r :: r in t.putReplies && r !in s.putReplies ==>
          && PutOk(r.node, r.position) in t.puts && r.knownTail <= s.known
          && (r.position == |s.issued| - 1 ==> TwoReach(t, r.knownTail)))
    && (forall p :: p in t.servers[node].entries && p !in s.servers[node].entries ==>
          PutOk(node, p) in t.puts || Repairable(s, p))
  }

  lemma ServerStepGrows(s: Segment, t: Segment, node: NodeId)
    requires ServerStep(s, t, node)
    ensures Grows(s, t)
  {
  }

  lemma ServerStepKeepsServers(s: Segment, t: Segment, node: NodeId)
    requires Inv(s) && ServerStep(s, t, node) && ServerFits(s, t.servers[node])
    ensures CopiesAssigned(t) && Dense(t)
  {
    hide ServerGrows, LocalTail, KnownCovered, SealedTailsRead, AckedHeld, ReadsFinal, CopiesPut, KnownPut,
      SequencerBacked, LateRefused, TailsKnown, PutsHeld, Shape, TrimmedAway;
    forall n | n in t.servers
      ensures DenseUpTo(t, n, LocalTail(t.servers[n]))
      ensures CopiesAssignedAt(t, n)
    {
      if n != node {
        assert CopiesAssignedAt(s, n) && DenseUpTo(s, n, LocalTail(s.servers[n]));
      }
    }
  }

  lemma ServerStepKeepsBounds(s: Segment, t: Segment, node: NodeId)
    requires Inv(s) && ServerStep(s, t, node) && ServerFits(s, t.servers[node]) && NewPutsFit(s, t, node)
    ensures Shape(t) && TailsKnown(t)
  {
    hide ServerGrows, LocalTail, KnownCovered, SealedTailsRead, AckedHeld, ReadsFinal, CopiesPut, KnownPut,
      SequencerBacked, LateRefused, CopiesAssigned, PutsHeld, Dense, TrimmedAway, TwoReach;
  }

  lemma ServerStepKeepsPuts(s: Segment, t: Segment, node: NodeId)
    requires Inv(s) && ServerStep(s, t, node) && NewPutsFit(s, t, node)
    ensures PutsHeld(t) && ReadsFinal(t) && LateRefused(t)
  {
    hide LocalTail, KnownCovered, SealedTailsRead, AckedHeld, CopiesPut, KnownPut, SequencerBacked, CopiesAssigned,
      TailsKnown, Dense;
  }

  lemma ServerStepKeepsEvidence(s: Segment, t: Segment, node: NodeId)
    requires Inv(s) && ServerStep(s, t, node) && NewPutsFit(s, t, node)
    ensures KnownCovered(t) && AckedHeld(t) && SealedTailsRead(t) && CopiesPut(t) && KnownPut(t) && SequencerBacked(t)
  {
    hide LocalTail, CopiesAssigned, TailsKnown, Dense, PutsHeld, ReadsFinal, LateRefused, IsQuorum, Holders,
      SealedBelow, QuorumCovered, PutBacked, TwoReach, Reached, Grows, Repairable;
    ServerStepGrows(s, t, node);
    EvidenceStays(s, t);
    HoldersStay(s, t);
    assert t.members == s.members;
    forall n, p | n in t.servers && p in t.servers[n].entries
      ensures PutOk(n, p) in t.puts || Repairable(t, p)
    {
      assert (n == node && p !in s.servers[node].entries) || p in s.servers[n].entries;
    }
  }

  lemma ServerStepKeepsInv(s: Segment, t: Segment, node: NodeId)
    requires Inv(s) && ServerStep(s, t, node) && ServerFits(s, t.servers[node]) && NewPutsFit(s, t, node)
    ensures Inv(t) && Grows(s, t)
  {
    hide Shape, CopiesAssigned, TailsKnown, Dense, KnownCovered, PutsHeld, ReadsFinal, AckedHeld,
      SealedTailsRead, LateRefused, CopiesPut, KnownPut, SequencerBacked, Grows, ServerFits, NewPutsFit;
    ServerStepGrows(s, t, node);
    ServerStepKeepsServers(s, t, node);
    ServerStepKeepsBounds(s, t, node);
    ServerStepKeepsPuts(s, t, node);
    ServerStepKeepsEvidence(s, t, node);
  }

  /** What the invariant says of one server, in the form the steps need. */
  lemma ServerFacts(s: Segment, node: NodeId)
    requires Inv(s) && node in s.servers
    ensures ServerFits(s, s.servers[node])
  {
    hide LocalTail;
    assert CopiesAssignedAt(s, node) && DenseUpTo(s, node, LocalTail(s.servers[node]));
  }

  lemma ObserveFits(s: Segment, node: NodeId, knownTail: nat)
    requires Inv(s) && node in s.servers && knownTail <= s.known
    ensures ServerFits(s, Observe(s.servers[node], knownTail))
    ensures ServerFits(s, Seal(s.servers[node], knownTail))
    ensures ServerFits(s, Reopen(s.servers[node]))
  {
    hide LocalTail, Inv;
    ServerFacts(s, node);
    ObserveGrows(s.servers[node], knownTail);
    FlagsGrow(s.servers[node], knownTail);
  }

  lemma TrimFits(s: Segment, node: NodeId, position: nat)
    requires Inv(s) && node in s.servers && position <= s.known
    ensures ServerFits(s, PrefixTrim(s.servers[node], position))
  {
    hide LocalTail, Inv;
    ServerFacts(s, node);
    TrimGrows(s.servers[node], position);
  }

  /** A write that leaves no hole beyond the established tail fits. */
  lemma WriteFits(s: Segment, x: SegmentState, position: nat)
    requires ServerFits(s, x) && position < |s.issued| && s.issued[position].position == position
    requires forall q :: s.known <= q < position ==> q in x.entries
    ensures ServerFits(s, Write(x, s.issued[position]).0)
    ensures Write(x, s.issued[position]).1 != EntryConflict
    ensures Write(x, s.issued[position]).1.Stored? ==> position < LocalTail(Write(x, s.issued[position]).0)
  {
    hide LocalTail;
    var entry := s.issued[position];
    WriteGrows(x, entry);
    var y := Write(x, entry).0;
    TailAfterWrite(x, entry);
    assert forall p :: p in y.entries ==> p < |s.issued| && y.entries[p] == s.issued[p];
  }

  lemma TailAfterWrite(s: SegmentState, entry: LogEntry)
    requires TrimmedAway(s)
    ensures var (t, outcome) := Write(s, entry);
      LocalTail(t) == if outcome.Stored? then Max(LocalTail(s), entry.position + 1) else LocalTail(s)
  {
    var (t, outcome) := Write(s, entry);
    if outcome.Stored? {
      assert IsLocalTail(s, LocalTail(s));
      assert IsLocalTail(t, Max(LocalTail(s), entry.position + 1));
    }
  }

  /** The predecessor check is what keeps a put from leaving a hole beyond the established tail. */
  lemma PutFits(s: Segment, node: NodeId, position: nat, knownTail: nat)
    requires Inv(s) && node in s.servers && position < |s.issued| && knownTail <= s.known
    ensures var (y, outcome) := Put(s.servers[node], s.issued[position], knownTail);
      && ServerFits(s, y)
      && outcome != EntryConflict
      && (outcome.Stored? ==> position < LocalTail(y) && !s.servers[node].isSealed && position in y.entries)
      && (forall p :: p in y.entries && p !in s.servers[node].entries ==> p == position && outcome.Stored?)
      && y.knownTail <= s.known
  {
    hide LocalTail, Inv, Write;
    var x := Observe(s.servers[node], knownTail);
    ServerFacts(s, node);
    ShapeFacts(s);
    ObserveFits(s, node, knownTail);
    if position in x.entries {
      InTail(x, position);
    } else if !LacksPredecessor(x, position) {
      if 0 < position && position - 1 in x.entries {
        InTail(x, position - 1);
      }
      WriteFits(s, x, position);
      WriteAdds(x, s.issued[position]);
    }
  }

  lemma ShapeFacts(s: Segment)
    requires Inv(s)
    ensures forall i :: 0 <= i < |s.issued| ==> s.issued[i].position == i && s.issued[i].segmentId == s.segmentId
    ensures s.servers.Keys == s.members
  {
  }

  lemma InTail(x: SegmentState, position: nat)
    requires position in x.entries
    ensures position < LocalTail(x)
  {
    assert IsLocalTail(x, LocalTail(x));
  }

  lemma WriteAdds(x: SegmentState, entry: LogEntry)
    ensures var (y, outcome) := Write(x, entry);
      && (outcome.Stored? ==> entry.position in y.entries)
      && (forall p :: p in y.entries && p !in x.entries ==> p == entry.position && outcome.Stored?)
      && y.knownTail == x.knownTail
  {
  }

  lemma PutKeepsInv(s: Segment, action: Action)
    requires Inv(s) && action.PutAction? && Enabled(s, action)
    ensures Inv(After(s, action)) && Grows(s, After(s, action))
  {
    hide LocalTail, Inv, Put, ServerGrows, ServerFits, Beyond;
    var t := After(s, action);
    var node, position := action.node, action.position;
    SequencerFacts(s, s);
    PutFits(s, node, position, action.knownTail);
    ServerFacts(s, node);
    TrimmedServer(s, node);
    RequestsGrow(s.servers[node], s.issued[position], action.knownTail, 0);
    PutReplyBacked(s, t, action);
    ServerStepKeepsInv(s, t, node);
  }

  lemma TrimmedServer(s: Segment, node: NodeId)
    requires Inv(s) && node in s.servers
    ensures TrimmedAway(s.servers[node])
    ensures s.known <= |s.issued| && KnownPut(s)
  {
    assert CopiesAssignedAt(s, node);
  }

  /** A reply to the latest put vouches for no more than two servers have accepted. */
  lemma PutReplyBacked(s: Segment, t: Segment, action: Action)
    requires KnownPut(s) && s.known <= |s.issued|
    requires action.PutAction? && Enabled(s, action) && t == After(s, action)
    requires t.servers[action.node].knownTail <= s.known
    ensures forall r :: r in t.putReplies && r !in s.putReplies && r.position == |s.issued| - 1 ==>
      TwoReach(t, r.knownTail)
  {
    hide LocalTail, Put, PutBacked;
    var node, position := action.node, action.position;
    var (x, outcome) := Put(s.servers[node], s.issued[position], action.knownTail);
    if outcome.Stored? && position == |s.issued| - 1 && 0 < x.knownTail {
      assert PutOk(node, position) in t.puts;
      assert Beyond(t, node, x.knownTail);
      StoredWhileOpen(s.servers[node], s.issued[position], action.knownTail);
      var other := SecondHolder(s, node);
      assert PutOk(other, s.known - 1) in t.puts;
      assert Beyond(t, other, x.knownTail);
    }
  }

  lemma StoredWhileOpen(x: SegmentState, entry: LogEntry, knownTail: nat)
    ensures Put(x, entry, knownTail).1.Stored? ==> !x.isSealed
  {
  }

  lemma SecondHolder(s: Segment, node: NodeId) returns (other: NodeId)
    requires 0 < s.known && PutBacked(s, s.known - 1) && node in s.servers && !s.servers[node].isSealed
    ensures other != node && PutOk(other, s.known - 1) in s.puts
  {
    hide LocalTail, ServerGrows;
    var p := s.known - 1;
    if m :| SealedHolder(s, m, p) {
      other := m;
    } else {
      var m, n :| TwoHolders(s, m, n, p);
      other := if m == node then n else m;
    }
  }

  lemma RepairKeepsInv(s: Segment, action: Action)
    requires Inv(s) && action.RepairAction? && Enabled(s, action)
    ensures Inv(After(s, action)) && Grows(s, After(s, action))
  {
    hide LocalTail, Inv, ServerGrows, ServerFits, Write;
    var t := After(s, action);
    var node, position := action.node, action.position;
    var x := Observe(s.servers[node], action.knownTail);
    ShapeFacts(s);
    ObserveFits(s, node, action.knownTail);
    WriteFits(s, x, position);
    WriteAdds(x, s.issued[position]);
    TrimmedServer(s, node);
    RequestsGrow(s.servers[node], s.issued[position], action.knownTail, 0);
    ServerStepKeepsInv(s, t, node);
  }

  lemma FlagStepKeepsInv(s: Segment, action: Action)
    requires Inv(s) && Enabled(s, action)
    requires action.SealAction? || action.TrimAction? || action.ObserveAction? || action.RestartAction?
    ensures Inv(After(s, action)) && Grows(s, After(s, action))
  {
    hide LocalTail, Inv, ServerGrows, ServerFits, Put, Repair, Write;
    var t := After(s, action);
    var node := action.node;
    var entry := LogEntry("", 0, "", []);
    TrimmedServer(s, node);
    match action
    case SealAction(_, knownTail) =>
      ObserveFits(s, node, knownTail);
      RequestsGrow(s.servers[node], entry, knownTail, 0);
      ServerStepKeepsInv(s, t, node);
    case TrimAction(_, position) =>
      TrimFits(s, node, position);
      RequestsGrow(s.servers[node], entry, 0, position);
      ServerStepKeepsInv(s, t, node);
    case ObserveAction(_, knownTail) =>
      ObserveFits(s, node, knownTail);
      ObserveGrows(s.servers[node], knownTail);
      ServerStepKeepsInv(s, t, node);
    case RestartAction(_) =>
      ObserveFits(s, node, 0);
      RequestsGrow(s.servers[node], entry, 0, 0);
      ServerStepKeepsInv(s, t, node);
  }

  // ---- Steps that only record or establish -------------------------------------------------

  lemma AssignKeepsInv(s: Segment, action: Action)
    requires Inv(s) && action.AssignAction? && Enabled(s, action)
    ensures Inv(After(s, action)) && Grows(s, After(s, action))
  {
    hide LocalTail, IsQuorum, KnownPut, CopiesPut, KnownCovered, AckedHeld, SealedTailsRead, CopiesAssigned, Dense,
      Grows, TwoReach;
    var t := After(s, action);
    AssignGrows(s, t);
    AssignKeepsServers(s, t);
    RecordKeepsPuts(s, t);
    RecordKeepsEvidence(s, t);
    HoldersStay(s, t);
  }

  lemma RecordKeepsEvidence(s: Segment, t: Segment)
    requires KnownCovered(s) && AckedHeld(s) && SealedTailsRead(s) && Grows(s, t)
    ensures t.known == s.known ==> KnownCovered(t)
    ensures t.acked == s.acked ==> AckedHeld(t)
    ensures t.sealedTails == s.sealedTails ==> SealedTailsRead(t)
  {
    hide LocalTail, IsQuorum, ServerGrows, Holders, SealedBelow, QuorumCovered;
    EvidenceStays(s, t);
  }

  lemma AssignGrows(s: Segment, t: Segment)
    requires t == s.(issued := t.issued, sealedAt := t.sealedAt) && s.issued <= t.issued && s.sealedAt <= t.sealedAt
    ensures Grows(s, t)
  {
  }

  lemma AssignKeepsServers(s: Segment, t: Segment)
    requires CopiesAssigned(s) && Dense(s) && t.servers == s.servers && t.known == s.known && s.issued <= t.issued
    ensures CopiesAssigned(t) && Dense(t)
  {
    hide LocalTail;
    forall n | n in t.servers
      ensures CopiesAssignedAt(t, n) && DenseUpTo(t, n, LocalTail(t.servers[n]))
    {
      assert CopiesAssignedAt(s, n) && DenseUpTo(s, n, LocalTail(s.servers[n]));
    }
  }

  /** Copies and backing do not depend on anything but servers, puts and the established tail. */
  lemma RecordKeepsPuts(s: Segment, t: Segment)
    requires CopiesPut(s) && KnownPut(s) && t.servers == s.servers && t.puts == s.puts && s.known <= t.known
    ensures CopiesPut(t) && (t.known == s.known ==> KnownPut(t))
  {
    hide LocalTail;
    forall n, p | n in t.servers && p in t.servers[n].entries
      ensures PutOk(n, p) in t.puts || Repairable(t, p)
    {
      if s.known <= p && PutOk(n, p) !in s.puts {
        var m :| SealedHolder(s, m, p);
        assert SealedHolder(t, m, p);
      }
    }
    assert s.known == t.known && 0 < s.known ==> PutBacked(t, s.known - 1) by {
      if s.known == t.known && 0 < s.known {
        PutBackedSame(s, t, s.known - 1);
      }
    }
  }

  lemma PutBackedSame(s: Segment, t: Segment, p: nat)
    requires PutBacked(s, p) && t.servers == s.servers && t.puts == s.puts
    ensures PutBacked(t, p)
  {
    if m :| SealedHolder(s, m, p) {
      assert SealedHolder(t, m, p);
    } else {
      var m, n :| TwoHolders(s, m, n, p);
      assert TwoHolders(t, m, n, p);
    }
  }

  /** A quorum without holes up to `tail` covers everything below it and has accepted its last position. */
  lemma DenseQuorumEstablishes(s: Segment, quorum: set<NodeId>, tail: nat)
    requires Inv(s) && IsQuorum(s.members, quorum) && tail <= |s.issued|
    requires forall n :: n in quorum ==> DenseUpTo(s, n, tail)
    ensures forall q :: 0 <= q < tail ==> QuorumCovered(s, q)
    ensures s.known < tail ==> PutBacked(s, tail - 1)
  {
    hide LocalTail, ServerGrows;
    forall q: nat | s.known <= q < tail
      ensures QuorumCovered(s, q)
    {
      assert quorum <= Coverers(s, q);
      QuorumGrows(s.members, quorum, Coverers(s, q));
    }
    if s.known < tail {
      var m, n := TwoOf(s.members, quorum);
      assert DenseUpTo(s, m, tail) && DenseUpTo(s, n, tail);
      assert tail - 1 in s.servers[m].entries && tail - 1 in s.servers[n].entries;
      if PutOk(m, tail - 1) in s.puts && PutOk(n, tail - 1) in s.puts {
        assert TwoHolders(s, m, n, tail - 1);
      }
    }
  }

  lemma TwoOf(members: set<NodeId>, quorum: set<NodeId>) returns (m: NodeId, n: NodeId)
    requires 3 <= |members| && IsQuorum(members, quorum)
    ensures m != n && m in quorum && n in quorum
  {
    m :| m in quorum;
    assert |quorum - {m}| == |quorum| - 1;
    n :| n in quorum - {m};
  }

  /** A step that raises the established tail to one a dense quorum has reached. */
  ghost predicate Establishes(s: Segment, t: Segment, quorum: set<NodeId>, tail: nat) {
    && IsQuorum(s.members, quorum) && tail <= |s.issued|
    && (forall n :: n in quorum ==> DenseUpTo(s, n, tail))
    && t == s.(known := Max(s.known, tail), acked := t.acked, sequencerKnown := t.sequencerKnown,
               sealedTails := t.sealedTails)
    && s.acked <= t.acked && s.sealedTails <= t.sealedTails && s.sequencerKnown <= t.sequencerKnown <= t.known
    && (forall p :: p in t.acked && p !in s.acked ==> p < t.known && IsQuorum(t.members, Holders(t, p)))
    && (forall u :: u in t.sealedTails && u !in s.sealedTails ==>
          u <= t.known && IsQuorum(t.members, SealedBelow(t, u)))
    && TwoReach(t, t.sequencerKnown)
  }

  lemma EstablishKeepsInv(s: Segment, t: Segment, quorum: set<NodeId>, tail: nat)
    requires Inv(s) && Establishes(s, t, quorum, tail)
    ensures Inv(t) && Grows(s, t)
  {
    hide LocalTail, IsQuorum, KnownPut, CopiesPut, KnownCovered, AckedHeld, SealedTailsRead, CopiesAssigned, Dense,
      Grows, TwoReach, PutBacked, DenseUpTo, QuorumCovered;
    DenseQuorumEstablishes(s, quorum, tail);
    EstablishGrows(s, t);
    EstablishKeepsEvidence(s, t, quorum, tail);
    HoldersStay(s, t);
    RecordKeepsPuts(s, t);
    EstablishKeepsServers(s, t);
    EstablishKnownPut(s, t, tail);
  }

  lemma EstablishKeepsEvidence(s: Segment, t: Segment, quorum: set<NodeId>, tail: nat)
    requires KnownCovered(s) && AckedHeld(s) && SealedTailsRead(s) && Establishes(s, t, quorum, tail) && Grows(s, t)
    requires forall q :: 0 <= q < tail ==> QuorumCovered(s, q)
    ensures KnownCovered(t) && AckedHeld(t) && SealedTailsRead(t)
  {
    hide LocalTail, IsQuorum, ServerGrows, Holders, SealedBelow, QuorumCovered, DenseUpTo, TwoReach;
    EvidenceStays(s, t);
  }

  lemma EstablishKnownPut(s: Segment, t: Segment, tail: nat)
    requires KnownPut(s) && t.servers == s.servers && t.puts == s.puts && t.known == Max(s.known, tail)
    requires s.known < tail ==> PutBacked(s, tail - 1)
    ensures KnownPut(t)
  {
    hide LocalTail, PutBacked;
    if 0 < t.known {
      PutBackedSame(s, t, t.known - 1);
    }
  }

  lemma EstablishGrows(s: Segment, t: Segment)
    requires t == s.(known := t.known, acked := t.acked, sequencerKnown := t.sequencerKnown,
                     sealedTails := t.sealedTails)
    requires s.known <= t.known && s.acked <= t.acked && s.sealedTails <= t.sealedTails
    requires s.sequencerKnown <= t.sequencerKnown
    ensures Grows(s, t)
  {
  }

  lemma EstablishKeepsServers(s: Segment, t: Segment)
    requires CopiesAssigned(s) && Dense(s)
    requires t.servers == s.servers && t.issued == s.issued && s.known <= t.known
    ensures CopiesAssigned(t) && Dense(t)
  {
    hide LocalTail;
    forall n | n in t.servers
      ensures CopiesAssignedAt(t, n) && DenseUpTo(t, n, LocalTail(t.servers[n]))
    {
      assert CopiesAssignedAt(s, n) && DenseUpTo(s, n, LocalTail(s.servers[n]));
    }
  }

  lemma NoteKeepsInv(s: Segment, action: Action)
    requires Inv(s) && Enabled(s, action)
    requires action.ObserveReplyAction? || action.ShortcutAction? || action.SealedReadAction?
    ensures Inv(After(s, action)) && Grows(s, After(s, action))
  {
    hide LocalTail, IsQuorum, KnownPut, CopiesPut, KnownCovered, AckedHeld, SealedTailsRead, CopiesAssigned, Dense,
      Grows, TwoReach, PutBacked, DenseUpTo, QuorumCovered;
    var t := After(s, action);
    NoteGrows(s, t);
    EstablishKeepsServers(s, t);
    RecordKeepsPuts(s, t);
    RecordKeepsEvidence(s, t);
    HoldersStay(s, t);
    if action.SealedReadAction? {
      SealedReadFinal(s, action);
    }
  }

  lemma NoteGrows(s: Segment, t: Segment)
    requires t == s.(sequencerKnown := t.sequencerKnown, shortcutAcked := t.shortcutAcked, sealedReads := t.sealedReads)
    requires s.sequencerKnown <= t.sequencerKnown && s.shortcutAcked <= t.shortcutAcked
    requires s.sealedReads <= t.sealedReads
    ensures Grows(s, t)
  {
  }

  lemma SealedReadFinal(s: Segment, action: Action)
    requires Inv(s) && action.SealedReadAction? && Enabled(s, action)
    ensures ReadsFinal(After(s, action))
  {
    hide IsQuorum, KnownPut, CopiesPut, KnownCovered, AckedHeld, SealedTailsRead, Dense, TwoReach, LateRefused;
    TailBounded(s, action.node);
  }

  lemma TailBounded(s: Segment, n: NodeId)
    requires CopiesAssigned(s) && TailsKnown(s) && n in s.servers
    ensures LocalTail(s.servers[n]) <= |s.issued|
  {
    assert CopiesAssignedAt(s, n);
    assert IsLocalTail(s.servers[n], LocalTail(s.servers[n]));
  }

  lemma CommitKeepsInv(s: Segment, action: Action)
    requires Inv(s) && action.CommitAction? && Enabled(s, action)
    ensures Inv(After(s, action)) && Grows(s, After(s, action))
  {
    hide LocalTail, Inv, IsQuorum, TwoReach, DenseUpTo;
    var t := After(s, action);
    var position := action.position;
    HoldersDense(s, position);
    HoldersReach(s, t, position);
    EstablishKeepsInv(s, t, Holders(s, position), position + 1);
  }

  lemma HoldersDense(s: Segment, position: nat)
    requires Inv(s) && IsQuorum(s.members, Holders(s, position))
    ensures forall n :: n in Holders(s, position) ==> DenseUpTo(s, n, position + 1)
    ensures position + 1 <= |s.issued|
    ensures s.sequencerKnown <= s.known
  {
    hide LocalTail, KnownPut, CopiesPut, KnownCovered, AckedHeld, SealedTailsRead, SequencerBacked, ReadsFinal;
    forall n | n in Holders(s, position)
      ensures DenseUpTo(s, n, position + 1)
    {
      assert DenseUpTo(s, n, LocalTail(s.servers[n]));
    }
    var m, n := TwoOf(s.members, Holders(s, position));
  }

  lemma HoldersReach(s: Segment, t: Segment, position: nat)
    requires Inv(s) && IsQuorum(s.members, Holders(s, position)) && s.puts == t.puts
    ensures TwoReach(t, Max(s.sequencerKnown, position + 1))
  {
    hide LocalTail, Dense, CopiesAssigned, KnownPut, CopiesPut, KnownCovered, AckedHeld, SealedTailsRead, ReadsFinal;
    var m, n := TwoOf(s.members, Holders(s, position));
    assert PutOk(m, position) in t.puts && PutOk(n, position) in t.puts;
    if s.sequencerKnown <= position + 1 {
      assert Beyond(t, m, position + 1) && Beyond(t, n, position + 1);
    } else {
      var a, b :| a != b && Beyond(s, a, s.sequencerKnown) && Beyond(s, b, s.sequencerKnown);
      assert Beyond(t, a, s.sequencerKnown) && Beyond(t, b, s.sequencerKnown);
    }
  }

  lemma OpenTailKeepsInv(s: Segment, action: Action)
    requires Inv(s) && action.OpenTailAction? && Enabled(s, action)
    ensures Inv(After(s, action)) && Grows(s, After(s, action))
  {
    hide LocalTail, Inv, IsQuorum, TwoReach, DenseUpTo;
    ReachedDense(s, action.tail);
    SequencerFacts(s, After(s, action));
    EstablishKeepsInv(s, After(s, action), Reached(s, action.tail), action.tail);
  }

  lemma ReachedDense(s: Segment, tail: nat)
    requires Inv(s) && IsQuorum(s.members, Reached(s, tail))
    ensures forall n :: n in Reached(s, tail) ==> DenseUpTo(s, n, tail)
    ensures tail <= |s.issued|
  {
    hide LocalTail, KnownPut, CopiesPut, KnownCovered, AckedHeld, SealedTailsRead, SequencerBacked, ReadsFinal;
    forall n | n in Reached(s, tail)
      ensures DenseUpTo(s, n, tail)
    {
      assert DenseUpTo(s, n, LocalTail(s.servers[n]));
    }
    var m, n := TwoOf(s.members, Reached(s, tail));
    TailBounded(s, m);
  }

  lemma SequencerFacts(s: Segment, t: Segment)
    requires Inv(s) && t.puts == s.puts && t.sequencerKnown == s.sequencerKnown
    ensures s.sequencerKnown <= s.known && TwoReach(t, t.sequencerKnown)
  {
    hide LocalTail, Dense, CopiesAssigned, KnownPut, CopiesPut, KnownCovered, AckedHeld, SealedTailsRead, ReadsFinal;
    if 0 < s.sequencerKnown {
      var a, b :| a != b && Beyond(s, a, s.sequencerKnown) && Beyond(s, b, s.sequencerKnown);
      assert Beyond(t, a, s.sequencerKnown) && Beyond(t, b, s.sequencerKnown);
    }
  }

  lemma SealedTailKeepsInv(s: Segment, action: Action)
    requires Inv(s) && action.SealedTailAction? && Enabled(s, action)
    ensures Inv(After(s, action)) && Grows(s, After(s, action))
  {
    hide LocalTail, Inv, IsQuorum, TwoReach, DenseUpTo;
    var t := After(s, action);
    SequencerFacts(s, t);
    ReadBounded(s, action.tail);
    QuorumGrows(s.members, action.responders, SealedBelow(s, action.tail));
    EstablishKeepsInv(s, t, action.responders, action.tail);
  }

  lemma ReadBounded(s: Segment, tail: nat)
    requires Inv(s) && exists r :: r in s.sealedReads && r.tail == tail
    ensures tail <= |s.issued|
  {
  }

  lemma InitInv(s: Segment)
    requires Init(s)
    ensures Inv(s)
  {
    assert forall n :: n in s.servers ==> IsLocalTail(s.servers[n], 0);
  }

  /** Every step keeps the invariant and takes nothing back. */
  lemma NextKeepsInv(s: Segment, t: Segment)
    requires Inv(s) && Next(s, t)
    ensures Inv(t) && Grows(s, t)
  {
    hide Inv, Grows, Enabled, After;
    var action :| Enabled(s, action) && t == After(s, action);
    match action
    case AssignAction(_, _) => AssignKeepsInv(s, action);
    case PutAction(_, _, _) => PutKeepsInv(s, action);
    case ObserveReplyAction(_) => NoteKeepsInv(s, action);
    case CommitAction(_) => CommitKeepsInv(s, action);
    case ShortcutAction(_) => NoteKeepsInv(s, action);
    case RepairAction(_, _, _) => RepairKeepsInv(s, action);
    case SealAction(_, _) => FlagStepKeepsInv(s, action);
    case TrimAction(_, _) => FlagStepKeepsInv(s, action);
    case ObserveAction(_, _) => FlagStepKeepsInv(s, action);
    case SealedReadAction(_) => NoteKeepsInv(s, action);
    case OpenTailAction(_) => OpenTailKeepsInv(s, action);
    case SealedTailAction(_, _) => SealedTailKeepsInv(s, action);
    case RestartAction(_) => FlagStepKeepsInv(s, action);
  }
}
