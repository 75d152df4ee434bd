/**
 The VirtualLog as the one flat log that replicas materialize (virtual_log/core.py, kv/materializer.py):
 below its settled boundary every position is final, and reads meet what the materializer relies on.
 */
module VirtualLogFlat {
  import opened Wrappers
  import opened LogChains
  import opened Register
  import opened KvMachine
  import opened VirtualLogProtocol
  import opened VirtualLogTheorems
  import opened VirtualLogNetwork
  import opened VirtualLogClient
  import KvReplay
  import KvLog

  /** Which payloads are commands of the key-value store. */
  type Decoder = map<seq<int>, Envelope>

  function Decode(decoder: Decoder, command: LogCommand): Option<Envelope> {
    if command.payload in decoder then Some(decoder[command.payload]) else None
  }

  /** The k-th segment ever placed gives the virtual position `p` to its entry at local `q`. */
  ghost predicate Gives(s: State, k: nat, q: nat, p: nat) {
    && k < |s.placed| && p == s.placed[k].start + q
    && (k + 1 < |s.placed| ==> p < s.placed[k + 1].start)
    && q in LogletOf(s, s.placed[k].segmentId).issued
  }

  ghost predicate FlatAt(s: State, p: nat, command: LogCommand) {
    exists k: nat, q: nat :: Gives(s, k, q, p) && LogletOf(s, s.placed[k].segmentId).issued[q] == command
  }

  /** A boundary below the last segment's start, or no further than one past an acknowledged position. */
  ghost predicate SettledTo(s: State, boundary: nat) {
    || boundary == 0
    || (s.placed != [] && boundary <= s.placed[|s.placed| - 1].start)
    || (exists a :: a in s.acks && boundary <= a.position + 1)
  }

  /** A given position below the boundary is an established one of its Loglet. */
  lemma SettledEstablished(s: State, boundary: nat, k: nat, q: nat, p: nat)
    requires Inv(s) && SettledTo(s, boundary) && p < boundary
    requires k < |s.placed| && p == s.placed[k].start + q && (k + 1 < |s.placed| ==> p < s.placed[k + 1].start)
    ensures q < LogletOf(s, s.placed[k].segmentId).established
  {
    hide Inv;
    var id := s.placed[k].segmentId;
    LogletContract(s, id);
    if k + 1 < |s.placed| {
      EndedAt(s, k);
    } else {
      var a :| a in s.acks && boundary <= a.position + 1;
      AckFacts(s, a);
      if PlaceOfAck(s, a) < k {
        AckBefore(s, a, k);
      }
    }
  }

  lemma EndedAt(s: State, k: nat)
    requires Inv(s) && k + 1 < |s.placed|
    ensures EndedSealed(s, k)
  {
    hide AcksFit, DroppedTrimmed, HistorySteps, ContractsHold, WindowsFit;
  }

  /** One place gives a position. */
  lemma GivenOnce(s: State, j: nat, k: nat, p: nat)
    requires Inv(s) && j < |s.placed| && k < |s.placed| && s.placed[j].start <= p && s.placed[k].start <= p
    requires j + 1 < |s.placed| ==> p < s.placed[j + 1].start
    requires k + 1 < |s.placed| ==> p < s.placed[k + 1].start
    ensures j == k
  {
    if j < k {
      Ascend(s, j + 1, k);
    } else if k < j {
      Ascend(s, k + 1, j);
    }
  }

  /** Below the boundary the flat log is final: nothing there changes, disappears or appears. */
  lemma SettledFinal(s: State, t: State, boundary: nat, p: nat, command: LogCommand)
    requires Inv(s) && Inv(t) && Grows(s, t) && SettledTo(s, boundary) && p < boundary
    ensures FlatAt(s, p, command) <==> FlatAt(t, p, command)
    ensures SettledTo(t, boundary)
  {
    hide Inv, Grows;
    Kept(s, t);
    StaysSettled(s, t, boundary);
    if k: nat, q: nat :| Gives(s, k, q, p) && LogletOf(s, s.placed[k].segmentId).issued[q] == command {
      GivenLater(s, t, boundary, k, q, p);
      GrowsGives(s, t, s.placed[k].segmentId);
      assert Gives(t, k, q, p);
    }
    if k: nat, q: nat :| Gives(t, k, q, p) && LogletOf(t, t.placed[k].segmentId).issued[q] == command {
      GivenBefore(s, t, boundary, k, q, p);
      assert Gives(s, k, q, p);
    }
  }

  lemma Kept(s: State, t: State)
    requires Grows(s, t)
    ensures s.placed <= t.placed && s.acks <= t.acks && s.chains <= t.chains && s.windows <= t.windows
  {
  }

  lemma StaysSettled(s: State, t: State, boundary: nat)
    requires Inv(t) && Grows(s, t) && SettledTo(s, boundary)
    ensures SettledTo(t, boundary)
  {
    hide Inv;
    if s.placed != [] && boundary <= s.placed[|s.placed| - 1].start {
      Ascend(t, |s.placed| - 1, |t.placed| - 1);
    }
  }

  /** What a place gave below the boundary it still gives when later segments have come. */
  lemma GivenLater(s: State, t: State, boundary: nat, k: nat, q: nat, p: nat)
    requires Inv(s) && Inv(t) && Grows(s, t) && SettledTo(s, boundary) && p < boundary && Gives(s, k, q, p)
    ensures k < |t.placed| && t.placed[k] == s.placed[k]
    ensures k + 1 < |t.placed| ==> p < t.placed[k + 1].start
  {
    hide Inv;
    if k + 1 == |s.placed| && k + 1 < |t.placed| {
      var a :| a in s.acks && boundary <= a.position + 1;
      AckFacts(s, a);
      AckFacts(t, a);
      if PlaceOfAck(s, a) < k {
        AckBefore(s, a, k);
      }
      AckBefore(t, a, k + 1);
    }
  }

  lemma GivenBefore(s: State, t: State, boundary: nat, k: nat, q: nat, p: nat)
    requires Inv(s) && Inv(t) && Grows(s, t) && SettledTo(s, boundary) && p < boundary && Gives(t, k, q, p)
    ensures k < |s.placed| && s.placed[k] == t.placed[k] && Gives(s, k, q, p)
    ensures LogletOf(s, s.placed[k].segmentId).issued[q] == LogletOf(t, t.placed[k].segmentId).issued[q]
  {
    hide Inv;
    if |s.placed| <= k {
      BoundaryBelow(s, t, boundary, k);
    }
    assert s.placed[k] == t.placed[k];
    assert k + 1 < |s.placed| ==> s.placed[k + 1] == t.placed[k + 1];
    GrowsGives(s, t, s.placed[k].segmentId);
    SettledEstablished(s, boundary, k, q, p);
  }

  /** Segments placed later start at or above the boundary. */
  lemma BoundaryBelow(s: State, t: State, boundary: nat, k: nat)
    requires Inv(s) && Inv(t) && Grows(s, t) && SettledTo(s, boundary) && |s.placed| <= k < |t.placed|
    ensures boundary <= t.placed[k].start
  {
    hide Inv;
    if s.placed != [] && boundary <= s.placed[|s.placed| - 1].start {
      Ascend(t, |s.placed| - 1, k);
    } else if boundary != 0 {
      var a :| a in s.acks && boundary <= a.position + 1;
      AckFacts(s, a);
      AckFacts(t, a);
      AckBefore(t, a, k);
    }
  }

  // ---- The materializer's view -------------------------------------------------------------------

  /** The entry at `p` lies below its Loglet's discard mark. */
  ghost predicate DiscardedAt(s: State, p: nat) {
    exists k: nat, q: nat :: Gives(s, k, q, p) && q < LogletOf(s, s.placed[k].segmentId).discarded
  }

  /** `f` is what the state's settled positions hold, decoded, and which of them may have been discarded. */
  ghost predicate Represents(s: State, decoder: Decoder, f: KvLog.Flat) {
    && f.Valid() && SettledTo(s, f.settled)
    && (forall p: nat :: p in f.discarded <==> p < f.settled && DiscardedAt(s, p))
    && (forall p :: p in f.entries ==> exists c :: FlatAt(s, p, c))
    && (forall p: nat, c :: p < f.settled && FlatAt(s, p, c) ==> p in f.entries && f.entries[p] == Decode(decoder, c))
  }

  lemma FlatOnce(s: State, p: nat, c: LogCommand, d: LogCommand)
    requires Inv(s) && FlatAt(s, p, c) && FlatAt(s, p, d)
    ensures c == d
  {
    hide Inv;
    var j: nat, i: nat :| Gives(s, j, i, p) && LogletOf(s, s.placed[j].segmentId).issued[i] == c;
    var k: nat, q: nat :| Gives(s, k, q, p) && LogletOf(s, s.placed[k].segmentId).issued[q] == d;
    GivenOnce(s, j, k, p);
  }

  ghost function CommandAt(s: State, p: nat): (c: LogCommand)
    requires exists c :: FlatAt(s, p, c)
    ensures FlatAt(s, p, c)
  {
    var c :| FlatAt(s, p, c);
    c
  }

  /** Every state has such a view, up to any settled boundary. */
  lemma ViewExists(s: State, decoder: Decoder, boundary: nat) returns (f: KvLog.Flat)
    requires Inv(s) && SettledTo(s, boundary)
    ensures Represents(s, decoder, f) && f.settled == boundary
  {
    hide Inv, FlatAt, SettledTo, DiscardedAt;
    var entries := map p: nat | p < boundary && (exists c :: FlatAt(s, p, c)) :: Decode(decoder, CommandAt(s, p));
    f := KvLog.Flat(entries, boundary, set p: nat | p < boundary && DiscardedAt(s, p));
    forall p: nat, c | p < boundary && FlatAt(s, p, c)
      ensures p in f.entries && f.entries[p] == Decode(decoder, c)
    {
      FlatOnce(s, p, c, CommandAt(s, p));
    }
  }

  /** What is discarded below the boundary stays discarded. */
  lemma DiscardsStay(s: State, t: State, boundary: nat, p: nat)
    requires Inv(s) && Inv(t) && Grows(s, t) && SettledTo(s, boundary) && p < boundary && DiscardedAt(s, p)
    ensures DiscardedAt(t, p)
  {
    hide Inv, Grows;
    var k: nat, q: nat :| Gives(s, k, q, p) && q < LogletOf(s, s.placed[k].segmentId).discarded;
    Kept(s, t);
    SettledEstablished(s, boundary, k, q, p);
    GivenLater(s, t, boundary, k, q, p);
    GrowsGives(s, t, s.placed[k].segmentId);
    assert Gives(t, k, q, p);
  }

  /** As the VirtualLog moves on, the view grows as the materializer expects of its log. */
  lemma ViewGrows(s: State, t: State, decoder: Decoder, f: KvLog.Flat, g: KvLog.Flat)
    requires Inv(s) && Inv(t) && Grows(s, t) && Represents(s, decoder, f) && Represents(t, decoder, g)
    requires f.settled <= g.settled
    ensures KvLog.FlatGrows(f, g)
  {
    hide Inv, Grows, FlatAt, SettledTo, DiscardedAt;
    forall p | p in f.entries
      ensures p in g.entries && g.entries[p] == f.entries[p]
    {
      var c :| FlatAt(s, p, c);
      SettledFinal(s, t, f.settled, p, c);
    }
    forall p | p in g.entries && p < f.settled
      ensures p in f.entries
    {
      var c :| FlatAt(t, p, c);
      SettledFinal(s, t, f.settled, p, c);
    }
    forall p | p in f.discarded
      ensures p in g.discarded
    {
      DiscardsStay(s, t, f.settled, p);
    }
  }

  /** Version `v` knows every segment that starts below the settled boundary and below `end`. */
  ghost predicate SeesSettled(s: State, v: nat, f: KvLog.Flat, end: int) {
    SeesAll(s, v, if end < f.settled then end - 1 else f.settled - 1)
  }

  /**
   What a VirtualLog read from `s` to `t` through version `v` returns is what the materializer expects of
   its log, if that version knows every segment of the settled part of the range.
   */
  lemma ReadMeetsLog(s: State, t: State, decoder: Decoder, f: KvLog.Flat, g: KvLog.Flat, v: nat,
      from: nat, end: nat, found: Option<VirtualLogEntry>)
    requires Inv(s) && Inv(t) && Grows(s, t) && Represents(s, decoder, f) && Represents(t, decoder, g)
    requires f.settled == g.settled
    requires from < end && 0 < v <= |s.chains| && SeesSettled(t, v, f, end)
    requires found.Some? ==> from <= found.value.position < end && EntryFits(t, s.chains[v - 1], found.value)
    requires NothingPassed(s, t, v, from, if found.Some? then found.value.position else end)
    ensures found.Some? && found.value.position < f.settled ==>
      found.value.position in g.entries && g.entries[found.value.position] == Decode(decoder, found.value.command)
    ensures found.Some? ==> KvLog.Passed(f, g, from, found.value.position)
    ensures found.None? ==> KvLog.Passed(f, g, from, end)
  {
    hide Inv, Grows, FlatAt, SettledTo, DiscardedAt, EntryFits, NothingPassed, SeesAll;
    var stop := if found.Some? then found.value.position else end;
    var bound := if end < f.settled then end else f.settled;
    Kept(s, t);
    if found.Some? && found.value.position < f.settled {
      EntryIsFlat(s, t, v, bound, found.value);
    }
    forall p | p in f.entries && from <= p < stop
      ensures p in g.discarded
    {
      var c :| FlatAt(s, p, c);
      PassedIsDiscarded(s, t, v, f.settled, from, stop, bound, p, c);
    }
  }

  lemma EntryIsFlat(s: State, t: State, v: nat, end: nat, e: VirtualLogEntry)
    requires Inv(s) && Inv(t) && Grows(s, t) && 0 < v <= |s.chains| && s.chains <= t.chains
    requires e.position < end && SeesAll(t, v, end - 1) && EntryFits(t, s.chains[v - 1], e)
    ensures FlatAt(t, e.position, e.command)
  {
    hide Inv, Grows;
    var i :| 0 <= i < |s.chains[v - 1].segments| && EntryIn(s.chains[v - 1].segments[i], e);
    var snapshot := VersionedLogChain(v, Some(t.chains[v - 1]));
    assert Installed(t, snapshot);
    var k := SegmentFacts(t, snapshot, i);
    assert Gives(t, k, e.localPosition, e.position);
  }

  lemma PassedIsDiscarded(s: State, t: State, v: nat, boundary: nat, from: int, stop: int, end: nat, p: nat,
      c: LogCommand)
    requires Inv(s) && Inv(t) && Grows(s, t) && 0 < v <= |s.chains| && SettledTo(s, boundary) && end <= boundary
    requires SeesAll(t, v, end - 1) && NothingPassed(s, t, v, from, stop)
    requires from <= p < stop && p < end && FlatAt(s, p, c)
    ensures DiscardedAt(t, p)
  {
    hide Inv;
    Kept(s, t);
    SameLengths(s);
    var w := WindowFacts(s, v - 1, v - 1);
    var k: nat, q: nat :| Gives(s, k, q, p) && LogletOf(s, s.placed[k].segmentId).issued[q] == c;
    SettledEstablished(s, boundary, k, q, p);
    GivenLater(s, t, boundary, k, q, p);
    GrowsGives(s, t, s.placed[k].segmentId);
    if w.high <= k {
      Ascend(t, w.high, k);
    }
    assert EntryAtPlace(s, w.high, k, q);
    assert Gives(t, k, q, p);
  }

  /**
   Replicas that materialize through one VirtualLog agree: whenever each of two stores holds the fold of
   the flat log up to one settled position, as the log stood at its own moment, their tables are equal.
   */
  lemma ReplicasThroughVirtualLogAgree(run: seq<State>, i: nat, j: nat, decoder: Decoder, f: KvLog.Flat,
      g: KvLog.Flat, t: KvReplay.Tables, u: KvReplay.Tables, position: nat)
    requires Run(run) && i <= j < |run| && Represents(run[i], decoder, f) && Represents(run[j], decoder, g)
    requires position < f.settled && position < g.settled
    requires KvReplay.Materialized(t, KvLog.Between(f.entries, -1, position))
    requires KvReplay.Materialized(u, KvLog.Between(g.entries, -1, position))
    ensures t == u
  {
    hide Run, Inv, Grows, KvReplay.Materialized;
    RunInv(run, i);
    RunInv(run, j);
    RunGrows(run, i, j);
    var a := Cut(run[i], decoder, f, position);
    var b := Cut(run[j], decoder, g, position);
    ViewGrows(run[i], run[j], decoder, a, b);
    KvLog.ReplicasAgree(a, b, t, u, position);
  }

  /** The view up to and including one position lists the same commands there. */
  lemma Cut(s: State, decoder: Decoder, f: KvLog.Flat, position: nat) returns (g: KvLog.Flat)
    requires Inv(s) && Represents(s, decoder, f) && position < f.settled
    ensures Represents(s, decoder, g) && g.settled == position + 1
    ensures KvLog.Between(g.entries, -1, position) == KvLog.Between(f.entries, -1, position)
  {
    hide Inv, Grows, FlatAt, DiscardedAt;
    GrowsReflexive(s);
    g := ViewExists(s, decoder, position + 1);
    ViewGrows(s, s, decoder, g, f);
    KvLog.BetweenSettled(g, f, -1, position);
  }
}
