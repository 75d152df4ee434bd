/** What the chain of segments guarantees over every run, given the Loglet contract. */
module VirtualLogTheorems {
  import opened Wrappers
  import opened LogChains
  import opened Register
  import opened VirtualLogProtocol

  ghost predicate Reachable(s: State) {
    exists run :: Run(run) && run[|run| - 1] == s
  }

  lemma InitInv(s: State)
    requires Init(s)
    ensures Inv(s)
  {
  }

  lemma {:induction false} RunInv(run: seq<State>, i: nat)
    requires Run(run) && i < |run|
    ensures Inv(run[i])
  {
    hide Inv, Next, Init, Grows;
    if i == 0 {
      InitInv(run[0]);
    } else {
      RunInv(run, i - 1);
      NextKeepsInv(run[i - 1], run[i]);
    }
  }

  lemma NextKeepsInv(s: State, t: State)
    requires Inv(s) && Next(s, t)
    ensures Inv(t) && Grows(s, t)
  {
    hide Inv, Grows, Enabled, After;
    var action :| Enabled(s, action) && t == After(s, action);
    StepKeepsInv(s, action);
  }

  lemma {:induction false} RunGrows(run: seq<State>, i: nat, j: nat)
    requires Run(run) && i <= j < |run|
    ensures Grows(run[i], run[j])
    decreases j - i
  {
    hide Inv, Next, Init, Grows;
    if i == j {
      GrowsReflexive(run[i]);
    } else {
      RunInv(run, j - 1);
      NextKeepsInv(run[j - 1], run[j]);
      RunGrows(run, i, j - 1);
      GrowsTransitive(run[i], run[j - 1], run[j]);
    }
  }

  lemma ReachableInv(s: State)
    requires Reachable(s)
    ensures Inv(s)
  {
    hide Inv;
    var run :| Run(run) && run[|run| - 1] == s;
    RunInv(run, |run| - 1);
  }

  // ---- Chains ------------------------------------------------------------------------------------

  lemma {:induction false} StartsAscend(s: State, j: nat, k: nat)
    requires PlacedInOrder(s) && j <= k < |s.placed|
    ensures s.placed[j].start <= s.placed[k].start
    decreases k - j
  {
    if j < k {
      StartsAscend(s, j, k - 1);
      assert EndedSealed(s, k - 1);
    }
  }

  lemma Lists(s: State, v: nat, i: nat)
    requires WindowsFit(s) && v < |s.chains| && i < |s.chains[v].segments|
    ensures v < |s.windows|
    ensures ListsPlaced(s.chains[v].segments[i], s.placed, s.windows[v].high, s.windows[v].low + i)
    ensures |s.chains[v].segments| == s.windows[v].high - s.windows[v].low
  {
    assert IsWindow(s.chains[v], s.placed, s.windows[v]);
  }

  lemma ListsIndex(s: State, v: nat, k: nat)
    requires WindowsFit(s) && v < |s.chains| && s.windows[v].low <= k < s.windows[v].high
    ensures k - s.windows[v].low < |s.chains[v].segments|
    ensures ListsPlaced(s.chains[v].segments[k - s.windows[v].low], s.placed, s.windows[v].high, k)
  {
    assert IsWindow(s.chains[v], s.placed, s.windows[v]);
    var i := k - s.windows[v].low;
    assert ListsPlaced(s.chains[v].segments[i], s.placed, s.windows[v].high, s.windows[v].low + i);
  }

  /** Every chain ever installed passes its validators: contiguous, distinct, and open only at the end. */
  lemma ChainsValid(s: State, v: nat)
    requires Inv(s) && v < |s.chains|
    ensures s.chains[v].Valid()
  {
    hide AcksFit, DroppedTrimmed, HistorySteps, ContractsHold, ListsPlaced;
    var chain, w := s.chains[v], s.windows[v];
    assert IsWindow(chain, s.placed, w);
    forall i | 0 <= i < |chain.segments|
      ensures chain.segments[i].Valid() && chain.segments[i].segmentId == s.placed[w.low + i].segmentId
      ensures chain.segments[i].virtualStart == s.placed[w.low + i].start
      ensures chain.segments[i].virtualStop == StopAt(s.placed, w.high, w.low + i)
    {
      ListedValid(s, v, i);
    }
  }

  lemma ListedValid(s: State, v: nat, i: nat)
    requires WindowsFit(s) && PlacedInOrder(s) && v < |s.chains| && i < |s.chains[v].segments|
    ensures v < |s.windows| && s.windows[v].high <= |s.placed|
    ensures s.windows[v].low + i < s.windows[v].high
    ensures s.chains[v].segments[i].Valid()
    ensures s.chains[v].segments[i].segmentId == s.placed[s.windows[v].low + i].segmentId
    ensures s.chains[v].segments[i].virtualStart == s.placed[s.windows[v].low + i].start
    ensures s.chains[v].segments[i].virtualStop == StopAt(s.placed, s.windows[v].high, s.windows[v].low + i)
  {
    Lists(s, v, i);
    var k := s.windows[v].low + i;
    if k + 1 < s.windows[v].high {
      assert EndedSealed(s, k);
    }
  }

  /** The segment at index `i` of version `v`'s chain is the k-th segment ever placed. */
  function PlaceOf(s: State, v: nat, i: nat): nat
    requires v < |s.windows|
  {
    s.windows[v].low + i
  }

  /** One identifier is one place, in whichever chains it is listed. */
  lemma SamePlace(s: State, u: nat, i: nat, v: nat, j: nat)
    requires WindowsFit(s) && PlacedInOrder(s) && u < |s.chains| && v < |s.chains|
    requires i < |s.chains[u].segments| && j < |s.chains[v].segments|
    requires s.chains[u].segments[i].segmentId == s.chains[v].segments[j].segmentId
    ensures u < |s.windows| && v < |s.windows| && PlaceOf(s, u, i) == PlaceOf(s, v, j)
  {
    Lists(s, u, i);
    Lists(s, v, j);
  }

  /**
   No reconfiguration moves an address: a segment has the same start in every chain that lists it, and
   once one chain gives it a stop, every later chain that lists it gives it that stop.
   */
  lemma BoundariesFixed(s: State, u: nat, i: nat, v: nat, j: nat)
    requires Inv(s) && u <= v < |s.chains|
    requires i < |s.chains[u].segments| && j < |s.chains[v].segments|
    requires s.chains[u].segments[i].segmentId == s.chains[v].segments[j].segmentId
    ensures s.chains[u].segments[i].virtualStart == s.chains[v].segments[j].virtualStart
    ensures s.chains[u].segments[i].virtualStop.Some? ==>
      s.chains[v].segments[j].virtualStop == s.chains[u].segments[i].virtualStop
  {
    hide AcksFit, DroppedTrimmed, HistorySteps, ContractsHold;
    SamePlace(s, u, i, v, j);
    Lists(s, u, i);
    Lists(s, v, j);
    assert s.windows[u].high <= s.windows[v].high;
  }

  ghost predicate ListedIn(chain: LogChain, segmentId: string) {
    exists i :: 0 <= i < |chain.segments| && chain.segments[i].segmentId == segmentId
  }

  /** A segment that a later chain no longer lists had ended by then and was trimmed to its end. */
  lemma DroppedWereTrimmed(s: State, u: nat, i: nat, v: nat)
    requires Inv(s) && u <= v < |s.chains| && i < |s.chains[u].segments|
    requires !ListedIn(s.chains[v], s.chains[u].segments[i].segmentId)
    ensures v < |s.windows| && PlaceOf(s, u, i) < s.windows[v].low < |s.placed|
    ensures s.chains[v].segments != []
    ensures s.chains[v].First().virtualStart == s.placed[s.windows[v].low].start
    ensures var x := s.chains[u].segments[i];
      s.placed[PlaceOf(s, u, i) + 1].start <= x.virtualStart + LogletOf(s, x.segmentId).trimmed
  {
    hide AcksFit, HistorySteps, ContractsHold;
    var k := PlaceOf(s, u, i);
    Lists(s, u, i);
    assert IsWindow(s.chains[v], s.placed, s.windows[v]);
    assert s.windows[u].high <= s.windows[v].high;
    ListsIndex(s, v, s.windows[v].low);
    if s.windows[v].low <= k {
      ListsIndex(s, v, k);
    } else {
      assert s.windows[v].low <= s.windows[|s.windows| - 1].low;
      assert EndTrimmed(s, k);
    }
  }

  /** The state after an extension, whatever identifier it used. */
  function ExtendedState(s: State, next: NewLogletConfiguration, tail: nat): State
    requires s.chains != [] && s.windows != [] && Current(s).segments != []
  {
    var chain := Extended(Current(s), next, tail);
    var window := s.windows[|s.windows| - 1];
    var placed := s.placed + [Placed(next.segmentId, chain.Active().virtualStart)];
    Install(s, chain, placed, window.(high := window.high + 1))
  }

  /**
   An extension is sound exactly when its identifier was never used: one that an earlier, even a dropped,
   segment had makes two stretches of the address space share a Loglet.
   */
  lemma ExtendSafeExactly(s: State, next: NewLogletConfiguration, tail: nat)
    requires Inv(s) && s.chains != [] && next.segmentId != ""
    ensures s.windows != [] && Current(s).segments != []
    ensures tail in LogletOf(s, Current(s).Active().segmentId).sealedTails ==>
      (Inv(ExtendedState(s, next, tail)) <==> Unused(s, next.segmentId))
  {
    hide Inv;
    ActiveFacts(s, |s.chains|);
    if tail in LogletOf(s, Current(s).Active().segmentId).sealedTails {
      if Unused(s, next.segmentId) {
        StepKeepsInv(s, ExtendAction(next, tail));
      } else {
        ReuseBreaks(s, next, tail);
      }
    }
  }

  lemma ReuseBreaks(s: State, next: NewLogletConfiguration, tail: nat)
    requires s.chains != [] && s.windows != [] && Current(s).segments != [] && !Unused(s, next.segmentId)
    ensures !Inv(ExtendedState(s, next, tail))
  {
    hide ContractsHold, AcksFit, DroppedTrimmed, HistorySteps, WindowsFit, EndedSealed;
    var t := ExtendedState(s, next, tail);
    var k :| 0 <= k < |s.placed| && s.placed[k].segmentId == next.segmentId;
    assert t.placed[k].segmentId == t.placed[|s.placed|].segmentId;
  }

  /**
   What a reused identifier does to its users: everything acknowledged in the old segment stands at a
   second virtual position, where the new segment's Loglet places it, may answer a read with it, and may
   acknowledge it again.
   */
  lemma ReuseAcknowledgesTwice(s: State, next: NewLogletConfiguration, tail: nat, a: Ack)
    requires Inv(s) && s.chains != [] && a in s.acks && a.segmentId == next.segmentId
    requires s.windows != [] && Current(s).segments != []
    requires tail in LogletOf(s, Current(s).Active().segmentId).sealedTails
    ensures var t := ExtendedState(s, next, tail);
      var again := AcknowledgeAction(|t.chains|, a.local);
      && Enabled(t, again)
      && AckOf(t, |t.chains|, a.local).command == a.command && AckOf(t, |t.chains|, a.local).local == a.local
      && a.position < AckOf(t, |t.chains|, a.local).position
      && t.chains[|t.chains| - 1].Active().Contains(AckOf(t, |t.chains|, a.local).position)
  {
    hide Inv;
    AckFacts(s, a);
    ActiveFacts(s, |s.chains|);
    var k := PlaceOfAck(s, a);
    LastWindow(s);
    if k + 1 < |s.placed| {
      AckBefore(s, a, |s.placed| - 1);
    } else {
      ContractOf(s, a.segmentId);
    }
  }

  lemma LastWindow(s: State)
    requires Inv(s) && s.windows != []
    ensures s.windows[|s.windows| - 1].high == |s.placed|
  {
    hide AcksFit, DroppedTrimmed, HistorySteps, PlacedInOrder, ContractsHold, IsWindow;
  }

  // ---- Addresses ---------------------------------------------------------------------------------

  /** The place of the segment an append went to. */
  function PlaceOfAck(s: State, a: Ack): int
    requires 0 < a.version <= |s.windows|
  {
    s.windows[a.version - 1].high - 1
  }

  lemma AckFacts(s: State, a: Ack)
    requires Inv(s) && a in s.acks
    ensures 0 < a.version <= |s.windows| == |s.chains| && PlacedAs(s, PlaceOfAck(s, a), a)
    ensures a.local in LogletOf(s, a.segmentId).acked
    ensures a.local in LogletOf(s, a.segmentId).issued && LogletOf(s, a.segmentId).issued[a.local] == a.command
    ensures Contract(LogletOf(s, a.segmentId))
  {
    hide DroppedTrimmed, HistorySteps, PlacedInOrder, IsWindow;
    assert AckFits(s, a);
  }

  /** An acknowledged append lies before every later segment. */
  lemma AckBefore(s: State, a: Ack, k: nat)
    requires Inv(s) && a in s.acks && k < |s.placed|
    requires 0 < a.version <= |s.windows| ==> PlaceOfAck(s, a) < k
    ensures a.position < s.placed[k].start
  {
    hide AcksFit, DroppedTrimmed, HistorySteps, WindowsFit, ContractsHold;
    AckFacts(s, a);
    var j := PlaceOfAck(s, a);
    assert EndedSealed(s, j);
    StartsAscend(s, j + 1, k);
  }

  /** Two acknowledged appends with one virtual position are one command in one place. */
  lemma AddressSafety(s: State, a: Ack, b: Ack)
    requires Inv(s) && a in s.acks && b in s.acks && a.position == b.position
    ensures a.segmentId == b.segmentId && a.local == b.local && a.command == b.command
  {
    hide Inv;
    AckFacts(s, a);
    AckFacts(s, b);
    var j, k := PlaceOfAck(s, a), PlaceOfAck(s, b);
    if j < k {
      AckBefore(s, a, k);
    } else if k < j {
      AckBefore(s, b, j);
    }
  }

  /** The same over a whole run: appends acknowledged at any two moments never collide. */
  lemma NoTwoCommandsShareAPosition(run: seq<State>, i: nat, j: nat, a: Ack, b: Ack)
    requires Run(run) && i < |run| && j < |run| && a in run[i].acks && b in run[j].acks
    ensures a.position == b.position ==> a.command == b.command && a.segmentId == b.segmentId && a.local == b.local
  {
    hide Inv, Run;
    var k := if i < j then j else i;
    RunInv(run, k);
    RunGrows(run, i, k);
    RunGrows(run, j, k);
    if a.position == b.position {
      AddressSafety(run[k], a, b);
    }
  }

  /**
   Through every chain installed from the appender's own version on, an acknowledged position leads to
   the segment and local position that hold it, unless that chain starts above it, and then it was trimmed.
   */
  lemma RoutedForever(s: State, a: Ack, v: nat)
    requires Inv(s) && a in s.acks && a.version <= v <= |s.chains|
    ensures s.chains[v - 1].segments != []
    ensures
      || (a.position < s.chains[v - 1].First().virtualStart && a.local < LogletOf(s, a.segmentId).trimmed)
      || (exists x :: s.chains[v - 1].SegmentAt(a.position) == Some(x)
            && x.segmentId == a.segmentId && a.position == x.virtualStart + a.local)
  {
    hide Inv, PlacedInOrder, DroppedTrimmed, IsWindow;
    AckFacts(s, a);
    var chain, k := s.chains[v - 1], PlaceOfAck(s, a);
    ChainsValid(s, v - 1);
    var w := WindowFacts(s, a.version - 1, v - 1);
    if w.low <= k {
      Index(s, v - 1, k);
      var x := chain.segments[k - w.low];
      if k + 1 < w.high {
        AckBefore(s, a, k + 1);
      }
      chain.RoutesUniquely(a.position, k - w.low);
    } else {
      Index(s, v - 1, w.low);
      AckBefore(s, a, w.low);
      AckBefore(s, a, k + 1);
      EndOf(s, v - 1, k);
    }
  }

  lemma WindowFacts(s: State, u: nat, v: nat) returns (w: Window)
    requires Inv(s) && u <= v < |s.chains|
    ensures |s.windows| == |s.chains| && w == s.windows[v] && w.low < w.high <= |s.placed|
    ensures s.windows[u].low <= w.low && s.windows[u].high <= w.high
    ensures |s.chains[v].segments| == w.high - w.low
  {
    hide AcksFit, HistorySteps, ContractsHold, PlacedInOrder;
    w := s.windows[v];
    WindowSize(s.chains[v], s.placed, w);
  }

  lemma Index(s: State, v: nat, k: nat)
    requires Inv(s) && v < |s.chains| && v < |s.windows| && s.windows[v].low <= k < s.windows[v].high
    ensures k - s.windows[v].low < |s.chains[v].segments|
    ensures ListsPlaced(s.chains[v].segments[k - s.windows[v].low], s.placed, s.windows[v].high, k)
  {
    hide AcksFit, HistorySteps, ContractsHold, PlacedInOrder, DroppedTrimmed;
    ListsIndex(s, v, k);
  }

  lemma EndOf(s: State, v: nat, k: nat)
    requires Inv(s) && v < |s.windows| && k < s.windows[v].low && k + 1 < |s.placed|
    ensures EndTrimmed(s, k)
  {
    hide AcksFit, HistorySteps, ContractsHold, PlacedInOrder, IsWindow;
    assert s.windows[v].low <= s.windows[|s.windows| - 1].low;
  }

  // ---- Reading through an old chain ---------------------------------------------------------------

  /** No segment after the first `high`, up to the first `later`, starts at or below `position`. */
  ghost predicate NoneLaterBelow(s: State, high: nat, later: nat, position: int) {
    high == later || (high < |s.placed| && position < s.placed[high].start)
  }

  /**
   An old chain and a newer one lead a position to the same segment exactly when the newer one has no
   later segment, or the position lies below the start of the first later segment.
   */
  lemma RoutesAgree(s: State, u: nat, v: nat, position: nat)
    requires Inv(s) && u <= v < |s.chains|
    requires s.chains[v].segments != [] && s.chains[v].First().virtualStart <= position
    ensures s.chains[u].segments != [] && |s.windows| == |s.chains|
    ensures
      var x, y := s.chains[u].SegmentAt(position), s.chains[v].SegmentAt(position);
      && x.Some? && y.Some?
      && (x.value.segmentId == y.value.segmentId <==>
            NoneLaterBelow(s, s.windows[u].high, s.windows[v].high, position))
  {
    hide Inv, PlacedInOrder, DroppedTrimmed, IsWindow;
    var c, d := s.chains[u], s.chains[v];
    ChainsValid(s, u);
    ChainsValid(s, v);
    var wu := WindowFacts(s, u, u);
    var wv := WindowFacts(s, u, v);
    Index(s, u, wu.low);
    Index(s, v, wv.low);
    Ascend(s, wu.low, wv.low);
    c.RoutesEverything(position);
    d.RoutesEverything(position);
    var x, y := c.SegmentAt(position).value, d.SegmentAt(position).value;
    var i :| 0 <= i < |c.segments| && c.segments[i] == x;
    var j :| 0 <= j < |d.segments| && d.segments[j] == y;
    Index(s, u, wu.low + i);
    Index(s, v, wv.low + j);
    Index(s, u, wu.high - 1);
    if position < c.Active().virtualStart {
      SameBelow(s, u, i, v, j, position);
      if wu.high < wv.high {
        Ascend(s, wu.high - 1, wu.high);
      }
    } else {
      c.RoutesUniquely(position, |c.segments| - 1);
      ActiveRoute(s, u, v, j, position);
    }
  }

  /** The newer chain leads there to the old chain's active segment unless a later one starts below. */
  lemma ActiveRoute(s: State, u: nat, v: nat, j: nat, position: nat)
    requires Inv(s) && u <= v < |s.chains| == |s.windows| && j < |s.chains[v].segments|
    requires s.chains[v].segments[j].Contains(position)
    requires s.chains[u].segments != [] && s.chains[u].Active().virtualStart <= position
    ensures s.chains[u].Active().segmentId == s.chains[v].segments[j].segmentId <==>
      NoneLaterBelow(s, s.windows[u].high, s.windows[v].high, position)
  {
    hide Inv, DroppedTrimmed, IsWindow;
    var wu := WindowFacts(s, u, u);
    var wv := WindowFacts(s, u, v);
    Index(s, u, wu.high - 1);
    Index(s, v, wv.low + j);
    var h, k := wu.high - 1, wv.low + j;
    if h < k {
      Ascend(s, h + 1, k);
      DistinctIds(s, h, k);
    } else if k < h {
      Ascend(s, k + 1, h);
    }
  }

  lemma DistinctIds(s: State, j: nat, k: nat)
    requires Inv(s) && j < k < |s.placed|
    ensures s.placed[j].segmentId != s.placed[k].segmentId
  {
    hide AcksFit, DroppedTrimmed, HistorySteps, ContractsHold, WindowsFit;
  }

  lemma Ascend(s: State, j: nat, k: nat)
    requires Inv(s) && j <= k < |s.placed|
    ensures s.placed[j].start <= s.placed[k].start
  {
    StartsAscend(s, j, k);
  }

  /** Below the old chain's active segment both chains list the same closed segments. */
  lemma SameBelow(s: State, u: nat, i: nat, v: nat, j: nat, position: nat)
    requires Inv(s) && u <= v < |s.chains| == |s.windows|
    requires i < |s.chains[u].segments| && j < |s.chains[v].segments|
    requires s.chains[u].segments[i].Contains(position) && s.chains[v].segments[j].Contains(position)
    requires position < s.chains[u].Active().virtualStart
    ensures s.chains[u].segments[i].segmentId == s.chains[v].segments[j].segmentId
  {
    hide Inv, PlacedInOrder, DroppedTrimmed, IsWindow;
    var wu := WindowFacts(s, u, u);
    var wv := WindowFacts(s, u, v);
    Index(s, u, wu.low + i);
    Index(s, v, wv.low + j);
    Index(s, u, wu.high - 1);
    var h, k := wu.low + i, wv.low + j;
    if h < k {
      Ascend(s, h + 1, k);
    } else if k < h {
      Ascend(s, k + 1, h);
    }
  }

  // ---- Tails --------------------------------------------------------------------------------------

  /** The append went to a segment that version `v` lists or has dropped. */
  ghost predicate KnownTo(s: State, v: nat, a: Ack)
    requires 0 < v <= |s.windows| && 0 < a.version <= |s.windows|
  {
    s.windows[a.version - 1].high <= s.windows[v - 1].high
  }

  lemma ActiveFacts(s: State, v: nat)
    requires Inv(s) && 0 < v <= |s.chains|
    ensures |s.windows| == |s.chains| && s.chains[v - 1].segments != []
    ensures 0 < s.windows[v - 1].high <= |s.placed|
    ensures s.chains[v - 1].Active().virtualStart == s.placed[s.windows[v - 1].high - 1].start
    ensures s.chains[v - 1].Active().segmentId == s.placed[s.windows[v - 1].high - 1].segmentId
  {
    hide Inv;
    var w := WindowFacts(s, v - 1, v - 1);
    Index(s, v - 1, w.high - 1);
  }

  /** A tail above what the active segment acknowledged is above everything acknowledged up to it. */
  lemma TailCoversKnownTo(s: State, v: nat, tail: nat, a: Ack)
    requires Inv(s) && 0 < v <= |s.chains| && a in s.acks
    requires s.chains[v - 1].segments != []
    requires AckedBelow(LogletOf(s, s.chains[v - 1].Active().segmentId), tail)
    ensures |s.windows| == |s.chains| && 0 < a.version <= |s.windows|
    ensures KnownTo(s, v, a) ==> a.position < s.chains[v - 1].Active().virtualStart + tail
  {
    hide Inv;
    ActiveFacts(s, v);
    AckFacts(s, a);
    if s.windows[a.version - 1].high < s.windows[v - 1].high {
      AckBefore(s, a, s.windows[v - 1].high - 1);
    }
  }

  /** While no sealed check_tail has finished on a version's active segment, no later segment exists. */
  lemma UnsealedIsLast(s: State, v: nat)
    requires Inv(s) && 0 < v <= |s.chains| && s.chains[v - 1].segments != []
    requires LogletOf(s, s.chains[v - 1].Active().segmentId).sealedTails == {}
    ensures |s.windows| == |s.chains| && s.windows[v - 1].high == |s.placed|
    ensures forall a :: a in s.acks ==> 0 < a.version <= |s.windows| && KnownTo(s, v, a)
  {
    hide DroppedTrimmed, HistorySteps, ContractsHold;
    ActiveFacts(s, v);
    var k := s.windows[v - 1].high - 1;
    assert k + 1 < |s.placed| ==> EndedSealed(s, k);
    forall a | a in s.acks
      ensures 0 < a.version <= |s.windows| && KnownTo(s, v, a)
    {
      assert AckFits(s, a);
      WindowSize(s.chains[a.version - 1], s.placed, s.windows[a.version - 1]);
    }
  }

  /** An open tail, through however old a chain, is above everything acknowledged before the check began. */
  lemma OpenTailCoversAll(s: State, v: nat, tail: nat)
    requires Inv(s) && 0 < v <= |s.chains| && s.chains[v - 1].segments != []
    requires LogletOf(s, s.chains[v - 1].Active().segmentId).sealedTails == {}
    requires AckedBelow(LogletOf(s, s.chains[v - 1].Active().segmentId), tail)
    ensures forall a :: a in s.acks ==> a.position < s.chains[v - 1].Active().virtualStart + tail
  {
    hide Inv;
    UnsealedIsLast(s, v);
    forall a | a in s.acks
      ensures a.position < s.chains[v - 1].Active().virtualStart + tail
    {
      TailCoversKnownTo(s, v, tail, a);
    }
  }

  ghost predicate AllAcksBelow(acks: set<Ack>, tail: nat) {
    forall a :: a in acks ==> a.position < tail
  }

  /** Nothing was acknowledged in a segment later than those version `v` knows. */
  ghost predicate NothingLater(s: State, v: nat) {
    0 < v <= |s.windows| && forall a :: a in s.acks ==> 0 < a.version <= |s.windows| && KnownTo(s, v, a)
  }

  /**
   The sealed tails of a version's active segment cover everything acknowledged exactly when nothing was
   acknowledged in a later segment.
   */
  lemma SealedTailsCoverExactly(s: State, v: nat)
    requires Inv(s) && 0 < v <= |s.chains| && s.chains[v - 1].segments != []
    requires LogletOf(s, s.chains[v - 1].Active().segmentId).sealedTails != {}
    ensures var active := s.chains[v - 1].Active();
      (forall tail :: tail in LogletOf(s, active.segmentId).sealedTails ==>
         AllAcksBelow(s.acks, active.virtualStart + tail)) <==> NothingLater(s, v)
  {
    hide Inv;
    var active := s.chains[v - 1].Active();
    var tails := LogletOf(s, active.segmentId).sealedTails;
    ActiveFacts(s, v);
    if NothingLater(s, v) {
      forall tail, a | tail in tails && a in s.acks
        ensures a.position < active.virtualStart + tail
      {
        ContractOf(s, active.segmentId);
        TailCoversKnownTo(s, v, tail, a);
      }
    }
    if forall tail :: tail in tails ==> AllAcksBelow(s.acks, active.virtualStart + tail) {
      forall a | a in s.acks
        ensures 0 < a.version <= |s.windows| && KnownTo(s, v, a)
      {
        AckFacts(s, a);
        if s.windows[v - 1].high < s.windows[a.version - 1].high {
          var tail := LaterAckAbove(s, v, a);
        }
      }
    }
  }

  /** An append to a later segment lies at or above one of the sealed tails. */
  lemma LaterAckAbove(s: State, v: nat, a: Ack) returns (tail: nat)
    requires Inv(s) && 0 < v <= |s.chains| == |s.windows| && s.chains[v - 1].segments != [] && a in s.acks
    requires 0 < a.version <= |s.windows| && !KnownTo(s, v, a)
    ensures tail in LogletOf(s, s.chains[v - 1].Active().segmentId).sealedTails
    ensures s.chains[v - 1].Active().virtualStart + tail <= a.position
  {
    hide AcksFit, DroppedTrimmed, HistorySteps, ContractsHold, WindowsFit;
    ActiveFacts(s, v);
    AckFacts(s, a);
    var k := s.windows[v - 1].high - 1;
    assert EndedSealed(s, k);
    Ascend(s, k + 1, PlaceOfAck(s, a));
    tail := s.placed[k + 1].start - s.placed[k].start;
  }

  lemma ContractOf(s: State, segmentId: string)
    requires Inv(s)
    ensures Contract(LogletOf(s, segmentId))
  {
    hide AcksFit, DroppedTrimmed, HistorySteps, PlacedInOrder, WindowsFit;
  }
}
